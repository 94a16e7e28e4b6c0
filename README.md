# moji core in Dafny

This project models the logic of the moji kaomoji tools:

- **Generator** (`kaomoji_generator.py`). The keyword generator classifies keywords into a category (`to_category`). It biases the category's part library by style words (`bias`). It fills one of the category's templates (`gen_cat` … `gen_sleepy`) and lightly mutates corpus samples (`mutate_from_sample`). Then it builds the result pool of `generate`: the mutated samples first, then distinct template faces, cut to `n`.
- **Importer** (`tools/import_samples.py`). The corpus importer decides whether a string looks like a face (`is_face_like`). It classifies faces by priority-ordered token lists (`categorize`) and collapses whitespace (`normalize`). It extracts faces line by line from a downloaded text (the line fallback of `extract_faces`). Its merge loop de-duplicates imported faces by normalised form across all categories, appends them to their category, counts them and caps every category at 5000 entries.
- **Cleaner** (`tools/clean_dataset.py`). The corpus cleaner rejects non-faces with the layered `is_valid_face` filter. Its main loop rebuilds the dataset so that every valid face is kept once across all categories, the first occurrence winning, and it counts the removed items.

Files:

- `Text.dfy` holds the string helpers every tool uses. These are Python's whitespace set, `strip`, substring search, ASCII lowercasing, filtering, flattening and distinctness.
- `Generator.dfy` holds the generator.
- `Importer.dfy` holds the importer.
- `Cleaner.dfy` holds the cleaner.

Python strings are sequences of code points, so `len` is `|s|`.

Randomness is passed in as explicit draws:

- a `Draw` gives the indices of every `random.choice`/`pick` a template makes;
- a `Swap` per character stands for the `random.random() < 0.35` coin and the alternative it picks;
- `picks` stands for the positions `random.sample` chooses;
- a finite sequence of draws stands for the template calls of the fill loop.

Where the source loops or updates a list or dictionary step by step, the model is a method with loop invariants. Each such method is proved equal to a specification function, and that function's properties are proved as lemmas. Examples are the key-by-key passes of `bias`, the in-place character swaps of `mutate_from_sample` on an array, the fill loop, the import and cleaning loops, and the truncation loop.

## Model

| member | source | states |
|---|---|---|
| Text.IsSpace | tools/import_samples.py:123 | Python's whitespace set, shared by `str.strip`, `str.isspace` and the pattern `\s`: the ASCII controls from tab to carriage return and from U+001C to space, U+0085, U+00A0, U+1680, U+2000 to U+200A, U+2028, U+2029, U+202F, U+205F and U+3000. |
| Text.Strip | tools/clean_dataset.py:15 | `str.strip`: the result has no whitespace at either end and is no longer than the input. |
| Text.Lower | tools/clean_dataset.py:18 | `str.lower` on ASCII letters: the result has the same length, every ASCII capital becomes its small letter, and every other character stays. |
| Text.Fresh | tools/import_samples.py:157-163 | The de-duplicating append shared by the merge, the cleaner and the fill loop: the keys of the faces, in order, skipping keys already seen or appended. The result is never longer than the faces. |
| Text.StripParts | tools/import_samples.py:78 | `strip` removes only whitespace: the input is the stripped string with whitespace, and nothing else, before and after it. The result starts and ends with non-whitespace. |
| Text.StripIdempotent | tools/clean_dataset.py:15 | Stripping twice is the same as stripping once. |
| Generator.ToCategory | kaomoji_generator.py:147-151 | The category is always one that has a template (a key of `GEN`). |
| Generator.ToCategoryFirstMatch | kaomoji_generator.py:148-150 | The first keyword, in input order, that `KEY2CAT` maps to a category decides the category. |
| Generator.ToCategoryDefault | kaomoji_generator.py:151 | With no such keyword the category is `happy`. |
| Generator.Styles | kaomoji_generator.py:192 | The style list holds exactly the keywords that are one of the eight style words, in input order, each as often as it occurs there. |
| Generator.Narrow | kaomoji_generator.py:74 | The `... or lst` filter is empty only for an empty list. When some part matches, it is the order-preserving sublist of exactly the matching parts, each as often as it occurs in the list. When none matches, it is the whole list. |
| Generator.BiasList | kaomoji_generator.py:72-80 | A biased list is never empty when the input is non-empty, and holds only parts of the input. Under an exaggerating word it is a list followed by itself. Without one it is no longer than the input. With no style word it equals the input. |
| Generator.BiasSpec | kaomoji_generator.py:70-81 | Biasing keeps exactly the library's keys and never empties a non-empty list. |
| Generator.ApplyToEach | kaomoji_generator.py:73-74 | One key-by-key pass over the copied library keeps its keys and rewrites every list by the pass. |
| Generator.Bias | kaomoji_generator.py:70-81 | The three conditional passes, run on a copy of the library, produce `BiasSpec`. The shared library is a value and stays unchanged. |
| Generator.Pick | kaomoji_generator.py:66-67 | A drawn part is an element of its list, and each element is drawn by its own index. |
| Generator.BiasKeepsReady | kaomoji_generator.py:70-81 | After biasing, every part list a template draws from is still present and non-empty. |
| Generator.GenCat | kaomoji_generator.py:84-97 | A cat face is one of the three cat shapes, filled with a wrap and with parts of the biased cat library. |
| Generator.GenDog | kaomoji_generator.py:100-107 | A dog face is the ears-and-nose shape or the round-face shape, filled from the biased dog library. |
| Generator.GenCry | kaomoji_generator.py:110-117 | A crying face is the outer-tears shape filled from the biased cry library, or the fixed teary-eyes shape around a drawn mouth. |
| Generator.GenHappy | kaomoji_generator.py:120-124 | A happy face is a wrap around eyes, mouth and eyes, followed by no decoration or a decoration from the biased library. |
| Generator.GenAngry | kaomoji_generator.py:127-131 | An angry face is a vein, a wrapped face and a decoration, all from the biased angry library. |
| Generator.GenSleepy | kaomoji_generator.py:134-138 | A sleepy face is a wrapped face, a space and a bubble from the biased sleepy library. |
| Generator.GenFor | kaomoji_generator.py:141-144 | `GEN.get(cat, gen_happy)` yields a face of the category's template, and a happy face for any other category. |
| Generator.HappyFaceReachable | kaomoji_generator.py:120-124 | Every happy face of the template's shape is produced by some draw, so the draws cover the whole template language. |
| Generator.Replacement | kaomoji_generator.py:182-184 | A character that is not a swap key stays. A swap key stays or becomes one of its listed alternatives. Only `♡` can become empty. |
| Generator.Mutated | kaomoji_generator.py:181-185 | The value `mutate_from_sample` returns: each character of the sample replaced by its replacement under its coin, joined in order. |
| Generator.Mutate | kaomoji_generator.py:170-185 | The in-place swaps on the character array, joined, equal the replacement of each character in turn. |
| Generator.MutatedNotLonger | kaomoji_generator.py:170-185 | A mutated sample is never longer than the sample. |
| Generator.MutatedPositions | kaomoji_generator.py:181-185 | Without `♡` a mutated sample keeps its length. Every non-key character keeps its position, and every key becomes itself or one of its alternatives. |
| Generator.MutatedWithoutCoins | kaomoji_generator.py:183 | When no coin falls under the threshold (every coin is `Keep`, and positions without a coin keep too), the sample comes back unchanged. |
| Generator.SampleCount | kaomoji_generator.py:198-199 | The number of samples drawn is `min(len(samples[cat]), max(4, n))`. It is zero exactly when the category has no samples. |
| Generator.PrefixTo | kaomoji_generator.py:209 | `pool[:n]` is a prefix of the pool whose length follows Python's slice rules, including negative `n`. |
| Generator.MutateSamples | kaomoji_generator.py:199-200 | The sample-derived prefix holds the mutations of the sampled entries, in the order sampled. |
| Generator.Sampled | kaomoji_generator.py:199-200 | One mutated sample per pick, in the order picked: entry `j` is the mutation of the `j`-th picked sample under its coins. |
| Generator.SampleStart | kaomoji_generator.py:197-200 | The pool starts empty when the category has no samples. Otherwise it starts with one mutated sample per pick, in the order picked. |
| Generator.Filled | kaomoji_generator.py:203-208 | The pool the fill loop builds: the start, then the candidates not yet present, first occurrence first and in the order generated, as many as fit under `n`. |
| Generator.FillPool | kaomoji_generator.py:203-208 | The fill loop returns exactly `Filled`. It also keeps the pool it starts from in front, and each appended face differs from every face before it and is one of the generated candidates. The pool stops at `n`, and it falls short only when every candidate is already in it. |
| Generator.FilledAtExit | kaomoji_generator.py:204 | When the loop stops, because the pool reached `n` or the candidates ran out, the faces appended so far are the first fresh candidates or all of them. |
| Generator.Assemble | kaomoji_generator.py:203-209 | Filling and cutting to `n` gives exactly `Filled` cut to `n`. The start stays in front, and the template faces are distinct and generated. A result short of `n` holds every generated candidate. |
| Generator.FilledPrefix | kaomoji_generator.py:209 | Cutting the filled pool to `n` keeps the sample prefix in front, and keeps the template faces distinct and generated. A result short of `n` holds every generated candidate. |
| Generator.Made | kaomoji_generator.py:205 | The candidates the fill loop draws: one face per draw, each made by the category's template from the style list. |
| Generator.Generate | kaomoji_generator.py:191-209 | `generate` returns exactly the mutated samples followed by the first fresh template faces in the order generated, filled up to `n` and cut with `[:n]`. It therefore returns at most `n` faces, and exactly `n` when the samples alone suffice. Each template face differs from every earlier face and is a face of the category's template under the keywords' styles. A result shorter than `n` means the candidates were exhausted. |
| Importer.IsFaceLike | tools/import_samples.py:89-96 | A string looks like a face exactly when it has 2 to 60 characters, does not start with `#`, and contains a `FACE_HINT` character. |
| Importer.Categorize | tools/import_samples.py:99-119 | The category is always one of cry, angry, sleepy, cat, dog, happy and misc. |
| Importer.CategorizeByRules | tools/import_samples.py:99-119 | The chain of checks equals a first-match scan over the ordered table of rules. |
| Importer.FirstRuleSpec | tools/import_samples.py:99-119 | A first-match scan returns a rule's category exactly when that rule matches and no earlier rule does. It returns misc exactly when no rule matches. |
| Importer.CategorizeFirstMatch | tools/import_samples.py:101-119 | A face is cry exactly when it holds a cry token, angry exactly when it holds an angry token and no cry token, and so on down the list. It is misc exactly when it holds no token. |
| Importer.Collapse | tools/import_samples.py:123 | `re.sub(r"\s+", " ", ...)`: each run of whitespace becomes one space, so the result has no two adjacent whitespace characters and every whitespace character left is a space. The result is never longer, and a non-whitespace first or last character is kept. |
| Importer.Normalize | tools/import_samples.py:122-123 | A normalised string has no whitespace at either end and no two adjacent whitespace characters. |
| Importer.CollapseVisible | tools/import_samples.py:123 | Collapsing keeps every non-whitespace character, in order. |
| Importer.NormalizeVisible | tools/import_samples.py:122-123 | Normalising changes only whitespace: the non-whitespace characters are kept, in order. |
| Importer.CollapseCollapsed | tools/import_samples.py:123 | Collapsing leaves an already collapsed string unchanged. |
| Importer.CollapseRun | tools/import_samples.py:123 | A whitespace run between two non-whitespace characters, or between one and an end of the string, becomes exactly one space, and the text on either side is collapsed on its own. |
| Importer.NormalizeIdempotent | tools/import_samples.py:122-123 | Normalising twice is the same as normalising once. |
| Importer.LinesFrom | tools/import_samples.py:77 | The scan behind `splitlines`, from a partial line: no line it produces contains a line boundary. |
| Importer.SplitLines | tools/import_samples.py:77 | No line produced by `splitlines` contains a line boundary. Where the lines are cut is stated by `SplitLinesBreak`, `SplitLinesCrLf` and `SplitLinesLast`. |
| Importer.SplitLinesBreak | tools/import_samples.py:77 | A line boundary other than a `\r` followed by `\n` ends the line of the text before it, and the rest is split on its own. |
| Importer.SplitLinesCrLf | tools/import_samples.py:77 | A `\r\n` pair ends the line before it as one boundary, and the rest is split on its own. |
| Importer.SplitLinesLast | tools/import_samples.py:77 | Text without a line boundary is one line, and the empty text has no line. |
| Importer.SplitLinesJoin | tools/import_samples.py:77 | The lines, joined, give back every character of the text except the line boundaries, in order. |
| Importer.ExtractLineFaces | tools/import_samples.py:76-80 | The extracted faces are exactly the stripped lines that look like faces. Each is stripped and satisfies `is_face_like`. |
| Text.FreshNew | tools/import_samples.py:157-163 | The merge appends no normalised face twice, and nothing whose normalised form was already seen. |
| Text.FreshFrom | tools/import_samples.py:158-162 | Every appended string is the normalised form of an imported face. |
| Text.FreshComplete | tools/import_samples.py:157-163 | The normalised form of every imported face is either appended or was already seen. |
| Text.FreshAppend | tools/import_samples.py:152-164 | Merging two sources in turn, with one shared seen set, appends the first source's fresh faces and then the second's. |
| Importer.OfCategory | tools/import_samples.py:161-162 | What one category receives from the appended faces: never more faces than were appended, and only faces of that category. |
| Importer.OfCategoryMembers | tools/import_samples.py:161-162 | A category receives exactly the appended faces of that category, in the order appended. |
| Importer.OfCategoryAppend | tools/import_samples.py:161-162 | What a category receives from two stretches of faces is what it receives from each, in turn. |
| Importer.CategoriesReceiveAll | tools/import_samples.py:150-164 | The appended faces received by the seven categories add up to all appended faces, so `added` is the number of strings appended. |
| Importer.Cap | tools/import_samples.py:170-171 | A capped list has at most 5000 entries, is a prefix of the list, and is the list itself when it is short enough. |
| Importer.CapAll | tools/import_samples.py:169-171 | Truncation keeps every category and caps each list. |
| Importer.AddStandard | tools/import_samples.py:145-147 | The seven standard categories are present, and every stored list is kept as it was. |
| Importer.SeenOf | tools/import_samples.py:149 | The seen set holds exactly the normalised forms of the faces already stored, in any category. |
| Importer.MergeFaces | tools/import_samples.py:157-164 | One source's faces extend every category by its fresh faces of that category, and grow the seen set by all of them. |
| Importer.ImportAll | tools/import_samples.py:152-166 | The loop over the sources appends, category by category, the fresh faces of all sources in order, and counts them. |
| Importer.Merge | tools/import_samples.py:144-171 | The merged data has the existing and the standard categories. Each category is its stored list followed by the appended faces of that category, capped at 5000. `added` is the number of appended faces. |
| Cleaner.LetterRunsOk | tools/clean_dataset.py:33-35 | The `finditer` loop, run by run: a run of ASCII letters shorter than four yields no match, and a longer one must be an exception once lowercased. |
| Cleaner.IsValidFace | tools/clean_dataset.py:12-37 | `is_valid_face` with the checks in the source's order: empty, stripped length, banned tokens in the lowercased string, `<`/`>`, `&#` or `;` with a code token, any of `{};`, the letter runs, and finally a symbol-hint character. |
| Cleaner.LetterRunsOkSpec | tools/clean_dataset.py:32-35 | The `[A-Za-z]{4,}` scan passes exactly when every maximal run of ASCII letters with four or more letters is, lowercased, an exception. |
| Cleaner.IsValidFaceSpec | tools/clean_dataset.py:12-37 | A string is valid exactly when it is non-empty and its stripped form meets every condition. The stripped length is 2 to 60, and the lowercased form holds no banned token. It contains none of `<`, `>`, `{`, `}`, `;` or `&#`. Every long letter run is an exception, and some symbol-hint character occurs. |
| Cleaner.IsValidFaceStrip | tools/clean_dataset.py:54-55 | Stripping before the check does not change its verdict. |
| Cleaner.ValidIsFaceLike | tools/clean_dataset.py:36-37 | A valid face that does not start with `#` also looks like a face to the importer, since the two hint sets are the same. |
| Cleaner.ItemsOf | tools/clean_dataset.py:52 | A category value that is a list is scanned as it is. Any other value is scanned as no items. |
| Cleaner.Passing | tools/clean_dataset.py:54-57 | The items that pass the validity check after stripping: never more than the items, and only items whose stripped form is valid. |
| Cleaner.Kept | tools/clean_dataset.py:50-61 | The kept lists, one per category in order: each holds the stripped valid items of its category that were not kept before in this or an earlier category, first occurrence first. |
| Cleaner.CleanList | tools/clean_dataset.py:51-61 | The inner loop keeps the stripped valid items not seen before, in order. It grows the seen set by them, and counts the invalid items as removed. |
| Cleaner.CleanWith | tools/clean_dataset.py:46-62 | The outer loop keeps the categories in order, fills each with its kept list, and counts removed and total items. |
| Cleaner.Clean | tools/clean_dataset.py:46-62 | The cleaned data has the input's categories in order, with the kept faces of each. `removed` counts the invalid items and `total` all items. |
| Cleaner.KeptConcat | tools/clean_dataset.py:49-61 | The kept lists, joined, are the first occurrences of the stripped valid items across all categories, in order. |
| Cleaner.CleanedFaces | tools/clean_dataset.py:53-61 | Every kept face is stripped and valid, and no face is kept twice across all categories. |
| Cleaner.CleanedComplete | tools/clean_dataset.py:55-61 | The stripped form of every valid item is kept. Only repeats are skipped. |
| Cleaner.FreshSkipped | tools/clean_dataset.py:58-61 | Every valid item is either kept or skipped as a repeat. |
| Cleaner.CleanCounts | tools/clean_dataset.py:47-60 | `total` equals the kept faces plus `removed` plus the skipped duplicates, and `removed` counts only invalid items. |
| Cleaner.NotAListEmpty | tools/clean_dataset.py:52 | A category whose value is not a list comes out empty. |

## Left out

- File and network I/O is not modelled, and neither are the `main` functions around the loops. This covers `load_samples`, `load_json`, `save_json`, `fetch`, reading the sources file, `argparse`, `print` and `sys.exit`. The loaded data and the downloaded texts are parameters: `samples`, `existing`, `batches` and `data`.
- Python's `random` is not modelled. Its results are explicit inputs: `Draw`, `Swap` coins, `picks` and the candidate draws. `random.seed` in `generate` and the probability 0.35 itself are therefore not modelled.
- Generator.FillPool: runs over a finite sequence of candidate faces rather than an endless `while len(pool) < n`. The source loop does not terminate when the templates cannot yield `n` distinct faces. The model states instead that a short result means every candidate was already present.
- Generator.Generate: states `|faces| == n` only when the samples alone reach `n`. In the other case a short result means the supplied candidates were exhausted.
- Text.Lower: lowercases ASCII letters only. Python's `lower` also maps other letters, but the only non-ASCII characters whose lowercase contains ASCII are U+0130 (to `i` plus a combining dot) and U+212A (to `k`). No banned token contains `k`. Every `i` in a token is followed by an ASCII letter, so no token can match across the combining dot. The letter runs lowercased by the cleaner are ASCII anyway, so every verdict is the same as Python's.
- The JSON branch of `extract_faces` is not modelled, because it depends on a JSON parser.
- The HTML branch of `extract_faces` is not modelled. Its pattern ends in an escaped backslash followed by `1` rather than a back-reference (tools/import_samples.py:82), so it only matches text containing a literal `</\1>`. It adds nothing for ordinary HTML.
- Importer.ExtractLineFaces: returns a set, as the source does before `list(faces)`. The order of that list is unspecified, so Importer.Merge takes each source's faces in any order the caller gives.
- Importer.Merge: takes the loaded data as a map from categories to lists of strings. This is exact, because `load_json` (tools/import_samples.py:29-31) keeps only list values and turns every item into a string, so the `isinstance` test at line 170 always holds.
- Importer.Merge: the result is a map, so the key order of the saved JSON is not modelled.
- Importer.Merge: a source whose fetch fails is modelled as an empty batch. Nothing after the fetch in the `try` can raise.
- Cleaner.Clean: the input items are taken as strings already. The `str(s)` conversion of non-string items is not modelled.
- Cleaner.Clean: the input dictionary is given as its entries in order, because the first occurrence wins. A Python dictionary has distinct keys, and the model does not demand that.
- Cleaner.IsValidFace: the exceptions `chu`, `nya` and `zzz` are kept as written but can never apply. The search only finds runs of four or more letters, so only `nyan` matters.
- Cleaner.Acceptable: the reference reading drops the check at tools/clean_dataset.py:27 that pairs `;` with code tokens. A `;` alone is already rejected at line 29, and Cleaner.IsValidFaceSpec proves the two readings agree.
- The web front end (`web/`) and the HTTP wrapper `web/app.py` are not part of this model.
