/**
 * The keyword-driven kaomoji generator: keyword classification, the
 * per-category part library and its style bias, the six face templates,
 * light mutation of corpus samples, and the assembly of the result pool.
 *
 * Python's `random` is replaced by explicit draws: a `Draw` for each template
 * call, a `Swap` per character for a mutation, and the indices that
 * `random.sample` chose. Every operation is then a deterministic function of
 * its inputs and its draws.
 */
module Generator {
  import opened Text

  // ---------------------------------------------------------------------
  // Tables
  // ---------------------------------------------------------------------

  /** KEY2CAT: keyword to category. "cute" has no template. */
  const Key2Cat: map<string, string> := map[
    "猫" := "cat", "喵" := "cat", "小猫" := "cat",
    "狗" := "dog", "汪" := "dog", "小狗" := "dog",
    "哭" := "cry", "难过" := "cry", "伤心" := "cry", "委屈" := "cry", "呜呜" := "cry",
    "开心" := "happy", "高兴" := "happy", "笑" := "happy",
    "生气" := "angry", "愤怒" := "angry", "凶" := "angry",
    "困" := "sleepy", "困了" := "sleepy", "累" := "sleepy", "疲惫" := "sleepy",
    "可爱" := "cute", "卖萌" := "cute", "萌" := "cute"]

  /** The keys of GEN: the categories that have a template. */
  const GenCategories: set<string> := {"cat", "dog", "cry", "happy", "angry", "sleepy"}

  const Decor: seq<string> := ["♡", "♥", "♪", "✧", "★", "☆", "｡", "❀", "❁", "❣", "彡"]
  const Paws: seq<string> := ["ฅ", "ʢ", "ʡ", "ノ", "∠", "o", "੭", "っ"]
  const Wraps: seq<(string, string)> := [("(", ")"), ("（", "）"), ("ʕ", "ʔ"), ("〈", "〉")]

  /** One category's part library: part name to the list of alternatives. */
  type Library = map<string, seq<string>>

  const CatParts: Library := map[
    "eyes" := ["^", "･", "•", "˶", "´", "=", "ꈍ", "ᵔ", "˘"],
    "mouth" := ["ω", " ᴥ ", "ᗝ", "﹏", "⌓", "△", "_", "×"],
    "whisker" := ["=", "≡"],
    "paws" := Paws,
    "decor" := Decor + ["にゃ", "~"]]

  const DogParts: Library := map[
    "eyes" := ["ᵔ", "•", "˘", "＾", "꒳", "ᴗ", "ᴖ"],
    "nose" := ["ᴥ", "ܫ", "⩊", "ᗣ"],
    "ears" := ["U", "▼", "∪", "ʋ", "ᑌ"],
    "decor" := Decor]

  const CryParts: Library := map[
    "eyes" := ["˃", "ᵕ", "T", "ಥ", "ó", ";", "•̥", "´", "`", "⌓"],
    "mouth" := ["ᗝ", "△", "_", "﹏", "×", "o", "ᵕ"],
    "tear" := ["৹", "꒦", "｡ﾟ", " ﾟ｡", "˃̥", "ᵕ̥"],
    "outer" := ["๐·°", "°·๐", "｡ﾟ", "ﾟ｡", "°彡", "彡°"],
    "decor" := ["…", "~", " "]]

  const HappyParts: Library := map[
    "eyes" := ["^", "・", "•", "˶", "´", "`", "ᵔ", "≧", "✧"],
    "mouth" := ["ω", "▽", "ヮ", "ᴗ", "v", "∀", "ㅅ"],
    "decor" := Decor + ["~♪"]]

  const AngryParts: Library := map[
    "eyes" := ["`", "ˋ", "ಠ", "థ", "≧", "•"],
    "mouth" := ["皿", "^", "へ", "益", "︿"],
    "vein" := ["╬", "凸", "彡", "ᕙ", "ノ", "(#)"],
    "decor" := ["!", "!!", "!!!"]]

  const SleepyParts: Library := map[
    "eyes" := ["-", "﹃", "﹂", "ᴗ", "_", "ᵕ"],
    "mouth" := ["_", "﹏", "o", "ᵕ", "ω"],
    "bubble" := ["zZ", "Zz", "Zzz", "｡oO"],
    "decor" := ["~"]]

  /** The style words that `generate` passes on to the templates. */
  const StyleWords: seq<string> := ["可爱", "卖萌", "萌", "简洁", "极简", "高冷", "夸张", "浮夸"]
  const CuteWords: seq<string> := ["可爱", "卖萌", "萌"]
  const PlainWords: seq<string> := ["简洁", "极简", "高冷"]
  const LoudWords: seq<string> := ["夸张", "浮夸"]

  /** A part is cute when it holds one of these characters. */
  const CuteMarks: string := "ωᵕᵔ♡♥✧･•▽∀"
  /** A part is plain when it holds none of these characters. */
  const Ornaments: string := "♡♥✧♪彡｡ﾟ~"

  // ---------------------------------------------------------------------
  // Keyword classification
  // ---------------------------------------------------------------------

  /** `KEY2CAT.get(w) in GEN`: the keyword names a category with a template. */
  predicate Selects(w: string) {
    w in Key2Cat && Key2Cat[w] in GenCategories
  }

  predicate NoneSelects(words: seq<string>) {
    forall i :: 0 <= i < |words| ==> !Selects(words[i])
  }

  /** `to_category`: the category of the first selecting keyword, "happy"
      when there is none; always a category with a template. */
  function ToCategory(words: seq<string>): (r: string)
    ensures r in GenCategories
  {
    if words == [] then "happy"
    else if Selects(words[0]) then Key2Cat[words[0]]
    else ToCategory(words[1..])
  }

  /** The first selecting keyword decides the category. */
  lemma {:induction false} ToCategoryFirstMatch(words: seq<string>, i: nat)
    requires i < |words| && Selects(words[i]) && NoneSelects(words[..i])
    ensures ToCategory(words) == Key2Cat[words[i]]
  {
    if i > 0 {
      assert !Selects(words[..i][0]);
      assert words[1..][..i - 1] == words[..i][1..];
      ToCategoryFirstMatch(words[1..], i - 1);
    }
  }

  /** Without a selecting keyword the category is "happy". */
  lemma {:induction false} ToCategoryDefault(words: seq<string>)
    requires NoneSelects(words)
    ensures ToCategory(words) == "happy"
  {
    if words != [] {
      assert !Selects(words[0]);
      ToCategoryDefault(words[1..]);
    }
  }

  predicate IsStyleWord(w: string) { w in StyleWords }

  /** `styles` in `generate`: the keywords that are style words, in order. */
  function Styles(keywords: seq<string>): (r: seq<string>)
    ensures forall w :: w in r <==> w in keywords && w in StyleWords
    ensures IsSubsequence(r, keywords)
    ensures forall w :: multiset(r)[w] == if w in StyleWords then multiset(keywords)[w] else 0
  {
    Filter(keywords, IsStyleWord)
  }

  // ---------------------------------------------------------------------
  // Style bias
  // ---------------------------------------------------------------------

  /** `any(s in styles for s in words)`. */
  predicate AnyStyle(words: seq<string>, styles: seq<string>) {
    exists w :: w in words && w in styles
  }

  predicate IsCute(x: string) { HasAnyChar(x, CuteMarks) }
  predicate IsPlain(x: string) { !HasAnyChar(x, Ornaments) }

  /** `[x for x in lst if keep(x)] or lst`: the order-preserving sublist of
      kept parts, or the whole list when no part is kept. */
  function Narrow(lst: seq<string>, keep: string -> bool): (r: seq<string>)
    ensures r == [] <==> lst == []
    ensures (exists x :: x in lst && keep(x)) ==>
              (forall x :: x in r <==> x in lst && keep(x)) && IsSubsequence(r, lst)
              && (forall x :: multiset(r)[x] == if keep(x) then multiset(lst)[x] else 0)
    ensures (forall x :: x in lst ==> !keep(x)) ==> r == lst
  {
    var kept := Filter(lst, keep);
    assert kept != [] ==> kept[0] in kept;
    if kept == [] then lst else kept
  }

  /** The three rewrites `bias` applies to every list of the library. */
  datatype Pass = KeepCute | KeepPlain | Double

  function ApplyPass(pass: Pass, lst: seq<string>): seq<string> {
    match pass
    case KeepCute => Narrow(lst, IsCute)
    case KeepPlain => Narrow(lst, IsPlain)
    case Double => lst + lst
  }

  /** The three stages of `bias`, each applied only when its style words
      are among `styles`. */
  function CuteStage(lst: seq<string>, styles: seq<string>): seq<string> {
    if AnyStyle(CuteWords, styles) then ApplyPass(KeepCute, lst) else lst
  }
  function PlainStage(lst: seq<string>, styles: seq<string>): seq<string> {
    if AnyStyle(PlainWords, styles) then ApplyPass(KeepPlain, lst) else lst
  }
  function LoudStage(lst: seq<string>, styles: seq<string>): seq<string> {
    if AnyStyle(LoudWords, styles) then ApplyPass(Double, lst) else lst
  }

  /** What `bias` makes of one list: narrowed to cute parts under a cute
      style word, then to plain parts under a minimal one, then doubled under
      an exaggerating one. It never empties a list, never invents a part, and
      leaves the list alone when no style word is given. */
  function BiasList(lst: seq<string>, styles: seq<string>): (r: seq<string>)
    ensures lst != [] ==> r != []
    ensures forall x :: x in r ==> x in lst
    ensures AnyStyle(LoudWords, styles) ==> |r| % 2 == 0 && r[..|r| / 2] == r[|r| / 2..]
    ensures !AnyStyle(LoudWords, styles) ==> |r| <= |lst|
    ensures (!AnyStyle(CuteWords, styles) && !AnyStyle(PlainWords, styles) && !AnyStyle(LoudWords, styles))
              ==> r == lst
  {
    var b := PlainStage(CuteStage(lst, styles), styles);
    var c := LoudStage(b, styles);
    assert AnyStyle(LoudWords, styles) ==> c[..|c| / 2] == b == c[|c| / 2..];
    c
  }

  /** `bias(parts, styles)` as a value: the same keys, each list biased. */
  function BiasSpec(parts: Library, styles: seq<string>): (r: Library)
    ensures r.Keys == parts.Keys
    ensures forall k :: k in parts && parts[k] != [] ==> r[k] != []
  {
    map k | k in parts :: BiasList(parts[k], styles)
  }

  /** One `for key in out: out[key] = ...` pass of `bias`, key by key. */
  method ApplyToEach(m: Library, pass: Pass) returns (out: Library)
    ensures out.Keys == m.Keys
    ensures forall k :: k in m ==> out[k] == ApplyPass(pass, m[k])
  {
    out := m;
    var todo := m.Keys;
    while todo != {}
      invariant todo <= m.Keys && out.Keys == m.Keys
      invariant forall k :: k in m && k !in todo ==> out[k] == ApplyPass(pass, m[k])
      invariant forall k :: k in todo ==> out[k] == m[k]
      decreases todo
    {
      var key :| key in todo;
      out := out[key := ApplyPass(pass, out[key])];
      todo := todo - {key};
    }
  }

  /** Three key-by-key stages compose to `BiasSpec`. */
  lemma BiasByStages(parts: Library, styles: seq<string>, a: Library, b: Library, c: Library)
    requires a.Keys == parts.Keys && forall k :: k in parts ==> a[k] == CuteStage(parts[k], styles)
    requires b.Keys == parts.Keys && forall k :: k in parts ==> b[k] == PlainStage(a[k], styles)
    requires c.Keys == parts.Keys && forall k :: k in parts ==> c[k] == LoudStage(b[k], styles)
    ensures c == BiasSpec(parts, styles)
  {
    var spec := BiasSpec(parts, styles);
    forall k | k in parts ensures c[k] == spec[k] {
      assert spec[k] == BiasList(parts[k], styles);
    }
  }

  /** `bias`: works on a copy of `parts` (maps are values here, so the shared
      library is never changed) and runs the passes the style words ask for. */
  method Bias(parts: Library, styles: seq<string>) returns (out: Library)
    ensures out == BiasSpec(parts, styles)
  {
    out := parts;
    if AnyStyle(CuteWords, styles) {
      out := ApplyToEach(out, KeepCute);
    }
    ghost var afterCute := out;
    if AnyStyle(PlainWords, styles) {
      out := ApplyToEach(out, KeepPlain);
    }
    ghost var afterPlain := out;
    if AnyStyle(LoudWords, styles) {
      out := ApplyToEach(out, Double);
    }
    BiasByStages(parts, styles, afterCute, afterPlain, out);
  }

  // ---------------------------------------------------------------------
  // Templates
  // ---------------------------------------------------------------------

  /** The random draws of one template call: the wrap, the shape, and the
      successive `pick`/`random.choice` indices in the order the template
      makes them (missing ones read as 0). */
  datatype Draw = Draw(wrap: nat, shape: nat, picks: seq<nat>) {
    function At(k: nat): nat { if k < |picks| then picks[k] else 0 }
  }

  /** `random.choice(lst)` with the drawn index `i`; every element is
      reachable, by its own index. */
  function Pick<T(==)>(lst: seq<T>, i: nat): (r: T)
    requires lst != []
    ensures r in lst
    ensures i < |lst| ==> r == lst[i]
  {
    lst[i % |lst|]
  }

  /** Every part list named by `keys` is present in `p` and non-empty, so
      `random.choice` can draw from it. */
  predicate Ready(p: Library, keys: set<string>) {
    keys <= p.Keys && forall k :: k in keys ==> p[k] != []
  }

  /** Biasing keeps a library ready for its templates, since it never empties
      a list. */
  lemma BiasKeepsReady(p: Library, styles: seq<string>)
    requires Ready(p, p.Keys)
    ensures Ready(BiasSpec(p, styles), p.Keys)
  {
  }

  // The f-strings of the templates, one per shape, over the chosen parts.

  function WhiskerEars(w: (string, string), wh: string, e: string, m: string): string {
    w.0 + wh + e + "･" + m + "･" + e + wh + w.1
  }
  function PawsRound(w: (string, string), e: string, m: string, paw: string, dec: string): string {
    paw + w.0 + e + m + e + w.1 + paw + dec
  }
  function PawsTail(e: string, m: string, paw: string, dec: string): string {
    paw + "^" + e + m + e + "^" + paw + dec
  }
  function EarsNose(w: (string, string), ear: string, mid: string, nose: string): string {
    w.0 + ear + mid + nose + mid + ear + w.1
  }
  function RoundFace(w: (string, string), eye: string, nose: string): string {
    w.0 + eye + nose + eye + w.1
  }
  function OuterTears(w: (string, string), outer: string, tl: string, el: string, m: string, er: string, tr: string): string {
    outer + w.0 + tl + el + m + er + tr + w.1 + outer
  }
  function InnerTears(w: (string, string), m: string): string {
    w.0 + " ´•̥" + m + "•̥ " + w.1
  }
  function HappyShape(w: (string, string), e: string, m: string, dec: string): string {
    w.0 + e + m + e + w.1 + dec
  }
  function AngryShape(v: string, w: (string, string), e: string, m: string, dec: string): string {
    v + w.0 + e + m + e + w.1 + dec
  }
  function SleepyShape(w: (string, string), e: string, m: string, bub: string): string {
    w.0 + e + m + e + w.1 + " " + bub
  }

  /** A cat face: one of the three cat shapes filled with parts of the
      (biased) cat library `p`. */
  ghost predicate CatFace(f: string, p: Library)
    requires CatParts.Keys <= p.Keys
  {
    (exists w, wh, e, m ::
       w in Wraps && wh in p["whisker"] && e in p["eyes"] && m in p["mouth"] && f == WhiskerEars(w, wh, e, m))
    || (exists w, e, m, paw, dec ::
       w in Wraps && e in p["eyes"] && m in p["mouth"] && paw in p["paws"] && dec in [""] + p["decor"]
       && f == PawsRound(w, e, m, paw, dec))
    || (exists e, m, paw, dec ::
       e in p["eyes"] && m in p["mouth"] && paw in p["paws"] && dec in ["♡", "♥", ""]
       && f == PawsTail(e, m, paw, dec))
  }

  /** The `gen_cat` template over a cat library `p`. */
  function CatFrom(p: Library, d: Draw): (f: string)
    requires Ready(p, CatParts.Keys)
    ensures CatFace(f, p)
  {
    var w := Pick(Wraps, d.wrap);
    if d.shape % 3 == 0 then
      var wh := Pick(p["whisker"], d.At(0));
      var e := Pick(p["eyes"], d.At(1));
      var m := Pick(p["mouth"], d.At(2));
      WhiskerEars(w, wh, e, m)
    else if d.shape % 3 == 1 then
      var e := Pick(p["eyes"], d.At(0));
      var m := Pick(p["mouth"], d.At(1));
      var paw := Pick(p["paws"], d.At(2));
      var dec := Pick(["", Pick(p["decor"], d.At(3))], d.At(4));
      assert dec in [""] + p["decor"];
      PawsRound(w, e, m, paw, dec)
    else
      var e := Pick(p["eyes"], d.At(0));
      var m := Pick(p["mouth"], d.At(1));
      var paw := Pick(p["paws"], d.At(2));
      var dec := Pick(["♡", "♥", "", ""], d.At(3));
      assert dec in ["♡", "♥", ""];
      PawsTail(e, m, paw, dec)
  }

  /** `gen_cat`: the template over the biased cat library. */
  function GenCat(styles: seq<string>, d: Draw): (f: string)
    ensures CatFace(f, BiasSpec(CatParts, styles))
  {
    BiasKeepsReady(CatParts, styles);
    CatFrom(BiasSpec(CatParts, styles), d)
  }

  /** A dog face: ears around a nose, or eyes around a nose. */
  ghost predicate DogFace(f: string, p: Library)
    requires DogParts.Keys <= p.Keys
  {
    (exists w, ear, mid, nose ::
       w in Wraps && ear in p["ears"] && mid in ["・", "·", " "] && nose in p["nose"] && f == EarsNose(w, ear, mid, nose))
    || (exists w, eye, nose ::
       w in Wraps && eye in p["eyes"] && nose in p["nose"] && f == RoundFace(w, eye, nose))
  }

  /** The `gen_dog` template over a dog library `p`. */
  function DogFrom(p: Library, d: Draw): (f: string)
    requires Ready(p, DogParts.Keys)
    ensures DogFace(f, p)
  {
    var w := Pick(Wraps, d.wrap);
    if d.shape % 2 == 0 then
      var ear := Pick(p["ears"], d.At(0));
      var nose := Pick(p["nose"], d.At(1));
      var mid := Pick(["・", "·", " "], d.At(2));
      EarsNose(w, ear, mid, nose)
    else
      var eye := Pick(p["eyes"], d.At(0));
      var nose := Pick(p["nose"], d.At(1));
      RoundFace(w, eye, nose)
  }

  /** `gen_dog`: the template over the biased dog library. */
  function GenDog(styles: seq<string>, d: Draw): (f: string)
    ensures DogFace(f, BiasSpec(DogParts, styles))
  {
    BiasKeepsReady(DogParts, styles);
    DogFrom(BiasSpec(DogParts, styles), d)
  }

  /** A crying face: tears outside the wrap, or the fixed teary eyes inside. */
  ghost predicate CryFace(f: string, p: Library)
    requires CryParts.Keys <= p.Keys
  {
    (exists w, outer, tl, el, m, er, tr ::
       w in Wraps && outer in p["outer"] && tl in p["tear"] && el in p["eyes"] && m in p["mouth"]
       && er in p["eyes"] && tr in p["tear"] && f == OuterTears(w, outer, tl, el, m, er, tr))
    || (exists w, m :: w in Wraps && m in p["mouth"] && f == InnerTears(w, m))
  }

  /** The `gen_cry` template over a cry library `p`. */
  function CryFrom(p: Library, d: Draw): (f: string)
    requires Ready(p, CryParts.Keys)
    ensures CryFace(f, p)
  {
    var w := Pick(Wraps, d.wrap);
    if d.shape % 2 == 0 then
      var outer := Pick(p["outer"], d.At(0));
      var el := Pick(p["eyes"], d.At(1));
      var er := Pick(p["eyes"], d.At(2));
      var m := Pick(p["mouth"], d.At(3));
      var tl := Pick(p["tear"], d.At(4));
      var tr := Pick(p["tear"], d.At(5));
      OuterTears(w, outer, tl, el, m, er, tr)
    else
      var m := Pick(p["mouth"], d.At(0));
      InnerTears(w, m)
  }

  /** `gen_cry`: the template over the biased cry library. */
  function GenCry(styles: seq<string>, d: Draw): (f: string)
    ensures CryFace(f, BiasSpec(CryParts, styles))
  {
    BiasKeepsReady(CryParts, styles);
    CryFrom(BiasSpec(CryParts, styles), d)
  }

  ghost predicate HappyFace(f: string, p: Library)
    requires HappyParts.Keys <= p.Keys
  {
    exists w, e, m, dec ::
      w in Wraps && e in p["eyes"] && m in p["mouth"] && dec in [""] + p["decor"] && f == HappyShape(w, e, m, dec)
  }

  /** The `gen_happy` template over a happy library `p`. */
  function HappyFrom(p: Library, d: Draw): (f: string)
    requires Ready(p, HappyParts.Keys)
    ensures HappyFace(f, p)
  {
    var w := Pick(Wraps, d.wrap);
    var e := Pick(p["eyes"], d.At(0));
    var m := Pick(p["mouth"], d.At(1));
    var dec := Pick(["", Pick(p["decor"], d.At(2))], d.At(3));
    assert dec in [""] + p["decor"];
    HappyShape(w, e, m, dec)
  }

  /** `gen_happy`: the template over the biased happy library. */
  function GenHappy(styles: seq<string>, d: Draw): (f: string)
    ensures HappyFace(f, BiasSpec(HappyParts, styles))
  {
    BiasKeepsReady(HappyParts, styles);
    HappyFrom(BiasSpec(HappyParts, styles), d)
  }

  ghost predicate AngryFace(f: string, p: Library)
    requires AngryParts.Keys <= p.Keys
  {
    exists v, w, e, m, dec ::
      v in p["vein"] && w in Wraps && e in p["eyes"] && m in p["mouth"] && dec in p["decor"]
      && f == AngryShape(v, w, e, m, dec)
  }

  /** The `gen_angry` template over an angry library `p`. */
  function AngryFrom(p: Library, d: Draw): (f: string)
    requires Ready(p, AngryParts.Keys)
    ensures AngryFace(f, p)
  {
    var w := Pick(Wraps, d.wrap);
    var v := Pick(p["vein"], d.At(0));
    var e := Pick(p["eyes"], d.At(1));
    var m := Pick(p["mouth"], d.At(2));
    var dec := Pick(p["decor"], d.At(3));
    AngryShape(v, w, e, m, dec)
  }

  /** `gen_angry`: the template over the biased angry library. */
  function GenAngry(styles: seq<string>, d: Draw): (f: string)
    ensures AngryFace(f, BiasSpec(AngryParts, styles))
  {
    BiasKeepsReady(AngryParts, styles);
    AngryFrom(BiasSpec(AngryParts, styles), d)
  }

  ghost predicate SleepyFace(f: string, p: Library)
    requires SleepyParts.Keys <= p.Keys
  {
    exists w, e, m, bub ::
      w in Wraps && e in p["eyes"] && m in p["mouth"] && bub in p["bubble"] && f == SleepyShape(w, e, m, bub)
  }

  /** The `gen_sleepy` template over a sleepy library `p`. */
  function SleepyFrom(p: Library, d: Draw): (f: string)
    requires Ready(p, SleepyParts.Keys)
    ensures SleepyFace(f, p)
  {
    var w := Pick(Wraps, d.wrap);
    var e := Pick(p["eyes"], d.At(0));
    var m := Pick(p["mouth"], d.At(1));
    var bub := Pick(p["bubble"], d.At(2));
    SleepyShape(w, e, m, bub)
  }

  /** `gen_sleepy`: the template over the biased sleepy library. */
  function GenSleepy(styles: seq<string>, d: Draw): (f: string)
    ensures SleepyFace(f, BiasSpec(SleepyParts, styles))
  {
    BiasKeepsReady(SleepyParts, styles);
    SleepyFrom(BiasSpec(SleepyParts, styles), d)
  }

  /** A face the template of category `cat` can produce under `styles`. */
  ghost predicate TemplateFace(cat: string, styles: seq<string>, f: string) {
    match cat
    case "cat" => CatFace(f, BiasSpec(CatParts, styles))
    case "dog" => DogFace(f, BiasSpec(DogParts, styles))
    case "cry" => CryFace(f, BiasSpec(CryParts, styles))
    case "angry" => AngryFace(f, BiasSpec(AngryParts, styles))
    case "sleepy" => SleepyFace(f, BiasSpec(SleepyParts, styles))
    case _ => HappyFace(f, BiasSpec(HappyParts, styles))
  }

  /** `GEN.get(cat, gen_happy)(styles)`. */
  function GenFor(cat: string, styles: seq<string>, d: Draw): (f: string)
    ensures TemplateFace(cat, styles, f)
  {
    match cat
    case "cat" => GenCat(styles, d)
    case "dog" => GenDog(styles, d)
    case "cry" => GenCry(styles, d)
    case "angry" => GenAngry(styles, d)
    case "sleepy" => GenSleepy(styles, d)
    case _ => GenHappy(styles, d)
  }

  /** Index of an element in a list: the draw that picks it. */
  lemma IndexOf<T>(lst: seq<T>, x: T) returns (i: nat)
    requires x in lst
    ensures i < |lst| && lst[i] == x
  {
    i :| 0 <= i < |lst| && lst[i] == x;
  }

  /** Conversely, every happy face of the template's shape is produced by
      some draw: the draws reach the whole template language. */
  lemma HappyFaceReachable(p: Library, w: (string, string), e: string, m: string, dec: string)
    requires Ready(p, HappyParts.Keys)
    requires w in Wraps && e in p["eyes"] && m in p["mouth"] && dec in [""] + p["decor"]
    ensures exists d :: HappyFrom(p, d) == HappyShape(w, e, m, dec)
  {
    var iw := IndexOf(Wraps, w);
    var ie := IndexOf(p["eyes"], e);
    var im := IndexOf(p["mouth"], m);
    var id := 0;
    if dec != "" {
      id := IndexOf(p["decor"], dec);
    }
    var d := Draw(iw, 0, [ie, im, id, if dec == "" then 0 else 1]);
    assert Pick(["", Pick(p["decor"], d.At(2))], d.At(3)) == dec;
    assert HappyFrom(p, d) == HappyShape(w, e, m, dec);
  }

  // ---------------------------------------------------------------------
  // Mutation of corpus samples
  // ---------------------------------------------------------------------

  /** The swap table of `mutate_from_sample`. */
  const SwapTable: map<char, seq<string>> := map[
    'ω' := ["ᵕ", "ᴗ", "▽"],
    'ᴥ' := ["ᗝ", "⩊"],
    '·' := ["・", " "],
    '^' := ["ᵔ", "˘", "・"],
    '・' := ["·", "^"],
    '_' := ["﹏", "o"],
    '♡' := ["♥", "✧", ""]]

  /** The per-character draw: leave the character, or (when the coin falls
      under 0.35) take the alternative with the given index. */
  datatype Swap = Keep | Take(alt: nat)

  function CoinAt(coins: seq<Swap>, i: nat): Swap {
    if i < |coins| then coins[i] else Keep
  }

  /** What one character of the sample becomes: itself unless it is a swap
      key and the coin says swap, then one of its alternatives. Only '♡' can
      vanish. */
  function Replacement(c: char, coin: Swap): (r: string)
    ensures c !in SwapTable ==> r == [c]
    ensures c in SwapTable ==> r == [c] || r in SwapTable[c]
    ensures c != '♡' ==> |r| == 1
    ensures |r| <= 1
  {
    if c in SwapTable && coin.Take? then Pick(SwapTable[c], coin.alt) else [c]
  }

  function Replacements(sample: string, coins: seq<Swap>): (parts: seq<string>)
    ensures |parts| == |sample|
  {
    seq(|sample|, i requires 0 <= i < |sample| => Replacement(sample[i], CoinAt(coins, i)))
  }

  /** `mutate_from_sample` as a value: the joined replacements. */
  function Mutated(sample: string, coins: seq<Swap>): string {
    Concat(Replacements(sample, coins))
  }

  /** `mutate_from_sample`: the sample is split into a list of characters,
      swapped in place position by position, and joined. */
  method Mutate(sample: string, coins: seq<Swap>) returns (r: string)
    ensures r == Mutated(sample, coins)
  {
    var s := new string[|sample|](i requires 0 <= i < |sample| => [sample[i]]);
    for i := 0 to |sample|
      invariant forall j :: 0 <= j < i ==> s[j] == Replacement(sample[j], CoinAt(coins, j))
      invariant forall j :: i <= j < |sample| ==> s[j] == [sample[j]]
    {
      var ch := sample[i];
      var coin := CoinAt(coins, i);
      if ch in SwapTable && coin.Take? {
        s[i] := Pick(SwapTable[ch], coin.alt);
      }
    }
    assert s[..] == Replacements(sample, coins);
    r := Concat(s[..]);
  }

  lemma {:induction false} ConcatShort(parts: seq<string>)
    requires forall i :: 0 <= i < |parts| ==> |parts[i]| <= 1
    ensures |Concat(parts)| <= |parts|
  {
    if parts != [] {
      ConcatShort(parts[1..]);
    }
  }

  lemma {:induction false} ConcatSingles(parts: seq<string>)
    requires forall i :: 0 <= i < |parts| ==> |parts[i]| == 1
    ensures |Concat(parts)| == |parts|
    ensures forall i :: 0 <= i < |parts| ==> Concat(parts)[i] == parts[i][0]
  {
    if parts != [] {
      ConcatSingles(parts[1..]);
      assert Concat(parts) == parts[0] + Concat(parts[1..]);
    }
  }

  /** A mutation never makes the sample longer. */
  lemma MutatedNotLonger(sample: string, coins: seq<Swap>)
    ensures |Mutated(sample, coins)| <= |sample|
  {
    ConcatShort(Replacements(sample, coins));
  }

  /** Without a '♡' the mutation keeps every position: characters that are not
      swap keys stay, swap keys stay or become one of their alternatives. */
  lemma MutatedPositions(sample: string, coins: seq<Swap>)
    requires '♡' !in sample
    ensures |Mutated(sample, coins)| == |sample|
    ensures forall i :: 0 <= i < |sample| && sample[i] !in SwapTable ==> Mutated(sample, coins)[i] == sample[i]
    ensures forall i :: 0 <= i < |sample| && sample[i] in SwapTable ==>
              Mutated(sample, coins)[i] == sample[i] || [Mutated(sample, coins)[i]] in SwapTable[sample[i]]
  {
    var parts := Replacements(sample, coins);
    forall i | 0 <= i < |parts| ensures |parts[i]| == 1 {
      assert sample[i] != '♡';
    }
    ConcatSingles(parts);
    forall i | 0 <= i < |sample| && sample[i] in SwapTable
      ensures Mutated(sample, coins)[i] == sample[i] || [Mutated(sample, coins)[i]] in SwapTable[sample[i]]
    {
      assert parts[i] == [parts[i][0]];
    }
  }

  /** When no coin falls under the threshold (no `Take`), the sample is
      copied unchanged. */
  lemma MutatedWithoutCoins(sample: string, coins: seq<Swap>)
    requires forall i :: 0 <= i < |coins| ==> coins[i] == Keep
    ensures Mutated(sample, coins) == sample
  {
    var parts := Replacements(sample, coins);
    assert forall i :: 0 <= i < |parts| ==> parts[i] == [sample[i]];
    ConcatSingles(parts);
  }

  // ---------------------------------------------------------------------
  // The result pool of `generate`
  // ---------------------------------------------------------------------

  function Min(a: int, b: int): int { if a <= b then a else b }
  function Max(a: int, b: int): int { if a >= b then a else b }

  /** How many samples `generate` draws: `min(len(samples[cat]), max(4, n))`,
      none when the category has no samples. */
  function SampleCount(cat: string, n: int, samples: map<string, seq<string>>): (k: nat)
    ensures k == 0 <==> cat !in samples || samples[cat] == []
    ensures cat in samples ==> k <= |samples[cat]|
    ensures k <= Max(4, n)
  {
    if cat in samples && samples[cat] != [] then Min(|samples[cat]|, Max(4, n)) else 0
  }

  /** What `random.sample(samples[cat], k)` guarantees of the positions it
      chooses: `k` distinct positions of the list. */
  predicate SamplePositions(picks: seq<nat>, k: nat, from: nat) {
    |picks| == k && Distinct(picks) && forall i :: 0 <= i < |picks| ==> picks[i] < from
  }

  /** Python's `s[:n]`, including a negative `n`, which drops the last `-n`
      elements. */
  function PrefixTo<T>(s: seq<T>, n: int): (r: seq<T>)
    ensures |r| == if n >= 0 then Min(n, |s|) else Max(0, |s| + n)
    ensures r == s[..|r|]
  {
    if n >= 0 then (if n <= |s| then s[..n] else s)
    else if |s| + n > 0 then s[..|s| + n] else []
  }

  function CoinsFor(coins: seq<seq<Swap>>, i: nat): seq<Swap> {
    if i < |coins| then coins[i] else []
  }

  /** The mutated samples, in the order sampled. */
  function Sampled(samples: seq<string>, picks: seq<nat>, coins: seq<seq<Swap>>): (r: seq<string>)
    requires forall i :: 0 <= i < |picks| ==> picks[i] < |samples|
    ensures |r| == |picks|
    ensures forall j :: 0 <= j < |picks| ==> r[j] == Mutated(samples[picks[j]], CoinsFor(coins, j))
  {
    seq(|picks|, j requires 0 <= j < |picks| => Mutated(samples[picks[j]], CoinsFor(coins, j)))
  }

  /** The prefix `generate` starts its pool with: the mutated samples of the
      category, none when it has no samples. */
  function SampleStart(cat: string, samples: map<string, seq<string>>, picks: seq<nat>, coins: seq<seq<Swap>>): (r: seq<string>)
    requires cat in samples ==> forall i :: 0 <= i < |picks| ==> picks[i] < |samples[cat]|
    ensures cat !in samples || samples[cat] == [] ==> r == []
    ensures cat in samples && samples[cat] != [] ==>
              |r| == |picks| && forall j :: 0 <= j < |picks| ==> r[j] == Mutated(samples[cat][picks[j]], CoinsFor(coins, j))
  {
    if cat in samples && samples[cat] != [] then Sampled(samples[cat], picks, coins) else []
  }

  /** `pool.extend([mutate_from_sample(b) for b in base])` with `base` the
      sampled entries `samples[picks[0]], samples[picks[1]], ...`. */
  method MutateSamples(samples: seq<string>, picks: seq<nat>, coins: seq<seq<Swap>>) returns (pool: seq<string>)
    requires forall i :: 0 <= i < |picks| ==> picks[i] < |samples|
    ensures pool == Sampled(samples, picks, coins)
    ensures |pool| == |picks|
    ensures forall j :: 0 <= j < |pool| ==> pool[j] == Mutated(samples[picks[j]], CoinsFor(coins, j))
  {
    var base := seq(|picks|, i requires 0 <= i < |picks| => samples[picks[i]]);
    pool := [];
    var i := 0;
    while i < |base|
      invariant 0 <= i <= |base| && |pool| == i
      invariant forall j :: 0 <= j < i ==> pool[j] == Mutated(samples[picks[j]], CoinsFor(coins, j))
    {
      var m := Mutate(base[i], CoinsFor(coins, i));
      pool := pool + [m];
      i := i + 1;
    }
  }

  /** Faces are compared as they are (`s not in seen`). */
  function Itself(x: string): string { x }

  /** What the fill loop makes of `start`: `start`, then the made faces not
      yet present, first occurrence first and in the order made, as many as
      still fit under `n`. */
  function Filled(start: seq<string>, n: int, made: seq<string>): seq<string> {
    start + PrefixTo(Fresh(Itself, Elements(start), made), Max(0, n - |start|))
  }

  /** The `while len(pool) < n` loop of `generate`, run over a finite supply
      of freshly generated template faces `made`: it keeps the pool it is
      given and appends, in order, each made face not yet in the pool, until
      the pool holds `n` faces or the supply is used up. It falls short of `n`
      only when every made face is already in the pool. `origin` names the
      made face behind each appended one. */
  method FillPool(start: seq<string>, n: int, made: seq<string>)
    returns (pool: seq<string>, ghost origin: seq<nat>)
    ensures pool == Filled(start, n, made)
    ensures |start| <= |pool| <= Max(|start|, n) && pool[..|start|] == start
    ensures forall i, j :: 0 <= i < j < |pool| && |start| <= j ==> pool[i] != pool[j]
    ensures |origin| == |pool| - |start|
    ensures forall j :: 0 <= j < |origin| ==> origin[j] < |made| && pool[|start| + j] == made[origin[j]]
    ensures |pool| < n ==> forall t :: 0 <= t < |made| ==> made[t] in pool
  {
    pool, origin := start, [];
    var seen := set x | x in pool;
    var t := 0;
    while |pool| < n && t < |made|
      invariant 0 <= t <= |made|
      invariant |start| <= |pool| <= Max(|start|, n) && pool[..|start|] == start
      invariant forall x :: x in seen <==> x in pool
      invariant forall i, j :: 0 <= i < j < |pool| && |start| <= j ==> pool[i] != pool[j]
      invariant |origin| == |pool| - |start|
      invariant forall j :: 0 <= j < |origin| ==> origin[j] < t && pool[|start| + j] == made[origin[j]]
      invariant forall u :: 0 <= u < t ==> made[u] in pool
      invariant Scanned(Itself, Elements(start), made, t, seen, pool[|start|..])
    {
      var s := made[t];
      ScanStep(Itself, Elements(start), made, t, seen, pool[|start|..]);
      if s !in seen {
        assert (pool + [s])[|start|..] == pool[|start|..] + [s];
        seen := seen + {s};
        pool := pool + [s];
        origin := origin + [t];
      }
      t := t + 1;
    }
    FilledAtExit(start, n, made, t, seen, pool);
  }

  /** When the fill loop stops, the pool is `Filled`: either the supply is
      used up and every fresh face was appended, or the pool reached `n` and
      the appended faces are the first fresh ones. */
  lemma FilledAtExit(start: seq<string>, n: int, made: seq<string>, t: nat, seen: set<string>, pool: seq<string>)
    requires |start| <= |pool| <= Max(|start|, n) && pool[..|start|] == start
    requires Scanned(Itself, Elements(start), made, t, seen, pool[|start|..])
    requires |pool| >= n || t == |made|
    ensures pool == Filled(start, n, made)
  {
    var appended := Fresh(Itself, Elements(start), made);
    var acc := pool[|start|..];
    var m := Max(0, n - |start|);
    assert pool == start + acc;
    if |pool| < n {
      assert made[t..] == [];
      assert appended == acc;
    } else if |start| >= n {
      assert acc == [];
    } else {
      assert |acc| == m;
      assert appended[..m] == acc;
    }
  }

  /** The template faces of the draws, in order: the supply of candidates
      the fill loop takes from. */
  function Made(cat: string, styles: seq<string>, draws: seq<Draw>): (r: seq<string>)
    ensures |r| == |draws|
    ensures forall t :: 0 <= t < |draws| ==> r[t] == GenFor(cat, styles, draws[t])
  {
    seq(|draws|, t requires 0 <= t < |draws| => GenFor(cat, styles, draws[t]))
  }

  /** Cutting the filled pool to `n` keeps the start in front and keeps the
      appended faces distinct and made; a pool left short of `n` holds every
      made face. */
  lemma FilledPrefix(start: seq<string>, pool: seq<string>, origin: seq<nat>, made: seq<string>, n: int)
    requires |start| <= |pool| && pool[..|start|] == start
    requires forall i, j :: 0 <= i < j < |pool| && |start| <= j ==> pool[i] != pool[j]
    requires |origin| == |pool| - |start|
    requires forall j :: 0 <= j < |origin| ==> origin[j] < |made| && pool[|start| + j] == made[origin[j]]
    requires |pool| < n ==> forall t :: 0 <= t < |made| ==> made[t] in pool
    ensures forall i :: 0 <= i < |PrefixTo(pool, n)| && i < |start| ==> PrefixTo(pool, n)[i] == start[i]
    ensures forall i, j :: 0 <= i < j < |PrefixTo(pool, n)| && |start| <= j ==> PrefixTo(pool, n)[i] != PrefixTo(pool, n)[j]
    ensures forall j :: |start| <= j < |PrefixTo(pool, n)| ==> PrefixTo(pool, n)[j] in made
    ensures |start| <= n && |PrefixTo(pool, n)| < n ==> forall t :: 0 <= t < |made| ==> made[t] in PrefixTo(pool, n)
  {
    var faces := PrefixTo(pool, n);
    forall i | 0 <= i < |faces| && i < |start| ensures faces[i] == start[i] {
      assert faces[i] == pool[i] == pool[..|start|][i];
    }
    forall j | |start| <= j < |faces| ensures faces[j] in made {
      var t := origin[j - |start|];
      assert faces[j] == pool[|start| + (j - |start|)] == made[t];
    }
    if |start| <= n && |faces| < n {
      assert faces == pool;
    }
  }

  /** The end of `generate` for a given start and supply: fill, then cut to
      `n`. The start stays in front, the template faces are distinct, made,
      and the first fresh ones; a result short of `n` holds every made face. */
  method Assemble(start: seq<string>, n: int, made: seq<string>) returns (faces: seq<string>)
    ensures faces == PrefixTo(Filled(start, n, made), n)
    ensures n >= 0 ==> |faces| <= n
    ensures 0 <= n <= |start| ==> |faces| == n
    ensures n < 0 ==> |faces| == Max(0, |start| + n)
    ensures forall i :: 0 <= i < |faces| && i < |start| ==> faces[i] == start[i]
    ensures forall i, j :: 0 <= i < j < |faces| && |start| <= j ==> faces[i] != faces[j]
    ensures forall j :: |start| <= j < |faces| ==> faces[j] in made
    ensures |start| <= n && |faces| < n ==> forall t :: 0 <= t < |made| ==> made[t] in faces
  {
    var pool, origin := FillPool(start, n, made);
    faces := PrefixTo(pool, n);
    FilledPrefix(start, pool, origin, made, n);
  }

  /** `generate`, from the classification on: the mutated samples first, then
      the template faces, cut to `n` with Python's slice. */
  method Generate(keywords: seq<string>, n: int, samples: map<string, seq<string>>,
                  picks: seq<nat>, coins: seq<seq<Swap>>, draws: seq<Draw>)
    returns (faces: seq<string>)
    requires var cat := ToCategory(keywords);
             SamplePositions(picks, SampleCount(cat, n, samples), if cat in samples then |samples[cat]| else 0)
    ensures var cat := ToCategory(keywords);
            faces == PrefixTo(Filled(SampleStart(cat, samples, picks, coins), n, Made(cat, Styles(keywords), draws)), n)
    ensures n >= 0 ==> |faces| <= n
    ensures 0 <= n <= SampleCount(ToCategory(keywords), n, samples) ==> |faces| == n
    ensures n < 0 ==> |faces| == Max(0, SampleCount(ToCategory(keywords), n, samples) + n)
    ensures forall i :: 0 <= i < |faces| && i < SampleCount(ToCategory(keywords), n, samples) ==>
              faces[i] == Mutated(samples[ToCategory(keywords)][picks[i]], CoinsFor(coins, i))
    ensures forall i, j :: 0 <= i < j < |faces| && SampleCount(ToCategory(keywords), n, samples) <= j ==>
              faces[i] != faces[j]
    ensures forall j :: SampleCount(ToCategory(keywords), n, samples) <= j < |faces| ==>
              faces[j] in Made(ToCategory(keywords), Styles(keywords), draws)
    ensures SampleCount(ToCategory(keywords), n, samples) <= n && |faces| < n ==>
              forall t :: 0 <= t < |draws| ==> Made(ToCategory(keywords), Styles(keywords), draws)[t] in faces
  {
    var cat := ToCategory(keywords);
    var styles := Styles(keywords);
    var start: seq<string> := [];
    if cat in samples && samples[cat] != [] {
      start := MutateSamples(samples[cat], picks, coins);
    }
    assert start == SampleStart(cat, samples, picks, coins);
    assert |start| == SampleCount(cat, n, samples);
    var made := Made(cat, styles, draws);
    faces := Assemble(start, n, made);
  }
}
