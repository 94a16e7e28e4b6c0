/**
 * The corpus cleaner: the `is_valid_face` filter and the loop that rebuilds
 * the dataset, keeping each valid face once across all categories.
 */
module Cleaner {
  import opened Text
  import Importer

  // ---------------------------------------------------------------------
  // `is_valid_face`
  // ---------------------------------------------------------------------

  /** Markup, style and link fragments that no face contains. */
  const BadTokens: seq<string> := [
    "<div", "</div", "<span", "</span", "<option", "</option", "class=", "style=",
    "font-size", "px", "!important", "</", "<script", "</script", "http://", "https://"
  ]

  /** Code fragments rejected when the face also holds a semicolon. */
  const CodeTokens: seq<string> := [
    "td:", "hover", "queue.", "push(", ")};", "{}", "return ", "function ", "var ", "let ", "const "
  ]

  /** The letter runs allowed in a face (only `nyan` is long enough to be
      looked up). */
  const Exceptions: set<string> := {"chu", "nyan", "nya", "zzz"}

  /** At least one of these characters marks a string as a face. */
  const SymbolHint: string := "()（）ʕʔ╯┻ツω益ᴥಠಥ；;TToO＿_＾^・·｡ﾟ♥♡✧ᵕᵔ"

  /** The end of the run of ASCII letters that starts at `k`. */
  function LetterRunEnd(s: string, k: nat): (j: nat)
    requires k <= |s|
    ensures k <= j <= |s| && (j == |s| || !IsAsciiLetter(s[j]))
    ensures forall m :: k <= m < j ==> IsAsciiLetter(s[m])
    decreases |s| - k
  {
    if k < |s| && IsAsciiLetter(s[k]) then LetterRunEnd(s, k + 1) else k
  }

  /** A run of letters found by the `[A-Za-z]{4,}` search passes when it is
      shorter than four letters (no match) or is an exception once
      lowercased. */
  predicate RunAllowed(s: string, a: nat, b: nat)
    requires a <= b <= |s|
  {
    b - a < 4 || Lower(s[a..b]) in Exceptions
  }

  /** The search over the letters from `i` on: a greedy match of four or
      more letters always takes a whole run of letters, and a shorter run
      yields no match, so the scan visits run by run. */
  predicate LetterRunsOk(s: string, i: nat)
    requires i <= |s|
    decreases |s| - i
  {
    if i == |s| then true
    else if !IsAsciiLetter(s[i]) then LetterRunsOk(s, i + 1)
    else
      var j := LetterRunEnd(s, i);
      RunAllowed(s, i, j) && LetterRunsOk(s, j)
  }

  /** `is_valid_face`: the checks in the order the source makes them. */
  predicate IsValidFace(s: string) {
    if s == [] then false
    else
      var t := Strip(s);
      if |t| < 2 || |t| > 60 then false
      else
        var lower := Lower(t);
        if ContainsAny(lower, BadTokens) then false
        else if '<' in t || '>' in t then false
        else if Contains(t, "&#") || (';' in t && ContainsAny(lower, CodeTokens)) then false
        else if HasAnyChar(t, "{};") then false
        else if !LetterRunsOk(t, 0) then false
        else HasAnyChar(t, SymbolHint)
  }

  // ---------------------------------------------------------------------
  // A reference reading of `is_valid_face`
  // ---------------------------------------------------------------------

  /** `s[a..b]` is a maximal run of ASCII letters. */
  predicate MaximalRun(s: string, a: int, b: int) {
    0 <= a < b <= |s| && (a == 0 || !IsAsciiLetter(s[a - 1])) && (b == |s| || !IsAsciiLetter(s[b]))
    && forall m :: a <= m < b ==> IsAsciiLetter(s[m])
  }

  /** Every maximal run of four or more ASCII letters is an exception. */
  ghost predicate RunsAllowed(s: string) {
    forall a, b :: MaximalRun(s, a, b) ==> RunAllowed(s, a, b)
  }

  /** A valid face, stated as one conjunction over the stripped string: the
      `;`-with-code check is dropped because a `;` alone already rejects. */
  ghost predicate Acceptable(t: string) {
    2 <= |t| <= 60 && !ContainsAny(Lower(t), BadTokens)
    && '<' !in t && '>' !in t && '{' !in t && '}' !in t && ';' !in t && !Contains(t, "&#")
    && RunsAllowed(t) && HasAnyChar(t, SymbolHint)
  }

  /** No run of letters starts inside a run or ends before the run does. */
  predicate Boundary(s: string, i: nat)
    requires i <= |s|
  {
    i == 0 || i == |s| || !IsAsciiLetter(s[i - 1]) || !IsAsciiLetter(s[i])
  }

  /** The run-by-run scan from a boundary accepts exactly when every
      maximal run from there on is allowed. */
  lemma {:induction false} LetterRunsOkSpec(s: string, i: nat)
    requires i <= |s| && Boundary(s, i)
    ensures LetterRunsOk(s, i) <==> forall a, b :: i <= a && MaximalRun(s, a, b) ==> RunAllowed(s, a, b)
    decreases |s| - i
  {
    if i == |s| {
    } else if !IsAsciiLetter(s[i]) {
      LetterRunsOkSpec(s, i + 1);
      assert forall a, b :: i <= a && MaximalRun(s, a, b) ==> i + 1 <= a;
    } else {
      var j := LetterRunEnd(s, i);
      LetterRunsOkSpec(s, j);
      assert MaximalRun(s, i, j);
      forall a, b | i <= a < j ensures !MaximalRun(s, a, b) || (a == i && b == j) {
        if a > i {
          InsideRun(s, a, b);
        } else if MaximalRun(s, a, b) {
          RunEndUnique(s, i, b, j);
        }
      }
    }
  }

  /** A run cannot start right after a letter. */
  lemma InsideRun(s: string, a: int, b: int)
    requires 0 < a <= |s| && IsAsciiLetter(s[a - 1])
    ensures !MaximalRun(s, a, b)
  {
  }

  /** A maximal run is determined by where it starts. */
  lemma RunEndUnique(s: string, i: int, b: int, j: int)
    requires MaximalRun(s, i, b) && MaximalRun(s, i, j)
    ensures b == j
  {
  }

  lemma SpecialChars(t: string)
    ensures HasAnyChar(t, "{};") <==> '{' in t || '}' in t || ';' in t
  {
    if '{' in t {
      assert '{' in "{};";
    }
    if '}' in t {
      assert '}' in "{};";
    }
    if ';' in t {
      assert ';' in "{};";
    }
  }

  /** `is_valid_face` accepts exactly the strings whose stripped form is
      acceptable: it rejects the empty string, stripped lengths outside
      2..60, banned tokens in the lowercased string, any of `<`, `>`, `{`,
      `}`, `;` and `&#`, a maximal run of four or more letters that is not an
      exception, and strings without a hint character. */
  lemma IsValidFaceSpec(s: string)
    ensures IsValidFace(s) <==> Acceptable(Strip(s))
  {
    var t := Strip(s);
    SpecialChars(t);
    LetterRunsOkSpec(t, 0);
  }

  /** Stripping first does not change the verdict, so the cleaner may strip
      before it asks. */
  lemma IsValidFaceStrip(s: string)
    ensures IsValidFace(Strip(s)) == IsValidFace(s)
  {
    StripIdempotent(s);
    IsValidFaceSpec(s);
    IsValidFaceSpec(Strip(s));
  }

  /** A valid face that does not start with `#` also passes the importer's
      `is_face_like`, since both hint strings are the same. */
  lemma ValidIsFaceLike(s: string)
    requires IsValidFace(s) && Strip(s)[0] != '#'
    ensures Importer.IsFaceLike(Strip(s))
  {
    var t := Strip(s);
    IsValidFaceSpec(s);
    var c :| c in SymbolHint && c in t;
    var i :| 0 <= i < |t| && t[i] == c;
    assert SymbolHint == Importer.FaceHint;
  }

  // ---------------------------------------------------------------------
  // The cleaning loop of `main`
  // ---------------------------------------------------------------------

  /** A loaded category value: a list of items (already turned into strings)
      or anything else. */
  datatype Entry = Items(items: seq<string>) | NotAList

  /** `items if isinstance(items, list) else []`. */
  function ItemsOf(e: Entry): (r: seq<string>)
    ensures e.Items? ==> r == e.items
    ensures e.NotAList? ==> r == []
  {
    match e
    case Items(l) => l
    case NotAList => []
  }

  /** The items whose key passes `keep`, in order (the cleaner: whose
      stripped form is a valid face). */
  function Passing(key: string -> string, keep: string -> bool, items: seq<string>): (r: seq<string>)
    ensures |r| <= |items|
    ensures forall x :: x in r ==> x in items && keep(key(x))
  {
    if items == [] then []
    else (if keep(key(items[0])) then [items[0]] else []) + Passing(key, keep, items[1..])
  }

  /** The lists kept for `data`, category by category, when `seen` holds the
      faces kept before: each keeps the keys of its passing items that were
      not kept before, first occurrence first. */
  function Kept(key: string -> string, keep: string -> bool, seen: set<string>,
                data: seq<(string, Entry)>): (r: seq<seq<string>>)
    ensures |r| == |data|
    decreases |data|
  {
    if data == [] then []
    else
      var k := Fresh(key, seen, Passing(key, keep, ItemsOf(data[0].1)));
      [k] + Kept(key, keep, seen + Elements(k), data[1..])
  }

  /** The passing items of every category, one list per category. */
  function PassingLists(key: string -> string, keep: string -> bool, data: seq<(string, Entry)>): (r: seq<seq<string>>)
    ensures |r| == |data|
  {
    if data == [] then [] else [Passing(key, keep, ItemsOf(data[0].1))] + PassingLists(key, keep, data[1..])
  }

  /** How many items `data` holds. */
  function ItemCount(data: seq<(string, Entry)>): nat {
    if data == [] then 0 else |ItemsOf(data[0].1)| + ItemCount(data[1..])
  }

  /** How many of the items of `data` fail `keep`. */
  function Failing(key: string -> string, keep: string -> bool, data: seq<(string, Entry)>): nat {
    if data == [] then 0
    else |ItemsOf(data[0].1)| - |Passing(key, keep, ItemsOf(data[0].1))| + Failing(key, keep, data[1..])
  }

  /** The values of the cleaned dictionary, in order. */
  function Values(out: seq<(string, seq<string>)>): (r: seq<seq<string>>)
    ensures |r| == |out|
  {
    if out == [] then [] else [out[0].1] + Values(out[1..])
  }

  lemma {:induction false} ValuesAppend(out: seq<(string, seq<string>)>, p: (string, seq<string>))
    ensures Values(out + [p]) == Values(out) + [p.1]
    decreases |out|
  {
    if out == [] {
      assert out + [p] == [p];
    } else {
      assert (out + [p])[0] == out[0] && (out + [p])[1..] == out[1..] + [p];
      ValuesAppend(out[1..], p);
    }
  }

  /** After the first `i` items of one category, the list so far is `list`,
      the seen set `now`, `removed` counts the failing items, and what is
      kept from here on completes the category's kept list. */
  ghost predicate ListScanned(key: string -> string, keep: string -> bool, seen: set<string>,
                              items: seq<string>, i: int, now: set<string>, list: seq<string>, removed: int) {
    0 <= i <= |items| && now == seen + Elements(list)
    && Fresh(key, seen, Passing(key, keep, items))
         == list + Fresh(key, now, Passing(key, keep, items[i..]))
    && removed + |Passing(key, keep, items)| == i + |Passing(key, keep, items[i..])|
  }

  /** An item whose key fails is counted as removed. */
  lemma {:induction false} ListStepFails(key: string -> string, keep: string -> bool, seen: set<string>,
                                         items: seq<string>, i: nat, now: set<string>, list: seq<string>, removed: int)
    requires i < |items| && ListScanned(key, keep, seen, items, i, now, list, removed)
    requires !keep(key(items[i]))
    ensures ListScanned(key, keep, seen, items, i + 1, now, list, removed + 1)
  {
    PassingAt(key, keep, items, i);
    assert Passing(key, keep, items[i..]) == Passing(key, keep, items[i + 1..]);
  }

  /** A passing item whose key is already seen is skipped. */
  lemma {:induction false} ListStepSeen(key: string -> string, keep: string -> bool, seen: set<string>,
                                        items: seq<string>, i: nat, now: set<string>, list: seq<string>, removed: int)
    requires i < |items| && ListScanned(key, keep, seen, items, i, now, list, removed)
    requires keep(key(items[i])) && key(items[i]) in now
    ensures ListScanned(key, keep, seen, items, i + 1, now, list, removed)
  {
    var rest := Passing(key, keep, items[i + 1..]);
    PassingAt(key, keep, items, i);
    FreshCons(key, now, items[i], rest);
  }

  /** A passing item with a new key is kept, as its key. */
  lemma {:induction false} ListStepKept(key: string -> string, keep: string -> bool, seen: set<string>,
                                        items: seq<string>, i: nat, now: set<string>, list: seq<string>, removed: int)
    requires i < |items| && ListScanned(key, keep, seen, items, i, now, list, removed)
    requires keep(key(items[i])) && key(items[i]) !in now
    ensures ListScanned(key, keep, seen, items, i + 1, now + {key(items[i])}, list + [key(items[i])], removed)
  {
    var n := key(items[i]);
    var rest := Passing(key, keep, items[i + 1..]);
    var later := Fresh(key, now + {n}, rest);
    PassingAt(key, keep, items, i);
    assert Passing(key, keep, items[i..]) == [items[i]] + rest;
    FreshCons(key, now, items[i], rest);
    assert Fresh(key, now, [items[i]] + rest) == [n] + later;
    assert list + ([n] + later) == (list + [n]) + later;
    assert Elements(list + [n]) == Elements(list) + {n};
  }

  /** The passing items from `i` on: item `i` if it passes, then the rest. */
  lemma PassingAt(key: string -> string, keep: string -> bool, items: seq<string>, i: nat)
    requires i < |items|
    ensures Passing(key, keep, items[i..])
            == (if keep(key(items[i])) then [items[i]] else []) + Passing(key, keep, items[i + 1..])
  {
    assert items[i..][0] == items[i] && items[i..][1..] == items[i + 1..];
  }

  /** The inner loop over one category's items. */
  method CleanList(key: string -> string, keep: string -> bool, seen: set<string>, items: seq<string>)
    returns (list: seq<string>, seen': set<string>, removed: nat)
    ensures list == Fresh(key, seen, Passing(key, keep, items))
    ensures seen' == seen + Elements(list)
    ensures removed == |items| - |Passing(key, keep, items)|
  {
    list, seen', removed := [], seen, 0;
    assert items[0..] == items;
    for i := 0 to |items|
      invariant ListScanned(key, keep, seen, items, i, seen', list, removed)
    {
      var s2 := key(items[i]);
      if !keep(s2) {
        ListStepFails(key, keep, seen, items, i, seen', list, removed);
        removed := removed + 1;
        continue;
      }
      if s2 in seen' {
        ListStepSeen(key, keep, seen, items, i, seen', list, removed);
        continue;
      }
      ListStepKept(key, keep, seen, items, i, seen', list, removed);
      seen' := seen' + {s2};
      list := list + [s2];
    }
    assert items[|items|..] == [];
  }

  /** After the first `c` categories the cleaned entries are `out`, and
      cleaning the rest from `seen` completes the whole. */
  ghost predicate Cleaned(key: string -> string, keep: string -> bool, data: seq<(string, Entry)>, c: int,
                          seen: set<string>, out: seq<(string, seq<string>)>, removed: int, total: int) {
    0 <= c <= |data| && |out| == c && (forall i :: 0 <= i < c ==> out[i].0 == data[i].0)
    && Kept(key, keep, {}, data) == Values(out) + Kept(key, keep, seen, data[c..])
    && removed + Failing(key, keep, data[c..]) == Failing(key, keep, data)
    && total + ItemCount(data[c..]) == ItemCount(data)
  }

  lemma {:induction false} CleanedStep(key: string -> string, keep: string -> bool, data: seq<(string, Entry)>, c: nat,
                    seen: set<string>, out: seq<(string, seq<string>)>, removed: int, total: int)
    requires c < |data|
    ensures
      var items := ItemsOf(data[c].1);
      var list := Fresh(key, seen, Passing(key, keep, items));
      Cleaned(key, keep, data, c, seen, out, removed, total) ==>
      Cleaned(key, keep, data, c + 1, seen + Elements(list), out + [(data[c].0, list)],
              removed + (|items| - |Passing(key, keep, items)|), total + |items|)
  {
    if Cleaned(key, keep, data, c, seen, out, removed, total) {
      var items := ItemsOf(data[c].1);
      var list := Fresh(key, seen, Passing(key, keep, items));
      KeptAtFrom(key, keep, data, c, seen);
      KeysKept(out, data, c, list);
      ValuesGrow(Kept(key, keep, {}, data), out, list, Kept(key, keep, seen + Elements(list), data[c + 1..]));
    }
  }

  lemma KeysKept(out: seq<(string, seq<string>)>, data: seq<(string, Entry)>, c: nat, list: seq<string>)
    requires c < |data| && |out| == c && forall i :: 0 <= i < c ==> out[i].0 == data[i].0
    ensures forall i :: 0 <= i < c + 1 ==> (out + [(data[c].0, list)])[i].0 == data[i].0
  {
  }

  lemma ValuesGrow(all: seq<seq<string>>, out: seq<(string, seq<string>)>, list: seq<string>, rest: seq<seq<string>>)
    requires all == Values(out) + ([list] + rest)
    ensures forall k :: all == Values(out + [(k, list)]) + rest
  {
    forall k ensures all == Values(out + [(k, list)]) + rest {
      ValuesAppend(out, (k, list));
      assert Values(out) + ([list] + rest) == (Values(out) + [list]) + rest;
    }
  }

  /** Cleaning from category `c` on: category `c`, then the rest. */
  lemma KeptAtFrom(key: string -> string, keep: string -> bool, data: seq<(string, Entry)>, c: nat, seen: set<string>)
    requires c < |data|
    ensures
      var list := Fresh(key, seen, Passing(key, keep, ItemsOf(data[c].1)));
      && Kept(key, keep, seen, data[c..]) == [list] + Kept(key, keep, seen + Elements(list), data[c + 1..])
      && Failing(key, keep, data[c..])
         == |ItemsOf(data[c].1)| - |Passing(key, keep, ItemsOf(data[c].1))| + Failing(key, keep, data[c + 1..])
      && ItemCount(data[c..]) == |ItemsOf(data[c].1)| + ItemCount(data[c + 1..])
  {
    assert data[c..][0] == data[c] && data[c..][1..] == data[c + 1..];
  }

  /** The loop of `main` with the item key and filter as parameters. */
  method CleanWith(key: string -> string, keep: string -> bool, data: seq<(string, Entry)>)
    returns (cleaned: seq<(string, seq<string>)>, removed: nat, total: nat)
    ensures |cleaned| == |data| && forall i :: 0 <= i < |data| ==> cleaned[i].0 == data[i].0
    ensures Values(cleaned) == Kept(key, keep, {}, data)
    ensures removed == Failing(key, keep, data)
    ensures total == ItemCount(data)
  {
    cleaned, removed, total := [], 0, 0;
    var seen: set<string> := {};
    assert data[0..] == data;
    for c := 0 to |data|
      invariant Cleaned(key, keep, data, c, seen, cleaned, removed, total)
    {
      CleanedStep(key, keep, data, c, seen, cleaned, removed, total);
      var items := ItemsOf(data[c].1);
      total := total + |items|;
      var list, more;
      list, seen, more := CleanList(key, keep, seen, items);
      removed := removed + more;
      cleaned := cleaned + [(data[c].0, list)];
    }
    assert data[|data|..] == [];
  }

  /** The cleaning loop of `main` over the loaded dictionary, given as its
      entries in order: each item is stripped, invalid ones are counted as
      removed, repeats of a face kept earlier (in any category) are
      skipped, and the rest are kept. */
  method Clean(data: seq<(string, Entry)>) returns (cleaned: seq<(string, seq<string>)>, removed: nat, total: nat)
    ensures |cleaned| == |data| && forall i :: 0 <= i < |data| ==> cleaned[i].0 == data[i].0
    ensures Values(cleaned) == Kept(Strip, IsValidFace, {}, data)
    ensures removed == Failing(Strip, IsValidFace, data)
    ensures total == ItemCount(data)
  {
    cleaned, removed, total := CleanWith(Strip, IsValidFace, data);
  }

  // ---------------------------------------------------------------------
  // Properties of the cleaned data
  // ---------------------------------------------------------------------

  /** The kept lists, run together, are the first occurrences of the keys of
      all the passing items, in order. */
  lemma {:induction false} KeptConcat(key: string -> string, keep: string -> bool, seen: set<string>,
                                      data: seq<(string, Entry)>)
    ensures Concat(Kept(key, keep, seen, data)) == Fresh(key, seen, Concat(PassingLists(key, keep, data)))
    decreases |data|
  {
    if data != [] {
      var p := Passing(key, keep, ItemsOf(data[0].1));
      var k := Fresh(key, seen, p);
      KeptConcat(key, keep, seen + Elements(k), data[1..]);
      FreshAppend(key, seen, p, Concat(PassingLists(key, keep, data[1..])));
      assert Kept(key, keep, seen, data)[1..] == Kept(key, keep, seen + Elements(k), data[1..]);
      assert PassingLists(key, keep, data)[1..] == PassingLists(key, keep, data[1..]);
    }
  }

  lemma {:induction false} PassingListsKeep(key: string -> string, keep: string -> bool, data: seq<(string, Entry)>)
    ensures forall f :: f in Concat(PassingLists(key, keep, data)) ==> keep(key(f))
    decreases |data|
  {
    if data != [] {
      PassingListsKeep(key, keep, data[1..]);
      assert PassingLists(key, keep, data)[1..] == PassingLists(key, keep, data[1..]);
    }
  }

  /** Every face in the cleaned data is stripped and valid, and no face
      occurs twice across all categories. */
  lemma CleanedFaces(data: seq<(string, Entry)>)
    ensures Distinct(Concat(Kept(Strip, IsValidFace, {}, data)))
    ensures forall x :: x in Concat(Kept(Strip, IsValidFace, {}, data)) ==> IsStripped(x) && IsValidFace(x)
  {
    var all := Concat(PassingLists(Strip, IsValidFace, data));
    KeptConcat(Strip, IsValidFace, {}, data);
    FreshNew(Strip, {}, all);
    FreshFrom(Strip, {}, all);
    PassingListsKeep(Strip, IsValidFace, data);
  }

  /** The stripped form of every valid item is kept: the first occurrence
      wins and the later ones are the skipped duplicates. */
  lemma CleanedComplete(data: seq<(string, Entry)>)
    ensures forall f :: f in Concat(PassingLists(Strip, IsValidFace, data)) ==>
              Strip(f) in Concat(Kept(Strip, IsValidFace, {}, data))
  {
    var all := Concat(PassingLists(Strip, IsValidFace, data));
    KeptConcat(Strip, IsValidFace, {}, data);
    FreshComplete(Strip, {}, all);
  }

  /** How many of `faces` are skipped as repeats of a seen key. */
  function Skipped(key: string -> string, seen: set<string>, faces: seq<string>): nat
    decreases |faces|
  {
    if faces == [] then 0
    else
      var n := key(faces[0]);
      if n in seen then 1 + Skipped(key, seen, faces[1..]) else Skipped(key, seen + {n}, faces[1..])
  }

  /** Each passing item is either kept or skipped. */
  lemma {:induction false} FreshSkipped(key: string -> string, seen: set<string>, faces: seq<string>)
    ensures |Fresh(key, seen, faces)| + Skipped(key, seen, faces) == |faces|
    decreases |faces|
  {
    if faces != [] {
      var n := key(faces[0]);
      FreshSkipped(key, if n in seen then seen else seen + {n}, faces[1..]);
    }
  }

  lemma {:induction false} ItemsSplit(key: string -> string, keep: string -> bool, data: seq<(string, Entry)>)
    ensures ItemCount(data) == Failing(key, keep, data) + |Concat(PassingLists(key, keep, data))|
    decreases |data|
  {
    if data != [] {
      ItemsSplit(key, keep, data[1..]);
      assert PassingLists(key, keep, data)[1..] == PassingLists(key, keep, data[1..]);
    }
  }

  /** `total` is the number of kept faces plus `removed` plus the skipped
      duplicates, and `removed` counts exactly the invalid items. */
  lemma CleanCounts(data: seq<(string, Entry)>)
    ensures ItemCount(data)
            == |Concat(Kept(Strip, IsValidFace, {}, data))| + Failing(Strip, IsValidFace, data)
               + Skipped(Strip, {}, Concat(PassingLists(Strip, IsValidFace, data)))
  {
    KeptConcat(Strip, IsValidFace, {}, data);
    FreshSkipped(Strip, {}, Concat(PassingLists(Strip, IsValidFace, data)));
    ItemsSplit(Strip, IsValidFace, data);
  }

  /** A category whose value is not a list comes out empty. */
  lemma NotAListEmpty(data: seq<(string, Entry)>, i: nat)
    requires i < |data| && data[i].1 == NotAList
    ensures Kept(Strip, IsValidFace, {}, data)[i] == []
  {
    KeptAt(Strip, IsValidFace, {}, data, i);
  }

  lemma {:induction false} KeptAt(key: string -> string, keep: string -> bool, seen: set<string>,
                                  data: seq<(string, Entry)>, i: nat)
    requires i < |data|
    ensures exists s :: Kept(key, keep, seen, data)[i] == Fresh(key, s, Passing(key, keep, ItemsOf(data[i].1)))
    decreases i
  {
    var k := Fresh(key, seen, Passing(key, keep, ItemsOf(data[0].1)));
    if i > 0 {
      KeptAt(key, keep, seen + Elements(k), data[1..], i - 1);
    }
  }
}
