/**
 * The corpus importer (`tools/import_samples.py`): the face-likeness test,
 * the priority-ordered classifier, whitespace normalisation, the line
 * fallback of `extract_faces` and the merge of imported faces into the
 * category lists.
 */
module Importer {
  import opened Text

  // ---------------------------------------------------------------------
  // Face-likeness
  // ---------------------------------------------------------------------

  /** The characters of the `FACE_HINT` class. */
  const FaceHint: string := "()（）ʕʔ╯┻ツω益ᴥಠಥ；;TToO＿_＾^・·｡ﾟ♥♡✧ᵕᵔ"

  /** `is_face_like`: between 2 and 60 characters, not starting with `#`, and
      some position of the string holds a hint character. */
  function IsFaceLike(s: string): (r: bool)
    ensures r <==> 2 <= |s| <= 60 && s[0] != '#' && exists i :: 0 <= i < |s| && s[i] in FaceHint
  {
    if s == [] then false
    else if |s| < 2 || |s| > 60 then false
    else if s[0] == '#' then false
    else HasAnyChar(s, FaceHint)
  }

  // ---------------------------------------------------------------------
  // Categorisation
  // ---------------------------------------------------------------------

  const CryTokens: seq<string> :=
    ["T_T", "；；", ";;", "•̥", "꒦", "｡ﾟ", " ﾟ｡", "ಥ", "つД", "ノД", "༎ຶ", "(T", "；_；"]
  const AngryTokens: seq<string> := ["益", "皿", "凸", "╬", "`д´", "ಠ益", "(╯", "#`", "｀Д´"]
  const SleepyTokens: seq<string> := ["zZ", "Zz", "｡oO", "-_-", "(－_－)"]
  const CatTokens: seq<string> := ["=^", "ฅ", "ᆺ", "ↀ"]
  const DogTokens: seq<string> := ["ᴥ", "（U・", "(U･", "∪･"]
  const HappyTokens: seq<string> := ["＾▽＾", "^_^", "(＾", "≧▽≦", "٩", "(￣", "(⌒", "♪", "✧", "(˶ᵔ"]

  /** The checks of `categorize` in the order it tries them. */
  const Rules: seq<(string, seq<string>)> :=
    [("cry", CryTokens), ("angry", AngryTokens), ("sleepy", SleepyTokens),
     ("cat", CatTokens), ("dog", DogTokens), ("happy", HappyTokens)]

  /** The seven categories the merge always provides. */
  const Standard: seq<string> := ["cat", "dog", "cry", "happy", "angry", "sleepy", "misc"]

  function Categorize(face: string): (r: string)
    ensures r in Standard
  {
    if ContainsAny(face, CryTokens) then "cry"
    else if ContainsAny(face, AngryTokens) then "angry"
    else if ContainsAny(face, SleepyTokens) then "sleepy"
    else if ContainsAny(face, CatTokens) then "cat"
    else if ContainsAny(face, DogTokens) then "dog"
    else if ContainsAny(face, HappyTokens) then "happy"
    else "misc"
  }

  /** A table-driven reading of `categorize`: the name of the first rule
      from position `k` on whose tokens occur in the face, `misc` when none
      does. */
  function FirstRule(face: string, rules: seq<(string, seq<string>)>, k: nat): (r: string)
    ensures r == "misc" || exists i :: k <= i < |rules| && r == rules[i].0
    decreases |rules| - k
  {
    if k >= |rules| then "misc"
    else if ContainsAny(face, rules[k].1) then rules[k].0
    else FirstRule(face, rules, k + 1)
  }

  /** Rule `i` is the first from position `k` on whose tokens occur in
      `face`. */
  predicate FirstMatch(face: string, rules: seq<(string, seq<string>)>, k: nat, i: int) {
    k <= i < |rules| && ContainsAny(face, rules[i].1)
    && forall j :: k <= j < i ==> !ContainsAny(face, rules[j].1)
  }

  /** `categorize` is the first-match scan over its rule table. */
  lemma CategorizeByRules(face: string)
    ensures Categorize(face) == FirstRule(face, Rules, 0)
  {
    assert FirstRule(face, Rules, 6) == "misc";
    assert FirstRule(face, Rules, 5) == if ContainsAny(face, HappyTokens) then "happy" else "misc";
    assert FirstRule(face, Rules, 4) == if ContainsAny(face, DogTokens) then "dog" else FirstRule(face, Rules, 5);
    assert FirstRule(face, Rules, 3) == if ContainsAny(face, CatTokens) then "cat" else FirstRule(face, Rules, 4);
    assert FirstRule(face, Rules, 2) == if ContainsAny(face, SleepyTokens) then "sleepy" else FirstRule(face, Rules, 3);
    assert FirstRule(face, Rules, 1) == if ContainsAny(face, AngryTokens) then "angry" else FirstRule(face, Rules, 2);
    assert FirstRule(face, Rules, 0) == if ContainsAny(face, CryTokens) then "cry" else FirstRule(face, Rules, 1);
  }

  /** With rule names that are distinct and not `misc`, the scan from `k`
      names rule `i` exactly when rule `i` is the first from `k` on that
      matches, and `misc` exactly when no rule from `k` on matches. */
  lemma {:induction false} FirstRuleSpec(face: string, rules: seq<(string, seq<string>)>, k: nat)
    requires k <= |rules|
    requires forall i, j :: 0 <= i < j < |rules| ==> rules[i].0 != rules[j].0
    requires forall i :: 0 <= i < |rules| ==> rules[i].0 != "misc"
    ensures forall i :: k <= i < |rules| ==> (FirstRule(face, rules, k) == rules[i].0 <==> FirstMatch(face, rules, k, i))
    ensures FirstRule(face, rules, k) == "misc" <==> forall i :: k <= i < |rules| ==> !ContainsAny(face, rules[i].1)
    decreases |rules| - k
  {
    if k < |rules| {
      FirstRuleSpec(face, rules, k + 1);
      var r := FirstRule(face, rules, k);
      forall i | k <= i < |rules|
        ensures r == rules[i].0 <==> FirstMatch(face, rules, k, i)
      {
        if ContainsAny(face, rules[k].1) {
          if i > k {
            assert !FirstMatch(face, rules, k, i) by { assert k <= k < i; }
            assert rules[k].0 != rules[i].0;
          }
        } else if i == k {
          var r' := FirstRule(face, rules, k + 1);
          if r' != "misc" {
            var i' :| k + 1 <= i' < |rules| && r' == rules[i'].0;
            assert rules[k].0 != rules[i'].0;
          }
        } else {
          if FirstMatch(face, rules, k + 1, i) {
            forall j | k <= j < i ensures !ContainsAny(face, rules[j].1) {
              if j > k { assert k + 1 <= j < i; }
            }
          }
        }
      }
    }
  }

  /** `categorize` returns the category of the first matching check, so a
      face with both a cry token and an angry token is `cry`; it returns
      `misc` exactly when no check matches. */
  lemma CategorizeFirstMatch(face: string)
    ensures forall i :: 0 <= i < |Rules| ==> (Categorize(face) == Rules[i].0 <==> FirstMatch(face, Rules, 0, i))
    ensures Categorize(face) == "misc" <==> forall i :: 0 <= i < |Rules| ==> !ContainsAny(face, Rules[i].1)
  {
    CategorizeByRules(face);
    FirstRuleSpec(face, Rules, 0);
  }

  // ---------------------------------------------------------------------
  // Normalisation
  // ---------------------------------------------------------------------

  /** The non-whitespace characters of `s`, in order. */
  function Visible(s: string): string {
    if s == [] then [] else (if IsSpace(s[0]) then [] else [s[0]]) + Visible(s[1..])
  }

  /** Every whitespace character is a plain space and none follows another. */
  predicate Collapsed(s: string) {
    forall i :: 0 <= i < |s| && IsSpace(s[i]) ==> s[i] == ' ' && (i + 1 < |s| ==> !IsSpace(s[i + 1]))
  }

  /** `re.sub(r"\s+", " ", s)`: each maximal run of whitespace becomes one
      space. */
  function Collapse(s: string): (r: string)
    ensures |r| <= |s|
    ensures Collapsed(r)
    ensures s != [] && !IsSpace(s[0]) ==> r != [] && r[0] == s[0]
    ensures s != [] && !IsSpace(s[|s| - 1]) ==> r != [] && r[|r| - 1] == s[|s| - 1]
    decreases |s|
  {
    if s == [] then []
    else if IsSpace(s[0]) then
      var t := TrimStart(s);
      [' '] + Collapse(t)
    else [s[0]] + Collapse(s[1..])
  }

  /** `normalize`: strip, then collapse the inner whitespace. */
  function Normalize(s: string): (r: string)
    ensures IsStripped(r) && Collapsed(r)
  {
    Collapse(Strip(s))
  }

  lemma {:induction false} VisibleOfSpaces(s: string)
    requires AllSpace(s)
    ensures Visible(s) == []
  {
    if s != [] {
      VisibleOfSpaces(s[1..]);
    }
  }

  lemma {:induction false} VisibleAppend(a: string, b: string)
    ensures Visible(a + b) == Visible(a) + Visible(b)
  {
    if a == [] {
      assert a + b == b;
    } else {
      assert (a + b)[0] == a[0] && (a + b)[1..] == a[1..] + b;
      VisibleAppend(a[1..], b);
    }
  }

  /** Collapsing whitespace keeps every other character, in order. */
  lemma {:induction false} CollapseVisible(s: string)
    ensures Visible(Collapse(s)) == Visible(s)
    decreases |s|
  {
    if s == [] {
    } else if IsSpace(s[0]) {
      var t := TrimStart(s);
      var k := |s| - |t|;
      assert s == s[..k] + t;
      assert AllSpace(s[..k]);
      VisibleOfSpaces(s[..k]);
      VisibleAppend(s[..k], t);
      CollapseVisible(t);
      VisibleAppend([' '], Collapse(t));
    } else {
      assert s == [s[0]] + s[1..];
      VisibleAppend([s[0]], s[1..]);
      CollapseVisible(s[1..]);
      VisibleAppend([s[0]], Collapse(s[1..]));
    }
  }

  lemma VisibleAround(a: string, r: string, c: string)
    requires AllSpace(a) && AllSpace(c)
    ensures Visible(a + r + c) == Visible(r)
  {
    VisibleAppend(a + r, c);
    VisibleAppend(a, r);
    VisibleOfSpaces(a);
    VisibleOfSpaces(c);
  }

  /** Stripping cuts only whitespace. */
  lemma StripVisible(s: string)
    ensures Visible(Strip(s)) == Visible(s)
  {
    var i := StripParts(s);
    VisibleAround(s[..i], Strip(s), s[i + |Strip(s)|..]);
  }

  /** `normalize` changes nothing but whitespace. */
  lemma NormalizeVisible(s: string)
    ensures Visible(Normalize(s)) == Visible(s)
  {
    StripVisible(s);
    CollapseVisible(Strip(s));
  }

  lemma CollapsedTail(s: string)
    requires s != [] && Collapsed(s)
    ensures Collapsed(s[1..])
  {
    forall i | 0 <= i < |s[1..]| && IsSpace(s[1..][i])
      ensures s[1..][i] == ' ' && (i + 1 < |s[1..]| ==> !IsSpace(s[1..][i + 1]))
    {
      assert s[1..][i] == s[i + 1];
    }
  }

  /** A lone leading whitespace character is all `lstrip` removes. */
  lemma SingleSpace(s: string)
    requires s != [] && Collapsed(s) && IsSpace(s[0])
    ensures s[0] == ' ' && TrimStart(s) == s[1..]
  {
    assert |s| == 1 || !IsSpace(s[1]);
    assert SpaceRunEnd(s, 1) == 1;
  }

  /** A collapsed string is left alone by the collapse. */
  lemma {:induction false} CollapseCollapsed(s: string)
    requires Collapsed(s)
    ensures Collapse(s) == s
    decreases |s|
  {
    if s != [] {
      CollapsedTail(s);
      CollapseCollapsed(s[1..]);
      if IsSpace(s[0]) {
        SingleSpace(s);
        assert Collapse(s) == [' '] + Collapse(s[1..]);
      } else {
        assert Collapse(s) == [s[0]] + Collapse(s[1..]);
      }
      assert s == [s[0]] + s[1..];
    }
  }

  /** The whitespace run from `k` ends at the first non-whitespace
      character. */
  lemma {:induction false} SpaceRunEndAt(s: string, k: nat, j: nat)
    requires k <= j <= |s| && (j == |s| || !IsSpace(s[j]))
    requires forall m :: k <= m < j ==> IsSpace(s[m])
    ensures SpaceRunEnd(s, k) == j
    decreases j - k
  {
    if k < j {
      SpaceRunEndAt(s, k + 1, j);
    }
  }

  /** A whitespace run in front of `b` is all `lstrip` removes. */
  lemma TrimStartSpaces(w: string, b: string)
    requires AllSpace(w) && (b == [] || !IsSpace(b[0]))
    ensures TrimStart(w + b) == b
  {
    if b != [] {
      assert (w + b)[|w|] == b[0];
    }
    SpaceRunEndAt(w + b, 0, |w|);
    assert (w + b)[|w|..] == b;
  }

  /** `lstrip` of a string with a non-whitespace character in it does not
      reach what follows the string. */
  lemma TrimStartAppend(a: string, c: string)
    requires a != [] && !IsSpace(a[|a| - 1])
    ensures TrimStart(a + c) == TrimStart(a) + c
  {
    var j := SpaceRunEnd(a, 0);
    assert j < |a|;
    assert (a + c)[j] == a[j];
    SpaceRunEndAt(a + c, 0, j);
    assert (a + c)[j..] == a[j..] + c;
  }

  /** A run of whitespace between two non-whitespace characters (or the ends
      of the string) becomes exactly one space, and the pieces on either side
      are collapsed on their own: whitespace is never dropped altogether. */
  lemma {:induction false} CollapseRun(a: string, w: string, b: string)
    requires a == [] || !IsSpace(a[|a| - 1])
    requires w != [] && AllSpace(w)
    requires b == [] || !IsSpace(b[0])
    ensures Collapse(a + w + b) == Collapse(a) + " " + Collapse(b)
    decreases |a|, 1
  {
    if a == [] {
      assert a + w + b == w + b;
      assert (w + b)[0] == w[0];
      TrimStartSpaces(w, b);
    } else if IsSpace(a[0]) {
      CollapseRunSpace(a, w, b);
    } else {
      CollapseRunText(a, w, b);
    }
  }

  /** `Collapse` keeps a non-whitespace first character. */
  lemma CollapseText(c: char, s: string)
    requires !IsSpace(c)
    ensures Collapse([c] + s) == [c] + Collapse(s)
  {
    assert ([c] + s)[0] == c && ([c] + s)[1..] == s;
  }

  /** `Collapse` turns a leading whitespace run into one space. */
  lemma CollapseSpace(s: string)
    requires s != [] && IsSpace(s[0])
    ensures Collapse(s) == " " + Collapse(TrimStart(s))
  {
  }

  /** Regrouping a sequence that has one element in front. */
  lemma ConsRegroup<T>(c: T, p: seq<T>, q: seq<T>, r: seq<T>)
    ensures [c] + (p + q + r) == [c] + p + q + r
  {
  }

  /** `CollapseRun` when `a` starts with whitespace. */
  lemma {:induction false} CollapseRunSpace(a: string, w: string, b: string)
    requires a != [] && IsSpace(a[0]) && !IsSpace(a[|a| - 1])
    requires w != [] && AllSpace(w)
    requires b == [] || !IsSpace(b[0])
    ensures Collapse(a + w + b) == Collapse(a) + " " + Collapse(b)
    decreases |a|, 0
  {
    var t := TrimStart(a);
    var s := a + w + b;
    assert s == a + (w + b);
    assert s[0] == a[0];
    TrimStartAppend(a, w + b);
    assert t + (w + b) == t + w + b;
    CollapseSpace(s);
    CollapseSpace(a);
    CollapseRun(t, w, b);
    ConsRegroup(' ', Collapse(t), " ", Collapse(b));
  }

  /** `CollapseRun` when `a` starts with a non-whitespace character. */
  lemma {:induction false} CollapseRunText(a: string, w: string, b: string)
    requires a != [] && !IsSpace(a[0]) && !IsSpace(a[|a| - 1])
    requires w != [] && AllSpace(w)
    requires b == [] || !IsSpace(b[0])
    ensures Collapse(a + w + b) == Collapse(a) + " " + Collapse(b)
    decreases |a|, 0
  {
    var u := a[1..];
    assert a == [a[0]] + u;
    ConsRegroup(a[0], u, w, b);
    CollapseText(a[0], u + w + b);
    CollapseText(a[0], u);
    CollapseRun(u, w, b);
    ConsRegroup(a[0], Collapse(u), " ", Collapse(b));
  }

  /** Normalising twice is normalising once. */
  lemma NormalizeIdempotent(s: string)
    ensures Normalize(Normalize(s)) == Normalize(s)
  {
    var n := Normalize(s);
    StripStripped(n);
    CollapseCollapsed(n);
  }

  // ---------------------------------------------------------------------
  // The line fallback of `extract_faces`
  // ---------------------------------------------------------------------

  /** The line boundaries of `str.splitlines`. */
  predicate IsLineBreak(c: char) {
    c == '\n' || c == '\r' || c == '\U{0B}' || c == '\U{0C}' || c == '\U{1C}' || c == '\U{1D}'
    || c == '\U{1E}' || c == '\U{85}' || c == '\U{2028}' || c == '\U{2029}'
  }

  /** The characters of `s` that are not line boundaries, in order. */
  function Unbroken(s: string): string {
    if s == [] then [] else (if IsLineBreak(s[0]) then [] else [s[0]]) + Unbroken(s[1..])
  }

  predicate NoBreaks(s: string) {
    forall i :: 0 <= i < |s| ==> !IsLineBreak(s[i])
  }

  /** `splitlines` of `text`, where `cur` is the part of the current line
      already read: a `\r\n` pair or any single boundary character ends a
      line, and a boundary at the very end opens no further line. */
  function LinesFrom(text: string, cur: string): (r: seq<string>)
    requires NoBreaks(cur)
    ensures forall k :: 0 <= k < |r| ==> NoBreaks(r[k])
    decreases |text|
  {
    if text == [] then (if cur == [] then [] else [cur])
    else if text[0] == '\r' && |text| > 1 && text[1] == '\n' then [cur] + LinesFrom(text[2..], [])
    else if IsLineBreak(text[0]) then [cur] + LinesFrom(text[1..], [])
    else LinesFrom(text[1..], cur + [text[0]])
  }

  lemma ConcatCons(x: string, rest: seq<string>)
    ensures Concat([x] + rest) == x + Concat(rest)
  {
    assert ([x] + rest)[0] == x && ([x] + rest)[1..] == rest;
  }

  /** Joining the lines gives back every character of the text that is not a
      line boundary, in order. */
  lemma {:induction false} LinesJoin(text: string, cur: string)
    requires NoBreaks(cur)
    ensures Concat(LinesFrom(text, cur)) == cur + Unbroken(text)
    decreases |text|
  {
    if text == [] {
      if cur != [] {
        ConcatCons(cur, []);
      }
    } else if text[0] == '\r' && |text| > 1 && text[1] == '\n' {
      LinesJoin(text[2..], []);
      ConcatCons(cur, LinesFrom(text[2..], []));
      assert text[1..][0] == '\n' && text[1..][1..] == text[2..];
      assert Unbroken(text[1..]) == Unbroken(text[2..]);
      assert Unbroken(text) == Unbroken(text[1..]);
    } else if IsLineBreak(text[0]) {
      LinesJoin(text[1..], []);
      ConcatCons(cur, LinesFrom(text[1..], []));
      assert Unbroken(text) == Unbroken(text[1..]);
    } else {
      var cur' := cur + [text[0]];
      assert NoBreaks(cur') by {
        assert forall i :: 0 <= i < |cur| ==> cur'[i] == cur[i];
      }
      LinesJoin(text[1..], cur');
      assert Unbroken(text) == [text[0]] + Unbroken(text[1..]);
      assert cur' + Unbroken(text[1..]) == cur + ([text[0]] + Unbroken(text[1..]));
    }
  }

  /** `text.splitlines()`. */
  function SplitLines(text: string): (r: seq<string>)
    ensures forall k :: 0 <= k < |r| ==> NoBreaks(r[k])
  {
    LinesFrom(text, [])
  }

  /** The lines of `text` hold every character of it but the boundaries, in
      order. */
  lemma SplitLinesJoin(text: string)
    ensures Concat(SplitLines(text)) == Unbroken(text)
  {
    LinesJoin(text, []);
  }

  /** Characters that are not boundaries extend the current line. */
  lemma {:induction false} LinesFromPlain(a: string, cur: string, rest: string)
    requires NoBreaks(a) && NoBreaks(cur)
    ensures NoBreaks(cur + a)
    ensures LinesFrom(a + rest, cur) == LinesFrom(rest, cur + a)
    decreases |a|
  {
    assert forall i :: 0 <= i < |cur + a| ==> (cur + a)[i] == if i < |cur| then cur[i] else a[i - |cur|];
    if a == [] {
      assert a + rest == rest && cur + a == cur;
    } else {
      var cur' := cur + [a[0]];
      assert forall i :: 0 <= i < |cur'| ==> cur'[i] == if i < |cur| then cur[i] else a[0];
      assert (a + rest)[0] == a[0] && (a + rest)[1..] == a[1..] + rest;
      assert forall i :: 0 <= i < |a[1..]| ==> a[1..][i] == a[i + 1];
      LinesFromPlain(a[1..], cur', rest);
      assert cur' + a[1..] == cur + a;
    }
  }

  /** A boundary character ends the line before it; `\r` directly followed
      by `\n` is handled by `SplitLinesCrLf`. */
  lemma SplitLinesBreak(a: string, c: char, b: string)
    requires NoBreaks(a) && IsLineBreak(c) && !(c == '\r' && b != [] && b[0] == '\n')
    ensures SplitLines(a + [c] + b) == [a] + SplitLines(b)
  {
    assert a + [c] + b == a + ([c] + b);
    LinesFromPlain(a, [], [c] + b);
    assert [] + a == a;
    assert ([c] + b)[0] == c && ([c] + b)[1..] == b;
  }

  /** A `\r\n` pair ends the line before it as one boundary. */
  lemma SplitLinesCrLf(a: string, b: string)
    requires NoBreaks(a)
    ensures SplitLines(a + "\r\n" + b) == [a] + SplitLines(b)
  {
    assert a + "\r\n" + b == a + ("\r\n" + b);
    LinesFromPlain(a, [], "\r\n" + b);
    assert [] + a == a;
    assert ("\r\n" + b)[0] == '\r' && ("\r\n" + b)[1] == '\n' && ("\r\n" + b)[2..] == b;
  }

  /** A last line without a boundary is still a line; the empty text has
      none. */
  lemma SplitLinesLast(a: string)
    requires NoBreaks(a)
    ensures SplitLines(a) == if a == [] then [] else [a]
  {
    LinesFromPlain(a, [], []);
    assert a + [] == a && [] + a == a;
  }

  /** The stripped lines of `lines[..i]` that look like faces. */
  ghost predicate LineFace(lines: seq<string>, i: int, f: string) {
    IsFaceLike(f) && exists k :: 0 <= k < i && k < |lines| && f == Strip(lines[k])
  }

  /** The line fallback of `extract_faces`: the set of stripped lines that
      look like faces. */
  method ExtractLineFaces(text: string) returns (faces: set<string>)
    ensures forall f :: f in faces <==> LineFace(SplitLines(text), |SplitLines(text)|, f)
    ensures forall f :: f in faces ==> IsStripped(f) && IsFaceLike(f)
  {
    var lines := SplitLines(text);
    faces := {};
    for i := 0 to |lines|
      invariant forall f :: f in faces <==> LineFace(lines, i, f)
    {
      var s := Strip(lines[i]);
      forall f ensures LineFace(lines, i + 1, f) <==> LineFace(lines, i, f) || (f == s && IsFaceLike(s)) {
        if LineFace(lines, i + 1, f) && !LineFace(lines, i, f) {
          var k :| 0 <= k < i + 1 && k < |lines| && f == Strip(lines[k]);
          assert k == i;
        }
      }
      if IsFaceLike(s) {
        faces := faces + {s};
      }
    }
  }

  // ---------------------------------------------------------------------
  // The merge in `main`
  // ---------------------------------------------------------------------

  // The de-duplicating append itself is `Fresh`, in module Text.

  /** `[x for x in xs if kind(x) == cat]`: what the merge appends to
      category `cat` when `kind` classifies the faces (`categorize` in the
      merge). */
  function OfCategory(kind: string -> string, xs: seq<string>, cat: string): (r: seq<string>)
    ensures |r| <= |xs|
    ensures forall x :: x in r ==> x in xs && kind(x) == cat
  {
    if xs == [] then []
    else (if kind(xs[0]) == cat then [xs[0]] else []) + OfCategory(kind, xs[1..], cat)
  }

  /** A category receives exactly the appended faces classified into it, in
      their order. */
  lemma {:induction false} OfCategoryMembers(kind: string -> string, xs: seq<string>, cat: string)
    ensures forall x :: x in OfCategory(kind, xs, cat) <==> x in xs && kind(x) == cat
    ensures IsSubsequence(OfCategory(kind, xs, cat), xs)
    decreases |xs|
  {
    if xs != [] {
      OfCategoryMembers(kind, xs[1..], cat);
      assert xs == [xs[0]] + xs[1..];
      var r := OfCategory(kind, xs, cat);
      if kind(xs[0]) == cat {
        assert r[0] == xs[0] && r[1..] == OfCategory(kind, xs[1..], cat);
      } else {
        assert r == OfCategory(kind, xs[1..], cat);
        SubsequenceSkip(r, xs);
      }
    }
  }

  lemma SubsequenceSkip<T>(r: seq<T>, s: seq<T>)
    requires s != [] && IsSubsequence(r, s[1..])
    ensures IsSubsequence(r, s)
  {
  }

  lemma {:induction false} OfCategoryAppend(kind: string -> string, xs: seq<string>, ys: seq<string>, cat: string)
    ensures OfCategory(kind, xs + ys, cat) == OfCategory(kind, xs, cat) + OfCategory(kind, ys, cat)
    decreases |xs|
  {
    if xs == [] {
      assert xs + ys == ys;
    } else {
      assert (xs + ys)[0] == xs[0] && (xs + ys)[1..] == xs[1..] + ys;
      OfCategoryAppend(kind, xs[1..], ys, cat);
    }
  }

  /** How many items the categories `cats` receive from `xs`. */
  function Received(kind: string -> string, xs: seq<string>, cats: seq<string>): nat {
    if cats == [] then 0 else |OfCategory(kind, xs, cats[0])| + Received(kind, xs, cats[1..])
  }

  function Occurrences(cats: seq<string>, c: string): nat {
    if cats == [] then 0 else (if cats[0] == c then 1 else 0) + Occurrences(cats[1..], c)
  }

  lemma {:induction false} ReceivedCons(kind: string -> string, x: string, xs: seq<string>, cats: seq<string>)
    ensures Received(kind, [x] + xs, cats) == Occurrences(cats, kind(x)) + Received(kind, xs, cats)
    decreases |cats|
  {
    if cats != [] {
      assert ([x] + xs)[0] == x && ([x] + xs)[1..] == xs;
      ReceivedCons(kind, x, xs, cats[1..]);
    }
  }

  lemma ReceivedNothing(kind: string -> string, cats: seq<string>)
    ensures Received(kind, [], cats) == 0
  {
  }

  /** When every face is classified into a category that occurs once in
      `cats`, the categories together receive every face. */
  lemma {:induction false} ReceivedAll(kind: string -> string, xs: seq<string>, cats: seq<string>)
    requires forall x :: x in xs ==> Occurrences(cats, kind(x)) == 1
    ensures Received(kind, xs, cats) == |xs|
    decreases |xs|
  {
    if xs == [] {
      ReceivedNothing(kind, cats);
    } else {
      ReceivedAll(kind, xs[1..], cats);
      assert xs == [xs[0]] + xs[1..];
      ReceivedCons(kind, xs[0], xs[1..], cats);
    }
  }

  /** A name of a list with no repeats occurs in it exactly once. */
  lemma {:induction false} DistinctOnce(cats: seq<string>, c: string)
    requires Distinct(cats) && c in cats
    ensures Occurrences(cats, c) == 1
    decreases |cats|
  {
    if cats[0] == c {
      OccurrencesAbsent(cats[1..], c);
    } else {
      DistinctOnce(cats[1..], c);
    }
  }

  lemma {:induction false} OccurrencesAbsent(cats: seq<string>, c: string)
    requires c !in cats
    ensures Occurrences(cats, c) == 0
    decreases |cats|
  {
    if cats != [] {
      OccurrencesAbsent(cats[1..], c);
    }
  }

  /** When `kind` sends every face to one of a list of distinct categories,
      the categories together receive every face. */
  lemma ReceivedInto(kind: string -> string, xs: seq<string>, cats: seq<string>)
    requires Distinct(cats) && forall x :: kind(x) in cats
    ensures Received(kind, xs, cats) == |xs|
  {
    forall x | x in xs ensures Occurrences(cats, kind(x)) == 1 {
      DistinctOnce(cats, kind(x));
    }
    ReceivedAll(kind, xs, cats);
  }

  /** `categorize` sends every face to exactly one of the seven standard
      lists, so together they receive every appended face: `added` is the
      total number of faces appended. */
  lemma {:induction false} CategoriesReceiveAll(xs: seq<string>)
    ensures Received(Categorize, xs, Standard) == |xs|
  {
    StandardDistinct();
    CategorizeTotal();
    ReceivedInto(Categorize, xs, Standard);
  }

  lemma CategorizeTotal()
    ensures forall x :: Categorize(x) in Standard
  {
    forall x ensures Categorize(x) in Standard {
      var c := Categorize(x);
    }
  }

  lemma StandardDistinct()
    ensures Distinct(Standard)
  {
  }

  /** `l[:5000]` when `l` is longer than 5000. */
  function Cap(l: seq<string>): (r: seq<string>)
    ensures |r| <= 5000 && |r| <= |l| && r == l[..|r|]
    ensures |l| <= 5000 ==> r == l
  {
    if |l| > 5000 then l[..5000] else l
  }

  /** The normalised forms of the faces already stored. */
  function SeenOf(m: map<string, seq<string>>): (r: set<string>)
    ensures forall k, x :: k in m && x in m[k] ==> Normalize(x) in r
    ensures forall y :: y in r ==> exists k, x :: k in m && x in m[k] && y == Normalize(x)
  {
    set k, x | k in m && x in m[k] :: Normalize(x)
  }

  /** The truncation loop at the end of the merge. */
  method CapAll(m: map<string, seq<string>>) returns (out: map<string, seq<string>>)
    ensures out.Keys == m.Keys
    ensures forall k :: k in m ==> out[k] == Cap(m[k])
  {
    out := m;
    var todo := m.Keys;
    while todo != {}
      invariant todo <= m.Keys && out.Keys == m.Keys
      invariant forall k :: k in m && k !in todo ==> out[k] == Cap(m[k])
      invariant forall k :: k in todo ==> out[k] == m[k]
      decreases todo
    {
      var key :| key in todo;
      if |out[key]| > 5000 {
        out := out[key := out[key][..5000]];
      }
      todo := todo - {key};
    }
  }

  /** The stored list of category `k` before any face is appended. */
  function Before(existing: map<string, seq<string>>, k: string): seq<string> {
    if k in existing then existing[k] else []
  }

  /** `merged.setdefault(k, [])` for the seven standard categories. */
  method AddStandard(existing: map<string, seq<string>>) returns (merged: map<string, seq<string>>)
    ensures merged.Keys == existing.Keys + Elements(Standard)
    ensures forall k :: k in merged ==> merged[k] == Before(existing, k)
  {
    merged := existing;
    for c := 0 to |Standard|
      invariant merged.Keys == existing.Keys + Elements(Standard[..c])
      invariant forall k :: k in merged ==> merged[k] == Before(existing, k)
    {
      assert Elements(Standard[..c + 1]) == Elements(Standard[..c]) + {Standard[c]} by {
        assert Standard[..c + 1] == Standard[..c] + [Standard[c]];
      }
      if Standard[c] !in merged {
        merged := merged[Standard[c] := []];
      }
    }
    assert Standard[..|Standard|] == Standard;
  }

  /** Every list of `now` is its list in `start` followed by its share of
      `acc`. */
  ghost predicate Grown(kind: string -> string, start: map<string, seq<string>>,
                        now: map<string, seq<string>>, acc: seq<string>) {
    now.Keys == start.Keys && forall k :: k in start ==> now[k] == start[k] + OfCategory(kind, acc, k)
  }

  /** Appending `n` to the list its kind names keeps the lists grown by the
      faces appended so far. */
  lemma AppendedOne(kind: string -> string, start: map<string, seq<string>>, before: map<string, seq<string>>,
                    acc: seq<string>, n: string)
    requires kind(n) in start && Grown(kind, start, before, acc)
    ensures Grown(kind, start, before[kind(n) := before[kind(n)] + [n]], acc + [n])
  {
    var after := before[kind(n) := before[kind(n)] + [n]];
    forall k | k in start ensures after[k] == start[k] + OfCategory(kind, acc + [n], k) {
      OfCategoryAppend(kind, acc, [n], k);
      assert [n][1..] == [];
      if kind(n) == k {
        assert OfCategory(kind, [n], k) == [n];
        assert after[k] == start[k] + OfCategory(kind, acc, k) + [n];
      } else {
        assert OfCategory(kind, [n], k) == [];
        assert OfCategory(kind, acc, k) + [] == OfCategory(kind, acc, k);
      }
    }
  }

  /** The loop over the faces of one source: each face whose key (its
      normalised form) is not yet seen is appended, as its key, to the list
      its kind (its category) names. */
  method MergeFaces(key: string -> string, kind: string -> string, merged: map<string, seq<string>>,
                    seen: set<string>, faces: seq<string>)
    returns (merged': map<string, seq<string>>, seen': set<string>, added: nat)
    requires forall x :: kind(x) in merged
    ensures merged'.Keys == merged.Keys
    ensures forall k :: k in merged ==> merged'[k] == merged[k] + OfCategory(kind, Fresh(key, seen, faces), k)
    ensures seen' == seen + Elements(Fresh(key, seen, faces))
    ensures added == |Fresh(key, seen, faces)|
  {
    merged', seen', added := merged, seen, 0;
    ghost var acc: seq<string> := [];
    assert faces[0..] == faces;
    for i := 0 to |faces|
      invariant Scanned(key, seen, faces, i, seen', acc)
      invariant Grown(kind, merged, merged', acc)
      invariant added == |acc|
    {
      var n := key(faces[i]);
      ScanStep(key, seen, faces, i, seen', acc);
      if n !in seen' {
        var cat := kind(n);
        var l := if cat in merged' then merged'[cat] else [];
        AppendedOne(kind, merged, merged', acc, n);
        merged' := merged'[cat := l + [n]];
        seen' := seen' + {n};
        added := added + 1;
        acc := acc + [n];
      }
    }
    ScanDone(key, seen, faces, seen', acc);
  }

  /** After the first `b` sources, the merge has appended `acc` and seen
      `now`, and what it appends from here on completes `Fresh` over all the
      imported faces. */
  ghost predicate Imported(key: string -> string, seen: set<string>, batches: seq<seq<string>>, b: int,
                           now: set<string>, acc: seq<string>) {
    0 <= b <= |batches| && Fresh(key, seen, Concat(batches)) == acc + Fresh(key, now, Concat(batches[b..]))
  }

  lemma ImportStep(key: string -> string, seen: set<string>, batches: seq<seq<string>>, b: nat,
                   now: set<string>, acc: seq<string>)
    requires b < |batches| && Imported(key, seen, batches, b, now, acc)
    ensures Imported(key, seen, batches, b + 1, now + Elements(Fresh(key, now, batches[b])),
                     acc + Fresh(key, now, batches[b]))
  {
    assert Concat(batches[b..]) == batches[b] + Concat(batches[b + 1..]) by {
      assert batches[b..][0] == batches[b] && batches[b..][1..] == batches[b + 1..];
    }
    FreshAppend(key, now, batches[b], Concat(batches[b + 1..]));
  }

  lemma ImportDone(key: string -> string, seen: set<string>, batches: seq<seq<string>>,
                   now: set<string>, acc: seq<string>)
    requires Imported(key, seen, batches, |batches|, now, acc)
    ensures acc == Fresh(key, seen, Concat(batches))
  {
    assert batches[|batches|..] == [];
  }

  lemma GrownTrans(kind: string -> string, a: map<string, seq<string>>, b: map<string, seq<string>>,
                   c: map<string, seq<string>>, xs: seq<string>, ys: seq<string>)
    requires Grown(kind, a, b, xs) && Grown(kind, b, c, ys)
    ensures Grown(kind, a, c, xs + ys)
  {
    forall k | k in a ensures c[k] == a[k] + OfCategory(kind, xs + ys, k) {
      OfCategoryAppend(kind, xs, ys, k);
    }
  }

  /** The loop over the sources: each source's faces are merged in turn,
      sharing one set of seen keys, so together they append the fresh faces
      of all the sources in order. */
  method ImportAll(key: string -> string, kind: string -> string, start: map<string, seq<string>>,
                   seen: set<string>, batches: seq<seq<string>>)
    returns (merged: map<string, seq<string>>, added: nat)
    requires forall x :: kind(x) in start
    ensures Grown(kind, start, merged, Fresh(key, seen, Concat(batches)))
    ensures added == |Fresh(key, seen, Concat(batches))|
  {
    merged := start;
    var now := seen;
    ghost var acc: seq<string> := [];
    added := 0;
    assert batches[0..] == batches;
    for b := 0 to |batches|
      invariant Imported(key, seen, batches, b, now, acc)
      invariant Grown(kind, start, merged, acc)
      invariant added == |acc|
    {
      ImportStep(key, seen, batches, b, now, acc);
      ghost var got := Fresh(key, now, batches[b]);
      ghost var before := merged;
      var more;
      merged, now, more := MergeFaces(key, kind, merged, now, batches[b]);
      GrownTrans(kind, start, before, merged, acc, got);
      added := added + more;
      acc := acc + got;
    }
    ImportDone(key, seen, batches, now, acc);
  }

  /** The merge of `main`: `existing` is the loaded data and `batches` the
      faces extracted from each source in turn (a source that fails to load
      contributes none). Each category ends up as its stored list followed by
      the appended faces of that category, cut to 5000; `added` counts the
      appended faces. */
  method Merge(existing: map<string, seq<string>>, batches: seq<seq<string>>)
    returns (merged: map<string, seq<string>>, added: nat)
    ensures merged.Keys == existing.Keys + Elements(Standard)
    ensures forall k :: k in merged ==>
              merged[k] == Cap(Before(existing, k) + OfCategory(Categorize, Fresh(Normalize, SeenOf(existing), Concat(batches)), k))
    ensures added == |Fresh(Normalize, SeenOf(existing), Concat(batches))|
  {
    var base := AddStandard(existing);
    var seen := set k, x | k in base && x in base[k] :: Normalize(x);
    assert seen == SeenOf(existing);
    assert forall x :: Categorize(x) in base;
    var grown;
    grown, added := ImportAll(Normalize, Categorize, base, seen, batches);
    merged := CapAll(grown);
  }
}
