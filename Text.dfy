/**
 * String and sequence helpers shared by the generator, the importer and the
 * cleaner. Python `str` values are modelled as `string` (a sequence of code
 * points), so `len` is `|s|` and `x in s` on strings is substring search.
 */
module Text {

  /** Python's `str.isspace()`: the characters `str.strip()` removes and the
      regular-expression class `\s` matches. */
  predicate IsSpace(c: char) {
    ('\t' <= c <= '\r') || ('\U{1C}' <= c <= ' ') || c == '\U{85}' || c == '\U{A0}'
    || c == '\U{1680}' || ('\U{2000}' <= c <= '\U{200A}') || c == '\U{2028}' || c == '\U{2029}'
    || c == '\U{202F}' || c == '\U{205F}' || c == '\U{3000}'
  }

  /** The end of the run of whitespace that starts at `k`. */
  function SpaceRunEnd(s: string, k: nat): (j: nat)
    requires k <= |s|
    ensures k <= j <= |s| && (j == |s| || !IsSpace(s[j]))
    ensures forall m :: k <= m < j ==> IsSpace(s[m])
    decreases |s| - k
  {
    if k < |s| && IsSpace(s[k]) then SpaceRunEnd(s, k + 1) else k
  }

  /** The start of the run of whitespace that ends at `k`. */
  function SpaceRunStart(s: string, k: nat): (j: nat)
    requires k <= |s|
    ensures j <= k && (j == 0 || !IsSpace(s[j - 1]))
    ensures forall m :: j <= m < k ==> IsSpace(s[m])
  {
    if k > 0 && IsSpace(s[k - 1]) then SpaceRunStart(s, k - 1) else k
  }

  /** `s.lstrip()`: drops the leading whitespace, keeps a suffix of `s`. */
  function TrimStart(s: string): (r: string)
    ensures |r| <= |s| && r == s[|s| - |r|..]
    ensures r == [] || !IsSpace(r[0])
    ensures forall i :: 0 <= i < |s| - |r| ==> IsSpace(s[i])
  {
    s[SpaceRunEnd(s, 0)..]
  }

  /** `s.rstrip()`: drops the trailing whitespace, keeps a prefix of `s`. */
  function TrimEnd(s: string): (r: string)
    ensures |r| <= |s| && r == s[..|r|]
    ensures r == [] || !IsSpace(r[|r| - 1])
    ensures forall i :: |r| <= i < |s| ==> IsSpace(s[i])
  {
    s[..SpaceRunStart(s, |s|)]
  }

  /** A string with no whitespace at either end. */
  predicate IsStripped(s: string) {
    s == [] || (!IsSpace(s[0]) && !IsSpace(s[|s| - 1]))
  }

  /** `s.strip()`: the piece of `s` left after cutting whitespace from either
      side; it starts and ends with non-whitespace. */
  function Strip(s: string): (r: string)
    ensures IsStripped(r)
    ensures |r| <= |s|
  {
    TrimEnd(TrimStart(s))
  }

  predicate AllSpace(s: string) {
    forall i :: 0 <= i < |s| ==> IsSpace(s[i])
  }

  lemma TrimStartParts(s: string)
    ensures s == s[..|s| - |TrimStart(s)|] + TrimStart(s)
    ensures AllSpace(s[..|s| - |TrimStart(s)|])
  {
    var i := |s| - |TrimStart(s)|;
    assert s[..i] + s[i..] == s;
    forall j | 0 <= j < i ensures IsSpace(s[..i][j]) {
      assert s[..i][j] == s[j];
    }
  }

  lemma TrimEndParts(t: string)
    ensures t == TrimEnd(t) + t[|TrimEnd(t)|..]
    ensures AllSpace(t[|TrimEnd(t)|..])
  {
    var n := |TrimEnd(t)|;
    assert t[..n] + t[n..] == t;
    forall j | 0 <= j < |t| - n ensures IsSpace(t[n..][j]) {
      assert t[n..][j] == t[n + j];
    }
  }

  /** `s` is the stripped string with whitespace, and only whitespace, on
      either side. */
  lemma StripParts(s: string) returns (i: nat)
    ensures i + |Strip(s)| <= |s|
    ensures s == s[..i] + Strip(s) + s[i + |Strip(s)|..]
    ensures AllSpace(s[..i]) && AllSpace(s[i + |Strip(s)|..])
  {
    var t := TrimStart(s);
    var r := TrimEnd(t);
    i := |s| - |t|;
    TrimStartParts(s);
    TrimEndParts(t);
    assert s[..i] + t == s;
    assert s[i..] == t;
    assert s[i + |r|..] == t[|r|..];
  }

  /** Stripping a stripped string changes nothing, so `Strip` is idempotent. */
  lemma StripStripped(s: string)
    requires IsStripped(s)
    ensures Strip(s) == s
  {
  }

  lemma StripIdempotent(s: string)
    ensures Strip(Strip(s)) == Strip(s)
  {
    StripStripped(Strip(s));
  }

  /** `sub` occurs in `s` starting at position `i`. */
  predicate OccursAt(s: string, sub: string, i: int) {
    0 <= i <= |s| - |sub| && s[i..i + |sub|] == sub
  }

  /** Python's `sub in s` for strings: `sub` occurs as a contiguous piece. */
  predicate Contains(s: string, sub: string) {
    exists i | 0 <= i <= |s| - |sub| :: OccursAt(s, sub, i)
  }

  /** `any(t in s for t in subs)`. */
  predicate ContainsAny(s: string, subs: seq<string>) {
    exists t :: t in subs && Contains(s, t)
  }

  /** `any(ch in s for ch in chars)`. */
  predicate HasAnyChar(s: string, chars: string) {
    exists c :: c in chars && c in s
  }

  predicate IsAsciiUpper(c: char) { 'A' <= c <= 'Z' }
  predicate IsAsciiLetter(c: char) { 'A' <= c <= 'Z' || 'a' <= c <= 'z' }

  /** `c.lower()` restricted to ASCII letters; every other character is kept. */
  function LowerChar(c: char): (r: char)
    ensures IsAsciiLetter(c) <==> IsAsciiLetter(r)
    ensures !IsAsciiUpper(r)
    ensures IsAsciiUpper(c) ==> r as int == c as int + 32
    ensures !IsAsciiUpper(c) ==> r == c
  {
    if IsAsciiUpper(c) then (c as int + 32) as char else c
  }

  /** `s.lower()` restricted to ASCII letters, position by position. */
  function Lower(s: string): (r: string)
    ensures |r| == |s|
    ensures forall i :: 0 <= i < |s| ==> r[i] == LowerChar(s[i])
  {
    seq(|s|, i requires 0 <= i < |s| => LowerChar(s[i]))
  }

  /** `[x for x in s if keep(x)]`. */
  function Filter<T(!new)>(s: seq<T>, keep: T -> bool): (r: seq<T>)
    ensures |r| <= |s|
    ensures forall x :: x in r <==> x in s && keep(x)
    ensures IsSubsequence(r, s)
    ensures forall x :: multiset(r)[x] == if keep(x) then multiset(s)[x] else 0
  {
    assert s != [] ==> s == [s[0]] + s[1..];
    if s == [] then []
    else if keep(s[0]) then [s[0]] + Filter(s[1..], keep)
    else Filter(s[1..], keep)
  }

  /** `r` is `s` with some elements deleted and the rest in their order. */
  ghost predicate IsSubsequence<T>(r: seq<T>, s: seq<T>)
    decreases |s|
  {
    r == [] || (s != [] && ((r[0] == s[0] && IsSubsequence(r[1..], s[1..])) || IsSubsequence(r, s[1..])))
  }

  /** `"".join(parts)`, and flattening a list of lists. */
  function Concat<T>(parts: seq<seq<T>>): (r: seq<T>)
    ensures |r| == SumLengths(parts)
  {
    if parts == [] then [] else parts[0] + Concat(parts[1..])
  }

  function SumLengths<T>(parts: seq<seq<T>>): nat {
    if parts == [] then 0 else |parts[0]| + SumLengths(parts[1..])
  }

  /** The elements of a sequence, as a set. */
  function Elements<T>(s: seq<T>): set<T> {
    set x | x in s
  }

  /** No element occurs twice. */
  predicate Distinct<T(==)>(s: seq<T>) {
    forall i, j :: 0 <= i < j < |s| ==> s[i] != s[j]
  }

  // ---------------------------------------------------------------------
  // De-duplicating append
  // ---------------------------------------------------------------------

  /** The keys of `faces`, in order, without those already in `seen` and
      without repeats: what a de-duplicating append (`if n in seen:
      continue ... seen.add(n)`) adds, with `key` the form compared
      (`normalize` in the importer, `strip` in the cleaner, the face itself
      in the generator's fill loop). */
  function Fresh(key: string -> string, seen: set<string>, faces: seq<string>): (r: seq<string>)
    ensures |r| <= |faces|
    decreases |faces|
  {
    if faces == [] then []
    else
      var n := key(faces[0]);
      if n in seen then Fresh(key, seen, faces[1..]) else [n] + Fresh(key, seen + {n}, faces[1..])
  }

  /** The first face is appended, as its key, unless the key is seen. */
  lemma FreshCons(key: string -> string, seen: set<string>, x: string, rest: seq<string>)
    ensures Fresh(key, seen, [x] + rest)
            == if key(x) in seen then Fresh(key, seen, rest) else [key(x)] + Fresh(key, seen + {key(x)}, rest)
  {
    assert ([x] + rest)[0] == x && ([x] + rest)[1..] == rest;
  }

  /** What is appended occurs once and was not seen before. */
  lemma {:induction false} FreshNew(key: string -> string, seen: set<string>, faces: seq<string>)
    ensures Distinct(Fresh(key, seen, faces))
    ensures forall x :: x in Fresh(key, seen, faces) ==> x !in seen
    decreases |faces|
  {
    if faces != [] {
      var n := key(faces[0]);
      if n in seen {
        FreshNew(key, seen, faces[1..]);
      } else {
        FreshNew(key, seen + {n}, faces[1..]);
      }
    }
  }

  /** What is appended is the key of one of the faces. */
  lemma {:induction false} FreshFrom(key: string -> string, seen: set<string>, faces: seq<string>)
    ensures forall x :: x in Fresh(key, seen, faces) ==> exists f :: f in faces && x == key(f)
    decreases |faces|
  {
    if faces != [] {
      var n := key(faces[0]);
      var seen' := if n in seen then seen else seen + {n};
      FreshFrom(key, seen', faces[1..]);
      assert forall f :: f in faces[1..] ==> f in faces;
    }
  }

  /** Scanning `a` then `b` appends what scanning `a` appends, then what
      scanning `b` appends on top of it. */
  lemma {:induction false} FreshAppend(key: string -> string, seen: set<string>, a: seq<string>, b: seq<string>)
    ensures Fresh(key, seen, a + b) == Fresh(key, seen, a) + Fresh(key, seen + Elements(Fresh(key, seen, a)), b)
    decreases |a|
  {
    if a == [] {
      assert a + b == b;
      assert seen + Elements(Fresh(key, seen, a)) == seen;
    } else {
      assert (a + b)[0] == a[0] && (a + b)[1..] == a[1..] + b;
      var n := key(a[0]);
      if n in seen {
        FreshAppend(key, seen, a[1..], b);
      } else {
        var tail := Fresh(key, seen + {n}, a[1..]);
        FreshAppend(key, seen + {n}, a[1..], b);
        assert Fresh(key, seen, a) == [n] + tail;
        assert Elements([n] + tail) == {n} + Elements(tail);
        assert seen + {n} + Elements(tail) == seen + Elements(Fresh(key, seen, a));
        assert Fresh(key, seen, a + b) == [n] + Fresh(key, seen + {n}, a[1..] + b);
      }
    }
  }

  /** The key of every face is appended or was seen. */
  lemma {:induction false} FreshComplete(key: string -> string, seen: set<string>, faces: seq<string>)
    ensures forall k :: 0 <= k < |faces| ==> key(faces[k]) in seen || key(faces[k]) in Fresh(key, seen, faces)
    decreases |faces|
  {
    if faces != [] {
      var n := key(faces[0]);
      var seen' := if n in seen then seen else seen + {n};
      FreshComplete(key, seen', faces[1..]);
      forall k | 0 <= k < |faces|
        ensures key(faces[k]) in seen || key(faces[k]) in Fresh(key, seen, faces)
      {
        if k > 0 {
          assert faces[k] == faces[1..][k - 1];
        }
      }
    }
  }

  /** After the first `i` faces, the scan has appended `acc` and seen
      `now`, and what it appends from here on completes `Fresh`. */
  ghost predicate Scanned(key: string -> string, seen: set<string>, faces: seq<string>, i: int,
                          now: set<string>, acc: seq<string>) {
    0 <= i <= |faces| && Fresh(key, seen, faces) == acc + Fresh(key, now, faces[i..])
    && now == seen + Elements(acc)
  }

  /** One step of the scan: face `i` is appended as its key unless the key is
      already seen. */
  lemma ScanStep(key: string -> string, seen: set<string>, faces: seq<string>, i: nat,
                 now: set<string>, acc: seq<string>)
    requires i < |faces| && Scanned(key, seen, faces, i, now, acc)
    ensures key(faces[i]) in now ==> Scanned(key, seen, faces, i + 1, now, acc)
    ensures key(faces[i]) !in now ==>
              Scanned(key, seen, faces, i + 1, now + {key(faces[i])}, acc + [key(faces[i])])
  {
    var n := key(faces[i]);
    assert faces[i..][0] == faces[i] && faces[i..][1..] == faces[i + 1..];
    if n !in now {
      assert Elements(acc + [n]) == Elements(acc) + {n};
    }
  }

  lemma ScanDone(key: string -> string, seen: set<string>, faces: seq<string>, now: set<string>, acc: seq<string>)
    requires Scanned(key, seen, faces, |faces|, now, acc)
    ensures acc == Fresh(key, seen, faces) && now == seen + Elements(Fresh(key, seen, faces))
  {
    assert faces[|faces|..] == [];
  }
}
