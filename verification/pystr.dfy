/** The Python string operations the pipeline relies on, with Python's
    semantics written out: `str.find` (returning -1 when absent), `str.rfind`,
    slicing with negative and out-of-range bounds, `startswith`/`endswith`,
    `lower`, `strip`, `join`, `split` and `str(n)` for naturals, and string
    ordering as used by `sorted`. */
module PyStr {

  // ---------------------------------------------------------------- find

  /** `sub` occurs in `s` starting at index `i`. */
  predicate OccursAt(s: string, sub: string, i: int) {
    0 <= i && i + |sub| <= |s| && s[i..i + |sub|] == sub
  }

  /** Python normalises a negative `start` by adding `len(s)`, then clamps at 0. */
  function NormStart(start: int, n: nat): nat {
    if start >= 0 then start else if start + n >= 0 then start + n else 0
  }

  function FindFrom(s: string, sub: string, i: nat): (r: int)
    ensures r == -1 || (i <= r && OccursAt(s, sub, r))
    ensures r == -1 ==> forall j :: i <= j ==> !OccursAt(s, sub, j)
    ensures r != -1 ==> forall j :: i <= j < r ==> !OccursAt(s, sub, j)
    decreases |s| - i
  {
    if i + |sub| > |s| then -1
    else if s[i..i + |sub|] == sub then i
    else FindFrom(s, sub, i + 1)
  }

  /** `s.find(sub, start)`: the lowest index at or after `start` where `sub`
      occurs, or -1. */
  function Find(s: string, sub: string, start: int): (r: int)
    ensures r == -1 || (NormStart(start, |s|) <= r && OccursAt(s, sub, r))
    ensures r == -1 ==> forall j :: NormStart(start, |s|) <= j ==> !OccursAt(s, sub, j)
    ensures r != -1 ==> forall j :: NormStart(start, |s|) <= j < r ==> !OccursAt(s, sub, j)
  {
    FindFrom(s, sub, NormStart(start, |s|))
  }

  /** If `c` does not occur in `a`, the first `c` of `a + [c] + b` is at `|a|`. */
  lemma FindCharAfterFree(a: string, c: char, b: string)
    requires c !in a
    ensures Find(a + [c] + b, [c], 0) == |a|
  {
    var s := a + [c] + b;
    assert OccursAt(s, [c], |a|);
    forall j | 0 <= j < |a|
      ensures !OccursAt(s, [c], j)
    {
      assert s[j..j + 1] == [a[j]];
    }
  }

  /** `s.rfind(c)` for a one-character `c`: the last index of `c`, or -1. */
  function RFind(s: string, c: char): (r: int)
    ensures -1 <= r < |s|
    ensures r == -1 <==> c !in s
    ensures r >= 0 ==> s[r] == c && c !in s[r + 1..]
    ensures forall j :: r < j < |s| ==> s[j] != c
  {
    if s == [] then -1
    else if s[|s| - 1] == c then |s| - 1
    else
      assert s[..|s| - 1] + [s[|s| - 1]] == s;
      RFind(s[..|s| - 1], c)
  }

  // ---------------------------------------------------------------- slicing

  /** How Python resolves one slice bound against a sequence of length `n`. */
  function Clamp(i: int, n: nat): (r: nat)
    ensures r <= n
  {
    if i < 0 then (if i + n < 0 then 0 else i + n) else if i > n then n else i
  }

  /** `s[a:b]` with Python's treatment of negative and out-of-range bounds. */
  function Slice(s: string, a: int, b: int): (r: string)
    ensures |r| <= |s|
    ensures 0 <= a <= b <= |s| ==> r == s[a..b]
    ensures Clamp(a, |s|) < Clamp(b, |s|) ==> r == s[Clamp(a, |s|)..Clamp(b, |s|)]
    ensures Clamp(b, |s|) <= Clamp(a, |s|) ==> r == []
  {
    var lo := Clamp(a, |s|);
    var hi := Clamp(b, |s|);
    if lo < hi then s[lo..hi] else []
  }

  // ---------------------------------------------------------------- affixes

  predicate StartsWith(s: string, prefix: string) {
    |prefix| <= |s| && s[..|prefix|] == prefix
  }

  predicate EndsWith(s: string, suffix: string) {
    |suffix| <= |s| && s[|s| - |suffix|..] == suffix
  }

  // ---------------------------------------------------------------- case

  /** `str.lower` restricted to ASCII letters. */
  function LowerChar(c: char): char {
    if 'A' <= c <= 'Z' then (c as int + 32) as char else c
  }

  function Lower(s: string): (r: string)
    ensures |r| == |s|
    ensures forall i :: 0 <= i < |s| ==> r[i] == LowerChar(s[i])
  {
    seq(|s|, i requires 0 <= i < |s| => LowerChar(s[i]))
  }

  lemma LowerAppend(a: string, b: string)
    ensures Lower(a + b) == Lower(a) + Lower(b)
  {
  }

  lemma LowerDot(c: char)
    ensures LowerChar(c) == '.' <==> c == '.'
  {
  }

  // ---------------------------------------------------------------- whitespace

  /** The characters Python's `str.strip()` removes (`str.isspace`). */
  predicate IsSpace(c: char) {
    || '\U{9}' <= c <= '\U{D}'
    || '\U{1C}' <= c <= '\U{20}'
    || c == '\U{85}' || c == '\U{A0}' || c == '\U{1680}'
    || '\U{2000}' <= c <= '\U{200A}'
    || c == '\U{2028}' || c == '\U{2029}' || c == '\U{202F}' || c == '\U{205F}' || c == '\U{3000}'
  }

  function StripStart(s: string): (r: string)
    ensures |r| <= |s|
    ensures r == s[|s| - |r|..]
    ensures r != [] ==> !IsSpace(r[0])
    ensures forall i :: 0 <= i < |s| - |r| ==> IsSpace(s[i])
  {
    if s != [] && IsSpace(s[0]) then StripStart(s[1..]) else s
  }

  function StripEnd(s: string): (r: string)
    ensures |r| <= |s|
    ensures r == s[..|r|]
    ensures r != [] ==> !IsSpace(r[|r| - 1])
    ensures forall i :: |r| <= i < |s| ==> IsSpace(s[i])
  {
    if s != [] && IsSpace(s[|s| - 1]) then StripEnd(s[..|s| - 1]) else s
  }

  /** `s.strip()` */
  function Strip(s: string): string {
    StripEnd(StripStart(s))
  }

  /** `s.strip()` is empty exactly when every character of `s` is whitespace. */
  lemma StripEmptyIff(s: string)
    ensures Strip(s) == [] <==> forall i :: 0 <= i < |s| ==> IsSpace(s[i])
  {
    var t := StripStart(s);
    if Strip(s) == [] {
      forall i | 0 <= i < |s|
        ensures IsSpace(s[i])
      {
        if i >= |s| - |t| {
          assert s[i] == t[i - (|s| - |t|)];
        }
      }
    } else {
      var r := Strip(s);
      assert !IsSpace(r[0]);
      assert r[0] == t[0] == s[|s| - |t|];
    }
  }

  // ---------------------------------------------------------------- join / split

  /** `sep.join(xs)` */
  function Join(xs: seq<string>, sep: string): string {
    if |xs| == 0 then ""
    else if |xs| == 1 then xs[0]
    else xs[0] + sep + Join(xs[1..], sep)
  }

  /** Where the `k`-th element starts in `Join(xs, sep)`: the elements
      before it, each followed by one separator. */
  function JoinOffset(xs: seq<string>, sep: string, k: nat): nat
    requires k <= |xs|
  {
    if k == 0 then 0 else |xs[0]| + |sep| + JoinOffset(xs[1..], sep, k - 1)
  }

  /** Every element appears whole in the join, at its offset. */
  lemma {:induction false} JoinAt(xs: seq<string>, sep: string, k: nat)
    requires k < |xs|
    ensures JoinOffset(xs, sep, k) + |xs[k]| <= |Join(xs, sep)|
    ensures Join(xs, sep)[JoinOffset(xs, sep, k)..JoinOffset(xs, sep, k) + |xs[k]|] == xs[k]
  {
    var j := Join(xs, sep);
    var p := JoinOffset(xs, sep, k);
    if |xs| == 1 {
      assert j == xs[0] && p == 0;
      assert j[p..p + |xs[k]|] == xs[k];
    } else {
      var rest := xs[1..];
      var tail := Join(rest, sep);
      assert j == xs[0] + sep + tail;
      if k == 0 {
        assert p == 0;
        assert j[p..p + |xs[k]|] == xs[k] by {
          SliceOfConcat(xs[0], sep, tail, 0, []);
        }
      } else {
        var q := JoinOffset(rest, sep, k - 1);
        assert p == |xs[0]| + |sep| + q;
        assert j[p..p + |xs[k]|] == xs[k] by {
          JoinAt(rest, sep, k - 1);
          assert rest[k - 1] == xs[k];
          SliceOfConcat(xs[0], sep, tail, q, xs[k]);
        }
      }
    }
  }

  /** A piece found at `q` in `tail` is found `|x + sep|` further on in
      `x + sep + tail`; `x` itself is found at 0. */
  lemma SliceOfConcat(x: string, sep: string, tail: string, q: nat, e: string)
    requires q + |e| <= |tail| && tail[q..q + |e|] == e
    ensures (x + sep + tail)[|x| + |sep| + q..|x| + |sep| + q + |e|] == e
    ensures (x + sep + tail)[..|x|] == x
  {
    assert (x + sep + tail)[|x| + |sep|..] == tail;
  }

  /** Elements appear in order: the `j`-th and a separator end before the
      `k`-th starts. */
  lemma {:induction false} JoinOffsetGrows(xs: seq<string>, sep: string, j: nat, k: nat)
    requires j < k <= |xs|
    ensures JoinOffset(xs, sep, j) + |xs[j]| + |sep| <= JoinOffset(xs, sep, k)
  {
    if j > 0 {
      JoinOffsetGrows(xs[1..], sep, j - 1, k - 1);
      assert xs[1..][j - 1] == xs[j];
    }
  }

  /** `s.split(c)` for a one-character separator: the pieces between the
      occurrences of `c`, so `""` splits to `[""]`. */
  function Split(s: string, c: char): (r: seq<string>)
    ensures |r| >= 1
    decreases |s|
  {
    var i := Find(s, [c], 0);
    if i == -1 then [s] else [s[..i]] + Split(s[i + 1..], c)
  }

  /** Splitting a join on a separator that occurs in no element gives the
      elements back. */
  lemma {:induction false} SplitJoin(xs: seq<string>, c: char)
    requires |xs| >= 1
    requires forall i :: 0 <= i < |xs| ==> c !in xs[i]
    ensures Split(Join(xs, [c]), c) == xs
  {
    if |xs| == 1 {
      var s := xs[0];
      forall j | 0 <= j < |s|
        ensures !OccursAt(s, [c], j)
      {
        assert s[j..j + 1] == [s[j]];
      }
    } else {
      var rest := Join(xs[1..], [c]);
      var s := xs[0] + [c] + rest;
      assert Join(xs, [c]) == s;
      FindCharAfterFree(xs[0], c, rest);
      assert s[..|xs[0]|] == xs[0];
      assert s[|xs[0]| + 1..] == rest;
      SplitJoin(xs[1..], c);
      assert xs == [xs[0]] + xs[1..];
    }
  }

  // ---------------------------------------------------------------- str(n)

  function DigitChar(d: nat): char
    requires d < 10
  {
    "0123456789"[d]
  }

  /** `str(n)` for a natural number: its decimal digits. */
  function NatToString(n: nat): (r: string)
    ensures |r| >= 1
    decreases n
  {
    if n < 10 then [DigitChar(n)] else NatToString(n / 10) + [DigitChar(n % 10)]
  }

  // ---------------------------------------------------------------- ordering

  /** `a <= b` on Python strings: lexicographic by code point, a proper
      prefix coming first. */
  predicate StrLe(a: string, b: string)
    decreases |a|
  {
    if |a| == 0 then true
    else if |b| == 0 then false
    else if a[0] != b[0] then a[0] < b[0]
    else StrLe(a[1..], b[1..])
  }

  lemma {:induction false} StrLeTotal(a: string, b: string)
    ensures StrLe(a, b) || StrLe(b, a)
    decreases |a|
  {
    if |a| > 0 && |b| > 0 && a[0] == b[0] {
      StrLeTotal(a[1..], b[1..]);
    }
  }

  lemma {:induction false} StrLeTrans(a: string, b: string, c: string)
    requires StrLe(a, b) && StrLe(b, c)
    ensures StrLe(a, c)
    decreases |a|
  {
    if |a| > 0 && |b| > 0 && |c| > 0 && a[0] == b[0] == c[0] {
      StrLeTrans(a[1..], b[1..], c[1..]);
    }
  }
}
