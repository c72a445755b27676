/** The relationship-type sanitiser shared by both Neo4j ingesters: spaces,
    hyphens and dots become underscores, then every character that is not
    alphanumeric or `_` is dropped, and an empty result falls back to
    `RELATES_TO`. `str.isalnum` is taken on ASCII only. */
module RelType {

  const Fallback: string := "RELATES_TO"

  /** `c.isalnum() or c == "_"`, for ASCII. */
  predicate IsLabelChar(c: char) {
    || 'a' <= c <= 'z' || 'A' <= c <= 'Z' || '0' <= c <= '9' || c == '_'
  }

  /** A valid Neo4j relationship type as the ingesters produce it. */
  predicate IsLabel(s: string) {
    s != [] && forall i | 0 <= i < |s| :: IsLabelChar(s[i])
  }

  /** `s.replace(from, to)` for one-character `from` and `to`. */
  function ReplaceChar(s: string, from: char, to: char): (r: string)
    ensures |r| == |s|
    ensures forall i | 0 <= i < |s| :: r[i] == (if s[i] == from then to else s[i])
  {
    if s == [] then []
    else [if s[0] == from then to else s[0]] + ReplaceChar(s[1..], from, to)
  }

  /** `rel_type.replace(" ", "_").replace("-", "_").replace(".", "_")` */
  function Underscore(s: string): string {
    ReplaceChar(ReplaceChar(ReplaceChar(s, ' ', '_'), '-', '_'), '.', '_')
  }

  /** `"".join(c for c in s if c.isalnum() or c == "_")` */
  function KeepLabelChars(s: string): (r: string)
    ensures |r| <= |s|
  {
    if s == [] then []
    else (if IsLabelChar(s[0]) then [s[0]] else []) + KeepLabelChars(s[1..])
  }

  /** The sanitised relationship type. */
  function Sanitize(relType: string): string {
    var kept := KeepLabelChars(Underscore(relType));
    if kept == [] then Fallback else kept
  }

  // ------------------------------------------------------------------ the three steps

  /** The chain of replacements maps each of space, hyphen and dot to `_`
      and leaves every other character alone. */
  lemma UnderscoreAt(s: string)
    ensures |Underscore(s)| == |s|
    ensures forall i | 0 <= i < |s| :: Underscore(s)[i] == (if s[i] in " -." then '_' else s[i])
  {
  }

  /** The filter keeps exactly the label characters, in order. */
  lemma {:induction false} KeepLabelCharsSpec(s: string)
    ensures forall i | 0 <= i < |KeepLabelChars(s)| :: IsLabelChar(KeepLabelChars(s)[i])
    ensures forall c :: c in KeepLabelChars(s) <==> c in s && IsLabelChar(c)
    decreases |s|
  {
    if s != [] {
      KeepLabelCharsSpec(s[1..]);
      assert s == [s[0]] + s[1..];
    }
  }

  /** A string of label characters passes the filter unchanged. */
  lemma {:induction false} KeepLabelCharsId(s: string)
    requires forall i | 0 <= i < |s| :: IsLabelChar(s[i])
    ensures KeepLabelChars(s) == s
    decreases |s|
  {
    if s != [] {
      KeepLabelCharsId(s[1..]);
      assert s == [s[0]] + s[1..];
    }
  }

  // ------------------------------------------------------------------ the sanitiser

  /** The result is always a valid label: non-empty, label characters only. */
  lemma SanitizeIsLabel(relType: string)
    ensures IsLabel(Sanitize(relType))
  {
    KeepLabelCharsSpec(Underscore(relType));
  }

  /** A character survives if it is a label character or becomes `_`. */
  predicate Survives(c: char) {
    IsLabelChar(c) || c in " -."
  }

  /** The fallback is taken exactly when no character survives. */
  lemma SanitizeFallsBack(relType: string)
    ensures KeepLabelChars(Underscore(relType)) == [] <==> forall i | 0 <= i < |relType| :: !Survives(relType[i])
  {
    var u := Underscore(relType);
    UnderscoreAt(relType);
    KeepLabelCharsSpec(u);
    if KeepLabelChars(u) == [] {
      forall i | 0 <= i < |relType|
        ensures !Survives(relType[i])
      {
        assert u[i] in u;
      }
    } else {
      var c := KeepLabelChars(u)[0];
      assert c in u;
      var i :| 0 <= i < |u| && u[i] == c;
      assert Survives(relType[i]);
    }
  }

  /** A string that is already a valid label is left as it is. */
  lemma SanitizeLabel(s: string)
    requires IsLabel(s)
    ensures Sanitize(s) == s
  {
    UnderscoreAt(s);
    assert Underscore(s) == s;
    KeepLabelCharsId(s);
  }

  /** Sanitising twice is sanitising once. */
  lemma SanitizeIdempotent(relType: string)
    ensures Sanitize(Sanitize(relType)) == Sanitize(relType)
  {
    SanitizeIsLabel(relType);
    SanitizeLabel(Sanitize(relType));
  }

  /** The fixpoints of the sanitiser are exactly the valid labels. */
  lemma SanitizeFixpoint(s: string)
    ensures Sanitize(s) == s <==> IsLabel(s)
  {
    SanitizeIsLabel(s);
    if IsLabel(s) {
      SanitizeLabel(s);
    }
  }

  /** Separators become underscores rather than disappearing: for a type
      made only of surviving characters, the label has the same length and
      `_` exactly where the type had a space, hyphen or dot. */
  lemma SanitizeKeepsSeparators(relType: string)
    requires relType != [] && forall i | 0 <= i < |relType| :: Survives(relType[i])
    ensures |Sanitize(relType)| == |relType|
    ensures forall i | 0 <= i < |relType| ::
      Sanitize(relType)[i] == (if relType[i] in " -." then '_' else relType[i])
  {
    var u := Underscore(relType);
    UnderscoreAt(relType);
    assert forall i | 0 <= i < |u| :: IsLabelChar(u[i]);
    KeepLabelCharsId(u);
  }

  // ------------------------------------------------------------------ a one-pass reference

  /** What one character of the type contributes to the label. */
  function Contribution(c: char): string {
    if c in " -." then "_" else if IsLabelChar(c) then [c] else []
  }

  /** The label built in one pass, before the fallback. */
  function OnePass(s: string): string {
    if s == [] then [] else Contribution(s[0]) + OnePass(s[1..])
  }

  /** Replacing then filtering is the same as the one-pass map. */
  lemma {:induction false} KeepUnderscoreFusion(s: string)
    ensures KeepLabelChars(Underscore(s)) == OnePass(s)
    decreases |s|
  {
    if s != [] {
      KeepUnderscoreFusion(s[1..]);
      UnderscoreAt(s);
      UnderscoreAt(s[1..]);
      var u := Underscore(s);
      assert u == [u[0]] + Underscore(s[1..]);
    }
  }

  /** The sanitiser equals the one-pass reference with the same fallback. */
  lemma SanitizeOnePass(relType: string)
    ensures Sanitize(relType) == (if OnePass(relType) == [] then Fallback else OnePass(relType))
  {
    KeepUnderscoreFusion(relType);
  }
}
