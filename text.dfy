/**
 * The string normalisation the store relies on: Python's `str.strip()` and a
 * lower-casing function that stands for both Python's `str.lower()` and SQL's
 * `lower()` (ASCII letters only, as SQLite's built-in `lower()` does).
 */
module Text {

  /** The characters Python's `str.isspace()` accepts, which `str.strip()` removes. */
  predicate IsSpace(c: char)
  {
    || ('\t' <= c <= '\r') || ('\U{1c}' <= c <= ' ')
    || c == '\U{85}' || c == '\U{a0}' || c == '\U{1680}'
    || ('\U{2000}' <= c <= '\U{200a}') || c == '\U{2028}' || c == '\U{2029}'
    || c == '\U{202f}' || c == '\U{205f}' || c == '\U{3000}'
  }

  /** ASCII lower-casing of one character. */
  function LowerChar(c: char): char
  {
    if 'A' <= c <= 'Z' then (c as int - 'A' as int + 'a' as int) as char else c
  }

  /** Lower-case every character of `s`. */
  function Lower(s: string): (r: string)
    ensures |r| == |s|
    ensures forall i | 0 <= i < |s| :: r[i] == LowerChar(s[i])
  {
    if s == [] then [] else [LowerChar(s[0])] + Lower(s[1..])
  }

  /** `s` has no leading and no trailing whitespace. */
  predicate IsTrimmed(s: string)
  {
    s == [] || (!IsSpace(s[0]) && !IsSpace(s[|s| - 1]))
  }

  /** Drop the leading whitespace of `s`: the result is the suffix of `s` after its whitespace prefix. */
  function TrimStart(s: string): (r: string)
    ensures |r| <= |s| && r == s[|s| - |r|..]
    ensures forall i | 0 <= i < |s| - |r| :: IsSpace(s[i])
    ensures r == [] || !IsSpace(r[0])
  {
    if s != [] && IsSpace(s[0]) then TrimStart(s[1..]) else s
  }

  /** Drop the trailing whitespace of `s`: the result is the prefix of `s` before its whitespace suffix. */
  function TrimEnd(s: string): (r: string)
    ensures |r| <= |s| && r == s[..|r|]
    ensures forall i | |r| <= i < |s| :: IsSpace(s[i])
    ensures r == [] || !IsSpace(r[|r| - 1])
  {
    if s != [] && IsSpace(s[|s| - 1]) then TrimEnd(s[..|s| - 1]) else s
  }

  /**
   * `r` is the slice of `s` that starts at `a`, and every character of `s` before
   * and after that slice is whitespace.
   */
  predicate Strips(s: string, a: int, r: string)
  {
    && 0 <= a <= |s| - |r|
    && r == s[a..a + |r|]
    && (forall i | 0 <= i < a :: IsSpace(s[i]))
    && (forall i | a + |r| <= i < |s| :: IsSpace(s[i]))
  }

  /**
   * Python's `s.strip()`: the middle of `s` that is left once only the leading and
   * the trailing whitespace are removed.
   */
  function Trim(s: string): (r: string)
    ensures IsTrimmed(r)
    ensures |r| <= |s|
    ensures exists a :: Strips(s, a, r)
  {
    var t := TrimStart(s);
    var r := TrimEnd(t);
    assert r == [] || r[0] == t[0];
    StripsInTwoSteps(s, t, r);
    r
  }

  /** Dropping a whitespace prefix and then a whitespace suffix strips the middle slice. */
  lemma StripsInTwoSteps(s: string, t: string, r: string)
    requires |t| <= |s| && t == s[|s| - |t|..] && forall i | 0 <= i < |s| - |t| :: IsSpace(s[i])
    requires |r| <= |t| && r == t[..|r|] && forall i | |r| <= i < |t| :: IsSpace(t[i])
    ensures Strips(s, |s| - |t|, r)
  {
    var a := |s| - |t|;
    assert forall i | a + |r| <= i < |s| :: s[i] == t[i - a];
  }

  /** The case-insensitive, whitespace-insensitive key the name lookup turns its argument into. */
  function NameKey(s: string): string
  {
    Lower(Trim(s))
  }

  /** Stripping a string that has no surrounding whitespace leaves it as it is. */
  lemma {:induction false} TrimOfTrimmed(s: string)
    requires IsTrimmed(s)
    ensures Trim(s) == s
  {
    if s != [] {
      assert TrimStart(s) == s;
      assert TrimEnd(s) == s;
    }
  }

  /** `strip()` is idempotent. */
  lemma TrimIdempotent(s: string)
    ensures Trim(Trim(s)) == Trim(s)
  {
    TrimOfTrimmed(Trim(s));
  }

  /** Stripping keeps exactly the non-whitespace part: a string is blank iff it strips to the empty string. */
  lemma TrimEmptyIffBlank(s: string)
    ensures Trim(s) == [] <==> forall i | 0 <= i < |s| :: IsSpace(s[i])
  {
  }
}
