/**
 * The string operations the core relies on, as JavaScript defines them:
 * the `\s` character class, line terminators (what `.` refuses), `trim`,
 * ASCII lower-casing and `String.prototype.replace` with a string pattern,
 * which replaces only the FIRST occurrence.
 */
module Text {
  import opened Wrappers

  /** A request field JavaScript treats as true: present and not the empty string. */
  predicate Truthy(v: Option<string>) {
    v.Some? && v.value != ""
  }

  /** JavaScript's `\s`: white space and line terminators. */
  const JsSpaces: set<char> := {
    ' ', '\t', '\n', '\r', '\U{0B}', '\U{0C}', '\U{A0}', '\U{1680}',
    '\U{2000}', '\U{2001}', '\U{2002}', '\U{2003}', '\U{2004}', '\U{2005}',
    '\U{2006}', '\U{2007}', '\U{2008}', '\U{2009}', '\U{200A}',
    '\U{2028}', '\U{2029}', '\U{202F}', '\U{205F}', '\U{3000}', '\U{FEFF}'}

  predicate IsJsSpace(c: char) {
    c in JsSpaces
  }

  /** The characters JavaScript's `.` does not match. */
  predicate IsLineTerminator(c: char) {
    c == '\n' || c == '\r' || c == '\U{2028}' || c == '\U{2029}'
  }

  predicate IsLower(c: char) { 'a' <= c <= 'z' }
  predicate IsUpper(c: char) { 'A' <= c <= 'Z' }
  predicate IsDigit(c: char) { '0' <= c <= '9' }
  predicate IsLetter(c: char) { IsLower(c) || IsUpper(c) }
  predicate IsHexDigit(c: char) { IsDigit(c) || ('a' <= c <= 'f') || ('A' <= c <= 'F') }

  /** How many `\s` characters `s` starts with. */
  function LeadingSpaces(s: string): (k: nat)
    ensures k <= |s|
    ensures k < |s| ==> !IsJsSpace(s[k])
  {
    if s != [] && IsJsSpace(s[0]) then
      var k := LeadingSpaces(s[1..]);
      assert k < |s| - 1 ==> s[1..][k] == s[k + 1];
      k + 1
    else 0
  }

  /** The length of `s` without the `\s` characters it ends with. */
  function ContentEnd(s: string): (e: nat)
    ensures e <= |s|
    ensures e > 0 ==> !IsJsSpace(s[e - 1])
  {
    if s != [] && IsJsSpace(s[|s| - 1]) then
      var e := ContentEnd(s[..|s| - 1]);
      assert e > 0 ==> s[..|s| - 1][e - 1] == s[e - 1];
      e
    else |s|
  }

  /** `String.prototype.trim`: a slice of `s` that neither starts nor ends with `\s`. */
  function Trim(s: string): (r: string)
    ensures r != [] ==> !IsJsSpace(r[0]) && !IsJsSpace(r[|r| - 1])
    ensures LeadingSpaces(s) + |r| <= |s|
    ensures r == s[LeadingSpaces(s)..LeadingSpaces(s) + |r|]
  {
    var k := LeadingSpaces(s);
    var t := s[k..];
    var r := t[..ContentEnd(t)];
    assert r != [] ==> r[0] == s[k];
    r
  }

  lemma {:induction false} LeadingAreSpaces(s: string)
    ensures forall i :: 0 <= i < LeadingSpaces(s) ==> IsJsSpace(s[i])
  {
    if s != [] && IsJsSpace(s[0]) {
      LeadingAreSpaces(s[1..]);
      forall i | 1 <= i < LeadingSpaces(s) ensures IsJsSpace(s[i]) {
        assert s[i] == s[1..][i - 1];
      }
    }
  }

  lemma {:induction false} TrailingAreSpaces(s: string)
    ensures forall i :: ContentEnd(s) <= i < |s| ==> IsJsSpace(s[i])
  {
    if s != [] && IsJsSpace(s[|s| - 1]) {
      TrailingAreSpaces(s[..|s| - 1]);
      forall i | ContentEnd(s) <= i < |s| - 1 ensures IsJsSpace(s[i]) {
        assert s[i] == s[..|s| - 1][i];
      }
    }
  }

  /** Everything `trim` drops, at either end, is `\s`: the result is the longest such slice. */
  lemma TrimDropsOnlySpaces(s: string)
    ensures forall i :: 0 <= i < LeadingSpaces(s) ==> IsJsSpace(s[i])
    ensures forall i :: LeadingSpaces(s) + |Trim(s)| <= i < |s| ==> IsJsSpace(s[i])
  {
    var k := LeadingSpaces(s);
    var t := s[k..];
    LeadingAreSpaces(s);
    TrailingAreSpaces(t);
    forall i | k + |Trim(s)| <= i < |s| ensures IsJsSpace(s[i]) {
      assert s[i] == t[i - k];
    }
  }

  lemma TrimOfTrimmed(s: string)
    requires s != [] ==> !IsJsSpace(s[0]) && !IsJsSpace(s[|s| - 1])
    ensures Trim(s) == s
  {
    assert LeadingSpaces(s) == 0;
    assert s[0..] == s;
    assert ContentEnd(s) == |s|;
  }

  lemma TrimIdempotent(s: string)
    ensures Trim(Trim(s)) == Trim(s)
  {
    TrimOfTrimmed(Trim(s));
  }

  /** A string of white space alone trims to the empty string. */
  lemma TrimAllSpaces(s: string)
    requires forall i :: 0 <= i < |s| ==> IsJsSpace(s[i])
    ensures Trim(s) == ""
  {
  }

  /** ASCII lower-casing of one character. */
  function LowerChar(c: char): (r: char)
    ensures !IsUpper(r)
    ensures IsJsSpace(r) <==> IsJsSpace(c)
    ensures !IsUpper(c) ==> r == c
  {
    if IsUpper(c) then (c as int + 32) as char else c
  }

  function Lower(s: string): (r: string)
    ensures |r| == |s|
    ensures forall i :: 0 <= i < |s| ==> r[i] == LowerChar(s[i])
  {
    if s == [] then [] else [LowerChar(s[0])] + Lower(s[1..])
  }

  lemma LowerOfLower(s: string)
    requires forall i :: 0 <= i < |s| ==> !IsUpper(s[i])
    ensures Lower(s) == s
  {
  }

  /** The user schema's email setters: `lowercase: true` then `trim: true`. */
  function NormalizeEmail(e: string): (r: string)
    ensures forall i :: 0 <= i < |r| ==> !IsUpper(r[i])
    ensures r != [] ==> !IsJsSpace(r[0]) && !IsJsSpace(r[|r| - 1])
  {
    var l := Lower(e);
    assert forall i :: 0 <= i < |l| ==> !IsUpper(l[i]) by {
      forall i | 0 <= i < |l| ensures !IsUpper(l[i]) {
        assert l[i] == LowerChar(e[i]);
      }
    }
    TrimKeepsNoUpper(l);
    Trim(l)
  }

  lemma TrimKeepsNoUpper(s: string)
    requires forall i :: 0 <= i < |s| ==> !IsUpper(s[i])
    ensures forall i :: 0 <= i < |Trim(s)| ==> !IsUpper(Trim(s)[i])
  {
    var off := LeadingSpaces(s);
    forall i | 0 <= i < |Trim(s)| ensures !IsUpper(Trim(s)[i]) {
      assert Trim(s)[i] == s[off + i];
    }
  }

  /** Normalising an already normalised address changes nothing, so stored and queried forms agree. */
  lemma NormalizeEmailIdempotent(e: string)
    ensures NormalizeEmail(NormalizeEmail(e)) == NormalizeEmail(e)
  {
    var n := NormalizeEmail(e);
    LowerOfLower(n);
    TrimOfTrimmed(n);
  }

  /** `pat` occurs in `s` starting at position `j`. */
  predicate OccursAt(s: string, pat: string, j: nat) {
    j + |pat| <= |s| && s[j..j + |pat|] == pat
  }

  lemma OccursAtShift(s: string, pat: string, j: nat)
    requires s != []
    ensures OccursAt(s, pat, j + 1) <==> OccursAt(s[1..], pat, j)
  {
    if j + 1 + |pat| <= |s| {
      assert s[j + 1..j + 1 + |pat|] == s[1..][j..j + |pat|];
    }
  }

  /** Position of the first occurrence of `pat` in `s`. */
  function IndexOf(s: string, pat: string): (r: Option<nat>)
    ensures r.Some? ==> OccursAt(s, pat, r.value)
    ensures r.Some? ==> forall j: nat :: j < r.value ==> !OccursAt(s, pat, j)
    ensures r.None? ==> forall j: nat :: !OccursAt(s, pat, j)
    decreases |s|
  {
    if |s| < |pat| then None
    else if s[..|pat|] == pat then Some(0)
    else match IndexOf(s[1..], pat)
      case None =>
        forall j: nat ensures !OccursAt(s, pat, j) {
          if j > 0 { OccursAtShift(s, pat, j - 1); }
        }
        None
      case Some(i) =>
        OccursAtShift(s, pat, i);
        forall j: nat | j < i + 1 ensures !OccursAt(s, pat, j) {
          if j > 0 { OccursAtShift(s, pat, j - 1); }
        }
        Some(i + 1)
  }

  /** `s.replace(pat, "")`: removes the first occurrence of `pat` only. */
  function RemoveFirst(s: string, pat: string): (r: string)
    ensures IndexOf(s, pat).None? ==> r == s
    ensures IndexOf(s, pat).Some? ==>
              |r| == |s| - |pat| && s == r[..IndexOf(s, pat).value] + pat + r[IndexOf(s, pat).value..]
  {
    match IndexOf(s, pat)
    case None => s
    case Some(i) =>
      var r := s[..i] + s[i + |pat|..];
      assert r[..i] == s[..i] && r[i..] == s[i + |pat|..];
      assert s == s[..i] + s[i..i + |pat|] + s[i + |pat|..];
      r
  }

  /** A string that starts with `pat` loses exactly that prefix. */
  lemma RemoveLeadingPattern(pat: string, t: string)
    ensures RemoveFirst(pat + t, pat) == t
  {
    assert (pat + t)[..|pat|] == pat;
  }
}
