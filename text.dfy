/**
 * ASCII text helpers shared by the Python back end (`str.strip`) and the Kotlin screens
 * (`trim`, `isBlank`). On ASCII both treat the same characters as whitespace: space,
 * the controls 9..13 and the separators 28..31.
 */
module Text {

  predicate IsWhitespace(c: char) {
    c == ' ' || (9 <= c as int <= 13) || (28 <= c as int <= 31)
  }

  /** Kotlin `isBlank()`: empty or whitespace only. */
  predicate IsBlank(s: string) {
    forall i :: 0 <= i < |s| ==> IsWhitespace(s[i])
  }

  function TrimStart(s: string): (r: string)
    ensures |r| <= |s| && r == s[|s| - |r|..]
    ensures r != [] ==> !IsWhitespace(r[0])
    ensures forall i :: 0 <= i < |s| - |r| ==> IsWhitespace(s[i])
  {
    if s != [] && IsWhitespace(s[0]) then TrimStart(s[1..]) else s
  }

  function TrimEnd(s: string): (r: string)
    ensures |r| <= |s| && r == s[..|r|]
    ensures r != [] ==> !IsWhitespace(r[|r| - 1])
    ensures forall i :: |r| <= i < |s| ==> IsWhitespace(s[i])
  {
    if s != [] && IsWhitespace(s[|s| - 1]) then TrimEnd(s[..|s| - 1]) else s
  }

  /** Python `str.strip()` / Kotlin `trim()`: drop leading and trailing whitespace. */
  function Trim(s: string): (r: string)
    ensures |r| <= |s|
    ensures r != [] ==> !IsWhitespace(r[0]) && !IsWhitespace(r[|r| - 1])
  {
    TrimEnd(TrimStart(s))
  }

  /** A non-whitespace character survives `TrimStart`, at its shifted position. */
  lemma TrimStartKeeps(s: string, k: nat)
    requires k < |s| && !IsWhitespace(s[k])
    ensures |s| - |TrimStart(s)| <= k && TrimStart(s)[k - (|s| - |TrimStart(s)|)] == s[k]
  {
  }

  /** A non-whitespace character survives `TrimEnd`. */
  lemma TrimEndKeeps(s: string, k: nat)
    requires k < |s| && !IsWhitespace(s[k])
    ensures k < |TrimEnd(s)|
  {
  }

  /** A string that is not blank keeps at least one character when trimmed. */
  lemma {:induction false} TrimOfNonBlank(s: string)
    requires !IsBlank(s)
    ensures Trim(s) != []
  {
    var k :| 0 <= k < |s| && !IsWhitespace(s[k]);
    TrimStartKeeps(s, k);
    TrimEndKeeps(TrimStart(s), k - (|s| - |TrimStart(s)|));
  }

  /** A string without edge whitespace is its own trim. */
  lemma TrimNoEdges(s: string)
    requires s != [] ==> !IsWhitespace(s[0]) && !IsWhitespace(s[|s| - 1])
    ensures Trim(s) == s
  {
  }
}
