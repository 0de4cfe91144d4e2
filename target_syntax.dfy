/** The target pattern `^[A-Za-z0-9\.\-:]+$` that both validators compile,
    and what Python's `re.match` does with it. */
module TargetSyntax {

  /** The character class `[A-Za-z0-9\.\-:]` (ASCII only, as in Python's
      `re` for a str pattern without flags). */
  predicate IsTargetChar(c: char) {
    ('A' <= c <= 'Z') || ('a' <= c <= 'z') || ('0' <= c <= '9') || c == '.' || c == '-' || c == ':'
  }

  /** Length of the longest prefix of `t` made of target characters: how far
      `[...]+` can run. */
  function ClassSpan(t: string): (n: nat)
    ensures n <= |t|
    ensures forall i :: 0 <= i < n ==> IsTargetChar(t[i])
    ensures n < |t| ==> !IsTargetChar(t[n])
  {
    if |t| == 0 || !IsTargetChar(t[0]) then 0 else 1 + ClassSpan(t[1..])
  }

  /** `re.match("^[...]+$", t)` succeeds: at least one class character, then
      `$`, which in Python matches at the end of the string OR just before a
      newline that ends the string. */
  predicate PatternMatchesAsWritten(t: string) {
    var n := ClassSpan(t);
    n >= 1 && (n == |t| || (n == |t| - 1 && t[n] == '\n'))
  }

  /** `re.fullmatch("[...]+", t)`: the whole string is class characters. */
  predicate PatternMatchesWhole(t: string) {
    var n := ClassSpan(t);
    n >= 1 && n == |t|
  }
}
