/** The label grammar the sources check names and ids against:
    `^[a-z0-9]([-a-z0-9]*[a-z0-9])?$`. */
module Labels {

  predicate LowerAlnum(c: char) { 'a' <= c <= 'z' || '0' <= c <= '9' }

  /** `re.fullmatch` of the label grammar. */
  predicate IsLabel(s: string) {
    && s != ""
    && LowerAlnum(s[0]) && LowerAlnum(s[|s| - 1])
    && forall i :: 0 <= i < |s| ==> LowerAlnum(s[i]) || s[i] == '-'
  }

  /** `re.match`: `$` also matches before one final newline. */
  predicate MatchesLabel(s: string) {
    IsLabel(s) || (s != "" && s[|s| - 1] == '\n' && IsLabel(s[..|s| - 1]))
  }
}
