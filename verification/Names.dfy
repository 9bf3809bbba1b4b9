/** internal/names: the rule an author name obeys, as a regular expression and as byte classes. */
module Names {
  const MAX_NAME: nat := 12

  predicate IsLetter(c: char) {
    'a' <= c <= 'z' || 'A' <= c <= 'Z'
  }

  /** names.Name accepts s: ^[A-Za-z](?:[A-Za-z.]*[A-Za-z])?$ within MAX_NAME bytes. */
  predicate Legal(s: string) {
    && 1 <= |s| <= MAX_NAME
    && IsLetter(s[0])
    && IsLetter(s[|s| - 1])
    && forall i | 0 <= i < |s| :: IsLetter(s[i]) || s[i] == '.'
  }

  /** names.IsNameByte: a dot may not open a name. */
  predicate IsNameByte(c: char, pos: nat) {
    IsLetter(c) || (c == '.' && pos > 0)
  }

  /** names.IsNameContinuation: bytes a looser rule would have admitted. */
  predicate IsNameContinuation(c: char) {
    '0' <= c <= '9' || c == '-' || c == '_'
  }
}
