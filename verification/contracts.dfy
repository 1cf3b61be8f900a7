/** The text contracts shared by stored records. */
module Contracts {
  import opened Characters

  /** The shape `YYYY-MM-DDThh:mm:ssZ`. */
  predicate IsTimestamp(s: string) {
    |s| == 20 && s[4] == '-' && s[7] == '-' && s[10] == 'T' && s[13] == ':' && s[16] == ':' && s[19] == 'Z'
    && forall i :: 0 <= i < 19 && i !in {4, 7, 10, 13, 16} ==> IsDigit(s[i])
  }

  predicate IsWordChar(c: char) {
    IsDigit(c) || 'a' <= c <= 'z' || 'A' <= c <= 'Z'
  }

  predicate IsIdentifier(s: string) {
    3 <= |s| <= 128 && IsWordChar(s[0])
    && forall i :: 0 <= i < |s| ==> IsWordChar(s[i]) || s[i] in {'.', '_', ':', '-'}
  }
}
