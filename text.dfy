/** An optional value: the model's stand-in for a C# reference that may be null. */
module Optional {
  datatype Option<+T> = None | Some(value: T)
}

/**
 * The string tests the server relies on: .NET's `string.IsNullOrWhiteSpace`
 * (which decides whether a board cell is free) and the case-insensitive
 * comparison used for user names and dictionary keys.
 */
module Text {

  /** The characters .NET's `char.IsWhiteSpace` accepts (Unicode categories Zs, Zl, Zp and the control whitespace). */
  predicate IsWhiteSpace(ch: char) {
    ('\t' <= ch <= '\r') || ch == ' ' || ch == '\U{0085}' || ch == '\U{00A0}' || ch == '\U{1680}'
    || ('\U{2000}' <= ch <= '\U{200A}') || ch == '\U{2028}' || ch == '\U{2029}'
    || ch == '\U{202F}' || ch == '\U{205F}' || ch == '\U{3000}'
  }

  /** `string.IsNullOrWhiteSpace`; a null string is represented by the empty one. */
  predicate IsNullOrWhiteSpace(s: string) {
    forall i :: 0 <= i < |s| ==> IsWhiteSpace(s[i])
  }

  /** Case folding of one character: the Latin letters are mapped to upper case. */
  function FoldChar(ch: char): char {
    if 'a' <= ch <= 'z' then (ch as int - 32) as char else ch
  }

  /** The normal form under which two strings compare equal ignoring case. */
  function CaseFold(s: string): (r: string)
    ensures |r| == |s|
  {
    seq(|s|, i requires 0 <= i < |s| => FoldChar(s[i]))
  }

  /** Case-insensitive equality, character by character. */
  predicate EqualsIgnoreCase(a: string, b: string) {
    |a| == |b| && forall i :: 0 <= i < |a| ==> FoldChar(a[i]) == FoldChar(b[i])
  }

  /** Comparing ignoring case is the same as comparing the case-folded forms. */
  lemma EqualsIgnoreCaseIffSameFold(a: string, b: string)
    ensures EqualsIgnoreCase(a, b) <==> CaseFold(a) == CaseFold(b)
  {
    if CaseFold(a) == CaseFold(b) {
      forall i | 0 <= i < |a| ensures FoldChar(a[i]) == FoldChar(b[i]) {
        assert CaseFold(a)[i] == CaseFold(b)[i];
      }
    }
  }
}
