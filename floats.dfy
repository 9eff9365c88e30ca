/**
  Floating-point text. Rust's float `Display` and `fast_float::parse` are foreign
  floating-point code; the model keeps them abstract as a pair of functions that
  every codec receives as a parameter. A number is represented by the real it
  denotes; single and double precision are not told apart.
 */
module Floats {
  import opened Base
  import opened Text

  /** `show` stands for `Display`, `parse` for `fast_float::parse` (which must consume its whole input). */
  datatype FloatSyntax = FloatSyntax(parse: string -> Option<real>, show: real -> string)

  /** Displaying a number and parsing the text gives the number back. */
  ghost predicate RoundTrips(fs: FloatSyntax) {
    forall x :: fs.parse(fs.show(x)) == Some(x)
  }

  /**
    A displayed number is one non-empty piece of text without whitespace and
    without the separators the formats use around numbers (',', '/', ':', '"').
   */
  predicate Token(s: string) {
    |s| > 0 && forall i :: 0 <= i < |s| ==> !IsWhitespace(s[i]) && s[i] != ',' && s[i] != '/' && s[i] != ':' && s[i] != '"'
  }

  ghost predicate ShowsTokens(fs: FloatSyntax) {
    forall x :: Token(fs.show(x))
  }

  /** What the round-trip laws of the codecs need from the float syntax. */
  ghost predicate WellBehaved(fs: FloatSyntax) {
    RoundTrips(fs) && ShowsTokens(fs)
  }

  /** A displayed number that starts with an ASCII digit (no sign, not "NaN" or "inf"). */
  predicate ShowsDigitFirst(fs: FloatSyntax, x: real) {
    var t := fs.show(x);
    |t| > 0 && IsAsciiDigit(t[0])
  }

  lemma TokenIsWord(s: string)
    requires Token(s)
    ensures IsWord(s) && Trimmed(s) && NoNewline(s)
  {
  }

  lemma ShowIsToken(fs: FloatSyntax, x: real)
    requires WellBehaved(fs)
    ensures Token(fs.show(x)) && fs.parse(fs.show(x)) == Some(x)
  {
  }
}
