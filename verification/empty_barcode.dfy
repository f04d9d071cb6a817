/** A matcher for the deliberate absence of a barcode. It matches nil and
    blank text, equals only other empty-barcode matchers, and is never equal
    to a barcode, not even one built from empty text, so "no barcode
    expected" and "a barcode that did not parse" stay apart.
 */
module EmptyBarcodes {
  import opened Errors
  import Builders

  const StringRep := "[empty]"

  datatype EmptyBarcode = EmptyBarcode

  /** The right-hand side of `=~`: nil, a string, or an object without `strip`. */
  datatype MatchArgument = NilArgument | TextArgument(text: string) | OtherArgument

  /** The right-hand side of `==`. */
  datatype Comparand = AnEmptyBarcode(empty: EmptyBarcode) | ABarcode(built: Builders.Request) | OtherObject

  /** The characters `String#strip` removes: null, tab, line feed, vertical
      tab, form feed, carriage return and space. */
  predicate IsBlank(c: char) {
    c == '\0' || c == '\t' || c == '\n' || c == '\U{000B}' || c == '\U{000C}' || c == '\r' || c == ' '
  }

  function StripLeading(s: string): string {
    if |s| > 0 && IsBlank(s[0]) then StripLeading(s[1..]) else s
  }

  function StripTrailing(s: string): string {
    if |s| > 0 && IsBlank(s[|s| - 1]) then StripTrailing(s[..|s| - 1]) else s
  }

  /** `String#strip`. */
  function Strip(s: string): string {
    StripTrailing(StripLeading(s))
  }

  /** Stripping leaves nothing exactly when every character is blank. */
  lemma {:induction false} StripEmptyIffBlank(s: string)
    ensures Strip(s) == "" <==> forall i :: 0 <= i < |s| ==> IsBlank(s[i])
  {
    if |s| > 0 && IsBlank(s[0]) {
      StripEmptyIffBlank(s[1..]);
      assert forall i :: 0 < i < |s| ==> s[i] == s[1..][i - 1];
    } else if |s| > 0 {
      assert StripLeading(s) == s;
      assert StripTrailing(s) != "" by {
        StripTrailingKeepsFirst(s);
      }
    }
  }

  /** Stripping the end never removes a non-blank first character. */
  lemma {:induction false} StripTrailingKeepsFirst(s: string)
    requires |s| > 0 && !IsBlank(s[0])
    ensures |StripTrailing(s)| > 0 && StripTrailing(s)[0] == s[0]
  {
    if |s| > 1 && IsBlank(s[|s| - 1]) {
      StripTrailingKeepsFirst(s[..|s| - 1]);
    }
  }

  /** `=~`: true for nil and for text that is blank after stripping; an object
      without `strip` raises NoMethodError. */
  function Matches(e: EmptyBarcode, other: MatchArgument): (r: Result<bool>)
    ensures other.NilArgument? ==> r == Ok(true)
    ensures other.TextArgument? ==> r == Ok(forall i :: 0 <= i < |other.text| ==> IsBlank(other.text[i]))
    ensures other.OtherArgument? ==> r == Err(NoMethodError)
  {
    match other
    case NilArgument => Ok(true)
    case TextArgument(text) =>
      StripEmptyIffBlank(text);
      Ok(Strip(text) == "")
    case OtherArgument => Err(NoMethodError)
  }

  /** `==`: true exactly for another empty-barcode matcher. */
  function Equals(e: EmptyBarcode, other: Comparand): (r: bool)
    ensures r <==> other.AnEmptyBarcode?
  {
    other.AnEmptyBarcode?
  }

  /** `to_s` is always the fixed representation. */
  function ToS(e: EmptyBarcode): (r: string)
    ensures r == "[empty]"
  {
    StringRep
  }

  /** An empty-barcode matcher never equals a barcode, however it was built,
      the one from empty human text included. */
  lemma NeverEqualsABarcode(e: EmptyBarcode, built: Builders.Request)
    ensures !Equals(e, ABarcode(built))
    ensures !Equals(e, ABarcode(Builders.FromHuman("")))
  {
  }

  lemma Examples()
    ensures Matches(EmptyBarcode, NilArgument) == Ok(true)
    ensures Matches(EmptyBarcode, TextArgument("")) == Ok(true)
    ensures Matches(EmptyBarcode, TextArgument(" \t")) == Ok(true)
    ensures Matches(EmptyBarcode, TextArgument("other")) == Ok(false)
    ensures Equals(EmptyBarcode, AnEmptyBarcode(EmptyBarcode))
  {
    assert !IsBlank("other"[0]);
  }
}
