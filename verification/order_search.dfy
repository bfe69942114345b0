/** The cashier's order-code search box
    (`src/components/cashier/OrderSearch.tsx`): what typing leaves in the
    box, and what pressing Search passes on. */
module OrderSearch {
  import opened Wrappers
  import opened Seqs
  import opened Text
  import opened Utils

  function KeepsUpperAlnum(): char -> bool
  {
    (c: char) => IsUpperAlnum(c)
  }

  /** `handleInputChange`: upper-case the input, then delete every character
      outside `[A-Z0-9]`. */
  function Normalize(input: string): (r: string)
    ensures forall i :: 0 <= i < |r| ==> IsUpperAlnum(r[i])
    ensures |r| <= |input|
    ensures forall c :: c in r <==> c in ToUpper(input) && IsUpperAlnum(c)
    ensures KeepsInOrder(r, ToUpper(input), KeepsUpperAlnum())
  {
    FilterInOrder(ToUpper(input), KeepsUpperAlnum());
    Filter(ToUpper(input), KeepsUpperAlnum())
  }

  /** Normalising works character by character: a pasted text normalises to
      the normalised pieces, joined. */
  lemma NormalizeConcat(a: string, b: string)
    ensures Normalize(a + b) == Normalize(a) + Normalize(b)
  {
    assert ToUpper(a + b) == ToUpper(a) + ToUpper(b);
    FilterConcat(ToUpper(a), ToUpper(b), KeepsUpperAlnum());
  }

  /** One typed character survives, upper-cased, exactly when its upper-case
      form is in `[A-Z0-9]`. */
  lemma NormalizeChar(c: char)
    ensures IsUpperAlnum(UpperChar(c)) ==> Normalize([c]) == [UpperChar(c)]
    ensures !IsUpperAlnum(UpperChar(c)) ==> Normalize([c]) == []
  {
    assert ToUpper([c]) == [UpperChar(c)];
    FilterSingle(UpperChar(c), KeepsUpperAlnum());
  }

  /** Upper-casing text already in `[A-Z0-9]` changes nothing. */
  lemma UpperAlnumIsUpper(s: string)
    requires forall i :: 0 <= i < |s| ==> IsUpperAlnum(s[i])
    ensures ToUpper(s) == s
  {
  }

  /** Normalising twice is normalising once. */
  lemma NormalizeIdempotent(input: string)
    ensures Normalize(Normalize(input)) == Normalize(input)
  {
    var once := Normalize(input);
    UpperAlnumIsUpper(once);
    FilterKeepsAll(once, KeepsUpperAlnum());
  }

  const BlankCodeError: string := "Please enter an order code"
  const BadFormatError: string := "Order code must be 6 characters (letters and numbers only)"

  /** `handleSearch`: a blank box and a trimmed value that is not exactly six
      characters of `[A-Z0-9]` are refused with their messages; otherwise the
      trimmed, upper-cased code is passed to `onOrderFound`. */
  function HandleSearch(code: string): (r: Result<string, string>)
    ensures r.Failure? && AllWhitespace(code) ==> r.error == BlankCodeError
    ensures r.Failure? ==> r.error == BlankCodeError || r.error == BadFormatError
    ensures |Trim(code)| == 0 ==> r == Failure(BlankCodeError)
    ensures |Trim(code)| > 0 && !IsOrderCodeFormat(Trim(code)) ==> r == Failure(BadFormatError)
    ensures r.Success? <==> IsOrderCodeFormat(Trim(code))
    ensures r.Success? ==> r.value == Trim(code) && IsOrderCodeFormat(r.value)
  {
    var t := Trim(code);
    if |t| == 0 then Failure(BlankCodeError)
    else if !IsOrderCodeFormat(t) then Failure(BadFormatError)
    else
      UpperAlnumIsUpper(t);
      Success(ToUpper(t))
  }

  /** What the box holds after typing is passed on unchanged when it is a
      well-formed code, and refused otherwise: blank when nothing survived,
      badly formed when anything other than six characters did. */
  lemma SearchAfterTyping(input: string)
    ensures var box := Normalize(input);
      && (|box| == 6 ==> HandleSearch(box) == Success(box))
      && (|box| == 0 ==> HandleSearch(box) == Failure(BlankCodeError))
      && (0 < |box| != 6 ==> HandleSearch(box) == Failure(BadFormatError))
  {
    var box := Normalize(input);
    NoWhitespaceTrims(box);
    UpperAlnumFormat(box);
    SearchOutcome(box);
  }

  /** The search outcome for a box that trimming leaves alone and whose
      format depends on its length only. */
  lemma SearchOutcome(box: string)
    requires Trim(box) == box && (IsOrderCodeFormat(box) <==> |box| == 6)
    ensures |box| == 6 ==> HandleSearch(box) == Success(box)
    ensures |box| == 0 ==> HandleSearch(box) == Failure(BlankCodeError)
    ensures 0 < |box| != 6 ==> HandleSearch(box) == Failure(BadFormatError)
  {
    if |box| == 6 {
      WellFormedAccepted(box);
    } else if |box| > 0 {
      BadFormatRefused(box);
    }
  }

  /** A trimmed box with the code format is passed on as it is. */
  lemma WellFormedAccepted(box: string)
    requires Trim(box) == box && IsOrderCodeFormat(box)
    ensures HandleSearch(box) == Success(box)
  {
  }

  /** A trimmed, non-blank box without the code format is refused as badly
      formed. */
  lemma BadFormatRefused(box: string)
    requires Trim(box) == box && |box| > 0 && !IsOrderCodeFormat(box)
    ensures HandleSearch(box) == Failure(BadFormatError)
  {
  }

  /** Text of `[A-Z0-9]` has the order-code format exactly when it is six
      characters long. */
  lemma UpperAlnumFormat(s: string)
    requires forall i :: 0 <= i < |s| ==> IsUpperAlnum(s[i])
    ensures IsOrderCodeFormat(s) <==> |s| == 6
  {
    var ok := IsOrderCodeFormat(s);
    assert ok <==> |s| == 6 && forall i :: 0 <= i < 6 ==> IsUpperAlnum(s[i]);
  }

  /** Text without whitespace is its own trim. */
  lemma NoWhitespaceTrims(s: string)
    requires forall i :: 0 <= i < |s| ==> IsUpperAlnum(s[i])
    ensures Trim(s) == s
  {
    if |s| > 0 {
      assert !IsWhitespace(s[0]);
      assert !IsWhitespace(s[|s| - 1]);
    }
  }
}
