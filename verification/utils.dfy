/** The pure helpers of `src/lib/utils.ts`: order-code generation, the
    anchored character patterns behind the table-code and order-code checks,
    the status badge colours and the cart total. */
module Utils {
  import opened Text
  import opened Types

  // ---------------------------------------------------------------------------
  // Order codes

  /** The 36-character alphabet order codes are drawn from. */
  const CodeAlphabet: string := "ABCDEFGHIJKLMNOPQRSTUVWXYZ0123456789"

  lemma CodeAlphabetIsUpperAlnum()
    ensures |CodeAlphabet| == 36
    ensures forall i :: 0 <= i < 36 ==> IsUpperAlnum(CodeAlphabet[i])
  {
  }

  /** Every character of `[A-Z0-9]` sits at some position of the alphabet. */
  function AlphabetIndex(c: char): (i: nat)
    requires IsUpperAlnum(c)
    ensures i < |CodeAlphabet| && CodeAlphabet[i] == c
  {
    if IsUpperLetter(c) then c as int - 'A' as int else 26 + (c as int - '0' as int)
  }

  /** `generateOrderCode`, with the six random draws
      `Math.floor(Math.random() * 36)` passed in as `draws`. */
  function GenerateOrderCode(draws: seq<nat>): (code: string)
    requires |draws| == 6
    requires forall i :: 0 <= i < 6 ==> draws[i] < 36
    ensures |code| == 6
    ensures forall i :: 0 <= i < 6 ==> code[i] == CodeAlphabet[draws[i]]
    ensures IsOrderCodeFormat(code)
  {
    CodeAlphabetIsUpperAlnum();
    seq(6, i requires 0 <= i < 6 => CodeAlphabet[draws[i]])
  }

  /** The draws that produce `code`. */
  function DrawsFor(code: string): (draws: seq<nat>)
    requires IsOrderCodeFormat(code)
    ensures |draws| == 6 && forall i :: 0 <= i < 6 ==> draws[i] < 36
  {
    seq(6, i requires 0 <= i < 6 => AlphabetIndex(code[i]))
  }

  /** The codes the generator can produce are exactly the strings of six
      characters from `[A-Z0-9]`: every generated code has that format, and
      every string of that format is generated by some draws. */
  lemma GeneratedCodesAreExactlyFormatted(code: string)
    ensures IsOrderCodeFormat(code) ==> GenerateOrderCode(DrawsFor(code)) == code
  {
  }

  // ---------------------------------------------------------------------------
  // Anchored character patterns (`/^...$/` with only single-character classes)

  datatype CharClass = Literal(c: char) | DigitClass | UpperAlnumClass

  predicate InClass(k: CharClass, c: char)
  {
    match k
    case Literal(l) => c == l
    case DigitClass => IsDigit(c)
    case UpperAlnumClass => IsUpperAlnum(c)
  }

  /** `pattern` matches the whole of `s`, one class per character. */
  function MatchesExactly(pattern: seq<CharClass>, s: string): (r: bool)
    ensures r <==> |pattern| == |s| && forall i :: 0 <= i < |s| ==> InClass(pattern[i], s[i])
  {
    if |pattern| != |s| then false
    else if |s| == 0 then true
    else
      var r := InClass(pattern[0], s[0]) && MatchesExactly(pattern[1..], s[1..]);
      assert r ==> forall i :: 0 <= i < |s| ==> InClass(pattern[i], s[i]) by {
        if r {
          forall i | 0 < i < |s| ensures InClass(pattern[i], s[i]) {
            assert pattern[i] == pattern[1..][i - 1] && s[i] == s[1..][i - 1];
          }
        }
      }
      r
  }

  /** `/^T\d{2}$/`. */
  const TableCodePattern: seq<CharClass> := [Literal('T'), DigitClass, DigitClass]

  /** `/^[A-Z0-9]{6}$/`. */
  const OrderCodePattern: seq<CharClass> :=
    [UpperAlnumClass, UpperAlnumClass, UpperAlnumClass, UpperAlnumClass, UpperAlnumClass, UpperAlnumClass]

  /** `validateTableCode`: the code is a `T` followed by exactly two digits. */
  function ValidateTableCode(code: string): (r: bool)
    ensures r <==> |code| == 3 && code[0] == 'T' && IsDigit(code[1]) && IsDigit(code[2])
  {
    MatchesExactly(TableCodePattern, code)
  }

  /** The order-code format: exactly six characters of `[A-Z0-9]`. */
  predicate IsOrderCodeFormat(s: string)
    ensures IsOrderCodeFormat(s) <==> |s| == 6 && forall i :: 0 <= i < 6 ==> IsUpperAlnum(s[i])
  {
    MatchesExactly(OrderCodePattern, s)
  }

  // ---------------------------------------------------------------------------
  // Badge colours

  const GrayBadge: string := "bg-gray-100 text-gray-800"

  /** `getOrderStatusColor`: each status string selects its badge classes;
      "delivered" and every unknown string share the gray badge. */
  function OrderStatusColor(status: string): (r: string)
    ensures r == GrayBadge <==> status == "delivered" || ParseOrderStatus(status).None?
  {
    if status == "pending" then "bg-yellow-100 text-yellow-800"
    else if status == "confirmed" then "bg-blue-100 text-blue-800"
    else if status == "making" then "bg-orange-100 text-orange-800"
    else if status == "ready" then "bg-green-100 text-green-800"
    else if status == "delivered" then GrayBadge
    else if status == "cancelled" then "bg-red-100 text-red-800"
    else GrayBadge
  }

  /** The six statuses get pairwise distinct colours. */
  lemma OrderStatusColorsDistinct(s: OrderStatus, s': OrderStatus)
    requires s != s'
    ensures OrderStatusColor(OrderStatusName(s)) != OrderStatusColor(OrderStatusName(s'))
  {
  }

  /** `getPaymentStatusColor`: each payment status string selects its badge;
      unknown strings get the gray badge. */
  function PaymentStatusColor(status: string): (r: string)
    ensures r == GrayBadge <==> ParsePaymentStatus(status).None?
  {
    if status == "pending" then "bg-yellow-100 text-yellow-800"
    else if status == "paid" then "bg-green-100 text-green-800"
    else if status == "failed" then "bg-red-100 text-red-800"
    else if status == "refunded" then "bg-orange-100 text-orange-800"
    else GrayBadge
  }

  /** The four payment statuses get pairwise distinct colours. */
  lemma PaymentStatusColorsDistinct(s: PaymentStatus, s': PaymentStatus)
    requires s != s'
    ensures PaymentStatusColor(PaymentStatusName(s)) != PaymentStatusColor(PaymentStatusName(s'))
  {
  }

  // ---------------------------------------------------------------------------
  // Cart total

  datatype PriceQuantity = PriceQuantity(price: int, quantity: int)

  /** `calculateCartTotal`: the left fold `total + item.price * item.quantity`
      starting from 0. */
  function CalculateCartTotal(items: seq<PriceQuantity>): int
  {
    if |items| == 0 then 0
    else
      var last := items[|items| - 1];
      CalculateCartTotal(items[..|items| - 1]) + last.price * last.quantity
  }

  lemma CalculateCartTotalEmpty()
    ensures CalculateCartTotal([]) == 0
  {
  }

  /** The total of a concatenation is the sum of the totals. */
  lemma {:induction false} CalculateCartTotalAppend(a: seq<PriceQuantity>, b: seq<PriceQuantity>)
    ensures CalculateCartTotal(a + b) == CalculateCartTotal(a) + CalculateCartTotal(b)
  {
    if |b| == 0 {
      assert a + b == a;
    } else {
      assert (a + b)[..|a + b| - 1] == a + b[..|b| - 1];
      CalculateCartTotalAppend(a, b[..|b| - 1]);
    }
  }
}
