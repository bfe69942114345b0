/** The cashier's payment form (`src/components/cashier/PaymentForm.tsx`):
    the amount check on submit, the change display, the quick-amount buttons
    and the submit button's enablement. Amounts are whole rupiah; an amount
    the box cannot parse as a number is `None`. */
module PaymentForm {
  import opened Wrappers
  import opened Seqs
  import opened Types

  const AmountTooLowError: string := "Amount paid must be at least the order total"

  /** `handleSubmit`: an unparsable amount or one below the total is refused;
      otherwise the method and the amount are handed to `onPayment`. */
  function SubmitPayment(pm: PaymentMethod, amount: Option<int>, total: int): (r: Result<(PaymentMethod, int), string>)
    ensures r.Success? <==> amount.Some? && amount.value >= total
    ensures r.Failure? ==> r.error == AmountTooLowError
    ensures r.Success? ==> r.value == (pm, amount.value)
  {
    if amount.None? || amount.value < total then Failure(AmountTooLowError)
    else Success((pm, amount.value))
  }

  /** `parseFloat(amountPaid) || 0`. */
  function DisplayedAmount(amount: Option<int>): int
  {
    amount.GetOr(0)
  }

  function Change(amount: Option<int>, total: int): int
  {
    DisplayedAmount(amount) - total
  }

  predicate IsValidAmount(amount: Option<int>, total: int)
  {
    DisplayedAmount(amount) >= total
  }

  /** The change panel is shown for a valid amount that exceeds the total. */
  predicate ShowsChange(amount: Option<int>, total: int)
  {
    IsValidAmount(amount, total) && Change(amount, total) > 0
  }

  /** The submit button is disabled for cash while the amount is invalid. */
  predicate SubmitDisabled(pm: PaymentMethod, amount: Option<int>, total: int)
  {
    pm == Cash && !IsValidAmount(amount, total)
  }

  /** Change is shown exactly when a number strictly above the total was
      entered, and then it is that excess. */
  lemma ChangeShownIff(amount: Option<int>, total: int)
    ensures ShowsChange(amount, total) <==> DisplayedAmount(amount) > total
    ensures ShowsChange(amount, total) ==> Change(amount, total) == DisplayedAmount(amount) - total > 0
  {
  }

  /** A cash payment the enabled button submits with a parsed amount is
      accepted, and an accepted payment never owes negative change. */
  lemma EnabledCashSubmits(amount: Option<int>, total: int)
    ensures !SubmitDisabled(Cash, amount, total) && amount.Some? ==> SubmitPayment(Cash, amount, total).Success?
    ensures forall m :: SubmitPayment(m, amount, total).Success? ==> Change(amount, total) >= 0 && !SubmitDisabled(m, amount, total)
  {
  }

  /** `Math.ceil(total / step) * step` for a positive step: the least
      multiple of `step` not below `total`. */
  function RoundUp(total: int, step: int): (r: int)
    requires step > 0
    ensures r >= total && r - total < step
    ensures r % step == 0
  {
    var q := (-total) / step;
    DivModUnique((-q) * step, step, -q, 0);
    (-q) * step
  }

  /** Euclidean division is determined by quotient and remainder. */
  lemma DivModUnique(a: int, d: int, q: int, r: int)
    requires d > 0 && 0 <= r < d && a == q * d + r
    ensures a / d == q && a % d == r
  {
    var q', r' := a / d, a % d;
    assert a == q' * d + r';
    MulDistinct(q, q', d);
    assert q * d - q' * d == r' - r;
    assert q == q';
  }

  /** Distinct multiples of `d` are at least `d` apart. */
  lemma MulDistinct(q: int, q': int, d: int)
    requires d > 0
    ensures q > q' ==> q * d - q' * d >= d
    ensures q < q' ==> q' * d - q * d >= d
  {
    if q > q' {
      MulAtLeast(q - q', d);
      assert q * d - q' * d == (q - q') * d;
    } else if q < q' {
      MulAtLeast(q' - q, d);
      assert q' * d - q * d == (q' - q) * d;
    }
  }

  lemma MulAtLeast(k: int, d: int)
    requires k >= 1 && d > 0
    ensures k * d >= d
  {
    assert k * d == (k - 1) * d + d;
  }

  /** The four candidates of `quickAmounts` before duplicates are removed. */
  function QuickCandidates(total: int): seq<int>
  {
    [total, RoundUp(total, 50000), RoundUp(total, 100000), RoundUp(total, 100000) + 50000]
  }

  /** `.filter((amount, index, arr) => arr.indexOf(amount) === index)`: the
      first occurrence of each value, in order. */
  function FirstOccurrences(s: seq<int>): (r: seq<int>)
    ensures Distinct(r)
    ensures forall x :: x in r <==> x in s
    ensures |s| > 0 ==> |r| > 0 && r[0] == s[0]
    ensures |r| <= |s|
  {
    if |s| == 0 then []
    else
      var prefix := FirstOccurrences(s[..|s| - 1]);
      var last := s[|s| - 1];
      assert forall x :: x in s <==> x in s[..|s| - 1] || x == last by {
        assert s == s[..|s| - 1] + [last];
      }
      if last in prefix then prefix
      else
        assert forall i :: 0 <= i < |prefix| ==> prefix[i] != last;
        prefix + [last]
  }

  /** The indices holding a value's first occurrence, the ones
      `arr.indexOf(amount) === index` accepts. */
  function IsFirstAt(s: seq<int>): int -> bool
  {
    (i: int) => 0 <= i < |s| && s[i] !in s[..i]
  }

  /** `FirstOccurrences` keeps `s[i]` exactly when no earlier element equals
      it, and keeps the survivors in their order in `s`. */
  lemma {:induction false} FirstOccurrencesInOrder(s: seq<int>)
    ensures Picks(FirstOccurrences(s), s, IsFirstAt(s))
  {
    if |s| > 0 {
      var prefix, last := s[..|s| - 1], s[|s| - 1];
      FirstOccurrencesInOrder(prefix);
      FirstPositionsSnoc(s);
      var idx, idx' := Positions(|s|, IsFirstAt(s)), Positions(|prefix|, IsFirstAt(prefix));
      var r, r' := FirstOccurrences(s), FirstOccurrences(prefix);
      assert r == r' + (if last !in prefix then [last] else []);
      forall k | 0 <= k < |r| ensures 0 <= idx[k] < |s| && r[k] == s[idx[k]] {
        if k < |r'| {
          assert r[k] == r'[k] && idx[k] == idx'[k];
          assert prefix[idx'[k]] == s[idx'[k]];
        }
      }
    }
  }

  /** The first-occurrence positions of `s` are those of its prefix, then the
      last index when the last value is new. */
  lemma FirstPositionsSnoc(s: seq<int>)
    requires |s| > 0
    ensures var prefix := s[..|s| - 1];
      Positions(|s|, IsFirstAt(s))
        == Positions(|prefix|, IsFirstAt(prefix)) + (if s[|s| - 1] !in prefix then [|prefix|] else [])
  {
    var prefix := s[..|s| - 1];
    forall i | 0 <= i < |prefix| ensures IsFirstAt(prefix)(i) == IsFirstAt(s)(i) {
      assert prefix[i] == s[i] && prefix[..i] == s[..i];
    }
    PositionsCongruent(|prefix|, IsFirstAt(prefix), IsFirstAt(s));
    assert IsFirstAt(s)(|prefix|) <==> s[|s| - 1] !in prefix;
  }

  function QuickAmounts(total: int): seq<int>
  {
    FirstOccurrences(QuickCandidates(total))
  }

  /** The quick amounts start with the total, hold one to four distinct
      amounts, none below the total, and every one after the first is a
      multiple of 50000. */
  lemma QuickAmountsFacts(total: int)
    ensures var q := QuickAmounts(total);
      && 1 <= |q| <= 4 && q[0] == total && Distinct(q)
      && (forall a :: a in q ==> a >= total)
      && (forall a :: a in q && a != total ==> a % 50000 == 0)
  {
    CandidatesFacts(total);
  }

  /** Every candidate is at least the total, and each one other than the
      total itself is a multiple of 50000. */
  lemma CandidatesFacts(total: int)
    ensures forall a :: a in QuickCandidates(total) ==> a >= total && (a != total ==> a % 50000 == 0)
  {
    var h := RoundUp(total, 100000);
    var k := h / 100000;
    DivModUnique(h, 100000, k, 0);
    DivModUnique(h, 50000, 2 * k, 0);
    DivModUnique(h + 50000, 50000, 2 * k + 1, 0);
  }
}
