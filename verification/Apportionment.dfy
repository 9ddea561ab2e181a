/**
 * Effort over the parts of a split case (cases/teamlead.service.ts, `apportion`). Effort is
 * counted in hundredths here: the source never keeps it finer.
 */
module Apportionment {
  import opened CaseSplit

  /** `roundTo2(total * quantity / whole)` in hundredths: halves are rounded up. */
  function Share(total: int, quantity: int, whole: int): int
    requires whole > 0
  {
    (2 * total * quantity + whole) / (2 * whole)
  }

  function Shares(total: int, quantities: seq<int>, whole: int): seq<int>
    requires whole > 0
  {
    seq(|quantities|, i requires 0 <= i < |quantities| => Share(total, quantities[i], whole))
  }

  /** Rounded proportions for all but the last, and everything handed out. */
  ghost predicate IsApportioned(total: int, quantities: seq<int>, whole: int, shares: seq<int>) {
    && whole > 0 && quantities != [] && |shares| == |quantities|
    && shares[..|quantities| - 1] == Shares(total, quantities, whole)[..|quantities| - 1]
    && SumOf(shares) == total
  }

  /** Every part but the last gets its rounded proportion; the last gets what is left. */
  method Apportion(total: int, quantities: seq<int>, whole: int) returns (shares: seq<int>)
    requires quantities != []
    ensures |shares| == |quantities|
    ensures whole <= 0 ==> forall s :: s in shares ==> s == 0
    ensures whole > 0 ==> IsApportioned(total, quantities, whole, shares)
  {
    if whole <= 0 {
      return seq(|quantities|, i => 0);
    }
    shares := [];
    var used, index := 0, 0;
    while index < |quantities| - 1
      invariant 0 <= index <= |quantities| - 1
      invariant shares == Shares(total, quantities, whole)[..index]
      invariant used == SumOf(shares)
    {
      var value := Share(total, quantities[index], whole);
      assert (shares + [value])[..index] == shares;
      shares := shares + [value];
      used := used + value;
      index := index + 1;
    }
    assert (shares + [total - used])[..index] == shares;
    shares := shares + [total - used];
  }

  /** A rounded share is within half a hundredth of the exact proportion. */
  lemma ShareIsNear(total: int, quantity: int, whole: int)
    requires whole > 0
    ensures -whole <= 2 * (whole * Share(total, quantity, whole) - total * quantity) <= whole
  {
  }

  /** The errors of `n` rounded shares add up to at most `n` halves. */
  lemma {:induction false} SharesAreNear(total: int, quantities: seq<int>, whole: int, n: nat)
    requires whole > 0 && n <= |quantities|
    ensures var error := 2 * (whole * SumOf(Shares(total, quantities, whole)[..n]) - total * SumOf(quantities[..n]));
      -(n * whole) <= error <= n * whole
  {
    if n > 0 {
      SharesAreNear(total, quantities, whole, n - 1);
      ShareIsNear(total, quantities[n - 1], whole);
      var s := Shares(total, quantities, whole);
      assert s[..n][..n - 1] == s[..n - 1] && quantities[..n][..n - 1] == quantities[..n - 1];
      ErrorsAdd(total, whole, SumOf(s[..n - 1]), SumOf(quantities[..n - 1]), s[n - 1], quantities[n - 1], n);
    }
  }

  lemma ErrorsAdd(total: int, whole: int, shares: int, quantities: int, share: int, quantity: int, n: nat)
    requires n > 0 && -((n - 1) * whole) <= 2 * (whole * shares - total * quantities) <= (n - 1) * whole
    requires -whole <= 2 * (whole * share - total * quantity) <= whole
    ensures -(n * whole) <= 2 * (whole * (shares + share) - total * (quantities + quantity)) <= n * whole
  {
  }

  lemma Distribute(a: int, b: int, c: int)
    ensures a * (b + c) == a * b + a * c
  {
  }

  /**
   * With quantities that add up to the whole, the last share carries all rounding errors:
   * it is within (k-1)/2 hundredths of its exact proportion.
   */
  lemma LastShareIsNear(total: int, quantities: seq<int>, whole: int, shares: seq<int>)
    requires IsApportioned(total, quantities, whole, shares) && SumOf(quantities) == whole
    ensures var k := |quantities| - 1;
      -(k * whole) <= 2 * (whole * shares[k] - total * quantities[k]) <= k * whole
  {
    var k := |quantities| - 1;
    SharesAreNear(total, quantities, whole, k);
    RestCarriesErrors(total, whole, SumOf(shares[..k]), shares[k], SumOf(quantities[..k]), quantities[k]);
  }

  /** What the others got too much or too little, the last one gets too little or too much. */
  lemma RestCarriesErrors(total: int, whole: int, shares: int, last: int, quantities: int, quantity: int)
    requires shares + last == total && quantities + quantity == whole
    ensures whole * last - total * quantity == -(whole * shares - total * quantities)
  {
    Distribute(whole, shares, last);
    Distribute(total, quantities, quantity);
  }

  // ---------------------------------------------------------------- when a share is negative

  /** What the rounded shares hand out beyond their exact proportions, times the whole. */
  function RoundedAway(total: int, quantities: seq<int>, whole: int): int
    requires whole > 0 && quantities != []
  {
    var k := |quantities| - 1;
    whole * SumOf(Shares(total, quantities, whole)[..k]) - total * SumOf(quantities[..k])
  }

  lemma SignOfProduct(a: int, b: int)
    requires a > 0
    ensures a * b >= 0 <==> b >= 0
  {
    if b < 0 {
      assert a * b <= -a;
    }
  }

  /**
   * The last share is negative exactly when rounding has handed out more than the last part's
   * exact proportion. Both sides are known before the first share is written.
   */
  lemma LastShareSign(total: int, quantities: seq<int>, whole: int, shares: seq<int>)
    requires IsApportioned(total, quantities, whole, shares) && SumOf(quantities) == whole
    ensures var k := |quantities| - 1;
      shares[k] >= 0 <==> RoundedAway(total, quantities, whole) <= total * quantities[k]
  {
    var k := |quantities| - 1;
    RestCarriesErrors(total, whole, SumOf(shares[..k]), shares[k], SumOf(quantities[..k]), quantities[k]);
    SignOfProduct(whole, shares[k]);
  }

  /** Every other share of a non-negative effort over non-negative quantities is not negative. */
  lemma OtherSharesAreNotNegative(total: int, quantity: int, whole: int)
    requires whole > 0 && total >= 0 && quantity >= 0
    ensures Share(total, quantity, whole) >= 0
  {
    assert total * quantity >= 0;
    assert 2 * total * quantity == 2 * (total * quantity);
  }

  /** A last part whose exact proportion is at least half a hundredth for every other part is safe. */
  lemma LargeLastPartIsSafe(total: int, quantities: seq<int>, whole: int, shares: seq<int>)
    requires IsApportioned(total, quantities, whole, shares) && SumOf(quantities) == whole
    requires 2 * (total * quantities[|quantities| - 1]) >= (|quantities| - 1) * whole
    ensures shares[|quantities| - 1] >= 0
  {
    LastShareIsNear(total, quantities, whole, shares);
    SignOfProduct(whole, shares[|quantities| - 1]);
  }

  /** Up to three parts are always safe, provided that the last of three has goods. */
  lemma ThreePartsAreSafe(total: int, quantities: seq<int>, whole: int, shares: seq<int>)
    requires IsApportioned(total, quantities, whole, shares) && SumOf(quantities) == whole
    requires total >= 0 && quantities[|quantities| - 1] >= 0 && |quantities| <= 3
    requires |quantities| == 3 ==> quantities[2] > 0
    ensures shares[|quantities| - 1] >= 0
  {
    var k := |quantities| - 1;
    if total == 0 {
      NothingToShare(quantities, whole);
    } else {
      LastShareIsNear(total, quantities, whole, shares);
      SignOfProduct(total, quantities[k]);
      SignOfProduct(total, quantities[k] - 1);
      FewErrorsAreSafe(whole, shares[k], total * quantities[k], k);
    }
  }

  /** Up to two halves of an error cannot make a whole number negative. */
  lemma FewErrorsAreSafe(whole: int, last: int, exact: int, k: nat)
    requires whole > 0 && exact >= 0 && k <= 2 && (k == 2 ==> exact > 0)
    requires -(k * whole) <= 2 * (whole * last - exact)
    ensures last >= 0
  {
    assert last >= 0 || whole * last <= -whole by {
      SignOfProduct(whole, -1 - last);
    }
    assert k * whole <= 2 * whole;
    assert k < 2 ==> k * whole <= whole;
  }

  lemma {:induction false} NothingToShare(quantities: seq<int>, whole: int)
    requires whole > 0 && quantities != []
    ensures SumOf(Shares(0, quantities, whole)[..|quantities| - 1]) == 0
  {
    SharesAreNothing(quantities, whole, |quantities| - 1);
  }

  lemma {:induction false} SharesAreNothing(quantities: seq<int>, whole: int, n: nat)
    requires whole > 0 && n <= |quantities|
    ensures SumOf(Shares(0, quantities, whole)[..n]) == 0
  {
    if n > 0 {
      SharesAreNothing(quantities, whole, n - 1);
      assert Shares(0, quantities, whole)[..n][..n - 1] == Shares(0, quantities, whole)[..n - 1];
      assert Shares(0, quantities, whole)[n - 1] == whole / (2 * whole);
    }
  }

  lemma {:induction false} SumOfThree(a: int, b: int, c: int)
    ensures SumOf([a, b]) == a + b && SumOf([a, b, c]) == a + b + c
  {
    assert [a, b, c][..2] == [a, b] && [a, b][..1] == [a] && [a][..0] == [];
    assert SumOf([a]) == SumOf([]) + a;
  }

  /** Four parts are not: two hundredths over four equal parts leave minus one for the last. */
  lemma {:induction false} LastShareCanBeNegative()
    ensures IsApportioned(2, [1, 1, 1, 1], 4, [1, 1, 1, -1])
    ensures SumOf([1, 1, 1, 1]) == 4
    ensures RoundedAway(2, [1, 1, 1, 1], 4) > 2 * 1
  {
    assert Share(2, 1, 4) == 1;
    var q, s := [1, 1, 1, 1], [1, 1, 1, -1];
    assert Shares(2, q, 4)[..3] == [1, 1, 1] == s[..3] == q[..3];
    SumOfThree(1, 1, 1);
  }

  /** Nor are three when the last one has no goods: one hundredth over 2, 2 and 0 of four. */
  lemma {:induction false} EmptyLastPartCanBeNegative()
    ensures IsApportioned(1, [2, 2, 0], 4, [1, 1, -1]) && SumOf([2, 2, 0]) == 4
  {
    assert Share(1, 2, 4) == 1;
    var q, s := [2, 2, 0], [1, 1, -1];
    assert Shares(1, q, 4)[..2] == [1, 1] == s[..2];
    SumOfThree(2, 2, 0);
    SumOfThree(1, 1, -1);
  }
}
