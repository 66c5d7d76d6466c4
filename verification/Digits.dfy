/** The digit-splitting iterator of the C example: bounded extraction, in-place
    reversal, and a cursor. */
module Digits {
  import opened Wrappers

  const CAP := 20
  const INT64_MIN := -0x8000_0000_0000_0000
  const INT64_MAX := 0x7fff_ffff_ffff_ffff

  datatype Value = I64(val: int) | OtherValue
  datatype Code = CG_OK | CG_ERR_TYPE_MISMATCH | CG_ERR_RUNTIME

  function Abs(x: int): nat { if x < 0 then -x else x }

  /** The decimal digits, most significant first. */
  function Decimal(n: nat): seq<int> {
    if n < 10 then [n] else Decimal(n / 10) + [n % 10]
  }

  function Fold(ds: seq<int>): int {
    if ds == [] then 0 else Fold(ds[..|ds| - 1]) * 10 + ds[|ds| - 1]
  }

  predicate AllDigits(ds: seq<int>) {
    forall i :: 0 <= i < |ds| ==> 0 <= ds[i] <= 9
  }

  predicate Canonical(ds: seq<int>) {
    AllDigits(ds) && ds != [] && (|ds| > 1 ==> ds[0] != 0)
  }

  function Power(b: nat, n: nat): nat {
    if n == 0 then 1 else b * Power(b, n - 1)
  }

  function Reversed(s: seq<int>): seq<int> {
    seq(|s|, i requires 0 <= i < |s| => s[|s| - 1 - i])
  }

  /** The digits of a positive number as the loop finds them, least first. */
  function Extracted(n: nat): seq<int> {
    if n == 0 then [] else [n % 10] + Extracted(n / 10)
  }

  // ------------------------------------------------------------------- decimals

  /** Digits from 0 to 9, no leading zero, folding back to the number. */
  lemma {:induction false} DecimalFolds(n: nat)
    ensures Canonical(Decimal(n)) && Fold(Decimal(n)) == n
    ensures n > 0 ==> Decimal(n)[0] != 0
  {
    if n >= 10 {
      DecimalFolds(n / 10);
      assert Decimal(n)[..|Decimal(n)| - 1] == Decimal(n / 10);
    } else {
      assert Decimal(n)[..0] == [];
    }
  }

  lemma {:induction false} FoldPositive(ds: seq<int>)
    requires AllDigits(ds)
    ensures Fold(ds) >= 0 && (ds != [] && ds[0] != 0 ==> Fold(ds) > 0)
  {
    if ds != [] { FoldPositive(ds[..|ds| - 1]); }
  }

  /** Only those digits do. */
  lemma {:induction false} DecimalUnique(ds: seq<int>)
    requires Canonical(ds)
    ensures Fold(ds) >= 0 && Decimal(Fold(ds)) == ds
  {
    var front, last := ds[..|ds| - 1], ds[|ds| - 1];
    FoldPositive(ds);
    if |ds| == 1 {
      assert Fold(front) == 0;
    } else {
      FoldPositive(front);
      DecimalUnique(front);
      assert Fold(ds) / 10 == Fold(front) && Fold(ds) % 10 == last;
    }
  }

  lemma {:induction false} DecimalLength(n: nat, k: nat)
    requires k > 0 && n < Power(10, k)
    ensures |Decimal(n)| <= k
  {
    if n >= 10 {
      assert Power(10, 1) == 10;
      assert n / 10 < Power(10, k - 1);
      DecimalLength(n / 10, k - 1);
    }
  }

  lemma {:induction false} PowerAdds(b: nat, m: nat, n: nat)
    ensures Power(b, m + n) == Power(b, m) * Power(b, n)
    decreases m
  {
    if m > 0 {
      PowerAdds(b, m - 1, n);
      Associates(b, Power(b, m - 1), Power(b, n));
    }
  }

  lemma Associates(a: nat, b: nat, c: nat)
    ensures a * (b * c) == a * b * c
  {
  }

  /** Every 64-bit value but the least has at most 19 digits. */
  lemma FitsBelowCap(val: int)
    requires INT64_MIN < val <= INT64_MAX
    ensures |Decimal(Abs(val))| < CAP
  {
    PowerAdds(10, 9, 10);
    PowerAdds(10, 4, 5);
    PowerAdds(10, 5, 5);
    assert Power(10, 5) == 100_000 && Power(10, 4) == 10_000;
    assert Power(10, 19) == 10_000_000_000_000_000_000;
    DecimalLength(Abs(val), 19);
  }

  lemma {:induction false} ExtractedReversed(n: nat)
    requires n > 0
    ensures Reversed(Extracted(n)) == Decimal(n)
  {
    if n >= 10 {
      ExtractedReversed(n / 10);
    } else {
      assert Extracted(n) == [n];
    }
  }

  /** What the loop and the reversal make of any allowed value but 0. */
  lemma ExtractionComplete(val: int)
    requires INT64_MIN < val <= INT64_MAX && val != 0
    ensures |Extracted(Abs(val))| < CAP && Reversed(Extracted(Abs(val))) == Decimal(Abs(val))
  {
    FitsBelowCap(val);
    ExtractedReversed(Abs(val));
    assert |Extracted(Abs(val))| == |Reversed(Extracted(Abs(val)))|;
  }

  /** The outer `i` values on each side are swapped, the inner ones are not. */
  ghost predicate Swapped(was: seq<int>, now: seq<int>, i: nat) {
    && |was| == |now| && i <= |was| / 2
    && (forall k :: 0 <= k < i ==> now[k] == was[|was| - 1 - k] && now[|was| - 1 - k] == was[k])
    && (forall k :: i <= k < |was| - i ==> now[k] == was[k])
  }

  lemma SwapStep(was: seq<int>, now: seq<int>, i: nat)
    requires Swapped(was, now, i) && i < |was| / 2
    ensures Swapped(was, now[i := now[|was| - 1 - i]][|was| - 1 - i := now[i]], i + 1)
  {
  }

  lemma SwappedIsReversed(was: seq<int>, now: seq<int>)
    requires Swapped(was, now, |was| / 2)
    ensures now == Reversed(was)
  {
    forall k | 0 <= k < |was| ensures now[k] == was[|was| - 1 - k] {
      if k >= |was| - |was| / 2 { assert now[|was| - 1 - (|was| - 1 - k)] == was[|was| - 1 - k]; }
    }
  }

  // ------------------------------------------------------------------ iterator

  class DigitIter {
    var digits: array<int>
    var count: int
    var index: int

    ghost predicate Valid()
      reads this
    {
      digits.Length == CAP && 0 <= index <= count <= CAP
    }

    ghost function Contents(): seq<int>
      reads this, digits
      requires Valid()
    {
      digits[..count]
    }

    /** Zeroed memory. */
    constructor ()
      ensures Valid() && fresh(digits) && count == 0 && index == 0
    {
      digits := new int[CAP](i => 0);
      count := 0;
      index := 0;
    }

    method Extract(n: int)
      requires Valid() && count == 0 && index == 0 && n >= 0
      modifies this`count, digits
      ensures Valid() && digits == old(digits) && index == 0
      ensures |Extracted(n)| <= CAP ==> Contents() == Extracted(n)
    {
      var absVal := n;
      while absVal > 0 && count < CAP
        invariant Valid() && digits == old(digits) && index == 0 && absVal >= 0
        invariant Contents() + Extracted(absVal) == Extracted(n)
      {
        ghost var before := Contents();
        digits[count] := absVal % 10;
        count := count + 1;
        assert Contents() == before + [absVal % 10];
        absVal := absVal / 10;
      }
    }

    method Reverse()
      requires Valid()
      modifies digits
      ensures Valid() && Contents() == Reversed(old(Contents()))
    {
      ghost var was := Contents();
      var i := 0;
      while i < count / 2
        invariant 0 <= i <= count / 2
        invariant Swapped(was, Contents(), i)
      {
        ghost var now := Contents();
        var tmp := digits[i];
        digits[i] := digits[count - 1 - i];
        digits[count - 1 - i] := tmp;
        SwapStep(was, now, i);
        assert Contents() == now[i := now[count - 1 - i]][count - 1 - i := now[i]];
        i := i + 1;
      }
      SwappedIsReversed(was, Contents());
    }

    /** `digit_next`: the digit under the cursor, or none. */
    method Next() returns (r: Option<int>)
      requires Valid()
      modifies this`index
      ensures Valid() && (r, index) == Poll(Contents(), old(index))
    {
      if index >= count {
        return None;
      }
      r := Some(digits[index]);
      index := index + 1;
    }
  }

  /** One poll of a cursor over `ds`. */
  function Poll(ds: seq<int>, index: int): (Option<int>, int) {
    if 0 <= index < |ds| then (Some(ds[index]), index + 1) else (None, index)
  }

  /** The answers of `polls` polls. */
  function Polls(ds: seq<int>, index: int, polls: nat): seq<Option<int>>
    decreases polls
  {
    if polls == 0 then []
    else [Poll(ds, index).0] + Polls(ds, Poll(ds, index).1, polls - 1)
  }

  /** The digits in order, and nothing forever after. */
  lemma {:induction false} PollsYieldAll(ds: seq<int>, index: nat, polls: nat, k: nat)
    requires index <= |ds| && k < polls
    ensures |Polls(ds, index, polls)| == polls
    ensures Polls(ds, index, polls)[k] == if index + k < |ds| then Some(ds[index + k]) else None
    decreases polls
  {
    if polls > 1 {
      PollsYieldAll(ds, Poll(ds, index).1, polls - 1, if k == 0 then 0 else k - 1);
    }
  }

  /** `split_digits`. `memory` says whether `calloc` succeeded. */
  method SplitDigits(input: Value, memory: bool) returns (rc: Code, out: DigitIter?)
    requires input.I64? ==> INT64_MIN < input.val <= INT64_MAX
    ensures rc == if !input.I64? then CG_ERR_TYPE_MISMATCH else if !memory then CG_ERR_RUNTIME else CG_OK
    ensures rc == CG_OK <==> out != null
    ensures out != null ==>
              && fresh(out) && fresh(out.digits) && out.Valid() && out.index == 0
              && out.Contents() == Decimal(Abs(input.val))
              && Canonical(out.Contents())
              && Fold(out.Contents()) == if input.val < 0 then -input.val else input.val
  {
    out := null;
    if !input.I64? {
      return CG_ERR_TYPE_MISMATCH, null;
    }
    if !memory {
      return CG_ERR_RUNTIME, null;
    }
    DecimalFolds(Abs(input.val));
    var state := new DigitIter();
    var absVal := if input.val < 0 then -input.val else input.val;
    if absVal == 0 {
      state.digits[0] := 0;
      state.count := 1;
      assert state.Contents() == [0];
    } else {
      ExtractionComplete(input.val);
      state.Extract(absVal);
      state.Reverse();
    }
    state.index := 0;
    return CG_OK, state;
  }
}
