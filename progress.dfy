/** The throttle on the worker's progress line, printed after every probe that it lets through. */
module Progress {

  /** `max(1, total // 100)`; `total` is a list length, so floor division is Dafny's `/`. */
  function Divisor(total: nat): (d: nat)
    ensures 1 <= d
    ensures total < 200 ==> d == 1
    ensures 200 <= total ==> d == total / 100
  {
    if total / 100 > 1 then total / 100 else 1
  }

  /** Whether the progress line is printed after the `done`-th claim out of `total`.
      The divisor is at least 1, so the remainder is always defined. */
  predicate ShowsProgress(done: int, total: nat)
  {
    done % Divisor(total) == 0 || done <= 50
  }

  /** The first fifty claims always report progress. */
  lemma EarlyClaimsShown(done: int, total: nat)
    requires done <= 50
    ensures ShowsProgress(done, total)
  {
  }

  /** Below 200 ports every claim reports progress. */
  lemma SmallScansAlwaysShown(done: int, total: nat)
    requires total < 200
    ensures ShowsProgress(done, total)
  {
    assert Divisor(total) == 1;
  }

  /** Gaps between reports are bounded: among any `Divisor(total)` consecutive claim numbers
      at least one reports progress. */
  lemma ReportGapBounded(done: int, total: nat) returns (k: int)
    ensures done <= k < done + Divisor(total)
    ensures ShowsProgress(k, total)
  {
    var d := Divisor(total);
    var r := done % d;
    if r == 0 {
      k := done;
    } else {
      k := done + (d - r);
      assert done == d * (done / d) + r;
      assert k == d * (done / d + 1);
      MultipleMod(done / d + 1, d);
    }
  }

  lemma MultipleMod(q: int, d: nat)
    requires 0 < d
    ensures (d * q) % d == 0
  {
    var m := (d * q) % d;
    var p := (d * q) / d;
    assert d * q == d * p + m;
    assert d * (q - p) == m;
    if q - p >= 1 {
      assert false;
    } else if q - p <= -1 {
      assert false;
    }
  }

  /** The final count is not always reported: below 200 ports it is, but from 200 ports on
      it is reported exactly when the hundredth of the total divides the total; so with 201
      ports the divisor is 2 and the 201st claim, odd and past 50, prints nothing. */
  lemma FinalCountCanBeSkipped(total: nat)
    ensures total < 200 ==> ShowsProgress(total, total)
    ensures 200 <= total ==> (ShowsProgress(total, total) <==> total % (total / 100) == 0)
    ensures !ShowsProgress(201, 201)
  {
    assert Divisor(201) == 2;
  }
}
