/** The divider line of the console reporter: three bars in proportion to the test results. */
module TotalsDivider {
  import opened TotalsKeeping

  const CONSOLE_WIDTH: nat := 80

  datatype Divider =
    | Bars(failed: nat, failedButOk: nat, passed: nat)
    | Warning(length: nat)

  function MakeRatio(number: nat, total: nat): nat {
    var ratio := if total > 0 then CONSOLE_WIDTH * number / total else 0;
    if ratio == 0 && number > 0 then 1 else ratio
  }

  /** Which of three values `findMax` refers to. */
  function FindMax(i: nat, j: nat, k: nat): (m: nat)
    ensures m < 3
  {
    if i > j && i > k then 0 else if j > k then 1 else 2
  }

  /** `findMax` refers to a greatest value, and if they tie to the last of them. */
  lemma FindMaxIsGreatest(i: nat, j: nat, k: nat)
    ensures var values, m := [i, j, k], FindMax(i, j, k);
            && (forall n | 0 <= n < 3 :: values[n] <= values[m])
            && (forall n | m < n < 3 :: values[n] < values[m])
  {
  }

  // ---------- filling the line ----------

  datatype Ratios = Ratios(failed: nat, failedButOk: nat, passed: nat) {
    function Sum(): nat {
      failed + failedButOk + passed
    }

    function Greatest(): nat {
      FindMax(failed, failedButOk, passed)
    }

    function At(n: nat): nat {
      if n == 0 then failed else if n == 1 then failedButOk else passed
    }

    /** Another value for the greatest one. */
    function WithGreatest(v: nat): Ratios {
      var m := Greatest();
      if m == 0 then this.(failed := v) else if m == 1 then this.(failedButOk := v) else this.(passed := v)
    }
  }

  /** The greatest is raised, or lowered, until the line is full. */
  function Filled(r: Ratios): (f: Ratios)
    ensures f.Sum() == CONSOLE_WIDTH - 1
    decreases if r.Sum() > CONSOLE_WIDTH - 1 then r.Sum() else CONSOLE_WIDTH - r.Sum()
  {
    var greatest := r.At(r.Greatest());
    if r.Sum() < CONSOLE_WIDTH - 1 then Filled(r.WithGreatest(greatest + 1))
    else if r.Sum() > CONSOLE_WIDTH - 1 then Filled(r.WithGreatest(greatest - 1))
    else r
  }

  lemma FilledNext(r: Ratios)
    ensures var greatest := r.At(r.Greatest());
            Filled(r) == if r.Sum() < CONSOLE_WIDTH - 1 then Filled(r.WithGreatest(greatest + 1))
                         else if r.Sum() > CONSOLE_WIDTH - 1 then Filled(r.WithGreatest(greatest - 1))
                         else r
  {
  }

  lemma ChangedAt(r: Ratios, v: nat, n: nat)
    requires n < 3
    ensures r.WithGreatest(v).At(n) == (if n == r.Greatest() then v else r.At(n)) && r.At(n) <= r.At(r.Greatest())
    ensures r.WithGreatest(v).Sum() + r.At(r.Greatest()) == r.Sum() + v
    ensures v >= r.At(r.Greatest()) ==> r.WithGreatest(v).Greatest() == r.Greatest()
  {
  }

  /** Where the line is too long only bars at the top are lowered: such a one ends at most one below any other. */
  lemma {:induction false} OnlyTopLowered(r: Ratios, i: nat, j: nat)
    requires i < 3 && j < 3 && r.Sum() >= CONSOLE_WIDTH - 1
    ensures var f := Filled(r);
            f.At(i) <= r.At(i) && f.At(j) <= r.At(j) && (f.At(i) < r.At(i) ==> f.At(i) + 1 >= f.At(j))
    decreases r.Sum()
  {
    hide Filled, Ratios.WithGreatest, Ratios.Greatest, Ratios.At;
    FilledNext(r);
    if r.Sum() > CONSOLE_WIDTH - 1 {
      var greatest := r.At(r.Greatest());
      TopIsPositive(r);
      ChangedAt(r, greatest - 1, i);
      ChangedAt(r, greatest - 1, j);
      OnlyTopLowered(r.WithGreatest(greatest - 1), i, j);
    }
  }

  lemma TopIsPositive(r: Ratios)
    requires r.Sum() > 0
    ensures r.At(r.Greatest()) > 0
  {
  }

  /** Where it is too short only the greatest bar is raised. */
  lemma {:induction false} OnlyGreatestRaised(r: Ratios, i: nat)
    requires i < 3 && r.Sum() <= CONSOLE_WIDTH - 1
    ensures i != r.Greatest() ==> Filled(r).At(i) == r.At(i)
    decreases CONSOLE_WIDTH - r.Sum()
  {
    hide Filled, Ratios.WithGreatest, Ratios.Greatest, Ratios.At;
    FilledNext(r);
    if r.Sum() < CONSOLE_WIDTH - 1 {
      var greatest := r.At(r.Greatest());
      ChangedAt(r, greatest + 1, i);
      OnlyGreatestRaised(r.WithGreatest(greatest + 1), i);
    }
  }

  /** A bar is the share of the line that its count is of the total, rounded down, but not empty. */
  lemma RatioIs(number: nat, total: nat)
    requires 0 < total
    ensures var ratio := MakeRatio(number, total);
            if number == 0 then ratio == 0
            else
              && ratio > 0 && 80 * number < (ratio + 1) * total
              && (ratio * total <= 80 * number || ratio == 1)
  {
    ZeroRatio(total);
    Floor(80 * number, total);
    var q := 80 * number / total;
    assert (q + 1) * total == q * total + total;
  }

  lemma {:induction false} FloorBounds(a: nat, b: nat, c: nat, t: nat)
    requires t > 0 && a + b + c == t
    ensures var w := CONSOLE_WIDTH;
            78 <= w * a / t + w * b / t + w * c / t <= 80
  {
    var p, q, r := 80 * a / t, 80 * b / t, 80 * c / t;
    Floor(80 * a, t);
    Floor(80 * b, t);
    Floor(80 * c, t);
    SumBounds(p, q, r, t, 80 * a % t + 80 * b % t + 80 * c % t);
  }

  lemma Floor(n: nat, t: nat)
    requires t > 0
    ensures n == n / t * t + n % t && n % t <= t - 1
  {
  }

  lemma {:induction false} SumBounds(p: nat, q: nat, r: nat, t: nat, rest: nat)
    requires t > 0 && rest <= 3 * t - 3
    requires 80 * t == p * t + q * t + r * t + rest
    ensures 78 <= p + q + r <= 80
  {
    Spread(p, q, r, t);
    AtLeast(p + q + r, 81, t);
    AtLeast(77, p + q + r, t);
  }

  lemma Spread(p: nat, q: nat, r: nat, t: nat)
    ensures (p + q + r) * t == p * t + q * t + r * t
  {
  }

  lemma AtLeast(a: nat, b: nat, t: nat)
    ensures a >= b ==> a * t >= b * t
  {
  }

  ghost predicate SameZeros(a: nat, b: nat, c: nat, x: nat, y: nat, z: nat) {
    (a == 0 <==> x == 0) && (b == 0 <==> y == 0) && (c == 0 <==> z == 0)
  }

  /** Before the adjustment the bars are at most three columns from filling the line, and empty
      exactly for a zero count. */
  lemma {:induction false} RatiosNearWidth(a: nat, b: nat, c: nat, t: nat)
    requires t > 0 && a + b + c == t
    ensures 78 <= MakeRatio(a, t) + MakeRatio(b, t) + MakeRatio(c, t) <= 82
    ensures SameZeros(MakeRatio(a, t), MakeRatio(b, t), MakeRatio(c, t), a, b, c)
  {
    FloorBounds(a, b, c, t);
    ZeroRatio(t);
  }

  lemma ZeroRatio(t: nat)
    requires t > 0
    ensures MakeRatio(0, t) == 0
  {
    assert CONSOLE_WIDTH * 0 == 0 && 0 / t == 0;
  }

  method PrintTotalsDivider(testCases: Counts) returns (d: Divider)
    ensures testCases.Total() == 0 ==> d == Warning(CONSOLE_WIDTH - 1)
    ensures testCases.Total() > 0 ==>
              && d.Bars?
              && d.failed + d.failedButOk + d.passed == CONSOLE_WIDTH - 1
              && SameZeros(d.failed, d.failedButOk, d.passed,
                           testCases.failed, testCases.failedButOk, testCases.passed)
    ensures testCases.Total() > 0 ==>
              && d.failed <= MakeRatio(testCases.failed, testCases.Total()) + 1
              && d.failedButOk <= MakeRatio(testCases.failedButOk, testCases.Total()) + 1
              && d.passed <= MakeRatio(testCases.passed, testCases.Total()) + 1
              && MakeRatio(testCases.failed, testCases.Total()) <= d.failed + 3
              && MakeRatio(testCases.failedButOk, testCases.Total()) <= d.failedButOk + 3
              && MakeRatio(testCases.passed, testCases.Total()) <= d.passed + 3
    ensures testCases.Total() > 0 ==>
              Ratios(d.failed, d.failedButOk, d.passed)
              == Filled(Ratios(MakeRatio(testCases.failed, testCases.Total()),
                               MakeRatio(testCases.failedButOk, testCases.Total()),
                               MakeRatio(testCases.passed, testCases.Total())))
  {
    var total := testCases.Total();
    if total == 0 {
      return Warning(CONSOLE_WIDTH - 1);
    }
    var failed0 := MakeRatio(testCases.failed, total);
    var failedButOk0 := MakeRatio(testCases.failedButOk, total);
    var passed0 := MakeRatio(testCases.passed, total);
    RatiosNearWidth(testCases.failed, testCases.failedButOk, testCases.passed, total);
    var failed, failedButOk, passed := Adjust(failed0, failedButOk0, passed0);
    return Bars(failed, failedButOk, passed);
  }

  /** The two loops that make the bars fill the line, changing the greatest bar each time. */
  method Adjust(failed0: nat, failedButOk0: nat, passed0: nat)
    returns (failed: nat, failedButOk: nat, passed: nat)
    requires 78 <= failed0 + failedButOk0 + passed0 <= 82
    ensures failed + failedButOk + passed == CONSOLE_WIDTH - 1
    ensures SameZeros(failed, failedButOk, passed, failed0, failedButOk0, passed0)
    ensures failed <= failed0 + 1 && failedButOk <= failedButOk0 + 1 && passed <= passed0 + 1
    ensures failed0 <= failed + 3 && failedButOk0 <= failedButOk + 3 && passed0 <= passed + 3
    ensures Ratios(failed, failedButOk, passed) == Filled(Ratios(failed0, failedButOk0, passed0))
  {
    failed, failedButOk, passed := failed0, failedButOk0, passed0;
    ghost var filled := Filled(Ratios(failed0, failedButOk0, passed0));
    hide Filled;
    while failed + failedButOk + passed < CONSOLE_WIDTH - 1
      invariant 78 <= failed + failedButOk + passed && filled == Filled(Ratios(failed, failedButOk, passed))
      invariant SameZeros(failed, failedButOk, passed, failed0, failedButOk0, passed0)
      invariant failed0 <= failed && failedButOk0 <= failedButOk && passed0 <= passed
      invariant failed + failedButOk + passed <= failed0 + failedButOk0 + passed0 + 1
      invariant failed0 + failedButOk0 + passed0 >= 79 ==>
                  failed == failed0 && failedButOk == failedButOk0 && passed == passed0
      decreases CONSOLE_WIDTH - (failed + failedButOk + passed)
    {
      FilledNext(Ratios(failed, failedButOk, passed));
      var m := FindMax(failed, failedButOk, passed);
      if m == 0 {
        failed := failed + 1;
      } else if m == 1 {
        failedButOk := failedButOk + 1;
      } else {
        passed := passed + 1;
      }
    }
    ghost var f, o, p := failed, failedButOk, passed;
    while failed + failedButOk + passed > CONSOLE_WIDTH - 1
      invariant 79 <= failed + failedButOk + passed <= f + o + p
      invariant filled == Filled(Ratios(failed, failedButOk, passed))
      invariant SameZeros(failed, failedButOk, passed, failed0, failedButOk0, passed0)
      invariant failed <= f && failedButOk <= o && passed <= p
      decreases failed + failedButOk + passed
    {
      FilledNext(Ratios(failed, failedButOk, passed));
      var m := FindMax(failed, failedButOk, passed);
      if m == 0 {
        failed := failed - 1;
      } else if m == 1 {
        failedButOk := failedButOk - 1;
      } else {
        passed := passed - 1;
      }
    }
    FilledNext(Ratios(failed, failedButOk, passed));
  }
}
