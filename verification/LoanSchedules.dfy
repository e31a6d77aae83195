/** The two loan schedule generators, in whole paise with Math.round's half-up rounding. */
module LoanSchedules {
  datatype Frequency = Monthly | Quarterly | Bullet

  datatype Row = Row(no: nat, principal: int, interest: int, total: int, after: int)

  function Round(x: real): int {
    (x + 0.5).Floor
  }

  lemma RoundNear(x: real)
    ensures -0.5 < Round(x) as real - x <= 0.5
  {
  }

  function Interest(balance: int, rate: real): int {
    Round(balance as real * rate)
  }

  // ---- import-debt-schedule: genSchedule ----

  datatype Loan = Loan(freq: Frequency, disbursed: bool, tenureMonths: nat, emi: int, roiPercent: real, sanction: int)

  predicate IsBullet(loan: Loan) {
    loan.freq.Bullet? || loan.tenureMonths == 0 || loan.emi == 0
  }

  function Installments(loan: Loan): nat {
    if loan.freq.Quarterly? then (loan.tenureMonths + 2) / 3 else loan.tenureMonths
  }

  function StepRate(loan: Loan): real {
    if loan.freq.Quarterly? then loan.roiPercent / 4.0 / 100.0 else loan.roiPercent / 12.0 / 100.0
  }

  /** The balance after an installment, before any clamping. */
  function NextBalance(balance: int, emi: int, rate: real): int {
    balance - (emi - Interest(balance, rate))
  }

  /** Row i + 1 of n: the balance is clamped at zero, and the last row clears it. */
  function ScheduleRow(balance: int, emi: int, interest: int, i: nat, n: nat): Row {
    var next := balance - (emi - interest);
    Row(i + 1, emi - interest, interest, emi, if i + 1 == n || next < 0 then 0 else next)
  }

  /** Rows i + 1 to n, starting from the given balance. */
  function ScheduleFrom(balance: int, emi: int, rate: real, i: nat, n: nat): seq<Row>
    decreases n - i
  {
    if i >= n then [] else
    var row := ScheduleRow(balance, emi, Interest(balance, rate), i, n);
    [row] + ScheduleFrom(row.after, emi, rate, i + 1, n)
  }

  predicate ScheduleGoesOn(done: seq<Row>, balance: int, emi: int, rate: real, i: nat, n: nat, all: seq<Row>) {
    done + ScheduleFrom(balance, emi, rate, i, n) == all
  }

  lemma ScheduleStep(done: seq<Row>, balance: int, emi: int, rate: real, i: nat, n: nat, all: seq<Row>)
    requires i < n && ScheduleGoesOn(done, balance, emi, rate, i, n, all)
    ensures var row := ScheduleRow(balance, emi, Interest(balance, rate), i, n);
            ScheduleGoesOn(done + [row], row.after, emi, rate, i + 1, n, all)
  {
  }

  method GenSchedule(loan: Loan) returns (rows: seq<Row>)
    ensures !loan.disbursed ==> rows == []
    ensures loan.disbursed && (loan.freq.Bullet? || loan.tenureMonths == 0 || loan.emi == 0) ==>
              rows == [Row(1, loan.sanction, 0, loan.sanction, 0)]
    ensures loan.disbursed && !IsBullet(loan) ==>
              rows == ScheduleFrom(loan.sanction, loan.emi, StepRate(loan), 0, Installments(loan))
  {
    if !loan.disbursed { return []; }
    if IsBullet(loan) { return [Row(1, loan.sanction, 0, loan.sanction, 0)]; }
    rows := Amortise(loan.sanction, loan.emi, StepRate(loan), Installments(loan));
  }

  method Amortise(sanction: int, emi: int, rate: real, n: nat) returns (rows: seq<Row>)
    ensures rows == ScheduleFrom(sanction, emi, rate, 0, n)
  {
    var outstanding := sanction;
    rows := [];
    ghost var all := ScheduleFrom(sanction, emi, rate, 0, n);
    for i := 0 to n
      invariant ScheduleGoesOn(rows, outstanding, emi, rate, i, n, all)
    {
      ScheduleStep(rows, outstanding, emi, rate, i, n, all);
      var interest := Interest(outstanding, rate);
      var principal := emi - interest;
      outstanding := if outstanding - principal > 0 then outstanding - principal else 0;
      if i + 1 == n { outstanding := 0; }
      rows := rows + [Row(i + 1, principal, interest, emi, outstanding)];
    }
    assert rows + [] == rows;
  }

  /** The interest of a period, to the nearest paisa, halves up. */
  predicate Charges(row: Row, before: int, rate: real) {
    -0.5 < row.interest as real - before as real * rate <= 0.5
  }

  /** The row pays one EMI, interest first; what is left does not fall below zero, and nothing is left after the last. */
  predicate Amortises(row: Row, before: int, emi: int, rate: real, no: nat, isLast: bool) {
    && row.no == no && row.total == emi && Charges(row, before, rate) && row.principal + row.interest == emi
    && row.after == if isLast || row.principal > before then 0 else before - row.principal
  }

  lemma {:induction false} EachRowAmortises(balance: int, emi: int, rate: real, i: nat, n: nat, k: nat)
    requires i + k < n
    ensures var rows := ScheduleFrom(balance, emi, rate, i, n);
            |rows| == n - i && Amortises(rows[k], Before(balance, rows, k), emi, rate, i + k + 1, i + k + 1 == n)
    decreases n - i
  {
    ScheduleUnfolds(balance, emi, rate, i, n);
    FirstRowAmortises(balance, emi, rate, i, n);
    var row := ScheduleRow(balance, emi, Interest(balance, rate), i, n);
    if i + 1 < n {
      EachRowAmortises(row.after, emi, rate, i + 1, n, if k == 0 then 0 else k - 1);
    }
    if k > 0 {
      BeforeInRest(balance, row, ScheduleFrom(row.after, emi, rate, i + 1, n), k);
    }
  }

  lemma FirstRowAmortises(balance: int, emi: int, rate: real, i: nat, n: nat)
    requires i < n
    ensures Amortises(ScheduleRow(balance, emi, Interest(balance, rate), i, n), balance, emi, rate, i + 1, i + 1 == n)
  {
    RoundNear(balance as real * rate);
  }

  lemma BeforeInRest(opening: int, row: Row, rest: seq<Row>, k: nat)
    requires 0 < k <= |rest|
    ensures var rows := [row] + rest;
            rows[k] == rest[k - 1] && Before(opening, rows, k) == Before(row.after, rest, k - 1)
  {
  }

  /** So many periods of three months, or of one, are the least that reach the months given. */
  predicate Covers(freq: Frequency, periods: nat, months: nat) {
    if freq.Quarterly? then 3 * periods - 3 < months <= 3 * periods else periods == months
  }

  /** The rate of a period: a fourth or a twelfth of the yearly percentage. */
  function RatePerPeriod(freq: Frequency, roiPercent: real): (rate: real)
    ensures (if freq.Quarterly? then 400.0 else 1200.0) * rate == roiPercent
  {
    if freq.Quarterly? then roiPercent / 400.0 else roiPercent / 1200.0
  }

  /** The schedule of a loan: the least number of installments that reaches the tenure, each amortising the
      balance before it at the period's part of the yearly rate. */
  lemma ScheduleSays(loan: Loan, k: nat)
    requires !IsBullet(loan) && k < Installments(loan)
    ensures var rows := ScheduleFrom(loan.sanction, loan.emi, StepRate(loan), 0, Installments(loan));
            && Covers(loan.freq, |rows|, loan.tenureMonths)
            && Amortises(rows[k], Before(loan.sanction, rows, k), loan.emi, RatePerPeriod(loan.freq, loan.roiPercent),
                         k + 1, k + 1 == |rows|)
  {
    EachRowAmortises(loan.sanction, loan.emi, StepRate(loan), 0, Installments(loan), k);
  }

  /** The rounded balance after i installments, never clamped. */
  function Balance(opening: int, emi: int, rate: real, i: nat): int {
    if i == 0 then opening else NextBalance(Balance(opening, emi, rate, i - 1), emi, rate)
  }

  function NextExact(balance: real, emi: int, rate: real): real {
    balance * (1.0 + rate) - emi as real
  }

  /** The same without rounding: P(1 + r) - EMI. */
  function ExactBalance(opening: int, emi: int, rate: real, i: nat): real {
    if i == 0 then opening as real else NextExact(ExactBalance(opening, emi, rate, i - 1), emi, rate)
  }

  function Power(g: real, k: nat): real {
    if k == 0 then 1.0 else Power(g, k - 1) * g
  }

  /** 1 + g + ... + g^(i-1) */
  function PowerSum(g: real, i: nat): real {
    if i == 0 then 0.0 else PowerSum(g, i - 1) + Power(g, i - 1)
  }

  /** Half a paisa for every term of the power sum. */
  function HalfPaisa(g: real, i: nat): real {
    0.5 * PowerSum(g, i)
  }

  /** A bound after one more installment. */
  function Widened(bound: real, g: real): real {
    bound * g + 0.5
  }

  lemma HalfPaisaStep(g: real, i: nat)
    ensures HalfPaisa(g, i + 1) == Widened(HalfPaisa(g, i), g)
  {
    PowerSumStep(g, i);
    var s := PowerSum(g, i);
    assert 0.5 * (s * g + 1.0) == (0.5 * s) * g + 0.5;
  }

  lemma {:induction false} PowerSumStep(g: real, i: nat)
    ensures PowerSum(g, i + 1) == PowerSum(g, i) * g + 1.0
  {
    if i > 0 {
      PowerSumStep(g, i - 1);
      calc {
        PowerSum(g, i + 1);
        PowerSum(g, i) + Power(g, i);
        PowerSum(g, i - 1) * g + 1.0 + Power(g, i - 1) * g;
        (PowerSum(g, i - 1) + Power(g, i - 1)) * g + 1.0;
        PowerSum(g, i) * g + 1.0;
      }
    }
  }

  function Abs(x: real): real {
    if x < 0.0 then -x else x
  }

  /** The error after an installment is the old one grown by g plus the rounding of the interest. */
  lemma ErrorSplits(b: real, x: real, rate: real, interest: real)
    ensures b + interest - x * (1.0 + rate) == (b - x) * (1.0 + rate) + (interest - b * rate)
  {
    var g := 1.0 + rate;
    assert (b - x) * g == b * g - x * g;
    assert b * g == b + b * rate;
  }

  lemma ErrorScales(e: real, bound: real, g: real)
    requires g >= 0.0 && Abs(e) <= bound
    ensures Abs(e * g) <= bound * g
  {
    if e < 0.0 {
      MulMonotone(-e, bound, g);
      assert (-e) * g == -(e * g);
      MulMonotone(0.0, -e, g);
    } else {
      MulMonotone(e, bound, g);
      MulMonotone(0.0, e, g);
    }
  }

  lemma AddRounding(x: real, rounding: real, most: real)
    requires Abs(x) <= most && Abs(rounding) <= 0.5
    ensures Abs(x + rounding) <= most + 0.5
  {
  }

  lemma ErrorWidens(e: real, rounding: real, bound: real, g: real)
    requires g >= 0.0 && Abs(e) <= bound && Abs(rounding) <= 0.5
    ensures Abs(e * g + rounding) <= Widened(bound, g)
  {
    ErrorScales(e, bound, g);
    AddRounding(e * g, rounding, bound * g);
  }

  lemma ErrorStep(b: int, x: real, emi: int, rate: real, bound: real)
    requires 1.0 + rate >= 0.0 && Abs(b as real - x) <= bound
    ensures Abs(NextBalance(b, emi, rate) as real - NextExact(x, emi, rate)) <= Widened(bound, 1.0 + rate)
  {
    var interest := Interest(b, rate) as real;
    RoundNear(b as real * rate);
    ErrorSplits(b as real, x, rate, interest);
    ErrorWidens(b as real - x, interest - b as real * rate, bound, 1.0 + rate);
  }

  lemma MulMonotone(a: real, b: real, g: real)
    requires a <= b && g >= 0.0
    ensures a * g <= b * g
  {
  }

  lemma BalanceUnfolds(opening: int, emi: int, rate: real, i: nat)
    requires i > 0
    ensures Balance(opening, emi, rate, i) == NextBalance(Balance(opening, emi, rate, i - 1), emi, rate)
    ensures ExactBalance(opening, emi, rate, i) == NextExact(ExactBalance(opening, emi, rate, i - 1), emi, rate)
  {
  }

  /** Rounding each installment's interest to a paisa moves the balance by at most half a paisa times
      1 + (1+r) + ... + (1+r)^(i-1). */
  lemma {:induction false} RoundingErrorBound(opening: int, emi: int, rate: real, i: nat)
    requires 1.0 + rate >= 0.0
    ensures Abs(Balance(opening, emi, rate, i) as real - ExactBalance(opening, emi, rate, i)) <= HalfPaisa(1.0 + rate, i)
  {
    if i == 0 {
      assert HalfPaisa(1.0 + rate, 0) == 0.0;
    } else {
      var b, x, bound := Balance(opening, emi, rate, i - 1), ExactBalance(opening, emi, rate, i - 1), HalfPaisa(1.0 + rate, i - 1);
      RoundingErrorBound(opening, emi, rate, i - 1);
      ErrorStep(b, x, emi, rate, bound);
      HalfPaisaStep(1.0 + rate, i - 1);
      BalanceUnfolds(opening, emi, rate, i);
    }
  }

  /** As long as no balance has gone below zero and the last row is not reached, the schedule shows the
      rounded balances, and they stay within the bound. */
  lemma ScheduleShowsBalances(loan: Loan, k: nat)
    requires !IsBullet(loan) && k + 1 < Installments(loan) && 1.0 + StepRate(loan) >= 0.0
    requires forall j: nat | 1 <= j <= k + 1 :: Balance(loan.sanction, loan.emi, StepRate(loan), j) >= 0
    ensures var rate := StepRate(loan);
            var rows := ScheduleFrom(loan.sanction, loan.emi, rate, 0, Installments(loan));
            && k < |rows| && rows[k].no == k + 1 && rows[k].principal + rows[k].interest == rows[k].total == loan.emi
            && rows[k].after == Balance(loan.sanction, loan.emi, rate, k + 1)
            && Abs(rows[k].after as real - ExactBalance(loan.sanction, loan.emi, rate, k + 1)) <= HalfPaisa(1.0 + rate, k + 1)
  {
    RowShowsBalance(loan.sanction, loan.emi, StepRate(loan), 0, Installments(loan), k);
    RoundingErrorBound(loan.sanction, loan.emi, StepRate(loan), k + 1);
  }

  lemma {:induction false} RowShowsBalance(opening: int, emi: int, rate: real, i: nat, n: nat, k: nat)
    requires i <= k && k + 1 < n
    requires forall j: nat | i < j <= k + 1 :: Balance(opening, emi, rate, j) >= 0
    ensures var rows := ScheduleFrom(Balance(opening, emi, rate, i), emi, rate, i, n);
            && k - i < |rows| && rows[k - i].no == k + 1 && rows[k - i].after == Balance(opening, emi, rate, k + 1)
            && rows[k - i].principal + rows[k - i].interest == rows[k - i].total == emi
    decreases k - i
  {
    var balance := Balance(opening, emi, rate, i);
    var row := ScheduleRow(balance, emi, Interest(balance, rate), i, n);
    BalanceUnfolds(opening, emi, rate, i + 1);
    ScheduleUnfolds(balance, emi, rate, i, n);
    assert row.after == Balance(opening, emi, rate, i + 1);
    if i < k {
      RowShowsBalance(opening, emi, rate, i + 1, n, k);
    }
  }

  lemma ScheduleUnfolds(balance: int, emi: int, rate: real, i: nat, n: nat)
    requires i < n
    ensures var row := ScheduleRow(balance, emi, Interest(balance, rate), i, n);
            ScheduleFrom(balance, emi, rate, i, n) == [row] + ScheduleFrom(row.after, emi, rate, i + 1, n)
  {
  }

  // ---- cleanup-and-load-loans: the remaining installments of a running loan ----

  function Min(a: int, b: int): int {
    if a < b then a else b
  }

  /** Row i + 1 of n: the principal is clipped at the balance, and the last row clears it. */
  function RepaymentRow(remaining: int, emi: int, interest: int, i: nat, n: nat): Row {
    var principal := Min(remaining, emi - interest);
    Row(i + 1, principal, interest, emi, if i + 1 == n then 0 else remaining - principal)
  }

  function RepaymentsFrom(remaining: int, emi: int, rate: real, i: nat, n: nat): seq<Row>
    decreases n - i
  {
    if i >= n then [] else
    var row := RepaymentRow(remaining, emi, Interest(remaining, rate), i, n);
    [row] + RepaymentsFrom(row.after, emi, rate, i + 1, n)
  }

  predicate RepaymentsGoOn(done: seq<Row>, remaining: int, emi: int, rate: real, i: nat, n: nat, all: seq<Row>) {
    done + RepaymentsFrom(remaining, emi, rate, i, n) == all
  }

  lemma RepaymentStep(done: seq<Row>, remaining: int, emi: int, rate: real, i: nat, n: nat, all: seq<Row>)
    requires i < n && RepaymentsGoOn(done, remaining, emi, rate, i, n, all)
    ensures var row := RepaymentRow(remaining, emi, Interest(remaining, rate), i, n);
            RepaymentsGoOn(done + [row], row.after, emi, rate, i + 1, n, all)
  {
  }

  /** One row, in the order the code computes it. The balance after it is what the next row starts from. */
  method RepayRow(remaining: int, emi: int, interest: int, i: nat, n: nat, monthly: bool) returns (row: Row)
    ensures row == RepaymentRow(remaining, emi, interest, i, n)
  {
    var principal := Min(remaining, emi - interest);
    var after := remaining - principal;
    if i + 1 == n || (monthly && after < 0) { after := 0; }
    row := Row(i + 1, principal, interest, emi, if after > 0 then after else 0);
  }

  /** The loop both branches share; the quarterly one leaves out the test for a negative balance, which
      never succeeds because the principal is clipped. */
  method Repay(outstanding: int, emi: int, rate: real, n: nat, monthly: bool) returns (rows: seq<Row>)
    ensures rows == RepaymentsFrom(outstanding, emi, rate, 0, n)
  {
    var remaining := outstanding;
    rows := [];
    ghost var all := RepaymentsFrom(outstanding, emi, rate, 0, n);
    for i := 0 to n
      invariant RepaymentsGoOn(rows, remaining, emi, rate, i, n, all)
    {
      RepaymentStep(rows, remaining, emi, rate, i, n, all);
      var row := RepayRow(remaining, emi, Interest(remaining, rate), i, n, monthly);
      rows, remaining := rows + [row], row.after;
    }
    assert rows + [] == rows;
  }

  function RemainingInstallments(freq: Frequency, months: nat): nat {
    match freq
    case Monthly => months
    case Quarterly => (months + 2) / 3
    case Bullet => 0
  }

  function PeriodRate(freq: Frequency, roiPercent: real): real {
    if freq.Quarterly? then roiPercent / 4.0 / 100.0 else roiPercent / 12.0 / 100.0
  }

  method Repayments(freq: Frequency, outstanding: int, emi: int, roiPercent: real, months: nat) returns (rows: seq<Row>)
    ensures emi <= 0 || freq.Bullet? || months == 0 ==> rows == []
    ensures emi > 0 ==> rows == RepaymentsFrom(outstanding, emi, PeriodRate(freq, roiPercent), 0, RemainingInstallments(freq, months))
  {
    rows := [];
    if freq.Monthly? && emi > 0 && months > 0 {
      rows := Repay(outstanding, emi, roiPercent / 12.0 / 100.0, months, true);
    } else if freq.Quarterly? && emi > 0 && months > 0 {
      rows := Repay(outstanding, emi, roiPercent / 4.0 / 100.0, (months + 2) / 3, false);
    }
  }

  /** The row pays one EMI, interest first, but no more principal than is owed; the last row clears the rest. */
  predicate Repays(row: Row, before: int, emi: int, rate: real, no: nat, isLast: bool) {
    && row.no == no && row.total == emi && Charges(row, before, rate)
    && row.principal <= before && row.principal + row.interest <= emi
    && (row.principal == before || row.principal + row.interest == emi)
    && row.after == if isLast then 0 else before - row.principal
  }

  lemma {:induction false} EachRowRepays(opening: int, emi: int, rate: real, i: nat, n: nat, k: nat)
    requires i + k < n
    ensures var rows := RepaymentsFrom(opening, emi, rate, i, n);
            |rows| == n - i && Repays(rows[k], Before(opening, rows, k), emi, rate, i + k + 1, i + k + 1 == n)
    decreases n - i
  {
    RepaymentsUnfold(opening, emi, rate, i, n);
    FirstRowRepays(opening, emi, rate, i, n);
    var row := RepaymentRow(opening, emi, Interest(opening, rate), i, n);
    if i + 1 < n {
      EachRowRepays(row.after, emi, rate, i + 1, n, if k == 0 then 0 else k - 1);
    }
    if k > 0 {
      BeforeInRest(opening, row, RepaymentsFrom(row.after, emi, rate, i + 1, n), k);
    }
  }

  lemma FirstRowRepays(opening: int, emi: int, rate: real, i: nat, n: nat)
    requires i < n
    ensures Repays(RepaymentRow(opening, emi, Interest(opening, rate), i, n), opening, emi, rate, i + 1, i + 1 == n)
  {
    RoundNear(opening as real * rate);
  }

  /** The rows of a running loan: as many as reach the remaining months, each repaying the balance before it. */
  lemma RepaymentsSay(freq: Frequency, outstanding: int, emi: int, roiPercent: real, months: nat, k: nat)
    requires !freq.Bullet? && k < RemainingInstallments(freq, months)
    ensures var rows := RepaymentsFrom(outstanding, emi, PeriodRate(freq, roiPercent), 0, RemainingInstallments(freq, months));
            && Covers(freq, |rows|, months)
            && Repays(rows[k], Before(outstanding, rows, k), emi, RatePerPeriod(freq, roiPercent), k + 1, k + 1 == |rows|)
  {
    EachRowRepays(outstanding, emi, PeriodRate(freq, roiPercent), 0, RemainingInstallments(freq, months), k);
  }

  function TotalPrincipal(rows: seq<Row>): int {
    if rows == [] then 0 else rows[0].principal + TotalPrincipal(rows[1..])
  }

  /** The balance before row k. */
  function Before(opening: int, rows: seq<Row>, k: nat): int
    requires k < |rows|
  {
    if k == 0 then opening else rows[k - 1].after
  }

  /** Nothing is created or lost: the principals and what the last row writes off sum to the opening balance. */
  lemma {:induction false} PrincipalIsConserved(opening: int, emi: int, rate: real, i: nat, n: nat)
    requires i < n
    ensures var rows := RepaymentsFrom(opening, emi, rate, i, n);
            && |rows| == n - i
            && TotalPrincipal(rows) + (Before(opening, rows, n - i - 1) - rows[n - i - 1].principal) == opening
    decreases n - i
  {
    var rows := RepaymentsFrom(opening, emi, rate, i, n);
    var rest := RepaymentsFrom(rows[0].after, emi, rate, i + 1, n);
    assert rows == [rows[0]] + rest && rows[1..] == rest;
    if i + 1 < n {
      PrincipalIsConserved(rows[0].after, emi, rate, i + 1, n);
      assert Before(opening, rows, n - i - 1) == Before(rows[0].after, rest, n - i - 2);
    }
  }

  /** What a sound row does, given the balance and interest before it. */
  predicate RowSound(row: Row, before: int, interestBefore: int, emi: int) {
    && 0 <= row.principal <= before && 0 <= row.after <= before
    && 0 <= row.interest <= interestBefore
    && row.principal + row.interest <= emi
    && (row.principal < before ==> row.principal + row.interest == emi)
  }

  /** Row k is sound after the row before it, or after the opening balance. */
  predicate SoundAt(rows: seq<Row>, opening: int, interest: int, emi: int, k: nat)
    requires k < |rows|
  {
    RowSound(rows[k], Before(opening, rows, k), if k == 0 then interest else rows[k - 1].interest, emi)
  }

  lemma InterestMonotone(a: int, b: int, rate: real)
    requires 0 <= a <= b && rate >= 0.0
    ensures 0 <= Interest(a, rate) <= Interest(b, rate)
  {
  }

  lemma RepaymentsUnfold(opening: int, emi: int, rate: real, i: nat, n: nat)
    requires i < n
    ensures var row := RepaymentRow(opening, emi, Interest(opening, rate), i, n);
            RepaymentsFrom(opening, emi, rate, i, n) == [row] + RepaymentsFrom(row.after, emi, rate, i + 1, n)
  {
  }

  lemma FirstRowSound(balance: int, emi: int, interest: int, i: nat, n: nat)
    requires 0 <= balance && 0 <= interest <= emi
    ensures RowSound(RepaymentRow(balance, emi, interest, i, n), balance, interest, emi)
  {
  }

  /** When the EMI covers the interest on the opening balance, every row is sound: interest does not rise,
      principal is never negative, the balance falls within [0, opening], and a row pays the whole EMI unless
      it clears the balance. */
  lemma {:induction false} CoveredLoanIsSound(opening: int, emi: int, rate: real, i: nat, n: nat, k: nat)
    requires opening >= 0 && rate >= 0.0 && emi >= Interest(opening, rate) && i < n && k < n - i
    ensures var rows := RepaymentsFrom(opening, emi, rate, i, n);
            k < |rows| && SoundAt(rows, opening, Interest(opening, rate), emi, k)
    decreases k
  {
    var interest := Interest(opening, rate);
    var row := RepaymentRow(opening, emi, interest, i, n);
    InterestMonotone(opening, opening, rate);
    RepaymentsUnfold(opening, emi, rate, i, n);
    FirstRowSound(opening, emi, interest, i, n);
    if k > 0 {
      InterestMonotone(row.after, opening, rate);
      CoveredLoanIsSound(row.after, emi, rate, i + 1, n, k - 1);
      var rest := RepaymentsFrom(row.after, emi, rate, i + 1, n);
      SoundCarries(row, rest, opening, interest, Interest(row.after, rate), emi, k);
    }
  }

  lemma SoundCarries(row: Row, rest: seq<Row>, opening: int, interest: int, nextInterest: int, emi: int, k: nat)
    requires 0 < k <= |rest| && row.interest == interest && nextInterest <= interest
    requires SoundAt(rest, row.after, nextInterest, emi, k - 1)
    ensures SoundAt([row] + rest, opening, interest, emi, k)
  {
  }

  /** And exactly then: an EMI below the first interest makes the first principal negative, so the balance grows. */
  lemma SoundIff(opening: int, emi: int, rate: real, n: nat)
    requires opening >= 0 && rate >= 0.0 && n > 0
    ensures var rows := RepaymentsFrom(opening, emi, rate, 0, n);
            (forall k: nat | k < |rows| :: SoundAt(rows, opening, Interest(opening, rate), emi, k))
            <==> emi >= Interest(opening, rate)
  {
    var rows := RepaymentsFrom(opening, emi, rate, 0, n);
    PrincipalIsConserved(opening, emi, rate, 0, n);
    RepaymentsUnfold(opening, emi, rate, 0, n);
    if emi >= Interest(opening, rate) {
      forall k: nat | k < |rows|
        ensures SoundAt(rows, opening, Interest(opening, rate), emi, k)
      {
        CoveredLoanIsSound(opening, emi, rate, 0, n, k);
      }
    } else {
      assert !SoundAt(rows, opening, Interest(opening, rate), emi, 0);
    }
  }
}
