/** `calcIncome`: the net-of-tax income an amount earns at an annual rate,
    per day and over 30- and 31-day months, and the footer that adds up the
    two allocations' rows. Computed over exact reals; JavaScript's IEEE
    doubles are not modelled. */
module Income {

  datatype Income = Income(daily: real, income30: real, income31: real)

  /** Net daily income is the annual interest spread over 365 days, less
      the tax share; the monthly figures are the same daily figure times
      the number of days. */
  function CalcIncome(amount: real, ratePercent: real, taxPercent: real): (r: Income)
    ensures r.income30 == 30.0 * r.daily
    ensures r.income31 == 31.0 * r.daily
    ensures taxPercent == 0.0 ==> r.daily == amount * ratePercent / 36500.0
    ensures amount == 0.0 || ratePercent == 0.0 || taxPercent == 100.0 ==> r == Income(0.0, 0.0, 0.0)
  {
    var annual := amount * (ratePercent / 100.0);
    var daily := annual / 365.0;
    var taxMultiplier := 1.0 - taxPercent / 100.0;
    Income(daily * taxMultiplier, daily * 30.0 * taxMultiplier, daily * 31.0 * taxMultiplier)
  }

  /** Field-by-field sum of two rows, as the table footer shows it. Rows
      whose monthly figures are 30 and 31 times their daily figure sum to
      a footer with the same proportions. */
  function Add(a: Income, b: Income): (r: Income)
    ensures r.daily - a.daily == b.daily
    ensures r.income30 - a.income30 == b.income30
    ensures r.income31 - a.income31 == b.income31
    ensures a.income30 == 30.0 * a.daily && b.income30 == 30.0 * b.daily ==> r.income30 == 30.0 * r.daily
    ensures a.income31 == 31.0 * a.daily && b.income31 == 31.0 * b.daily ==> r.income31 == 31.0 * r.daily
  {
    Income(a.daily + b.daily, a.income30 + b.income30, a.income31 + b.income31)
  }

  /** Income is linear in the amount: splitting an amount into two parts at
      one rate and adding the incomes gives the income of the whole. */
  lemma CalcIncomeAdditive(a: real, b: real, ratePercent: real, taxPercent: real)
    ensures Add(CalcIncome(a, ratePercent, taxPercent), CalcIncome(b, ratePercent, taxPercent))
         == CalcIncome(a + b, ratePercent, taxPercent)
  {
    var k := ratePercent / 100.0 / 365.0 * (1.0 - taxPercent / 100.0);
    DailyFactor(a, ratePercent, taxPercent);
    DailyFactor(b, ratePercent, taxPercent);
    DailyFactor(a + b, ratePercent, taxPercent);
    assert a * k + b * k == (a + b) * k;
  }

  /** Scaling the amount scales every income figure by the same factor. */
  lemma CalcIncomeScales(c: real, amount: real, ratePercent: real, taxPercent: real)
    ensures CalcIncome(c * amount, ratePercent, taxPercent).daily
         == c * CalcIncome(amount, ratePercent, taxPercent).daily
  {
    var k := ratePercent / 100.0 / 365.0 * (1.0 - taxPercent / 100.0);
    DailyFactor(amount, ratePercent, taxPercent);
    DailyFactor(c * amount, ratePercent, taxPercent);
    assert (c * amount) * k == c * (amount * k);
  }

  /** The daily figure is the amount times one factor fixed by the rate
      and the tax. */
  lemma DailyFactor(amount: real, ratePercent: real, taxPercent: real)
    ensures CalcIncome(amount, ratePercent, taxPercent).daily
         == amount * (ratePercent / 100.0 / 365.0 * (1.0 - taxPercent / 100.0))
  {
    var m := 1.0 - taxPercent / 100.0;
    assert amount * (ratePercent / 100.0) / 365.0 == amount * (ratePercent / 100.0 / 365.0);
    assert amount * (ratePercent / 100.0 / 365.0) * m == amount * (ratePercent / 100.0 / 365.0 * m);
  }

  /** A non-negative amount at a non-negative rate with a tax of at most
      100% never yields a negative income, and a higher tax never yields more. */
  lemma CalcIncomeSign(amount: real, ratePercent: real, tax1: real, tax2: real)
    requires amount >= 0.0 && ratePercent >= 0.0
    requires tax1 <= tax2 <= 100.0
    ensures CalcIncome(amount, ratePercent, tax2).daily >= 0.0
    ensures CalcIncome(amount, ratePercent, tax2).daily <= CalcIncome(amount, ratePercent, tax1).daily
  {
    var g := amount * (ratePercent / 100.0) / 365.0;
    assert g >= 0.0;
    assert g * (1.0 - tax2 / 100.0) <= g * (1.0 - tax1 / 100.0);
  }
}
