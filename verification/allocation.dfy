/** The calculator's screen state and the event handlers that change it,
    each as a pure transition from the state before the event to the state
    after it. The total is split into the "fixed" allocation and the
    "savings" allocation; savings is derived, never stored. */
module Allocation {
  import opened Digits
  import opened Slider
  import opened Income

  datatype State = State(
    total: int,
    fixed: int,
    fixedRate: real,
    savingsRate: real,
    incomeTax: real
  )

  /** The allocation invariant: the fixed part is a share of the total. */
  predicate Valid(s: State) {
    0 <= s.fixed <= s.total
  }

  /** The savings allocation is whatever the fixed one leaves of the total. */
  function Savings(s: State): (v: int)
    ensures Valid(s) ==> 0 <= v <= s.total
    ensures s.fixed + v == s.total
  {
    s.total - s.fixed
  }

  /** The state at mount: 1,000,000 in total, all of it in savings, 16.5%
      on fixed, 10% on savings, 12% income tax. */
  function Init(): (s: State)
    ensures Valid(s)
    ensures Savings(s) == s.total == 1000000
  {
    State(1000000, 0, 16.5, 10.0, 12.0)
  }

  /** Total edit with the parsed value `v`: the total becomes `v`, and the
      fixed part is clamped down when it no longer fits. */
  function SetTotal(s: State, v: nat): (r: State)
    ensures r.total == v
    ensures r.fixed <= v && r.fixed <= s.fixed
    ensures r.fixed == s.fixed || r.fixed == v
    ensures r.fixed != s.fixed <==> s.fixed > v
    ensures r.fixedRate == s.fixedRate && r.savingsRate == s.savingsRate && r.incomeTax == s.incomeTax
    ensures s.fixed >= 0 ==> Valid(r)
  {
    var r := s.(total := v);
    if s.fixed > v then r.(fixed := v) else r
  }

  /** Fixed edit with the parsed value `v`: accepted only when it fits in
      the total; otherwise the state does not change at all. */
  function SetFixed(s: State, v: int): (r: State)
    ensures 0 <= v <= s.total ==> r.fixed == v
    ensures !(0 <= v <= s.total) ==> r == s
    ensures r.total == s.total && r.fixedRate == s.fixedRate
    ensures r.savingsRate == s.savingsRate && r.incomeTax == s.incomeTax
    ensures Valid(s) ==> Valid(r)
  {
    if v <= s.total && v >= 0 then s.(fixed := v) else s
  }

  /** Savings edit with the parsed value `v`: the fixed part becomes
      whatever leaves `v` in savings, when that is possible; otherwise the
      state does not change at all. */
  function SetSavings(s: State, v: int): (r: State)
    ensures 0 <= v <= s.total ==> Savings(r) == v
    ensures !(0 <= v <= s.total) ==> r == s
    ensures r.total == s.total && r.fixedRate == s.fixedRate
    ensures r.savingsRate == s.savingsRate && r.incomeTax == s.incomeTax
    ensures Valid(s) ==> Valid(r)
  {
    var newFixed := s.total - v;
    if newFixed >= 0 && newFixed <= s.total then s.(fixed := newFixed) else s
  }

  /** A savings edit is the fixed edit of the complementary amount, for
      every value, accepted or not. */
  lemma SavingsEditIsComplementFixedEdit(s: State, v: int)
    ensures SetSavings(s, v) == SetFixed(s, s.total - v)
  {
  }

  /** Raising the total above the fixed part leaves the fixed part alone
      and routes the whole difference into savings; lowering it below the
      fixed part leaves nothing in savings. */
  lemma SetTotalMovesSavings(s: State, v: nat)
    requires Valid(s)
    ensures s.fixed <= v ==> Savings(SetTotal(s, v)) == Savings(s) + (v - s.total)
    ensures s.fixed > v ==> Savings(SetTotal(s, v)) == 0
  {
  }

  /** Slider drag with the raw value `value`: the fixed part becomes the
      snapped value, with the step the ladder gives for the current total. */
  function DragSlider(s: State, value: int): (r: State)
    requires s.total >= 0
    ensures r.fixed in {Half(s.total), s.total, 0, value}
    ensures NearHalf(s.total, Step(s.total), value) ==> r.fixed == Half(s.total)
    ensures !NearHalf(s.total, Step(s.total), value) && NearTotal(s.total, Step(s.total), value) ==> r.fixed == s.total
    ensures (!NearHalf(s.total, Step(s.total), value) && !NearTotal(s.total, Step(s.total), value)
             && NearZero(Step(s.total), value)) ==> r.fixed == 0
    ensures (!NearHalf(s.total, Step(s.total), value) && !NearTotal(s.total, Step(s.total), value)
             && !NearZero(Step(s.total), value)) ==> r.fixed == value
    ensures 0 <= value <= s.total ==> Valid(r) && Abs(r.fixed - value) <= Step(s.total)
    ensures r.total == s.total && r.fixedRate == s.fixedRate
    ensures r.savingsRate == s.savingsRate && r.incomeTax == s.incomeTax
  {
    s.(fixed := Snap(s.total, Step(s.total), value))
  }

  /** The range input only produces values in `[0, total]`; a raw value
      outside that range that no rule catches would break the invariant. */
  lemma DragOutsideRangeBreaksInvariant()
    ensures Valid(Init())
    ensures !Valid(DragSlider(Init(), 1002000))
  {
  }

  /** One user event on the screen. Text events carry the field's raw text;
      number inputs carry the number already read from the field. */
  datatype Event =
    | TotalText(text: string)
    | FixedText(text: string)
    | SavingsText(text: string)
    | SliderMoved(value: int)
    | TaxInput(percent: real)
    | FixedRateInput(percent: real)
    | SavingsRateInput(percent: real)

  /** What the browser guarantees about an event: a range input with
      `min=0` and `max=total` reports values inside that range. */
  predicate Admissible(s: State, e: Event) {
    e.SliderMoved? ==> 0 <= e.value <= s.total
  }

  /** The handler for one event. */
  function Apply(s: State, e: Event): (r: State)
    requires Valid(s)
    ensures Admissible(s, e) ==> Valid(r)
    ensures r.total != s.total ==> e.TotalText?
    ensures r.fixed != s.fixed ==> e.TotalText? || e.FixedText? || e.SavingsText? || e.SliderMoved?
    ensures e.TotalText? ==> r.total == ParseAmount(e.text)
    ensures e.SavingsText? && ParseAmount(e.text) <= s.total ==> Savings(r) == ParseAmount(e.text)
    ensures e.FixedText? && ParseAmount(e.text) <= s.total ==> r.fixed == ParseAmount(e.text)
    ensures (e.FixedText? || e.SavingsText?) && ParseAmount(e.text) > s.total ==> r == s
    ensures e.TaxInput? ==> r.incomeTax == e.percent && r.fixed == s.fixed
    ensures e.FixedRateInput? ==> r.fixedRate == e.percent && r.fixed == s.fixed
    ensures e.SavingsRateInput? ==> r.savingsRate == e.percent && r.fixed == s.fixed
  {
    match e
    case TotalText(text) => SetTotal(s, ParseAmount(text))
    case FixedText(text) => SetFixed(s, ParseAmount(text))
    case SavingsText(text) => SetSavings(s, ParseAmount(text))
    case SliderMoved(value) => DragSlider(s, value)
    case TaxInput(p) => s.(incomeTax := p)
    case FixedRateInput(p) => s.(fixedRate := p)
    case SavingsRateInput(p) => s.(savingsRate := p)
  }

  /** Every event in the sequence is admissible in the state it meets. */
  predicate AdmissibleRun(s: State, es: seq<Event>)
    requires Valid(s)
    decreases |es|
  {
    es == [] ||
    (Admissible(s, es[0]) && AdmissibleRun(Apply(s, es[0]), es[1..]))
  }

  /** The session: the events in order, each handled to completion before
      the next. The allocation invariant holds after every admissible run. */
  function Run(s: State, es: seq<Event>): (r: State)
    requires Valid(s) && AdmissibleRun(s, es)
    ensures Valid(r)
    ensures (forall i :: 0 <= i < |es| ==> !es[i].TotalText?) ==> r.total == s.total
    decreases |es|
  {
    if es == [] then s else Run(Apply(s, es[0]), es[1..])
  }

  /** Each amount field displays its amount with en-US digit grouping;
      an input event that hands the displayed text back unchanged leaves
      the state as it was. */
  lemma RetypingDisplayedAmountIsNoOp(s: State)
    requires Valid(s)
    ensures Apply(s, TotalText(Grouped(s.total))) == s
    ensures Apply(s, FixedText(Grouped(s.fixed))) == s
    ensures Apply(s, SavingsText(Grouped(Savings(s)))) == s
  {
    GroupedRoundTrip(s.total);
    GroupedRoundTrip(s.fixed);
    GroupedRoundTrip(Savings(s));
  }

  /** The figures the table shows for a state. */
  datatype Report = Report(
    savings: int,
    step: nat,
    fixedIncome: Income,
    savingsIncome: Income,
    footer: Income
  )

  /** The fixed row earns the fixed rate on the fixed amount, the savings
      row the savings rate on the rest; the footer is the two rows' net
      income together. */
  function Render(s: State): (rep: Report)
    ensures rep.savings == Savings(s)
    ensures rep.step == Step(s.total)
    ensures rep.fixedIncome == CalcIncome(s.fixed as real, s.fixedRate, s.incomeTax)
    ensures rep.savingsIncome == CalcIncome(Savings(s) as real, s.savingsRate, s.incomeTax)
    ensures rep.footer.daily
         == (s.fixed as real * s.fixedRate + Savings(s) as real * s.savingsRate) * (1.0 - s.incomeTax / 100.0) / 36500.0
    ensures rep.footer.income30 == 30.0 * rep.footer.daily
    ensures rep.footer.income31 == 31.0 * rep.footer.daily
    ensures rep.footer.daily == rep.fixedIncome.daily + rep.savingsIncome.daily
    ensures rep.footer.income30 == rep.fixedIncome.income30 + rep.savingsIncome.income30
    ensures rep.footer.income31 == rep.fixedIncome.income31 + rep.savingsIncome.income31
  {
    var fixedIncome := CalcIncome(s.fixed as real, s.fixedRate, s.incomeTax);
    var savingsIncome := CalcIncome(Savings(s) as real, s.savingsRate, s.incomeTax);
    FooterClosedForm(s.fixed as real, s.fixedRate, Savings(s) as real, s.savingsRate, s.incomeTax);
    Report(Savings(s), Step(s.total), fixedIncome, savingsIncome, Add(fixedIncome, savingsIncome))
  }

  /** The footer's daily figure without going through the rows: both
      amounts' yearly interest, net of tax, over 365 days. */
  lemma FooterClosedForm(f: real, fr: real, v: real, vr: real, tax: real)
    ensures CalcIncome(f, fr, tax).daily + CalcIncome(v, vr, tax).daily
         == (f * fr + v * vr) * (1.0 - tax / 100.0) / 36500.0
  {
    var m := 1.0 - tax / 100.0;
    DailyFactor(f, fr, tax);
    DailyFactor(v, vr, tax);
    assert f * (fr / 100.0 / 365.0 * m) == f * fr * m / 36500.0;
    assert v * (vr / 100.0 / 365.0 * m) == v * vr * m / 36500.0;
  }

  /** When both allocations earn the same rate, how the total is split does
      not matter: the footer is the income of the whole total. */
  lemma FooterIgnoresSplitAtEqualRates(s: State)
    requires s.fixedRate == s.savingsRate
    ensures Render(s).footer == CalcIncome(s.total as real, s.fixedRate, s.incomeTax)
  {
    CalcIncomeAdditive(s.fixed as real, Savings(s) as real, s.fixedRate, s.incomeTax);
  }

  /** With nothing in fixed the fixed row earns nothing and the footer is
      the savings row. */
  lemma FooterWithEmptyFixed(s: State)
    requires s.fixed == 0
    ensures Render(s).fixedIncome == Income(0.0, 0.0, 0.0)
    ensures Render(s).footer == Render(s).savingsIncome
  {
  }

  /** The screen at mount: the fixed row earns nothing and the footer is
      the savings row, which is 1,000,000 at 10% less 12% tax. */
  lemma InitialReport()
    ensures Render(Init()).fixedIncome == Income(0.0, 0.0, 0.0)
    ensures Render(Init()).savingsIncome == CalcIncome(1000000.0, 10.0, 12.0)
    ensures Render(Init()).footer == Render(Init()).savingsIncome
  {
    FooterWithEmptyFixed(Init());
  }

  /** 1,000,000 at 10% less 12% tax earns 88000/365 (about 241.10) a day. */
  lemma SavingsIncomeAtMount()
    ensures CalcIncome(1000000.0, 10.0, 12.0).daily == 88000.0 / 365.0
  {
    DailyFactor(1000000.0, 10.0, 12.0);
    assert 10.0 / 100.0 / 365.0 * (1.0 - 12.0 / 100.0) == 88.0 / 365000.0;
  }

  /** Lowering the total below the fixed part clamps it: from 800,000 of
      1,000,000 in fixed, a new total of 500,000 leaves 500,000 in fixed. */
  lemma ClampExample()
    ensures SetTotal(Init().(fixed := 800000), 500000).fixed == 500000
  {
  }
}
