# Deposit calculator: a Dafny model

This project models the core of a single-screen deposit calculator. The
calculator splits a total sum of money between a "fixed" allocation and a
"savings" allocation. Each allocation earns its own annual rate. For each
allocation, and for the two together, the screen shows the net-of-tax
income per day, per 30 days and per 31 days.

The model has four modules:

- `Digits` (`digits.dfy`) is the amount-field sanitiser. Every character
  except the ASCII digits is dropped, and what is left is read as a
  decimal number, with 0 for an empty string. The module also models the
  en-US digit grouping the amount fields display ("1,000,000"), so that
  reading a displayed amount back can be proved to give the same amount.
- `Slider` (`slider.dfy`) is the slider step ladder (`getSliderStep`) and
  the four-rule, first-match snapping rule of the slider's `onChange`. It
  keeps the asymmetry of the rules as written: the near-total rule allows
  a whole step, the near-half and near-zero rules allow half a step.
  `Math.round(total / 2)` becomes `(total + 1) / 2`, and every test of the
  form `|x| <= step / 2` becomes `2 * |x| <= step`.
- `Income` (`income.dfy`) is `calcIncome` over exact reals, plus the
  field-by-field sum shown in the table footer.
- `Allocation` (`allocation.dfy`) is the screen state
  `{total, fixed, fixedRate, savingsRate, incomeTax}` with the invariant
  `0 <= fixed <= total`. Savings is derived as `total - fixed`. Each event
  handler is a pure transition. `Apply` dispatches one event and `Run`
  replays a session of events. `Render` computes the figures the table
  shows.

Amounts are `int`/`nat`. Rates, tax and incomes are `real`.

At the default total of 1,000,000 the ladder's inclusive bound gives a
step of 500. A drag to 300 is then more than half a step above 0 and
stays at 300; it would snap to 0 only with a step of 1000
(`Slider.SnapExamples`).

A consequence of the asymmetric rules is proved but not "fixed". For a
total of 1 the step is 1. Slider position 0 is then within one step of
the maximum and snaps to 1, so the slider cannot select 0
(`Slider.SnapEnds`).

## Model

| member | source | states |
|---|---|---|
| Digits.KeepDigits | src/App.tsx:68 | the sanitised text holds only digits and is never longer than the input |
| Digits.KeepDigitsIdentity | src/App.tsx:68 | sanitising leaves a text unchanged exactly when it is all digits (both directions) |
| Digits.KeepDigitsMembers | src/App.tsx:68 | a character is in the sanitised text exactly when it is a digit of the input |
| Digits.KeepDigitsAppend | src/App.tsx:68 | the global replace works character by character: sanitising a concatenation concatenates the sanitised parts |
| Digits.KeepDigitsIdempotent | src/App.tsx:68 | sanitising twice is the same as sanitising once |
| Digits.DigitsValue | src/App.tsx:69 | the decimal value of an n-digit string is below 10^n |
| Digits.DigitsValueAppend | src/App.tsx:69 | reading `a + b` gives the value of `a` shifted left by the length of `b`, plus the value of `b` |
| Digits.LeadingZero | src/App.tsx:69 | a leading zero does not change the parsed number |
| Digits.ParseAmount | src/App.tsx:68-69 | an all-digit text parses to its decimal value; the parsed amount is below 10^(length of text) |
| Digits.ParseAmountTyped | src/App.tsx:150-151 | typing a non-digit leaves the parsed amount unchanged; typing digit d turns amount n into 10n + d |
| Digits.ToDecimalRoundTrip | src/App.tsx:66 | the plain decimal spelling of n reads back as n |
| Digits.Grouped | src/App.tsx:66 | the en-US display of an amount contains only digits and commas, and removing the commas leaves the plain decimal spelling of the amount |
| Digits.GroupedRoundTrip | src/App.tsx:66-69 | the en-US grouped display of an amount, sanitised and parsed, gives back the amount |
| Digits.SanitiseExample | src/App.tsx:182-183 | "12a3b4" parses to 1234; the empty text and "abc" parse to 0 |
| Slider.Step | src/App.tsx:37-43 | the step is always one of 1, 10, 100, 500, 1000 |
| Slider.StepMonotone | src/App.tsx:37-43 | a larger total never gets a smaller step |
| Slider.StepKeepsSliderUsable | src/App.tsx:36-43 | above 1000 a step is at most a tenth of the total; up to 1,000,000 the slider has at most 2000 positions |
| Slider.Half | src/App.tsx:102 | the rounded half h of a non-negative total satisfies total <= 2h <= total + 1, so ties round up |
| Slider.Snap | src/App.tsx:101-118 | the result is one of half, total, 0 or the raw value; near-half always wins; otherwise near-total gives total; otherwise near-zero gives 0; a value no rule matches is kept; for an in-range value the result is in [0, total] and at most one step from the value |
| Slider.SnapEnds | src/App.tsx:94-118 | with the ladder's step, the maximum snaps to itself; the minimum snaps to 0 except for a total of 1, where it snaps to 1 |
| Slider.SnapIdempotent | src/App.tsx:94-118 | with the ladder's step, a snapped in-range value is a fixed point of the rule |
| Slider.SnapExamples | src/App.tsx:100-118 | total 1,000,000 has step 500; 499,800 snaps to 500,000; 999,500 snaps to 1,000,000; 300 stays; 250 snaps to 0 |
| Slider.SnapHalfBeforeZero | src/App.tsx:104-115 | for every total, step and value, a value that matches the near-half rule and also the near-zero or the near-total rule snaps to half, because the rules are tried in order |
| Slider.SnapHalfBeforeZeroExample | src/App.tsx:104-115 | with total 2 and step 2, value 0 matches both the near-half and the near-zero rule and snaps to half (1) |
| Slider.LadderHalfAndZeroDisjoint | src/App.tsx:37-43 | with the ladder's step and a positive total, no in-range value matches both the near-half and the near-zero rule, so their order is not observable on the slider as built |
| Income.CalcIncome | src/App.tsx:10-20 | 30-day income is 30 times the daily income and 31-day income is 31 times it; with no tax the daily income is amount * rate / 36500; a zero amount, a zero rate or 100% tax gives all zeros |
| Income.Add | src/App.tsx:52-54 | each footer field is the sum of the rows' fields; when both rows' 30- and 31-day figures are 30 and 31 times their daily figure, so are the footer's |
| Income.DailyFactor | src/App.tsx:11-16 | the daily income is the amount times a factor that depends only on the rate and the tax |
| Income.CalcIncomeAdditive | src/App.tsx:10-20 | income is additive in the amount: the incomes of two parts sum to the income of the whole |
| Income.CalcIncomeScales | src/App.tsx:10-20 | scaling the amount by c scales the daily income by c |
| Income.CalcIncomeSign | src/App.tsx:13-16 | for a non-negative amount and rate and a tax of at most 100%, income is non-negative and does not grow when the tax rises |
| Allocation.Savings | src/App.tsx:47 | fixed plus savings is the total; under the invariant, savings lies in [0, total] |
| Allocation.Init | src/App.tsx:28-34 | the mount state satisfies the invariant and holds the whole 1,000,000 in savings |
| Allocation.SetTotal | src/App.tsx:67-72 | the total becomes v; fixed becomes min(old fixed, v) and changes exactly when it exceeded v; rates and tax are untouched; the invariant is kept |
| Allocation.SetFixed | src/App.tsx:149-155 | a value in [0, total] becomes fixed; any other value leaves the whole state unchanged; total, rates and tax are never touched; the invariant is kept |
| Allocation.SetSavings | src/App.tsx:181-188 | a value v in [0, total] leaves exactly v in savings; any other value leaves the whole state unchanged; total, rates and tax are never touched; the invariant is kept |
| Allocation.SavingsEditIsComplementFixedEdit | src/App.tsx:184-186 | for every value v, a savings edit of v is the fixed edit of total - v |
| Allocation.SetTotalMovesSavings | src/App.tsx:70-71 | raising the total puts the whole difference into savings; lowering it below fixed leaves savings at 0 |
| Allocation.DragSlider | src/App.tsx:94-119 | fixed becomes half, total, 0 or the raw value, chosen by the first matching rule with the ladder's step for the current total; for an in-range value the invariant holds and fixed moves at most one ladder step; nothing else changes |
| Allocation.DragOutsideRangeBreaksInvariant | src/App.tsx:96-117 | a raw value above the slider's maximum that no rule catches would break the invariant, so the range input's bounds matter |
| Allocation.Apply | src/App.tsx:67-198 | every admissible event keeps the invariant; only a total edit changes the total, to the parsed text; only amount edits and drags change fixed; a fixed or savings edit within the total sets fixed or savings to the parsed text, and one above the total changes nothing; tax and rate events set their field and leave fixed alone |
| Allocation.Run | src/App.tsx:28-198 | after any session of admissible events the invariant holds; without a total edit the total is unchanged |
| Allocation.RetypingDisplayedAmountIsNoOp | src/App.tsx:64-72 | handing any amount field its own displayed text back leaves the state unchanged |
| Allocation.Render | src/App.tsx:45-54 | the fixed row is the fixed amount at the fixed rate and the savings row the savings amount at the savings rate, both with the income tax; the footer's daily figure is (fixed * fixedRate + savings * savingsRate) * (1 - tax/100) / 36500, and its 30- and 31-day figures are 30 and 31 times that |
| Allocation.FooterClosedForm | src/App.tsx:49-54 | the two rows' daily figures add up to both amounts' yearly interest, net of tax, over 365 days |
| Allocation.FooterIgnoresSplitAtEqualRates | src/App.tsx:49-54 | when both rates are equal, the footer is the income of the whole total, however it is split |
| Allocation.FooterWithEmptyFixed | src/App.tsx:49-54 | with nothing in fixed, the fixed row is zero and the footer equals the savings row |
| Allocation.InitialReport | src/App.tsx:28-54 | at mount the fixed row is zero and the footer is the savings row for 1,000,000 at 10% with 12% tax |
| Allocation.SavingsIncomeAtMount | src/App.tsx:33-34 | 1,000,000 at 10% with 12% tax earns 88000/365 (about 241.10) a day |
| Allocation.ClampExample | src/App.tsx:67-72 | with 800,000 of 1,000,000 in fixed, a total edit to 500,000 clamps fixed to 500,000 |

## Left out

- Rendering is left out: JSX, CSS, React state hooks and re-render scheduling. Each handler becomes a pure function from state to state. The total handler's two setter calls become one transition that reads the pre-event `fixed`, as the closure does.
- Money formatting with `Intl.NumberFormat("ru-RU")` (src/App.tsx:22-25) is left out. It is a locale library call whose output is only displayed.
- The percentage labels (src/App.tsx:90-91) are left out. They format floating-point numbers with `toFixed`.
- `toLocaleString('en-US')` is modelled only for non-negative integers, as `Digits.Grouped`. The amount fields only hold such numbers.
- IEEE double arithmetic is left out. `calcIncome` is modelled over exact reals. `Number(...)` on a digit string is modelled as an exact `nat`, so the precision loss above 2^53 is not modelled.
- The tax and rate number inputs (src/App.tsx:83, 165, 198) are left out as parsers. Their events carry the already-parsed real, and `Apply` only stores it.
- The browser's quantisation of slider positions to multiples of the step is left out. A slider event may carry any whole value in `[0, total]` (`Allocation.Admissible`). This is a superset of what the range input produces.
- The default `taxPercent = 0` of `calcIncome` is not modelled as a default. Both call sites pass the tax explicitly.
