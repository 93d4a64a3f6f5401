# Appliance ledger: a verified model of the electricity-consumption calculator

The calculator keeps a list of household appliances (`devices`), each with a
name, daily hours of use, power in watts, price per kWh and an "enabled" tick,
and shows a table of consumption and cost per appliance for one hour, one day,
one month (30.44 days), one year (365.25 days) and a custom period (the
appliance's own hours), followed by an overall row summed over the enabled
appliances. This project models that list, the handlers that change it, and
the arithmetic of the table.

- `numbers.dfy` (`Numbers`): JavaScript numbers as exact reals plus NaN and the
  two infinities (`Num`), with `+`, `*`, `/` and the "NaN or infinite shows 0" rule.
- `inputs.dfy` (`Inputs`): `String.prototype.trim` with JavaScript's full
  white-space set, the form, the add check, and the guard that caps the
  usage-hours field at 24.
- `appliances.dfy` (`Appliances`): the appliance record, the five periods, and
  the value of each table cell.
- `registry.dfy` (`Registry`): the list operations behind the handlers:
  building a new appliance, `findIndex`, the checkbox update and the delete `filter`.
- `totals.dfy` (`Totals`): the overall row, its accumulation loop, and how
  disabled appliances drop out of it.
- `ledger.dfy` (`Ledger`): class `Page`, whose fields are the page's state
  (the list, whether the table is shown, the table last drawn, the hours
  warning). Its methods are the handlers. Its invariant says that the table is
  shown exactly when the list is non-empty, and that the table then shows the
  list.

## Behaviour of the code worth noting

The model follows the code exactly, including these points where it may not do what a reader expects:
- The overall row ignores the `doCalculation` flag.
- The overall row does not replace NaN or Infinity by 0, although the cells do
  (`Totals.InfinityReachesOverall`).
- Deleting an id that is not in the list still re-renders with calculation on.
- Usage hours are only capped above, and only while being typed. The add check
  does not enforce 0..24: it accepts any number that is not NaN, Infinity included.

## Model

| member | source | states |
|---|---|---|
| Numbers.Add | script.js:225-226 | the sum is finite iff both operands are; it is NaN iff an operand is NaN or the operands are infinities of opposite sign |
| Numbers.Mul | script.js:155-180 | the product is finite iff both factors are; it is NaN iff a factor is NaN or an infinity meets zero |
| Numbers.Div | script.js:155 | dividing by a positive constant keeps a value finite, infinite or NaN as it was |
| Inputs.TrimStart | script.js:43 | the result is a suffix of the text, does not start with white space, and only white space was dropped |
| Inputs.TrimEnd | script.js:43 | the result is a prefix of the text, does not end with white space, and only white space was dropped |
| Inputs.Trim | script.js:43 | the trimmed name neither starts nor ends with white space and is no longer than the input |
| Inputs.TrimIsSlice | script.js:43 | the trimmed name is the slice of the input between its leading and its trailing white space, and only white space lies outside that slice |
| Inputs.TrimEmptyIff | script.js:43-49 | the trimmed name is empty (and the add refused) exactly when the name is all white space |
| Inputs.TrimIdempotent | script.js:43 | trimming an already trimmed name changes nothing |
| Inputs.AcceptsForm | script.js:49 | the add check: a non-empty trimmed name and no NaN among hours, power and price; a form it accepts always has a field filled |
| Inputs.AnyFieldFilled | script.js:270-275 | the Calculate test: some field trims to non-empty; when it fails the name is all white space |
| Inputs.GuardHours | script.js:26-34 | after the guard the field never exceeds 24; the warning shows iff the value exceeded 24; a value not above 24 is left as it was |
| Inputs.GuardHoursIdempotent | script.js:26-34 | the guard applied to what it left changes nothing and clears the warning |
| Registry.NewDevice | script.js:41-61 | an appliance is built iff the trimmed name is non-empty and no number is NaN; it is enabled, has the given id, and holds the trimmed name and the three numbers |
| Registry.IndexOf | script.js:246 | -1 iff no appliance has the id; otherwise the first index whose appliance has the id |
| Registry.SetEnabled | script.js:244-249 | the length is kept; an unknown id changes nothing; with unique ids only the matching appliance changes, and only its `enabled` |
| Registry.Without | script.js:258 | no appliance left has the id; the list never grows, and keeps its length iff no appliance had the id |
| Registry.WithoutMember | script.js:258 | an appliance is kept iff it was in the list and its id differs |
| Registry.WithoutAppend | script.js:258 | deleting distributes over concatenation, so the kept appliances stay in their original order |
| Registry.WithoutAbsent | script.js:258 | deleting an id nobody has leaves the list unchanged |
| Registry.WithoutOne | script.js:258 | deleting the id of one appliance that no other shares removes just that one and keeps the rest in order |
| Registry.WithoutPresent | script.js:255-259 | with unique ids, deleting a present id removes exactly that one appliance and keeps the rest in order |
| Registry.WithoutKeepsUnique | script.js:258 | deleting keeps ids unique |
| Registry.SetEnabledRestores | script.js:245-249 | ticking a box back to its old state restores the list exactly |
| Registry.SetEnabledKeeps | script.js:248 | the checkbox update keeps ids unique and every appliance well formed |
| Registry.AppendKeeps | script.js:55-64 | appending a well-formed appliance with a fresh id keeps ids unique and every appliance well formed |
| Appliances.CellAt | script.js:151-191 | 0/0 when calculation is off or the appliance disabled; a NaN or infinite consumption shows 0 in both columns; a NaN or infinite cost shows 0 on its own; otherwise the cell shows the consumption and consumption times price as computed |
| Appliances.Row | script.js:150-202 | one cell per appliance in list order; all 0/0 with calculation off; 0/0 for a disabled appliance; power/1000 times the period's hours, and that times the price, for an enabled appliance with finite numbers |
| Appliances.Consumption | script.js:155-182 | with finite power and hours, the period's consumption is power/1000 times 1, the hours, hours x 30.44 or hours x 365.25; a NaN power (or NaN hours outside the hour row) gives NaN |
| Appliances.CellFormula | script.js:154-182 | for an enabled appliance with finite numbers, consumption is power/1000 times 1, the hours, hours x 30.44 or hours x 365.25 by period, and cost is consumption times price |
| Appliances.MonthIsDayTimes | script.js:162-171 | for every appliance, the month cells are the day cells times 30.44 |
| Appliances.YearIsDayTimes | script.js:162-176 | for every appliance, the year cells are the day cells times 365.25 |
| Appliances.CustomIsDay | script.js:162-181 | the custom row equals the day row |
| Appliances.ExampleTable | script.js:155-182 | 1000 W for 5 h at 5 per kWh gives 1/5, 5/25, 152.2/761, 1826.25/9131.25 and 5/25 |
| Totals.Overall | script.js:216-228 | the accumulation the loop is proved against: 0/0 when no appliance is enabled, and finite when every enabled appliance has finite numbers |
| Totals.OverallTotals | script.js:216-228 | the accumulation loop computes the overall consumption and cost |
| Totals.EnabledOnlyAppend | script.js:219-220 | selecting the enabled appliances distributes over concatenation |
| Totals.OverallSkipsDisabled | script.js:219-227 | the overall row equals that of the enabled appliances alone |
| Totals.DisabledIsAbsent | script.js:219-227 | unticking an appliance gives the overall row of the list without it |
| Totals.UntickIsDelete | script.js:216-228 | with unique ids, unticking an appliance and deleting it give the same overall row |
| Totals.OverallIsCustomRowSum | script.js:216-228 | when every enabled appliance has finite numbers (disabled ones may hold anything), the overall consumption and cost are the sums of the custom row's cells |
| Totals.InfinityReachesOverall | script.js:185-228 | an infinite power shows 0 in its cells but Infinity in the overall row |
| Ledger.Table | script.js:132-228 | the drawn table has five rows, one per period, each with one cell per appliance |
| Ledger.TableOff | script.js:150-191 | with calculation off, every cell of every row is 0/0 |
| Ledger.TableFollowsDay | script.js:162-181 | in the drawn table the month and year rows are the day row times 30.44 and 365.25, cell by cell, and the custom row equals the day row |
| Ledger.RowsScaleDay | script.js:162-176 | over a whole list, the month and year rows are the day row times 30.44 and 365.25 |
| Ledger.CustomRowIsDayRow | script.js:162-181 | over a whole list, the custom row equals the day row |
| Ledger.Page.constructor | script.js:1-2 | the list starts empty; the table starts hidden and the warning empty, which the page markup provides rather than the code |
| Ledger.Page.Render | script.js:75-237 | an empty list hides the table; otherwise the table is shown and becomes the table of the list under the given flag |
| Ledger.Page.OnHoursInput | script.js:26-34 | the field and the warning become what the guard gives |
| Ledger.Page.AddDevice | script.js:41-69 | an accepted form appends one enabled appliance at the end and shows the table; a refused form changes nothing |
| Ledger.Page.Append | script.js:54-68 | the accepted path: the appliance is appended at the end, the table shown and drawn under the given flag |
| Ledger.Page.Toggle | script.js:242-252 | the list becomes the checkbox update of the old list; an unknown id changes nothing and draws nothing |
| Ledger.Page.Delete | script.js:254-261 | the list becomes the delete filter of the old list; the table is hidden iff the list is now empty |
| Ledger.Page.Reset | script.js:297-302 | the list empties, the warning clears and the table is hidden, whatever came before |
| Ledger.Page.Calculate | script.js:269-280 | an accepted form is appended and drawn with calculation; a filled but refused form changes nothing and draws nothing; with no field filled the table is only redrawn with calculation |

## Left out

- Building the DOM: header cells, `innerHTML` templates, the merged overall cell and its `colspan`. The table is modelled as its computed values (`Ledger.View`).
- Re-binding the event handlers after each render. Only the state change of each handler is modelled.
- `toFixed(4)` / `toFixed(2)`: the cells hold the numbers before formatting.
- Binary floating point. Values are exact reals, so rounding, the binary value of 30.44, overflow of large finite values to Infinity, and -0 are not modelled.
- `Number(text)` and `Number(dataset.id)`: the number a text field yields is supplied with the field (`Inputs.Field`). Ids are integers that round-trip through the page.
- `Date.now()`: the id is a parameter, required to be fresh, so two additions within one millisecond are not modelled.
- `deviceForm.reset()`: the form is an input to the handlers, not page state, so clearing its fields is not modelled.
- Aliasing: records live only in the list, so they are values and the in-place update of `enabled` is a list update.
