/** The page's state: the appliance list `devices`, whether the table is shown, the
    table last rendered, and the usage-hours warning; and the handlers that change
    them (script.js:1-302). */
module Ledger {
  import opened Numbers
  import opened Inputs
  import opened Appliances
  import opened Registry
  import opened Totals

  /** The computed content of the table: one row of cells per period, in the order
      of `Periods`, and the overall row. */
  datatype View = View(body: seq<seq<Cell>>, overall: Sums)

  /** What `renderTable` computes for a non-empty list: one row per period, one
      cell per appliance, and the overall row. */
  function Table(ds: seq<Device>, doCalculation: bool): (v: View)
    ensures |v.body| == |Periods| && forall k :: 0 <= k < |Periods| ==> |v.body[k]| == |ds|
  {
    View([Row(ds, Hour, doCalculation), Row(ds, Day, doCalculation), Row(ds, Month, doCalculation),
          Row(ds, Year, doCalculation), Row(ds, Custom, doCalculation)], Overall(ds))
  }

  /** With calculation off, every cell of the drawn table is zero. */
  lemma TableOff(ds: seq<Device>)
    ensures var v := Table(ds, false);
      forall k, j :: 0 <= k < |Periods| && 0 <= j < |ds| ==> v.body[k][j] == Cell(0.0, 0.0)
  {
  }

  /** In the drawn table the month and year rows are the day row scaled by the days
      in a month and a year, and the custom row repeats the day row. */
  lemma TableFollowsDay(ds: seq<Device>, doCalculation: bool)
    ensures var v := Table(ds, doCalculation);
      && (forall j :: 0 <= j < |ds| ==>
            v.body[2][j] == Cell(v.body[1][j].consumption * DaysPerMonth, v.body[1][j].cost * DaysPerMonth)
            && v.body[3][j] == Cell(v.body[1][j].consumption * DaysPerYear, v.body[1][j].cost * DaysPerYear))
      && v.body[4] == v.body[1]
  {
    RowsScaleDay(ds, doCalculation);
    CustomRowIsDayRow(ds, doCalculation);
  }

  /** The month and year rows are the day row scaled, column by column. */
  lemma RowsScaleDay(ds: seq<Device>, doCalculation: bool)
    ensures var day := Row(ds, Day, doCalculation);
            forall j :: 0 <= j < |ds| ==>
              Row(ds, Month, doCalculation)[j] == Cell(day[j].consumption * DaysPerMonth, day[j].cost * DaysPerMonth)
              && Row(ds, Year, doCalculation)[j] == Cell(day[j].consumption * DaysPerYear, day[j].cost * DaysPerYear)
  {
    var day := Row(ds, Day, doCalculation);
    forall j | 0 <= j < |ds|
      ensures Row(ds, Month, doCalculation)[j] == Cell(day[j].consumption * DaysPerMonth, day[j].cost * DaysPerMonth)
      ensures Row(ds, Year, doCalculation)[j] == Cell(day[j].consumption * DaysPerYear, day[j].cost * DaysPerYear)
    {
      MonthIsDayTimes(ds[j], doCalculation);
      YearIsDayTimes(ds[j], doCalculation);
    }
  }

  /** The custom row is the day row. */
  lemma CustomRowIsDayRow(ds: seq<Device>, doCalculation: bool)
    ensures Row(ds, Custom, doCalculation) == Row(ds, Day, doCalculation)
  {
    forall j | 0 <= j < |ds| ensures CellAt(ds[j], Custom, doCalculation) == CellAt(ds[j], Day, doCalculation) {
      CustomIsDay(ds[j], doCalculation);
    }
  }

  class Page {
    var devices: seq<Device>
    /** Whether the table container is displayed. */
    var visible: bool
    /** The `doCalculation` flag of the last render that drew the table. */
    var calculated: bool
    /** The table as last drawn; it stays in place, hidden, when the list empties. */
    var view: View
    /** Text of the usage-hours warning. */
    var hoursMessage: string

    /** What every handler keeps of the list itself. */
    ghost predicate ListValid()
      reads this
    {
      UniqueIds(devices) && forall d :: d in devices ==> WellFormed(d)
    }

    /** The table is shown exactly when the list is non-empty, and then shows the list. */
    ghost predicate Valid()
      reads this
    {
      ListValid() && (visible <==> devices != []) && (visible ==> view == Table(devices, calculated))
    }

    constructor ()
      ensures Valid()
      ensures devices == [] && !visible && hoursMessage == ""
    {
      devices := [];
      visible := false;
      calculated := true;
      view := Table([], true);
      hoursMessage := "";
    }

    /** `renderTable(doCalculation)`: hides the table for an empty list, otherwise
        shows it and recomputes every cell and the overall row. */
    method Render(doCalculation: bool)
      requires ListValid()
      modifies this`visible, this`calculated, this`view
      ensures Valid()
      ensures visible == (devices != [])
      ensures devices != [] ==> calculated == doCalculation && view == Table(devices, doCalculation)
      ensures devices == [] ==> calculated == old(calculated) && view == old(view)
    {
      if devices == [] {
        visible := false;
        return;
      }
      visible := true;
      calculated := doCalculation;
      var ds := devices;
      var consumption, cost := OverallTotals(ds);
      var body := [Row(ds, Hour, doCalculation), Row(ds, Day, doCalculation), Row(ds, Month, doCalculation),
                   Row(ds, Year, doCalculation), Row(ds, Custom, doCalculation)];
      view := View(body, Sums(consumption, cost));
    }

    /** The guard on the usage-hours field; returns what the field holds afterwards. */
    method OnHoursInput(value: Num) returns (field: Num)
      modifies this`hoursMessage
      ensures GuardHours(value) == HoursCheck(field, hoursMessage)
    {
      var check := GuardHours(value);
      field := check.field;
      hoursMessage := check.message;
    }

    /** `addOrUpdateDevice(skipCalculation)`: when the form passes its check, appends
        a new enabled appliance with the fresh `id` and re-renders; otherwise does
        nothing at all. */
    method AddDevice(form: Form, id: int, skipCalculation: bool)
      requires Valid()
      requires forall d :: d in devices ==> d.id != id
      modifies this
      ensures Valid()
      ensures hoursMessage == old(hoursMessage)
      ensures AcceptsForm(form) ==>
        devices == old(devices) + [NewDevice(form, id).value] && visible && calculated == !skipCalculation
      ensures !AcceptsForm(form) ==>
        devices == old(devices) && visible == old(visible) && calculated == old(calculated) && view == old(view)
    {
      var created := NewDevice(form, id);
      if created.None? {
        return;
      }
      Append(created.value, !skipCalculation);
    }

    /** The accepted path of `addOrUpdateDevice`: `devices.push(x)`, then a render. */
    method Append(x: Device, doCalculation: bool)
      requires Valid() && WellFormed(x)
      requires forall d :: d in devices ==> d.id != x.id
      modifies this
      ensures Valid()
      ensures devices == old(devices) + [x]
      ensures visible && calculated == doCalculation
      ensures hoursMessage == old(hoursMessage)
    {
      AppendKeeps(devices, x);
      devices := devices + [x];
      Render(doCalculation);
    }

    /** The checkbox handler: sets `enabled` on the appliance with `id` and re-renders
        with calculation; an unknown id changes nothing. */
    method Toggle(id: int, checked: bool)
      requires Valid()
      modifies this
      ensures Valid()
      ensures devices == SetEnabled(old(devices), id, checked)
      ensures hoursMessage == old(hoursMessage)
      ensures IndexOf(old(devices), id) >= 0 ==> visible && calculated
      ensures IndexOf(old(devices), id) < 0 ==>
        devices == old(devices) && calculated == old(calculated) && view == old(view)
    {
      var i := IndexOf(devices, id);
      if i < 0 {
        assert SetEnabled(devices, id, checked) == devices;
        return;
      }
      SetEnabledKeeps(devices, id, checked);
      devices := SetEnabled(devices, id, checked);
      assert devices != [];
      Render(true);
    }

    /** The delete handler: drops every appliance with `id` and re-renders, which
        hides the table once the list is empty. */
    method Delete(id: int)
      requires Valid()
      modifies this
      ensures Valid()
      ensures devices == Without(old(devices), id)
      ensures hoursMessage == old(hoursMessage)
      ensures visible == (devices != [])
      ensures devices != [] ==> calculated
    {
      WithoutKeepsUnique(devices, id);
      forall d | d in Without(devices, id) ensures WellFormed(d) {
        WithoutMember(devices, id, d);
      }
      devices := Without(devices, id);
      Render(true);
    }

    /** The reset handler: empties the list, clears the warning and hides the table,
        whatever came before. */
    method Reset()
      requires Valid()
      modifies this
      ensures Valid()
      ensures devices == [] && !visible && hoursMessage == ""
    {
      devices := [];
      hoursMessage := "";
      visible := false;
    }

    /** The Calculate button: adds from the form when any field holds more than white
        space, and otherwise only re-renders with calculation. */
    method Calculate(form: Form, id: int)
      requires Valid()
      requires forall d :: d in devices ==> d.id != id
      modifies this
      ensures Valid()
      ensures hoursMessage == old(hoursMessage)
      ensures AcceptsForm(form) ==> devices == old(devices) + [NewDevice(form, id).value]
      ensures !AcceptsForm(form) ==> devices == old(devices)
      ensures AcceptsForm(form) ==> visible && calculated
      ensures AnyFieldFilled(form) && !AcceptsForm(form) ==>
        visible == old(visible) && calculated == old(calculated) && view == old(view)
      ensures !AnyFieldFilled(form) && devices != [] ==> calculated
    {
      if AnyFieldFilled(form) {
        AddDevice(form, id, false);
      } else {
        Render(true);
      }
    }
  }
}
