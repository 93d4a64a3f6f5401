/** The overall row: consumption and cost summed over the enabled appliances at one
    day of use (script.js:216-228). */
module Totals {
  import opened Numbers
  import opened Appliances
  import opened Registry

  datatype Sums = Sums(consumption: Num, cost: Num)

  /** Cost of one day of use. */
  function DayCost(d: Device): Num {
    Mul(DayConsumption(d), d.pricePerKwh)
  }

  /** The overall figures, accumulated left to right from 0 over the enabled
      appliances. Unlike the cells, NaN and infinities are not replaced here. */
  function Overall(ds: seq<Device>): (t: Sums)
    ensures (forall j :: 0 <= j < |ds| ==> !ds[j].enabled) ==> t == Sums(Fin(0.0), Fin(0.0))
    ensures (forall j :: 0 <= j < |ds| ==> ds[j].enabled ==> HasFiniteFields(ds[j])) ==>
      t.consumption.Fin? && t.cost.Fin?
    decreases |ds|
  {
    if ds == [] then Sums(Fin(0.0), Fin(0.0))
    else
      Step(Overall(ds[..|ds| - 1]), ds[|ds| - 1])
  }

  /** One turn of the accumulation: an enabled appliance adds its day's figures. */
  function Step(t: Sums, d: Device): Sums {
    if d.enabled then Sums(Add(t.consumption, DayConsumption(d)), Add(t.cost, DayCost(d))) else t
  }

  /** The accumulation loop of the table code. */
  method OverallTotals(ds: seq<Device>) returns (consumption: Num, cost: Num)
    ensures Sums(consumption, cost) == Overall(ds)
  {
    consumption, cost := Fin(0.0), Fin(0.0);
    var i := 0;
    while i < |ds|
      invariant 0 <= i <= |ds|
      invariant Sums(consumption, cost) == Overall(ds[..i])
    {
      var d := ds[i];
      if d.enabled {
        consumption := Add(consumption, DayConsumption(d));
        cost := Add(cost, DayCost(d));
      }
      assert ds[..i + 1][..i] == ds[..i];
      i := i + 1;
    }
    assert ds[..i] == ds;
  }

  /** The enabled appliances, in list order. */
  function EnabledOnly(ds: seq<Device>): seq<Device>
    decreases |ds|
  {
    if ds == [] then []
    else
      var d := ds[|ds| - 1];
      EnabledOnly(ds[..|ds| - 1]) + if d.enabled then [d] else []
  }

  lemma {:induction false} EnabledOnlyAppend(a: seq<Device>, b: seq<Device>)
    ensures EnabledOnly(a + b) == EnabledOnly(a) + EnabledOnly(b)
    decreases |b|
  {
    if b == [] {
      assert a + b == a;
    } else {
      var b' := b[..|b| - 1];
      assert (a + b)[..|a + b| - 1] == a + b';
      EnabledOnlyAppend(a, b');
    }
  }

  /** Disabled appliances contribute nothing: the overall row is that of the
      enabled appliances alone. */
  lemma {:induction false} OverallSkipsDisabled(ds: seq<Device>)
    ensures Overall(ds) == Overall(EnabledOnly(ds))
    decreases |ds|
  {
    if ds != [] {
      var init := ds[..|ds| - 1];
      var d := ds[|ds| - 1];
      OverallSkipsDisabled(init);
      if d.enabled {
        var e := EnabledOnly(init) + [d];
        assert EnabledOnly(ds) == e;
        assert e[..|e| - 1] == EnabledOnly(init);
        assert Overall(e) == Step(Overall(EnabledOnly(init)), d);
      } else {
        assert EnabledOnly(ds) == EnabledOnly(init) + [] == EnabledOnly(init);
        assert Overall(ds) == Step(Overall(init), d) == Overall(init);
      }
    }
  }

  /** Unticking appliance `i` gives the overall row of the list without it. */
  lemma {:induction false} DisabledIsAbsent(ds: seq<Device>, i: int)
    requires 0 <= i < |ds|
    ensures Overall(ds[i := ds[i].(enabled := false)]) == Overall(ds[..i] + ds[i + 1..])
  {
    var x := ds[i].(enabled := false);
    var e := ds[i := x];
    assert e == ds[..i] + [x] + ds[i + 1..];
    EnabledOnlyAppend(ds[..i] + [x], ds[i + 1..]);
    EnabledOnlyAppend(ds[..i], [x]);
    EnabledOnlyAppend(ds[..i], ds[i + 1..]);
    assert EnabledOnly([x]) == [] by {
      assert [x][..0] == [];
    }
    var rest := ds[..i] + ds[i + 1..];
    assert EnabledOnly(ds[..i]) + [] == EnabledOnly(ds[..i]);
    assert EnabledOnly(e) == EnabledOnly(rest);
    OverallSkipsDisabled(e);
    OverallSkipsDisabled(ds[..i] + ds[i + 1..]);
  }

  /** With unique ids, unticking an appliance in the table gives the same overall
      row as deleting it. */
  lemma {:induction false} UntickIsDelete(ds: seq<Device>, id: int)
    requires UniqueIds(ds) && IndexOf(ds, id) >= 0
    ensures Overall(SetEnabled(ds, id, false)) == Overall(Without(ds, id))
  {
    var i := IndexOf(ds, id);
    assert SetEnabled(ds, id, false) == ds[i := ds[i].(enabled := false)];
    WithoutPresent(ds, id);
    DisabledIsAbsent(ds, i);
  }

  /** Sum of a column of cells. */
  function SumConsumption(cells: seq<Cell>): real
    decreases |cells|
  {
    if cells == [] then 0.0 else SumConsumption(cells[..|cells| - 1]) + cells[|cells| - 1].consumption
  }

  function SumCost(cells: seq<Cell>): real
    decreases |cells|
  {
    if cells == [] then 0.0 else SumCost(cells[..|cells| - 1]) + cells[|cells| - 1].cost
  }

  /** When every appliance holds finite numbers, the overall row is the sum of the
      custom-period row. */
  lemma {:induction false} OverallIsCustomRowSum(ds: seq<Device>)
    requires forall d :: d in ds && d.enabled ==> HasFiniteFields(d)
    ensures var row := Row(ds, Custom, true);
            Overall(ds) == Sums(Fin(SumConsumption(row)), Fin(SumCost(row)))
    decreases |ds|
  {
    if ds != [] {
      var init, d := ds[..|ds| - 1], ds[|ds| - 1];
      var row := Row(ds, Custom, true);
      assert Row(init, Custom, true) == row[..|row| - 1];
      assert forall x | x in init :: x in ds;
      OverallIsCustomRowSum(init);
      assert Overall(ds) == Step(Overall(init), d);
      assert d in ds && row[|row| - 1] == CellAt(d, Custom, true);
      if d.enabled {
        CellFormula(d, Custom);
      }
    }
  }

  /** The overall row is not cleaned of NaN and infinities as the cells are: an
      infinite power shows 0 in its cells and Infinity in the overall row. */
  lemma InfinityReachesOverall()
    ensures var d := Device(1, "heater", Fin(5.0), Inf(false), Fin(5.0), true);
            CellAt(d, Custom, true) == Cell(0.0, 0.0)
            && Overall([d]) == Sums(Inf(false), Inf(false))
  {
  }
}
