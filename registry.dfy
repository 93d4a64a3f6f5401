/** The appliance list as a value, and what the add, toggle and delete handlers do
    to it (script.js:41-64, 244-259). */
module Registry {
  import opened Numbers
  import opened Inputs
  import opened Appliances

  /** No two appliances share an id. */
  ghost predicate UniqueIds(ds: seq<Device>) {
    forall i, j :: 0 <= i < j < |ds| ==> ds[i].id != ds[j].id
  }

  /** What the add check guarantees of every stored appliance: a non-empty name
      already trimmed at both ends, and no NaN. */
  predicate WellFormed(d: Device) {
    d.name != [] && !IsJsSpace(d.name[0]) && !IsJsSpace(d.name[|d.name| - 1])
    && !d.usageHours.NaN? && !d.power.NaN? && !d.pricePerKwh.NaN?
  }

  datatype Option<T> = None | Some(value: T)

  /** The appliance `addOrUpdateDevice` builds from the form, or None when the form
      fails its check and nothing is added. */
  function NewDevice(f: Form, id: int): (r: Option<Device>)
    ensures r.Some? <==> AcceptsForm(f)
    ensures r.Some? ==> WellFormed(r.value) && r.value.enabled && r.value.id == id
    ensures r.Some? ==> r.value.name == Trim(f.name) && r.value.usageHours == f.hours.number
                        && r.value.power == f.power.number && r.value.pricePerKwh == f.price.number
  {
    if AcceptsForm(f) then
      Some(Device(id, Trim(f.name), f.hours.number, f.power.number, f.price.number, true))
    else
      None
  }

  /** `ds.findIndex(d => d.id === id)`: the first index holding `id`, or -1. */
  function IndexOf(ds: seq<Device>, id: int): (i: int)
    ensures -1 <= i < |ds|
    ensures i == -1 <==> forall j :: 0 <= j < |ds| ==> ds[j].id != id
    ensures i >= 0 ==> ds[i].id == id && forall j :: 0 <= j < i ==> ds[j].id != id
  {
    if ds == [] then -1
    else if ds[0].id == id then 0
    else
      var k := IndexOf(ds[1..], id);
      if k < 0 then -1 else k + 1
  }

  /** The checkbox handler: the first appliance with `id` gets `enabled := checked`;
      with no such appliance the list is left alone. */
  function SetEnabled(ds: seq<Device>, id: int, checked: bool): (r: seq<Device>)
    ensures |r| == |ds|
    ensures (forall j :: 0 <= j < |ds| ==> ds[j].id != id) ==> r == ds
    ensures UniqueIds(ds) ==>
      forall j :: 0 <= j < |ds| ==> r[j] == if ds[j].id == id then ds[j].(enabled := checked) else ds[j]
  {
    var i := IndexOf(ds, id);
    if i < 0 then ds else ds[i := ds[i].(enabled := checked)]
  }

  /** `ds.filter(d => d.id !== id)`: the delete handler. */
  function Without(ds: seq<Device>, id: int): (r: seq<Device>)
    ensures forall j :: 0 <= j < |r| ==> r[j].id != id
    ensures |r| <= |ds|
    ensures |r| == |ds| <==> forall j :: 0 <= j < |ds| ==> ds[j].id != id
  {
    if ds == [] then []
    else (if ds[0].id == id then [] else [ds[0]]) + Without(ds[1..], id)
  }

  /** Deleting keeps exactly the appliances whose id differs. */
  lemma {:induction false} WithoutMember(ds: seq<Device>, id: int, d: Device)
    ensures d in Without(ds, id) <==> d in ds && d.id != id
  {
    if ds != [] {
      WithoutMember(ds[1..], id, d);
      assert d in ds <==> d == ds[0] || d in ds[1..];
    }
  }

  /** Deleting works piece by piece: it keeps the order of what it keeps. */
  lemma {:induction false} WithoutAppend(a: seq<Device>, b: seq<Device>, id: int)
    ensures Without(a + b, id) == Without(a, id) + Without(b, id)
  {
    if a == [] {
      assert a + b == b;
    } else {
      assert (a + b)[1..] == a[1..] + b;
      WithoutAppend(a[1..], b, id);
    }
  }

  /** Deleting an id nobody has changes nothing. */
  lemma {:induction false} WithoutAbsent(ds: seq<Device>, id: int)
    requires forall j :: 0 <= j < |ds| ==> ds[j].id != id
    ensures Without(ds, id) == ds
  {
    if ds != [] {
      WithoutAbsent(ds[1..], id);
    }
  }

  /** Deleting the id of one appliance that no other appliance shares removes that
      one and keeps the rest in order. */
  lemma {:induction false} WithoutOne(before: seq<Device>, x: Device, after: seq<Device>)
    requires forall j :: 0 <= j < |before| ==> before[j].id != x.id
    requires forall j :: 0 <= j < |after| ==> after[j].id != x.id
    ensures Without(before + [x] + after, x.id) == before + after
  {
    WithoutAbsent(before, x.id);
    WithoutAbsent(after, x.id);
    assert Without([x], x.id) == [] by {
      assert [x][1..] == [];
    }
    WithoutAppend(before, [x], x.id);
    assert Without(before + [x], x.id) == before + [] == before;
    WithoutAppend(before + [x], after, x.id);
  }

  /** With unique ids, deleting a present id removes exactly that one appliance
      and keeps the others in order. */
  lemma {:induction false} WithoutPresent(ds: seq<Device>, id: int)
    requires UniqueIds(ds) && IndexOf(ds, id) >= 0
    ensures var i := IndexOf(ds, id); Without(ds, id) == ds[..i] + ds[i + 1..]
  {
    var i := IndexOf(ds, id);
    var after := ds[i + 1..];
    forall j | 0 <= j < |after| ensures after[j].id != id {
      assert after[j] == ds[i + 1 + j];
    }
    assert ds == ds[..i] + [ds[i]] + after;
    WithoutOne(ds[..i], ds[i], after);
  }

  /** Deleting keeps ids unique. */
  lemma {:induction false} WithoutKeepsUnique(ds: seq<Device>, id: int)
    requires UniqueIds(ds)
    ensures UniqueIds(Without(ds, id))
  {
    if ds != [] {
      WithoutKeepsUnique(ds[1..], id);
      var rest := Without(ds[1..], id);
      forall d | d in rest ensures d.id != ds[0].id {
        WithoutMember(ds[1..], id, d);
      }
    }
  }

  /** Setting a checkbox back to what it was restores the list exactly. */
  lemma SetEnabledRestores(ds: seq<Device>, id: int, checked: bool)
    requires IndexOf(ds, id) >= 0
    ensures SetEnabled(SetEnabled(ds, id, checked), id, ds[IndexOf(ds, id)].enabled) == ds
  {
  }

  /** Toggling keeps every id where it was, so ids stay unique and appliances well formed. */
  lemma SetEnabledKeeps(ds: seq<Device>, id: int, checked: bool)
    requires UniqueIds(ds) && forall d :: d in ds ==> WellFormed(d)
    ensures var r := SetEnabled(ds, id, checked);
            UniqueIds(r) && forall d :: d in r ==> WellFormed(d)
  {
    var r := SetEnabled(ds, id, checked);
    forall d | d in r ensures WellFormed(d) {
      var j :| 0 <= j < |r| && r[j] == d;
      assert ds[j] in ds;
    }
  }

  /** Appending a well-formed appliance with a fresh id keeps ids unique and every
      appliance well formed. */
  lemma AppendKeeps(ds: seq<Device>, x: Device)
    requires UniqueIds(ds) && (forall d :: d in ds ==> WellFormed(d))
    requires WellFormed(x) && forall d :: d in ds ==> d.id != x.id
    ensures UniqueIds(ds + [x]) && forall d :: d in ds + [x] ==> WellFormed(d)
  {
    assert forall j :: 0 <= j < |ds| ==> ds[j] in ds;
  }
}
