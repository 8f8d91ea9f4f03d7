/** The warehouse page (`src/pages/Bodega.jsx`): each driver's load derived
    from the table, the capacity check shared by the driver picker and by
    dispatch, dispatch and its revert, and the tab filter. */
module Warehouse {
  import opened Domain
  import opened Text

  /** A package counts against driver `d` while `d` carries it: `chofer_id === d` and `en_ruta`. */
  function CarriedBy(d: UserId): Shipment -> bool {
    (p: Shipment) => p.driver == Some(d) && p.status == EnRuta
  }

  /** What one package adds to driver `d`'s load. */
  function Contribution(p: Shipment, d: UserId): (w: real)
    ensures 0.0 <= w <= p.weight
  {
    if CarriedBy(d)(p) then p.weight else 0.0
  }

  /** `cargaActual`: the weight of the packages driver `d` has en route. */
  function Load(rows: seq<Shipment>, d: UserId): (w: real)
    ensures 0.0 <= w <= TotalWeight(rows)
    ensures (forall p :: p in rows ==> !CarriedBy(d)(p)) ==> w == 0.0
  {
    var carried := Filter(rows, CarriedBy(d));
    TotalWeightFilter(rows, CarriedBy(d));
    assert carried != [] ==> carried[0] in carried;
    TotalWeight(carried)
  }

  lemma LoadCons(p: Shipment, rows: seq<Shipment>, d: UserId)
    ensures Load([p] + rows, d) == Contribution(p, d) + Load(rows, d)
  {
    FilterConcat([p], rows, CarriedBy(d));
    TotalWeightConcat(Filter([p], CarriedBy(d)), Filter(rows, CarriedBy(d)));
  }

  /** Replacing one row changes a load by exactly the difference of the two rows' contributions. */
  lemma LoadUpdate(rows: seq<Shipment>, i: nat, s: Shipment, d: UserId)
    requires i < |rows|
    ensures Load(rows[i := s], d) == Load(rows, d) - Contribution(rows[i], d) + Contribution(s, d)
  {
    var before, after := rows[..i], rows[i + 1..];
    assert rows == before + ([rows[i]] + after);
    assert rows[i := s] == before + ([s] + after);
    var keep := CarriedBy(d);
    FilterConcat(before, [rows[i]] + after, keep);
    FilterConcat(before, [s] + after, keep);
    TotalWeightConcat(Filter(before, keep), Filter([rows[i]] + after, keep));
    TotalWeightConcat(Filter(before, keep), Filter([s] + after, keep));
    LoadCons(rows[i], after, d);
    LoadCons(s, after, d);
  }

  /** If no row adds more to `d` than before, `d`'s load does not grow. */
  lemma {:induction false} LoadPointwise(a: seq<Shipment>, b: seq<Shipment>, d: UserId)
    requires |a| == |b|
    requires forall k :: 0 <= k < |a| ==> Contribution(b[k], d) <= Contribution(a[k], d)
    ensures Load(b, d) <= Load(a, d)
  {
    if a != [] {
      assert a == [a[0]] + a[1..] && b == [b[0]] + b[1..];
      LoadCons(a[0], a[1..], d);
      LoadCons(b[0], b[1..], d);
      LoadPointwise(a[1..], b[1..], d);
    }
  }

  /** The rows the page caches: `.or("estado.eq.recibido,estado.eq.en_ruta")`. */
  function IsActive(): Shipment -> bool {
    (p: Shipment) => p.status == Recibido || p.status == EnRuta
  }

  function Active(rows: seq<Shipment>): seq<Shipment> {
    Filter(rows, IsActive())
  }

  /** The page computes loads from its cache of active rows; that is the load over the whole table. */
  lemma {:induction false} LoadActive(rows: seq<Shipment>, d: UserId)
    ensures Load(Active(rows), d) == Load(rows, d)
  {
    if rows != [] {
      assert rows == [rows[0]] + rows[1..];
      FilterConcat([rows[0]], rows[1..], IsActive());
      LoadCons(rows[0], rows[1..], d);
      LoadActive(rows[1..], d);
      if IsActive()(rows[0]) {
        LoadCons(rows[0], Active(rows[1..]), d);
      }
    }
  }

  predicate IsDriver(c: Profile) {
    c.role == "chofer"
  }

  /** `perfiles` filtered by `.eq("rol", "chofer")`. */
  function Drivers(profiles: seq<Profile>): (r: seq<Profile>)
    ensures forall c :: c in r <==> c in profiles && IsDriver(c)
  {
    if profiles == [] then []
    else if IsDriver(profiles[0]) then [profiles[0]] + Drivers(profiles[1..])
    else Drivers(profiles[1..])
  }

  /** Every driver carries no more than `capacidad_kg`. */
  predicate CapacityOk(rows: seq<Shipment>, profiles: seq<Profile>) {
    forall c :: c in profiles && IsDriver(c) ==> Load(rows, c.id) <= c.capacity
  }

  /** The over-capacity test of `gestionarPaquete` and of `renderOpcionChofer`. */
  predicate Overloaded(load: real, weight: Kg, capacity: Kg) {
    load + weight > capacity
  }

  /** `esLleno`: the driver option is greyed out for a package of this weight. */
  function OptionDisabled(active: seq<Shipment>, c: Profile, weight: Kg): (r: bool)
    ensures weight > c.capacity ==> r
    ensures weight == 0.0 && Load(active, c.id) <= c.capacity ==> !r
    ensures (forall p :: p in active ==> !CarriedBy(c.id)(p)) ==> (r <==> weight > c.capacity)
  {
    Overloaded(Load(active, c.id), weight, c.capacity)
  }

  /** Why `gestionarPaquete` shows an error toast instead of writing. */
  datatype Failure =
    | NoDriverSelected
    | UnknownPackage
    | UnknownDriver
    | OverCapacity(projected: real, capacity: Kg)
    | PermissionDenied

  /** The rows an update returns: none when row-level access refuses the write. */
  function Affected(rows: seq<Shipment>, id: nat, permitted: bool): nat {
    if permitted then Count(rows, HasId(id)) else 0
  }

  function Assign(d: UserId): Shipment -> Shipment {
    (p: Shipment) => p.(driver := Some(d), status := EnRuta)
  }

  function Unassign(): Shipment -> Shipment {
    (p: Shipment) => p.(driver := None, status := Recibido)
  }

  /** `gestionarPaquete(id, "despachar", choice)`; `permitted` is the verdict
      of the table's row-level access rules for this user. */
  function Dispatch(rows: seq<Shipment>, profiles: seq<Profile>, id: nat, choice: UserId, permitted: bool)
    : (r: Result<seq<Shipment>, Failure>)
    ensures r.Ok? ==> |r.value| == |rows|
    ensures choice == "" ==> r == Err(NoDriverSelected)
    ensures choice != "" && Find(Active(rows), id).None? ==> r == Err(UnknownPackage)
    ensures !permitted ==> r.Err?
    ensures r.Ok? ==> r.value == Update(rows, id, Assign(choice))
  {
    if choice == "" then Err(NoDriverSelected)
    else match Find(Active(rows), id)
      case None => Err(UnknownPackage)
      case Some(p) =>
        match FindProfile(Drivers(profiles), choice)
        case None => Err(UnknownDriver)
        case Some(c) =>
          var load := Load(Active(rows), c.id);
          if Overloaded(load, p.weight, c.capacity) then Err(OverCapacity(load + p.weight, c.capacity))
          else if Affected(rows, id, permitted) == 0 then Err(PermissionDenied)
          else Ok(Update(rows, id, Assign(choice)))
  }

  /** `gestionarPaquete(id, "cancelar")`: back to the warehouse, with no driver. */
  function Cancel(rows: seq<Shipment>, id: nat, permitted: bool): (r: Result<seq<Shipment>, Failure>)
    ensures r.Ok? ==> |r.value| == |rows|
    ensures !permitted ==> r == Err(PermissionDenied)
    ensures (forall p :: p in rows ==> p.id != id) ==> r == Err(PermissionDenied)
    ensures r.Ok? ==> r.value == Update(rows, id, Unassign())
  {
    var holding := Filter(rows, HasId(id));
    assert holding != [] ==> holding[0] in holding;
    if Affected(rows, id, permitted) == 0 then Err(PermissionDenied)
    else Ok(Update(rows, id, Unassign()))
  }

  /** Dispatch to a listed driver is refused for weight exactly when the
      picker greys that driver out; reaching the capacity exactly is allowed,
      and an allowed dispatch that the access rules permit succeeds. */
  lemma DispatchRefusedIffOptionDisabled(rows: seq<Shipment>, profiles: seq<Profile>, p: Shipment, c: Profile, permitted: bool)
    requires UniqueIds(rows) && UniqueProfiles(profiles)
    requires p in rows && IsActive()(p) && c in profiles && IsDriver(c) && c.id != ""
    ensures var r := Dispatch(rows, profiles, p.id, c.id, permitted);
      && (r.Err? && r.error.OverCapacity? <==> OptionDisabled(Active(rows), c, p.weight))
      && (r.Err? && r.error.OverCapacity? <==> Load(rows, c.id) + p.weight > c.capacity)
      && (!OptionDisabled(Active(rows), c, p.weight) && permitted ==> r.Ok?)
  {
    var found := Find(Active(rows), p.id);
    assert p in Active(rows);
    SameIdSameRow(rows, p, found.value);
    var driver := FindProfile(Drivers(profiles), c.id);
    assert c in Drivers(profiles);
    SameIdSameProfile(profiles, c, driver.value);
    LoadActive(rows, c.id);
    assert p in Filter(rows, HasId(p.id));
  }

  /** Assigning one package of a keyed table to driver `d` moves its weight onto
      `d` and off whoever carried it before; no other load changes. */
  lemma AssignMovesLoad(rows: seq<Shipment>, id: nat, d: UserId, p: Shipment)
    requires UniqueIds(rows) && p in rows && p.id == id
    ensures var after := Update(rows, id, Assign(d));
      && Load(after, d) == Load(rows, d) - Contribution(p, d) + p.weight
      && (forall e :: e != d ==> Load(after, e) == Load(rows, e) - Contribution(p, e))
  {
    var i :| 0 <= i < |rows| && rows[i] == p;
    var s := Assign(d)(p);
    UpdateAt(rows, id, Assign(d), i);
    LoadUpdate(rows, i, s, d);
    forall e | e != d
      ensures Load(rows[i := s], e) == Load(rows, e) - Contribution(p, e)
    {
      LoadUpdate(rows, i, s, e);
    }
  }

  /** A successful dispatch is the assignment of that package to the chosen driver. */
  lemma DispatchIsAssign(rows: seq<Shipment>, profiles: seq<Profile>, id: nat, choice: UserId, permitted: bool)
    requires Dispatch(rows, profiles, id, choice, permitted).Ok?
    ensures Dispatch(rows, profiles, id, choice, permitted).value == Update(rows, id, Assign(choice))
    ensures choice != "" && permitted
    ensures Find(Active(rows), id).Some? && FindProfile(Drivers(profiles), choice).Some?
  {
    var r := Dispatch(rows, profiles, id, choice, permitted);
    assert choice != "";
    var found := Find(Active(rows), id);
    assert found.Some?;
    var driver := FindProfile(Drivers(profiles), choice);
    assert driver.Some?;
    assert r == Ok(Update(rows, id, Assign(choice)));
  }

  /** A dispatch moves the package's weight onto the chosen driver and off
      whoever carried it before; no other load changes. For a package waiting
      in the warehouse the chosen driver's load grows by exactly its weight. */
  lemma DispatchMovesLoad(rows: seq<Shipment>, profiles: seq<Profile>, id: nat, choice: UserId, permitted: bool, p: Shipment)
    requires UniqueIds(rows) && p in rows && p.id == id
    requires Dispatch(rows, profiles, id, choice, permitted).Ok?
    ensures var after := Dispatch(rows, profiles, id, choice, permitted).value;
      && Load(after, choice) == Load(rows, choice) - Contribution(p, choice) + p.weight
      && (forall e :: e != choice ==> Load(after, e) == Load(rows, e) - Contribution(p, e))
      && (p.status == Recibido ==>
            (Load(after, choice) == Load(rows, choice) + p.weight
             && forall e :: e != choice ==> Load(after, e) == Load(rows, e)))
  {
    DispatchIsAssign(rows, profiles, id, choice, permitted);
    AssignMovesLoad(rows, id, choice, p);
  }

  /** A successful dispatch marks exactly that package as en route with the chosen driver. */
  lemma DispatchSetsDriver(rows: seq<Shipment>, profiles: seq<Profile>, id: nat, choice: UserId, permitted: bool)
    requires Dispatch(rows, profiles, id, choice, permitted).Ok?
    ensures var after := Dispatch(rows, profiles, id, choice, permitted).value;
      && choice != "" && permitted
      && (exists p :: p in rows && p.id == id && IsActive()(p))
      && forall k :: 0 <= k < |rows| ==>
           after[k] == if rows[k].id == id then rows[k].(driver := Some(choice), status := EnRuta) else rows[k]
  {
    var p := Find(Active(rows), id).value;
    assert p in rows && p.id == id && IsActive()(p);
  }

  /** Dispatch keeps every driver within capacity. */
  lemma DispatchKeepsCapacity(rows: seq<Shipment>, profiles: seq<Profile>, id: nat, choice: UserId, permitted: bool)
    requires UniqueIds(rows) && UniqueProfiles(profiles) && CapacityOk(rows, profiles)
    requires Dispatch(rows, profiles, id, choice, permitted).Ok?
    ensures CapacityOk(Dispatch(rows, profiles, id, choice, permitted).value, profiles)
  {
    var after := Dispatch(rows, profiles, id, choice, permitted).value;
    var p := Find(Active(rows), id).value;
    var chosen := FindProfile(Drivers(profiles), choice).value;
    DispatchMovesLoad(rows, profiles, id, choice, permitted, p);
    LoadActive(rows, choice);
    forall c | c in profiles && IsDriver(c)
      ensures Load(after, c.id) <= c.capacity
    {
      if c.id == choice {
        SameIdSameProfile(profiles, c, chosen);
      }
    }
  }

  /** A revert takes the package's weight off the driver who carried it; no other load changes. */
  lemma CancelMovesLoad(rows: seq<Shipment>, id: nat, permitted: bool, p: Shipment)
    requires UniqueIds(rows) && p in rows && p.id == id
    requires Cancel(rows, id, permitted).Ok?
    ensures var after := Cancel(rows, id, permitted).value;
      && (forall e :: Load(after, e) == Load(rows, e) - Contribution(p, e))
      && (p.status == EnRuta && p.driver.Some? ==> Load(after, p.driver.value) == Load(rows, p.driver.value) - p.weight)
  {
    var i :| 0 <= i < |rows| && rows[i] == p;
    UpdateAt(rows, id, Unassign(), i);
    forall e
      ensures Load(rows[i := Unassign()(p)], e) == Load(rows, e) - Contribution(p, e)
    {
      LoadUpdate(rows, i, Unassign()(p), e);
    }
  }

  /** A refused revert means the update reached no row; a successful one
      leaves the package in the warehouse with no driver. */
  lemma CancelOutcome(rows: seq<Shipment>, id: nat, permitted: bool)
    ensures var r := Cancel(rows, id, permitted);
      && (r.Err? <==> !permitted || forall p :: p in rows ==> p.id != id)
      && (r.Ok? ==> forall k :: 0 <= k < |rows| ==>
            r.value[k] == if rows[k].id == id then rows[k].(driver := None, status := Recibido) else rows[k])
  {
    var matched := Filter(rows, HasId(id));
    if matched != [] {
      assert matched[0] in matched;
    }
    if exists p :: p in rows && p.id == id {
      var p :| p in rows && p.id == id;
      assert p in matched;
    }
  }

  /** An update that leaves the changed rows off the road (any status but
      `en_ruta`) never pushes a driver over capacity. */
  lemma TakeOffRouteKeepsCapacity(rows: seq<Shipment>, profiles: seq<Profile>, id: nat, change: Shipment -> Shipment)
    requires CapacityOk(rows, profiles)
    requires forall p :: change(p).status != EnRuta
    ensures CapacityOk(Update(rows, id, change), profiles)
  {
    var after := Update(rows, id, change);
    forall c | c in profiles && IsDriver(c)
      ensures Load(after, c.id) <= c.capacity
    {
      forall k | 0 <= k < |rows|
        ensures Contribution(after[k], c.id) <= Contribution(rows[k], c.id)
      {
        if rows[k].id == id { assert after[k].status != EnRuta; }
      }
      LoadPointwise(rows, after, c.id);
    }
  }

  /** A revert never pushes a driver over capacity. */
  lemma CancelKeepsCapacity(rows: seq<Shipment>, profiles: seq<Profile>, id: nat, permitted: bool)
    requires CapacityOk(rows, profiles)
    requires Cancel(rows, id, permitted).Ok?
    ensures CapacityOk(Cancel(rows, id, permitted).value, profiles)
  {
    TakeOffRouteKeepsCapacity(rows, profiles, id, Unassign());
  }

  /** The two tabs of the page. */
  datatype Tab = Pendientes | EnRutaTab

  /** `paquetesVisibles`: the tab, then the search text on tracking code or
      customer name, then the destination filter. */
  function VisibleIn(tab: Tab, search: string, city: string): Shipment -> bool {
    (p: Shipment) =>
      (if tab == Pendientes then p.status == Recibido else p.status == EnRuta)
      && (Contains(Lower(p.trackingId), Lower(search)) || Contains(Lower(p.customerName), Lower(search)))
      && (city == "" || p.destination == city)
  }

  function WarehouseView(active: seq<Shipment>, tab: Tab, search: string, city: string): (r: seq<Shipment>)
    ensures |r| <= |active|
    ensures forall p :: p in r ==> p in active && p.status == (if tab == Pendientes then Recibido else EnRuta)
    ensures city != "" ==> forall p :: p in r ==> p.destination == city
    ensures NewestFirst(active) ==> NewestFirst(r)
  {
    Filter(active, VisibleIn(tab, search, city))
  }

  /** A package of the tab's status is listed exactly when its tracking code or
      customer name contains the search text, ignoring case, and it goes to the
      chosen city or no city is chosen. */
  lemma WarehouseSearch(rows: seq<Shipment>, tab: Tab, search: string, city: string, p: Shipment)
    requires p.status == (if tab == Pendientes then Recibido else EnRuta)
    ensures p in WarehouseView(Active(rows), tab, search, city) <==>
      && p in rows
      && (Contains(Lower(p.trackingId), Lower(search)) || Contains(Lower(p.customerName), Lower(search)))
      && (city == "" || p.destination == city)
  {
  }

  /** With no search text and no city filter, each tab lists exactly the table's
      packages in its status: waiting ones to dispatch, en-route ones to revert. */
  lemma WarehouseTabs(rows: seq<Shipment>, p: Shipment)
    ensures p in WarehouseView(Active(rows), Pendientes, "", "") <==> p in rows && p.status == Recibido
    ensures p in WarehouseView(Active(rows), EnRutaTab, "", "") <==> p in rows && p.status == EnRuta
  {
    ContainsEmpty(Lower(p.trackingId));
  }
}
