/** The shared `paquetes` and `perfiles` tables and the writes the pages
    make to them, one method per write, each tied to the pure operation of
    its page and keeping the tables' invariants. */
module Lifecycle {
  import opened Domain
  import Reception
  import Warehouse
  import Courier

  /** `toggleEstado`'s write: the profile with id `d` flips its activity. */
  function ToggleActivity(profiles: seq<Profile>, d: UserId): (r: seq<Profile>)
    ensures |r| == |profiles|
    ensures forall k :: 0 <= k < |profiles| ==>
      r[k] == if profiles[k].id == d then profiles[k].(activity := Courier.Toggle(profiles[k].activity)) else profiles[k]
  {
    if profiles == [] then []
    else
      var c := profiles[0];
      [if c.id == d then c.(activity := Courier.Toggle(c.activity)) else c] + ToggleActivity(profiles[1..], d)
  }

  /** Toggling twice restores every profile. */
  lemma ToggleActivityTwice(profiles: seq<Profile>, d: UserId)
    ensures ToggleActivity(ToggleActivity(profiles, d), d) == profiles
  {
    var once := ToggleActivity(profiles, d);
    var twice := ToggleActivity(once, d);
    forall k | 0 <= k < |profiles| ensures twice[k] == profiles[k] {
      Courier.ToggleTwice(profiles[k].activity);
    }
  }

  /** Inserting a fresh `recibido` row changes no driver's load. */
  lemma {:induction false} NewRowAddsNoLoad(p: Shipment, rows: seq<Shipment>, profiles: seq<Profile>)
    requires p.status == Recibido
    requires Warehouse.CapacityOk(rows, profiles)
    ensures Warehouse.CapacityOk([p] + rows, profiles)
  {
    forall d: UserId ensures Warehouse.Load([p] + rows, d) == Warehouse.Load(rows, d) {
      Warehouse.LoadCons(p, rows, d);
    }
  }

  /** The invariant of the two tables: ids are keys and below the sequence,
      rows are in creation order, and no driver carries more than their
      capacity. */
  predicate TableOk(rows: seq<Shipment>, profiles: seq<Profile>, nextId: nat) {
    && UniqueIds(rows)
    && (forall k :: 0 <= k < |rows| ==> rows[k].id < nextId)
    && NewestFirst(rows)
    && UniqueProfiles(profiles)
    && Warehouse.CapacityOk(rows, profiles)
  }

  /** An update that keeps ids and timestamps and keeps every driver within
      capacity keeps the invariant. */
  lemma UpdateKeepsTableOk(rows: seq<Shipment>, profiles: seq<Profile>, nextId: nat, id: nat, change: Shipment -> Shipment)
    requires TableOk(rows, profiles, nextId) && KeepsKey(change)
    requires Warehouse.CapacityOk(Update(rows, id, change), profiles)
    ensures TableOk(Update(rows, id, change), profiles, nextId)
  {
    UpdateKeepsTable(rows, id, change);
  }

  lemma DispatchKeepsTableOk(rows: seq<Shipment>, profiles: seq<Profile>, nextId: nat, id: nat, choice: UserId, permitted: bool)
    requires TableOk(rows, profiles, nextId)
    requires Warehouse.Dispatch(rows, profiles, id, choice, permitted).Ok?
    ensures TableOk(Warehouse.Dispatch(rows, profiles, id, choice, permitted).value, profiles, nextId)
  {
    Warehouse.DispatchIsAssign(rows, profiles, id, choice, permitted);
    Warehouse.DispatchKeepsCapacity(rows, profiles, id, choice, permitted);
    UpdateKeepsTableOk(rows, profiles, nextId, id, Warehouse.Assign(choice));
  }

  lemma CancelKeepsTableOk(rows: seq<Shipment>, profiles: seq<Profile>, nextId: nat, id: nat, permitted: bool)
    requires TableOk(rows, profiles, nextId)
    requires Warehouse.Cancel(rows, id, permitted).Ok?
    ensures TableOk(Warehouse.Cancel(rows, id, permitted).value, profiles, nextId)
  {
    Warehouse.CancelKeepsCapacity(rows, profiles, id, permitted);
    UpdateKeepsTableOk(rows, profiles, nextId, id, Warehouse.Unassign());
  }

  lemma DeliverKeepsTableOk(rows: seq<Shipment>, profiles: seq<Profile>, nextId: nat, d: UserId, id: nat, input: string)
    requires TableOk(rows, profiles, nextId)
    requires Courier.Deliver(rows, d, id, input).Ok?
    ensures TableOk(Courier.Deliver(rows, d, id, input).value, profiles, nextId)
  {
    Courier.DeliverKeepsCapacity(rows, profiles, d, id, input);
    assert Courier.Deliver(rows, d, id, input).value == Update(rows, id, Courier.MarkDelivered());
    UpdateKeepsTableOk(rows, profiles, nextId, id, Courier.MarkDelivered());
  }

  lemma ReportIncidentKeepsTableOk(rows: seq<Shipment>, profiles: seq<Profile>, nextId: nat, id: nat, reason: string)
    requires TableOk(rows, profiles, nextId)
    requires Courier.ReportIncident(rows, id, reason).Ok?
    ensures TableOk(Courier.ReportIncident(rows, id, reason).value, profiles, nextId)
  {
    Courier.ReportIncidentKeepsCapacity(rows, profiles, id, reason);
    UpdateKeepsTableOk(rows, profiles, nextId, id, Courier.MarkIncident(reason));
  }

  /** A new row with the next id and the latest timestamp keeps the invariant. */
  lemma InsertKeepsTableOk(rows: seq<Shipment>, profiles: seq<Profile>, nextId: nat, p: Shipment)
    requires TableOk(rows, profiles, nextId)
    requires p.id == nextId && p.status == Recibido
    requires rows == [] || p.createdAt >= rows[0].createdAt
    ensures TableOk([p] + rows, profiles, nextId + 1)
  {
    NewRowAddsNoLoad(p, rows, profiles);
    var r := [p] + rows;
    forall i, j | 0 <= i < j < |r| ensures r[i].createdAt >= r[j].createdAt && r[i].id != r[j].id {
      if i == 0 {
        assert r[j] == rows[j - 1];
      } else {
        assert r[i] == rows[i - 1] && r[j] == rows[j - 1];
      }
    }
  }

  /** Flipping a driver's activity keeps the invariant. */
  lemma ToggleKeepsTableOk(rows: seq<Shipment>, profiles: seq<Profile>, nextId: nat, d: UserId)
    requires TableOk(rows, profiles, nextId)
    ensures TableOk(rows, ToggleActivity(profiles, d), nextId)
  {
    var after := ToggleActivity(profiles, d);
    assert forall k :: 0 <= k < |profiles| ==> after[k].id == profiles[k].id && after[k].role == profiles[k].role && after[k].capacity == profiles[k].capacity;
    forall c | c in after && Warehouse.IsDriver(c)
      ensures Warehouse.Load(rows, c.id) <= c.capacity
    {
      var k :| 0 <= k < |after| && after[k] == c;
      assert profiles[k] in profiles;
    }
  }

  /** Both tables, as the pages see them. */
  class Db {
    /** `paquetes`, newest first. */
    var rows: seq<Shipment>
    /** `perfiles`. */
    var profiles: seq<Profile>
    /** The next id the table's sequence hands out. */
    var nextId: nat

    /** The tables' invariant holds. */
    predicate Valid()
      reads this
    {
      TableOk(rows, profiles, nextId)
    }

    /** An empty package table beside the given staff and customers. */
    constructor (staff: seq<Profile>)
      requires UniqueProfiles(staff)
      ensures Valid() && rows == [] && profiles == staff && nextId == 0
    {
      rows := [];
      profiles := staff;
      nextId := 0;
    }

    /** `handleSubmit`: inserts the quoted `recibido` row at the front and
        hands back the form's blank state. `now` is the insert's timestamp,
        no earlier than any row already stored; `code` is the security code
        the database gives the new row. */
    method Create(form: Reception.Form, draw: nat, code: Option<string>, now: int) returns (p: Shipment, next: Reception.Form)
      requires Valid() && draw < 9000
      requires rows == [] || now >= rows[0].createdAt
      modifies this
      ensures Valid()
      ensures p == Reception.NewShipment(form, old(nextId), draw, code, now)
      ensures rows == [p] + old(rows) && profiles == old(profiles) && nextId == old(nextId) + 1
      ensures next == Reception.BlankForm
    {
      p := Reception.NewShipment(form, nextId, draw, code, now);
      InsertKeepsTableOk(rows, profiles, nextId, p);
      rows := [p] + rows;
      nextId := nextId + 1;
      next := Reception.BlankForm;
    }

    /** `gestionarPaquete(id, 'despachar')`; `permitted` says whether the
        database lets the update touch the row. */
    method Dispatch(id: nat, choice: UserId, permitted: bool) returns (failure: Option<Warehouse.Failure>)
      requires Valid()
      modifies this
      ensures Valid()
      ensures profiles == old(profiles) && nextId == old(nextId)
      ensures match Warehouse.Dispatch(old(rows), old(profiles), id, choice, permitted)
        case Ok(after) => rows == after && failure.None?
        case Err(e) => rows == old(rows) && failure == Some(e)
    {
      match Warehouse.Dispatch(rows, profiles, id, choice, permitted)
      case Err(e) =>
        failure := Some(e);
      case Ok(after) =>
        DispatchKeepsTableOk(rows, profiles, nextId, id, choice, permitted);
        rows := after;
        failure := None;
    }

    /** `gestionarPaquete(id, 'cancelar')`. */
    method Cancel(id: nat, permitted: bool) returns (failure: Option<Warehouse.Failure>)
      requires Valid()
      modifies this
      ensures Valid()
      ensures profiles == old(profiles) && nextId == old(nextId)
      ensures match Warehouse.Cancel(old(rows), id, permitted)
        case Ok(after) => rows == after && failure.None?
        case Err(e) => rows == old(rows) && failure == Some(e)
    {
      match Warehouse.Cancel(rows, id, permitted)
      case Err(e) =>
        failure := Some(e);
      case Ok(after) =>
        CancelKeepsTableOk(rows, profiles, nextId, id, permitted);
        rows := after;
        failure := None;
    }

    /** `verificarCodigoYEntregar` by driver `d`. */
    method ConfirmDelivery(d: UserId, id: nat, input: string) returns (failure: Option<Courier.Failure>)
      requires Valid()
      modifies this
      ensures Valid()
      ensures profiles == old(profiles) && nextId == old(nextId)
      ensures match Courier.Deliver(old(rows), d, id, input)
        case Ok(after) => rows == after && failure.None?
        case Err(e) => rows == old(rows) && failure == Some(e)
    {
      match Courier.Deliver(rows, d, id, input)
      case Err(e) =>
        failure := Some(e);
      case Ok(after) =>
        DeliverKeepsTableOk(rows, profiles, nextId, d, id, input);
        rows := after;
        failure := None;
    }

    /** `reportarIncidencia`. */
    method ReportIncident(id: nat, reason: string) returns (failure: Option<Courier.Failure>)
      requires Valid()
      modifies this
      ensures Valid()
      ensures profiles == old(profiles) && nextId == old(nextId)
      ensures match Courier.ReportIncident(old(rows), id, reason)
        case Ok(after) => rows == after && failure.None?
        case Err(e) => rows == old(rows) && failure == Some(e)
    {
      match Courier.ReportIncident(rows, id, reason)
      case Err(e) =>
        failure := Some(e);
      case Ok(after) =>
        ReportIncidentKeepsTableOk(rows, profiles, nextId, id, reason);
        rows := after;
        failure := None;
    }

    /** `toggleEstado` by driver `d`. */
    method Toggle(d: UserId)
      requires Valid()
      modifies this
      ensures Valid()
      ensures rows == old(rows) && nextId == old(nextId)
      ensures profiles == ToggleActivity(old(profiles), d)
    {
      ToggleKeepsTableOk(rows, profiles, nextId, d);
      var after := ToggleActivity(profiles, d);
      profiles := after;
    }
  }
}
