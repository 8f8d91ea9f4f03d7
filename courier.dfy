/** The driver page (`src/pages/Chofer.jsx`): the driver's pending and
    history lists, the code-gated delivery, incident reports, the daily
    completion percentage and the activity switch. */
module Courier {
  import opened Domain
  import Warehouse

  function Reverse(s: seq<Shipment>): (r: seq<Shipment>)
    ensures |r| == |s|
    ensures forall i :: 0 <= i < |s| ==> r[i] == s[|s| - 1 - i]
  {
    if s == [] then [] else Reverse(s[1..]) + [s[0]]
  }

  lemma {:induction false} TotalWeightReverse(s: seq<Shipment>)
    ensures TotalWeight(Reverse(s)) == TotalWeight(s)
  {
    if s != [] {
      TotalWeightReverse(s[1..]);
      TotalWeightConcat(Reverse(s[1..]), [s[0]]);
    }
  }

  /** Rows in `order('created_at', { ascending: true })` order. */
  predicate OldestFirst(rows: seq<Shipment>) {
    forall i, j :: 0 <= i < j < |rows| ==> rows[i].createdAt <= rows[j].createdAt
  }

  /** `misPaquetes`: the driver's packages en route, oldest first. */
  function Pending(rows: seq<Shipment>, d: UserId): (r: seq<Shipment>)
    ensures forall p :: p in r <==> p in rows && p.driver == Some(d) && p.status == EnRuta
    ensures NewestFirst(rows) ==> OldestFirst(r)
    ensures |r| == |Filter(rows, Warehouse.CarriedBy(d))|
  {
    var carried := Filter(rows, Warehouse.CarriedBy(d));
    var r := Reverse(carried);
    assert forall p :: p in r <==> p in carried by {
      forall p ensures p in r <==> p in carried {
        if p in carried {
          var i :| 0 <= i < |carried| && carried[i] == p;
          assert r[|carried| - 1 - i] == p;
        }
      }
    }
    r
  }

  /** The driver's to-do list weighs exactly what the warehouse counts against the driver's capacity. */
  lemma PendingIsLoad(rows: seq<Shipment>, d: UserId)
    ensures TotalWeight(Pending(rows, d)) == Warehouse.Load(rows, d)
  {
    TotalWeightReverse(Filter(rows, Warehouse.CarriedBy(d)));
  }

  function Finished(d: UserId): Shipment -> bool {
    (p: Shipment) => p.driver == Some(d) && (p.status == Entregado || p.status == Incidencia)
  }

  /** `.limit(20)` on the history query. */
  const HistoryLimit := 20

  /** `paquetesHistorial`: the driver's 20 newest delivered or failed packages. */
  function History(rows: seq<Shipment>, d: UserId): (r: seq<Shipment>)
    ensures |r| <= HistoryLimit
    ensures forall p :: p in r ==> p in rows && p.driver == Some(d) && (p.status == Entregado || p.status == Incidencia)
    ensures r <= Filter(rows, Finished(d))
    ensures |Filter(rows, Finished(d))| <= HistoryLimit ==> r == Filter(rows, Finished(d))
    ensures |r| == if |Filter(rows, Finished(d))| <= HistoryLimit then |Filter(rows, Finished(d))| else HistoryLimit
  {
    var all := Filter(rows, Finished(d));
    if |all| <= HistoryLimit then all
    else
      var r := all[..HistoryLimit];
      assert forall p :: p in r ==> p in all;
      r
  }

  function IsDelivered(): Shipment -> bool {
    (p: Shipment) => p.status == Entregado
  }

  /** `porcentaje`: delivered packages of the history over everything on both lists. */
  function DailyPercent(pending: seq<Shipment>, history: seq<Shipment>): (r: nat)
    ensures r <= 100
    ensures |pending| + |history| == 0 ==> r == 0
    ensures pending == [] && history != [] && Count(history, IsDelivered()) == |history| ==> r == 100
  {
    Percent(Count(history, IsDelivered()), |pending| + |history|)
  }

  /** A driver with nothing en route whose every listed package was delivered is at 100%. */
  lemma DailyPercentExamples(p: Shipment)
    requires p.status == Entregado
    ensures DailyPercent([], [p]) == 100
    ensures DailyPercent([], []) == 0
    ensures DailyPercent([p], [p]) == 50
  {
    assert Filter([p], IsDelivered()) == [p];
  }

  /** `codigo_seguridad` is truthy: set and non-empty. */
  predicate HasCode(p: Shipment) {
    p.securityCode.Some? && p.securityCode.value != ""
  }

  /** Why the driver page shows an error toast instead of writing. */
  datatype Failure = CodeTooShort | UnknownPackage | WrongCode | EmptyReason

  function MarkDelivered(): Shipment -> Shipment {
    (p: Shipment) => p.(status := Entregado)
  }

  function MarkIncident(note: string): Shipment -> Shipment {
    (p: Shipment) => p.(status := Incidencia, incidentNote := Some(note))
  }

  /** `verificarCodigoYEntregar` for package `id` of driver `d`, then
      `actualizarEstado(id, 'entregado')`. */
  function Deliver(rows: seq<Shipment>, d: UserId, id: nat, input: string): (r: Result<seq<Shipment>, Failure>)
    ensures |input| < 4 ==> r == Err(CodeTooShort)
    ensures r.Ok? ==> |r.value| == |rows| && exists p :: p in rows && p.id == id && p.driver == Some(d) && p.status == EnRuta
  {
    if |input| < 4 then Err(CodeTooShort)
    else match Find(Pending(rows, d), id)
      case None => Err(UnknownPackage)
      case Some(p) =>
        if HasCode(p) && p.securityCode.value != input then Err(WrongCode)
        else Ok(Update(rows, id, MarkDelivered()))
  }

  /** `reportarIncidencia` for package `id`. */
  function ReportIncident(rows: seq<Shipment>, id: nat, reason: string): (r: Result<seq<Shipment>, Failure>)
    ensures r.Err? <==> reason == ""
    ensures r.Ok? ==> |r.value| == |rows|
  {
    if reason == "" then Err(EmptyReason)
    else Ok(Update(rows, id, MarkIncident(reason)))
  }

  /** The delivery gate: a code shorter than four characters is refused first;
      for a package on the driver's list, delivery goes through exactly when the
      package has no code or the code typed matches it. */
  lemma DeliverGate(rows: seq<Shipment>, d: UserId, p: Shipment, input: string)
    requires UniqueIds(rows) && p in rows && p.driver == Some(d) && p.status == EnRuta
    ensures |input| < 4 ==> Deliver(rows, d, p.id, input) == Err(CodeTooShort)
    ensures Deliver(rows, d, p.id, input).Ok? <==> |input| >= 4 && (!HasCode(p) || p.securityCode.value == input)
    ensures HasCode(p) && p.securityCode.value != input ==> Deliver(rows, d, p.id, input).Err?
  {
    var found := Find(Pending(rows, d), p.id);
    assert p in Pending(rows, d);
    SameIdSameRow(rows, p, found.value);
  }

  /** A delivery writes only the status: the driver and every other field stay. */
  lemma DeliverWritesStatusOnly(rows: seq<Shipment>, d: UserId, id: nat, input: string)
    requires Deliver(rows, d, id, input).Ok?
    ensures var after := Deliver(rows, d, id, input).value;
      forall k :: 0 <= k < |rows| ==>
        after[k] == if rows[k].id == id then rows[k].(status := Entregado) else rows[k]
  {
  }

  /** The incident report: an empty reason is refused, otherwise the row gets
      the `incidencia` status and the note, and keeps its driver. */
  lemma ReportIncidentWrites(rows: seq<Shipment>, id: nat, reason: string)
    ensures reason != "" ==> forall k :: 0 <= k < |rows| ==>
      ReportIncident(rows, id, reason).value[k]
        == if rows[k].id == id then rows[k].(status := Incidencia, incidentNote := Some(reason)) else rows[k]
  {
  }

  /** The incident report checks no status: a delivered package can still be
      marked as an incident. */
  lemma IncidentAfterDelivery(rows: seq<Shipment>, k: nat, reason: string)
    requires UniqueIds(rows) && k < |rows| && rows[k].status == Entregado && reason != ""
    ensures ReportIncident(rows, rows[k].id, reason).value[k].status == Incidencia
  {
  }

  /** Neither outcome moves a package back along the lifecycle. */
  lemma DriverStepsAdvance(rows: seq<Shipment>, d: UserId, id: nat, input: string, reason: string)
    ensures Deliver(rows, d, id, input).Ok? ==> forall k :: 0 <= k < |rows| ==>
      Rank(rows[k].status) <= Rank(Deliver(rows, d, id, input).value[k].status)
    ensures ReportIncident(rows, id, reason).Ok? ==> forall k :: 0 <= k < |rows| ==>
      Rank(rows[k].status) <= Rank(ReportIncident(rows, id, reason).value[k].status)
  {
    if Deliver(rows, d, id, input).Ok? {
      DeliverWritesStatusOnly(rows, d, id, input);
    }
    if ReportIncident(rows, id, reason).Ok? {
      ReportIncidentWrites(rows, id, reason);
    }
  }

  /** A delivery never pushes a driver over capacity. */
  lemma DeliverKeepsCapacity(rows: seq<Shipment>, profiles: seq<Profile>, d: UserId, id: nat, input: string)
    requires Warehouse.CapacityOk(rows, profiles)
    requires Deliver(rows, d, id, input).Ok?
    ensures Warehouse.CapacityOk(Deliver(rows, d, id, input).value, profiles)
  {
    assert Deliver(rows, d, id, input).value == Update(rows, id, MarkDelivered());
    Warehouse.TakeOffRouteKeepsCapacity(rows, profiles, id, MarkDelivered());
  }

  /** An incident report never pushes a driver over capacity. */
  lemma ReportIncidentKeepsCapacity(rows: seq<Shipment>, profiles: seq<Profile>, id: nat, reason: string)
    requires Warehouse.CapacityOk(rows, profiles)
    requires ReportIncident(rows, id, reason).Ok?
    ensures Warehouse.CapacityOk(ReportIncident(rows, id, reason).value, profiles)
  {
    Warehouse.TakeOffRouteKeepsCapacity(rows, profiles, id, MarkIncident(reason));
  }

  /** `toggleEstado`: `activo` becomes `descanso` and anything else becomes `activo`. */
  function Toggle(a: Activity): (r: Activity)
    ensures r != a
  {
    if a == Activo then Descanso else Activo
  }

  lemma ToggleTwice(a: Activity)
    ensures Toggle(Toggle(a)) == a
  {
  }
}
