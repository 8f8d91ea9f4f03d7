/** The rows of the `paquetes` and `perfiles` tables and the list operations
    (`filter`, `reduce`, `find`) the pages apply to query results. */
module Domain {

  datatype Option<T> = None | Some(value: T)

  /** The outcome of an operation that a page can refuse with a message. */
  datatype Result<T, E> = Ok(value: T) | Err(error: E)

  /** A weight in kilograms, as the reception form accepts it (`min="0"`). */
  type Kg = w: real | 0.0 <= w

  /** A `perfiles.id` (an auth user id). */
  type UserId = string

  /** `paquetes.estado`: the four values the pages write. */
  datatype Status = Recibido | EnRuta | Entregado | Incidencia

  /** The string stored in the `estado` column. */
  function StatusName(s: Status): string {
    match s
    case Recibido => "recibido"
    case EnRuta => "en_ruta"
    case Entregado => "entregado"
    case Incidencia => "incidencia"
  }

  /** One row of `paquetes`. `driver` is `chofer_id`, `securityCode` is
      `codigo_seguridad`, `incidentNote` is `incidencia_nota`; `createdAt` is
      the `created_at` timestamp. */
  datatype Shipment = Shipment(
    id: nat,
    trackingId: string,
    customerName: string,
    customerEmail: string,
    origin: string,
    destination: string,
    description: string,
    cost: real,
    weight: Kg,
    status: Status,
    driver: Option<UserId>,
    securityCode: Option<string>,
    incidentNote: Option<string>,
    createdAt: int)

  /** `perfiles.estado_actividad` of a driver. */
  datatype Activity = Activo | Descanso

  /** One row of `perfiles`; `role` is the `rol` string, `capacity` is `capacidad_kg`. */
  datatype Profile = Profile(id: UserId, name: string, email: string, role: string, capacity: Kg, activity: Activity)

  /** Rows in `order('created_at', { ascending: false })` order. */
  predicate NewestFirst(rows: seq<Shipment>) {
    forall i, j :: 0 <= i < j < |rows| ==> rows[i].createdAt >= rows[j].createdAt
  }

  /** `paquetes.id` is a key. */
  predicate UniqueIds(rows: seq<Shipment>) {
    forall i, j :: 0 <= i < j < |rows| ==> rows[i].id != rows[j].id
  }

  /** `perfiles.id` is a key. */
  predicate UniqueProfiles(profiles: seq<Profile>) {
    forall i, j :: 0 <= i < j < |profiles| ==> profiles[i].id != profiles[j].id
  }

  /** `rows.filter(keep)`: the rows that satisfy `keep`, in their original order. */
  function Filter(rows: seq<Shipment>, keep: Shipment -> bool): (r: seq<Shipment>)
    ensures |r| <= |rows|
    ensures forall p :: p in r <==> p in rows && keep(p)
    ensures NewestFirst(rows) ==> NewestFirst(r)
  {
    if rows == [] then []
    else
      var rest := Filter(rows[1..], keep);
      assert forall p :: p in rest ==> p in rows[1..];
      if keep(rows[0]) then
        assert NewestFirst(rows) ==> forall p :: p in rows[1..] ==> rows[0].createdAt >= p.createdAt;
        [rows[0]] + rest
      else rest
  }

  /** Filtering distributes over concatenation of query results. */
  lemma {:induction false} FilterConcat(a: seq<Shipment>, b: seq<Shipment>, keep: Shipment -> bool)
    ensures Filter(a + b, keep) == Filter(a, keep) + Filter(b, keep)
  {
    if a == [] {
      assert a + b == b;
    } else {
      var ab := a + b;
      assert ab[0] == a[0] && ab[1..] == a[1..] + b;
      FilterConcat(a[1..], b, keep);
      var x, y := Filter(a[1..], keep), Filter(b, keep);
      if keep(a[0]) {
        assert [a[0]] + (x + y) == ([a[0]] + x) + y;
      }
    }
  }

  /** A filter every row passes gives back the whole list. */
  lemma {:induction false} FilterAll(rows: seq<Shipment>, keep: Shipment -> bool)
    requires forall p :: p in rows ==> keep(p)
    ensures Filter(rows, keep) == rows
  {
    if rows != [] {
      assert forall p :: p in rows[1..] ==> p in rows;
      FilterAll(rows[1..], keep);
      assert [rows[0]] + rows[1..] == rows;
    }
  }

  /** A filter no row passes gives nothing. */
  lemma {:induction false} FilterNone(rows: seq<Shipment>, keep: Shipment -> bool)
    requires forall p :: p in rows ==> !keep(p)
    ensures Filter(rows, keep) == []
  {
    if rows != [] {
      assert forall p :: p in rows[1..] ==> p in rows;
      FilterNone(rows[1..], keep);
    }
  }

  /** In a keyed table, a filter only one row passes gives exactly that row. */
  lemma {:induction false} FilterSingle(rows: seq<Shipment>, keep: Shipment -> bool, p: Shipment)
    requires UniqueIds(rows) && p in rows
    requires forall q :: q in rows && keep(q) ==> q == p
    requires keep(p)
    ensures Filter(rows, keep) == [p]
  {
    var rest := Filter(rows[1..], keep);
    if rows[0] == p {
      assert forall q :: q in rows[1..] ==> q.id != p.id by {
        forall q | q in rows[1..] ensures q.id != p.id {
          var j :| 0 <= j < |rows[1..]| && rows[1..][j] == q;
          assert rows[0].id != rows[j + 1].id;
        }
      }
      FilterNone(rows[1..], keep);
      assert Filter(rows, keep) == [p] + rest;
    } else {
      assert p in rows[1..];
      FilterSingle(rows[1..], keep, p);
    }
  }

  /** A selection of rows weighs no more than the whole table. */
  lemma {:induction false} TotalWeightFilter(rows: seq<Shipment>, keep: Shipment -> bool)
    ensures TotalWeight(Filter(rows, keep)) <= TotalWeight(rows)
  {
    if rows != [] {
      TotalWeightFilter(rows[1..], keep);
    }
  }

  /** `.length` of a filter: how many rows satisfy `keep`. */
  function Count(rows: seq<Shipment>, keep: Shipment -> bool): (n: nat)
    ensures n <= |rows|
  {
    |Filter(rows, keep)|
  }

  /** `.reduce((sum, p) => sum + peso, 0)`. */
  function TotalWeight(rows: seq<Shipment>): (w: real)
    ensures w >= 0.0
  {
    if rows == [] then 0.0 else rows[0].weight + TotalWeight(rows[1..])
  }

  lemma {:induction false} TotalWeightConcat(a: seq<Shipment>, b: seq<Shipment>)
    ensures TotalWeight(a + b) == TotalWeight(a) + TotalWeight(b)
  {
    if a != [] {
      assert (a + b)[1..] == a[1..] + b;
      TotalWeightConcat(a[1..], b);
    } else {
      assert a + b == b;
    }
  }

  /** `.reduce((sum, p) => sum + costo, 0)`. */
  function TotalCost(rows: seq<Shipment>): real {
    if rows == [] then 0.0 else rows[0].cost + TotalCost(rows[1..])
  }

  /** The position of the row whose `id` is `id`, as `.eq('id', id)` selects it. */
  function IndexOf(rows: seq<Shipment>, id: nat): (r: Option<nat>)
    ensures r.Some? ==> r.value < |rows| && rows[r.value].id == id
    ensures r.None? <==> forall p :: p in rows ==> p.id != id
  {
    if rows == [] then None
    else if rows[0].id == id then Some(0)
    else match IndexOf(rows[1..], id)
      case None => None
      case Some(i) => Some(i + 1)
  }

  /** `list.find(p => p.id === id)`: the first listed shipment with that id. */
  function Find(list: seq<Shipment>, id: nat): (r: Option<Shipment>)
    ensures r.Some? ==> r.value in list && r.value.id == id
    ensures r.None? <==> forall p :: p in list ==> p.id != id
  {
    match IndexOf(list, id)
    case None => None
    case Some(i) => Some(list[i])
  }

  /** `profiles.find(c => c.id === id)`. */
  function FindProfile(profiles: seq<Profile>, id: UserId): (r: Option<Profile>)
    ensures r.Some? ==> r.value in profiles && r.value.id == id
    ensures r.None? <==> forall c :: c in profiles ==> c.id != id
  {
    if profiles == [] then None
    else if profiles[0].id == id then Some(profiles[0])
    else FindProfile(profiles[1..], id)
  }

  /** In a keyed table, the row found for an id is the only row with that id. */
  lemma FindProfileUnique(profiles: seq<Profile>, c: Profile)
    requires UniqueProfiles(profiles) && c in profiles
    ensures FindProfile(profiles, c.id) == Some(c)
  {
    var k :| 0 <= k < |profiles| && profiles[k] == c;
    FindProfileFrom(profiles, k);
  }

  lemma {:induction false} FindProfileFrom(profiles: seq<Profile>, k: nat)
    requires UniqueProfiles(profiles) && k < |profiles|
    ensures FindProfile(profiles, profiles[k].id) == Some(profiles[k])
  {
    if k > 0 {
      assert profiles[0].id != profiles[k].id;
      assert profiles[1..][k - 1] == profiles[k];
      FindProfileFrom(profiles[1..], k - 1);
    }
  }

  /** Two rows of a keyed table with the same id are the same row. */
  lemma SameIdSameRow(rows: seq<Shipment>, p: Shipment, q: Shipment)
    requires UniqueIds(rows) && p in rows && q in rows && p.id == q.id
    ensures p == q
  {
    var i :| 0 <= i < |rows| && rows[i] == p;
    var j :| 0 <= j < |rows| && rows[j] == q;
    assert !(i < j) && !(j < i);
  }

  /** Two profiles of a keyed table with the same id are the same profile. */
  lemma SameIdSameProfile(profiles: seq<Profile>, c: Profile, e: Profile)
    requires UniqueProfiles(profiles) && c in profiles && e in profiles && c.id == e.id
    ensures c == e
  {
    var i :| 0 <= i < |profiles| && profiles[i] == c;
    var j :| 0 <= j < |profiles| && profiles[j] == e;
    assert !(i < j) && !(j < i);
  }

  /** `.eq('tracking_id', code)`. */
  function HasTracking(code: string): Shipment -> bool {
    (p: Shipment) => p.trackingId == code
  }

  /** `.eq('tracking_id', code).single()`: the row when exactly one row carries
      the code; no row, or several, is an error and yields nothing. */
  function SingleLookup(rows: seq<Shipment>, code: string): (r: Option<Shipment>)
    ensures r.Some? ==> r.value in rows && r.value.trackingId == code
    ensures r.Some? <==> |Filter(rows, HasTracking(code))| == 1
    ensures (forall p :: p in rows ==> p.trackingId != code) ==> r.None?
  {
    var matched := Filter(rows, HasTracking(code));
    if |matched| == 1 then
      assert matched[0] in matched;
      Some(matched[0])
    else None
  }

  /** In a keyed table where only `p` carries its code, `.single()` finds `p`. */
  lemma SingleLookupFinds(rows: seq<Shipment>, p: Shipment)
    requires UniqueIds(rows) && p in rows
    requires forall q :: q in rows && q.trackingId == p.trackingId ==> q == p
    ensures SingleLookup(rows, p.trackingId) == Some(p)
  {
    FilterSingle(rows, HasTracking(p.trackingId), p);
  }

  /** `.eq('id', id)`. */
  function HasId(id: nat): Shipment -> bool {
    (p: Shipment) => p.id == id
  }

  /** `.update(change).eq('id', id)`: every row with that id is changed, the others are kept. */
  function Update(rows: seq<Shipment>, id: nat, change: Shipment -> Shipment): (r: seq<Shipment>)
    ensures |r| == |rows|
    ensures forall k :: 0 <= k < |rows| ==> r[k] == if rows[k].id == id then change(rows[k]) else rows[k]
  {
    if rows == [] then []
    else [if rows[0].id == id then change(rows[0]) else rows[0]] + Update(rows[1..], id, change)
  }

  /** In a keyed table the update touches exactly the one row with that id. */
  lemma UpdateAt(rows: seq<Shipment>, id: nat, change: Shipment -> Shipment, i: nat)
    requires UniqueIds(rows) && i < |rows| && rows[i].id == id
    ensures Update(rows, id, change) == rows[i := change(rows[i])]
  {
    var r := Update(rows, id, change);
    forall k | 0 <= k < |rows|
      ensures r[k] == rows[i := change(rows[i])][k]
    {
      if k != i {
        assert rows[k].id != id by {
          if k < i { assert rows[k].id != rows[i].id; } else { assert rows[i].id != rows[k].id; }
        }
      }
    }
  }

  /** A change that keeps `id` and `created_at` keeps the table keyed and in order. */
  ghost predicate KeepsKey(change: Shipment -> Shipment) {
    forall p :: change(p).id == p.id && change(p).createdAt == p.createdAt
  }

  lemma UpdateKeepsTable(rows: seq<Shipment>, id: nat, change: Shipment -> Shipment)
    requires KeepsKey(change)
    ensures var r := Update(rows, id, change);
      && (forall k :: 0 <= k < |rows| ==> r[k].id == rows[k].id && r[k].createdAt == rows[k].createdAt)
      && (UniqueIds(rows) ==> UniqueIds(r))
      && (NewestFirst(rows) ==> NewestFirst(r))
  {
    var r := Update(rows, id, change);
    forall k | 0 <= k < |rows|
      ensures r[k].id == rows[k].id && r[k].createdAt == rows[k].createdAt
    {
      if rows[k].id == id { assert change(rows[k]).id == rows[k].id; }
    }
  }

  /** How far along the lifecycle a status is: received, en route, then one of the two outcomes. */
  function Rank(s: Status): nat {
    match s
    case Recibido => 0
    case EnRuta => 1
    case Entregado => 2
    case Incidencia => 2
  }

  /** `Math.round((part / whole) * 100)`, or 0 for an empty whole, in exact
      arithmetic: the percentage rounded half up. */
  function Percent(part: nat, whole: nat): (r: nat)
    requires part <= whole
    ensures r <= 100
    ensures whole == 0 ==> r == 0
    ensures whole > 0 ==> 2 * whole * r <= 200 * part + whole < 2 * whole * (r + 1)
    ensures whole > 0 && part == whole ==> r == 100
  {
    if whole == 0 then 0
    else
      var r := (200 * part + whole) / (2 * whole);
      PercentBounds(part, whole, r);
      r
  }

  lemma DivBounds(n: nat, m: nat)
    requires m > 0
    ensures m * (n / m) <= n < m * (n / m) + m
  {
  }

  lemma MulMonotone(c: nat, a: nat, b: nat)
    requires a <= b
    ensures c * a <= c * b
  {
  }

  lemma PercentBounds(part: nat, whole: nat, r: nat)
    requires 0 < whole && part <= whole && r == (200 * part + whole) / (2 * whole)
    ensures r <= 100
    ensures 2 * whole * r <= 200 * part + whole < 2 * whole * (r + 1)
    ensures part == whole ==> r == 100
  {
    var m := 2 * whole;
    var n := 200 * part + whole;
    DivBounds(n, m);
    assert m * r <= n < m * r + m;
    assert 2 * whole * r == m * r;
    assert m * (r + 1) == m * r + m;
    assert n <= 201 * whole;
    if r > 100 {
      MulMonotone(m, 101, r);
      assert false;
    }
    if part == whole && r < 100 {
      MulMonotone(m, r + 1, 100);
      assert false;
    }
  }
}
