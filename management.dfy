/** The manager's dashboard (`src/pages/Gerente.jsx`): the headline figures,
    the staff and client tables and their 8-row pages. */
module Management {
  import opened Domain
  import Customer

  function HasStatus(s: Status): Shipment -> bool {
    (p: Shipment) => p.status == s
  }

  /** The four headline figures: today's revenue and shipments, open
      incidents and packages on the road. */
  datatype Stats = Stats(revenue: real, shippedToday: nat, incidents: nat, active: nat)

  /** `cargarTodo`'s figures; whether a row was created today is the
      `isToday` predicate, standing in for the locale date comparison. */
  function Headline(rows: seq<Shipment>, isToday: Shipment -> bool): (s: Stats)
    ensures s.shippedToday <= |rows|
    ensures s.incidents + s.active <= |rows|
    ensures (forall p :: p in rows ==> p.cost >= 0.0) ==> 0.0 <= s.revenue <= TotalCost(rows)
    ensures forall p :: p in rows && isToday(p) && p.cost > 0.0 && (forall q :: q in rows ==> q.cost >= 0.0) ==> s.revenue > 0.0
  {
    var today := Filter(rows, isToday);
    StatusCountsPartition(rows);
    FilterCostBounded(rows, isToday);
    Stats(TotalCost(today), |today|, Count(rows, HasStatus(Incidencia)), |OnMap(rows)|)
  }

  /** `paquetesMapa`: exactly the packages on the road, newest first. */
  function OnMap(rows: seq<Shipment>): (r: seq<Shipment>)
    ensures forall p :: p in r <==> p in rows && p.status == EnRuta
    ensures NewestFirst(rows) ==> NewestFirst(r)
  {
    Filter(rows, HasStatus(EnRuta))
  }

  /** Every package is counted under exactly one status. */
  lemma {:induction false} StatusCountsPartition(rows: seq<Shipment>)
    ensures Count(rows, HasStatus(Recibido)) + Count(rows, HasStatus(EnRuta))
      + Count(rows, HasStatus(Entregado)) + Count(rows, HasStatus(Incidencia)) == |rows|
  {
    if rows != [] {
      StatusCountsPartition(rows[1..]);
    }
  }

  /** With non-negative costs, the revenue of any selection of rows lies between
      0 and the revenue of the whole table, and one paying row makes it positive. */
  lemma {:induction false} FilterCostBounded(rows: seq<Shipment>, keep: Shipment -> bool)
    ensures (forall p :: p in rows ==> p.cost >= 0.0) ==>
      && 0.0 <= TotalCost(Filter(rows, keep)) <= TotalCost(rows)
      && (forall p :: p in rows && keep(p) && p.cost > 0.0 ==> TotalCost(Filter(rows, keep)) > 0.0)
  {
    if rows != [] {
      assert forall p :: p in rows[1..] ==> p in rows;
      FilterCostBounded(rows[1..], keep);
    }
  }

  /** A row of the staff table: the profile, its delivered count and its efficiency. */
  datatype StaffRow = StaffRow(profile: Profile, delivered: nat, efficiency: nat)

  function AssignedTo(d: UserId): Shipment -> bool {
    (p: Shipment) => p.driver == Some(d)
  }

  function DeliveredBy(d: UserId): Shipment -> bool {
    (p: Shipment) => p.driver == Some(d) && p.status == Entregado
  }

  /** The delivered packages of a driver are among the driver's packages. */
  lemma {:induction false} DeliveredWithinAssigned(rows: seq<Shipment>, d: UserId)
    ensures Count(rows, DeliveredBy(d)) <= Count(rows, AssignedTo(d))
  {
    if rows != [] {
      DeliveredWithinAssigned(rows[1..], d);
    }
  }

  /** One staff member's figures: a driver gets the delivered share of every
      package ever assigned, rounded to a whole percent; anyone else gets zeros. */
  function StaffFigures(c: Profile, rows: seq<Shipment>): (r: StaffRow)
    ensures r.profile == c && r.efficiency <= 100
    ensures c.role != "chofer" ==> r.delivered == 0 && r.efficiency == 0
    ensures c.role == "chofer" ==> r.delivered == Count(rows, DeliveredBy(c.id))
    ensures c.role == "chofer" && Count(rows, AssignedTo(c.id)) == 0 ==> r.efficiency == 0
    ensures (c.role == "chofer" && Count(rows, AssignedTo(c.id)) > 0 &&
             r.delivered == Count(rows, AssignedTo(c.id))) ==> r.efficiency == 100
  {
    if c.role == "chofer" then
      DeliveredWithinAssigned(rows, c.id);
      var delivered := Count(rows, DeliveredBy(c.id));
      StaffRow(c, delivered, Percent(delivered, Count(rows, AssignedTo(c.id))))
    else StaffRow(c, 0, 0)
  }

  /** The staff table: every profile that is not a customer, in the order given. */
  function Staff(profiles: seq<Profile>, rows: seq<Shipment>): (r: seq<StaffRow>)
    ensures |r| <= |profiles|
    ensures forall s :: s in r ==> s.profile in profiles && s.profile.role != "cliente" && s == StaffFigures(s.profile, rows)
    ensures forall c :: c in profiles && c.role != "cliente" ==> StaffFigures(c, rows) in r
  {
    if profiles == [] then []
    else
      var rest := Staff(profiles[1..], rows);
      if profiles[0].role != "cliente" then [StaffFigures(profiles[0], rows)] + rest else rest
  }

  /** A row of the client table. */
  datatype ClientRow = ClientRow(profile: Profile, shipments: nat)

  function SentBy(email: string): Shipment -> bool {
    (p: Shipment) => p.customerEmail == email
  }

  /** The client table: every customer profile with the number of packages under its email. */
  function Clients(profiles: seq<Profile>, rows: seq<Shipment>): (r: seq<ClientRow>)
    ensures |r| <= |profiles|
    ensures forall e :: e in r ==> e.profile in profiles && e.profile.role == "cliente" && e.shipments == Count(rows, SentBy(e.profile.email))
    ensures forall c :: c in profiles && c.role == "cliente" ==> ClientRow(c, Count(rows, SentBy(c.email))) in r
  {
    if profiles == [] then []
    else
      var rest := Clients(profiles[1..], rows);
      if profiles[0].role == "cliente" then [ClientRow(profiles[0], Count(rows, SentBy(profiles[0].email)))] + rest else rest
  }

  /** The count the manager sees for a customer is the length of the list that
      customer sees on their own page. */
  lemma ClientCountMatchesCustomerList(profiles: seq<Profile>, rows: seq<Shipment>, e: ClientRow)
    requires e in Clients(profiles, rows)
    ensures e.shipments == |Customer.Owned(rows, e.profile.email)|
  {
  }

  /** `itemsPorPagina`. */
  const PageSize := 8

  /** `Math.ceil(n / 8) || 1`: enough pages for every item, and at least one. */
  function TotalPages(n: nat): (r: nat)
    ensures r >= 1
    ensures n == 0 ==> r == 1
    ensures n > 0 ==> (r - 1) * PageSize < n <= r * PageSize
  {
    if n == 0 then 1 else (n + PageSize - 1) / PageSize
  }

  /** `filtrados.slice((page - 1) * 8, page * 8)`, with the end clamped to the
      list as `slice` does: at most 8 items, taken in order from position
      `(page - 1) * 8`. */
  function PageOf<T>(items: seq<T>, page: nat): (r: seq<T>)
    requires page >= 1
    ensures |r| <= PageSize
    ensures r != [] ==> (page - 1) * PageSize + |r| <= |items|
    ensures forall i :: 0 <= i < |r| ==> r[i] == items[(page - 1) * PageSize + i]
    ensures page <= TotalPages(|items|) && |items| > 0 ==> |r| > 0
    ensures page * PageSize <= |items| ==> |r| == PageSize
    ensures (page - 1) * PageSize >= |items| ==> r == []
  {
    var lo := (page - 1) * PageSize;
    var hi := page * PageSize;
    if lo >= |items| then []
    else if hi >= |items| then items[lo..]
    else items[lo..hi]
  }

  /** Reading the pages one after another from the first to the last shows
      every item exactly once, in order. */
  lemma AllPages<T>(items: seq<T>)
    ensures Pages(items, TotalPages(|items|)) == items
  {
    PagesPrefix(items, TotalPages(|items|));
  }

  /** The first `count` pages, concatenated. */
  function Pages<T>(items: seq<T>, count: nat): seq<T> {
    if count == 0 then [] else Pages(items, count - 1) + PageOf(items, count)
  }

  lemma {:induction false} PagesPrefix<T>(items: seq<T>, count: nat)
    ensures Pages(items, count) == items[..if count * PageSize <= |items| then count * PageSize else |items|]
  {
    if count > 0 {
      PagesPrefix(items, count - 1);
    }
  }

  /** The Previous button: one page back, never below page 1. */
  function Prev(page: nat): (r: nat)
    ensures r >= 1
    ensures page > 1 ==> r == page - 1
    ensures page <= 1 ==> r == 1
  {
    if page > 1 then page - 1 else 1
  }

  /** The Next button: one page on, never past the last page of the clients table. */
  function Next(page: nat, total: nat): (r: nat)
    ensures page < total ==> r == page + 1
    ensures page >= total ==> r == total
  {
    if page + 1 < total then page + 1 else total
  }

  /** Starting from page 1, any sequence of button presses stays on an existing page. */
  lemma ButtonsStayInRange(page: nat, items: nat)
    requires 1 <= page <= TotalPages(items)
    ensures 1 <= Prev(page) <= TotalPages(items)
    ensures 1 <= Next(page, TotalPages(items)) <= TotalPages(items)
  {
  }
}
