/** The customer page (`src/pages/Cliente.jsx`): the customer's own package
    list, linking a package by its tracking code, the local search box and
    the progress bar. */
module Customer {
  import opened Domain
  import opened Text

  function OwnedBy(email: string): Shipment -> bool {
    (p: Shipment) => p.customerEmail == email
  }

  /** The list loaded when the page opens: the packages whose `cliente_email`
      is the user's email, newest first. */
  function Owned(rows: seq<Shipment>, email: string): (r: seq<Shipment>)
    ensures forall p :: p in r <==> p in rows && p.customerEmail == email
    ensures NewestFirst(rows) ==> NewestFirst(r)
  {
    Filter(rows, OwnedBy(email))
  }

  /** Some package on the list carries exactly this tracking code. */
  predicate Listed(list: seq<Shipment>, code: string) {
    exists p :: p in list && p.trackingId == code
  }

  /** No two packages on the list carry the same tracking code. */
  predicate DistinctCodes(list: seq<Shipment>) {
    forall i, j :: 0 <= i < j < |list| ==> list[i].trackingId != list[j].trackingId
  }

  /** Why linking a package shows an error toast. */
  datatype LinkError = EmptyCode | AlreadyListed | NotFound

  /** `agregarPaqueteManual` as written: the duplicate check compares the
      typed text as it is, while the lookup uses the trimmed text. */
  function LinkAsWritten(list: seq<Shipment>, rows: seq<Shipment>, input: string): (r: Result<seq<Shipment>, LinkError>)
    ensures input == "" <==> r == Err(EmptyCode)
    ensures r == Err(AlreadyListed) <==> input != "" && Listed(list, input)
    ensures r.Ok? <==> input != "" && !Listed(list, input) && SingleLookup(rows, Trim(input)).Some?
    ensures r.Ok? ==> |r.value| == |list| + 1 && r.value[0] == SingleLookup(rows, Trim(input)).value && r.value[1..] == list
  {
    if input == "" then Err(EmptyCode)
    else if Listed(list, input) then Err(AlreadyListed)
    else match SingleLookup(rows, Trim(input))
      case None => Err(NotFound)
      case Some(p) => Ok([p] + list)
  }

  /** A package whose code is already listed is linked a second time when the
      code is typed with a leading blank: the check misses it and the trimmed
      lookup finds it. */
  lemma LinkAsWrittenDuplicates(p: Shipment)
    requires p.trackingId != [] && !IsSpace(p.trackingId[0]) && !IsSpace(p.trackingId[|p.trackingId| - 1])
    ensures DistinctCodes([p])
    ensures LinkAsWritten([p], [p], [' '] + p.trackingId) == Ok([p, p])
    ensures !DistinctCodes([p, p])
  {
    var input := [' '] + p.trackingId;
    TrimLeadingSpace(' ', p.trackingId);
    TrimKeeps(p.trackingId);
    assert !Listed([p], input) by {
      assert |input| != |p.trackingId|;
    }
    assert Trim(input) == p.trackingId;
    assert UniqueIds([p]);
    SingleLookupFinds([p], p);
    assert [p] + [p] == [p, p];
  }

  /** `agregarPaqueteManual` with the duplicate check made on the same
      trimmed code the lookup uses. */
  function Link(list: seq<Shipment>, rows: seq<Shipment>, input: string): (r: Result<seq<Shipment>, LinkError>)
    ensures input == "" <==> r == Err(EmptyCode)
    ensures r == Err(AlreadyListed) <==> input != "" && Listed(list, Trim(input))
    ensures r.Ok? <==> input != "" && !Listed(list, Trim(input)) && SingleLookup(rows, Trim(input)).Some?
    ensures r.Ok? ==> r.value == [SingleLookup(rows, Trim(input)).value] + list
  {
    if input == "" then Err(EmptyCode)
    else
      var code := Trim(input);
      if Listed(list, code) then Err(AlreadyListed)
      else match SingleLookup(rows, code)
        case None => Err(NotFound)
        case Some(p) => Ok([p] + list)
  }

  /** A successful link prepends the package found for the trimmed code, so
      the old entries keep their order behind it; the list never gains a
      second copy of a code it already holds. */
  lemma {:induction false} LinkKeepsCodesDistinct(list: seq<Shipment>, rows: seq<Shipment>, input: string)
    requires DistinctCodes(list)
    requires Link(list, rows, input).Ok?
    ensures DistinctCodes(Link(list, rows, input).value)
    ensures var r := Link(list, rows, input).value;
      r[0] in rows && r[0].trackingId == Trim(input) && r[1..] == list
  {
    var r := Link(list, rows, input).value;
    var code := Trim(input);
    forall i, j | 0 <= i < j < |r|
      ensures r[i].trackingId != r[j].trackingId
    {
      if i == 0 {
        assert r[j] == list[j - 1];
        assert r[j] in list;
        assert r[0].trackingId == code;
      } else {
        assert r[i] == list[i - 1] && r[j] == list[j - 1];
      }
    }
  }

  /** Typing the code with blanks around it links nothing new once the
      package is on the list. */
  lemma LinkRefusesPaddedDuplicate(list: seq<Shipment>, rows: seq<Shipment>, p: Shipment)
    requires p in list
    requires p.trackingId != [] && !IsSpace(p.trackingId[0]) && !IsSpace(p.trackingId[|p.trackingId| - 1])
    ensures Link(list, rows, [' '] + p.trackingId) == Err(AlreadyListed)
  {
    TrimLeadingSpace(' ', p.trackingId);
    TrimKeeps(p.trackingId);
  }

  /** The search box: the lowercased text occurs in the lowercased tracking
      code, description or destination. */
  function MatchesSearch(search: string): Shipment -> bool {
    (p: Shipment) =>
      Contains(Lower(p.trackingId), Lower(search))
      || Contains(Lower(p.description), Lower(search))
      || Contains(Lower(p.destination), Lower(search))
  }

  /** `paquetesVisibles`: the listed packages that match the search, in list order. */
  function Visible(list: seq<Shipment>, search: string): (r: seq<Shipment>)
    ensures forall p :: p in r <==> p in list && MatchesSearch(search)(p)
    ensures |r| <= |list|
  {
    Filter(list, MatchesSearch(search))
  }

  /** An empty search box shows the whole list. */
  lemma VisibleEmptySearch(list: seq<Shipment>)
    ensures Visible(list, "") == list
  {
    forall p | p in list ensures MatchesSearch("")(p) {
      ContainsEmpty(Lower(p.trackingId));
    }
    FilterAll(list, MatchesSearch(""));
  }

  /** `getProgreso` on the stored `estado` string: `entregado` 100,
      `en_ruta` 75, `en_bodega` 50, anything else 15. */
  function Progress(estado: string): (r: nat)
    ensures r == 100 <==> estado == "entregado"
    ensures r == 75 <==> estado == "en_ruta"
    ensures r == 50 <==> estado == "en_bodega"
    ensures r == 15 <==> estado !in {"entregado", "en_ruta", "en_bodega"}
  {
    if estado == "entregado" then 100
    else if estado == "en_ruta" then 75
    else if estado == "en_bodega" then 50
    else 15
  }

  /** Along received, en route, delivered the bar only grows; an incident
      falls back to the received value. */
  lemma ProgressAlongLifecycle()
    ensures Progress(StatusName(Recibido)) < Progress(StatusName(EnRuta)) < Progress(StatusName(Entregado))
    ensures Progress(StatusName(Incidencia)) == Progress(StatusName(Recibido))
  {
  }

  /** The list shown on the page, which linking a package grows in place. */
  class PackageList {
    var packages: seq<Shipment>
    var input: string

    /** The list as loaded for `email`, with an empty input box. */
    constructor (rows: seq<Shipment>, email: string)
      ensures packages == Owned(rows, email) && input == ""
    {
      packages := Owned(rows, email);
      input := "";
    }

    /** Links the package typed in the box; on success the box is emptied,
        on any error both the list and the box stay as they were. */
    method AddManual(rows: seq<Shipment>) returns (r: Result<Shipment, LinkError>)
      modifies this
      ensures Link(old(packages), rows, old(input)).Ok? ==>
        r.Ok? && packages == Link(old(packages), rows, old(input)).value && r.value == packages[0] && input == ""
      ensures Link(old(packages), rows, old(input)).Err? ==>
        r == Err(Link(old(packages), rows, old(input)).error) && packages == old(packages) && input == old(input)
    {
      match Link(packages, rows, input)
      case Err(e) =>
        r := Err(e);
      case Ok(next) =>
        packages := next;
        input := "";
        r := Ok(next[0]);
    }
  }
}
