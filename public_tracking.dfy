/** The public home page (`src/pages/Home.jsx`): anyone can look a package
    up by its tracking code and sees a projection without secrets. */
module PublicTracking {
  import opened Domain
  import opened Text
  import Reception

  /** The five columns the public query selects. */
  datatype PublicView = PublicView(trackingId: string, status: Status, origin: string, destination: string, createdAt: int)

  function Project(p: Shipment): PublicView {
    PublicView(p.trackingId, p.status, p.origin, p.destination, p.createdAt)
  }

  /** Two rows look the same to the public exactly when they agree on the five
      selected columns; every other column is hidden. */
  lemma ProjectAgrees(p: Shipment, q: Shipment)
    ensures Project(p) == Project(q) <==>
      && p.trackingId == q.trackingId && p.status == q.status
      && p.origin == q.origin && p.destination == q.destination && p.createdAt == q.createdAt
  {
  }

  /** The `resultado` state: nothing yet, `'no_encontrado'`, `'error'`, or the row. */
  datatype Outcome = NoResult | NotFound | LookupError | Found(view: PublicView)

  /** The lookup key: the typed text trimmed, then uppercased. */
  function Normalise(input: string): (key: string)
    ensures |key| <= |input|
    ensures forall i :: 0 <= i < |key| ==> !('a' <= key[i] <= 'z')
  {
    Upper(Trim(input))
  }

  /** The page's state: the input box, the result and whether the modal is open. */
  datatype Page = Page(input: string, result: Outcome, modalOpen: bool)

  /** Whether the query itself threw (`catch`), which the browser decides, not the table. */
  datatype Transport = Reached | Threw

  /** `rastrearPublico`: an empty box changes nothing; otherwise the modal
      opens with the row found under the normalised key, `no_encontrado` when
      `.single()` finds none, or `error` when the call threw. */
  function Search(page: Page, rows: seq<Shipment>, transport: Transport): (next: Page)
    ensures page.input == "" ==> next == page
    ensures page.input != "" ==> next.modalOpen && next.input == page.input && next.result != NoResult
    ensures page.input != "" && transport == Threw ==> next.result == LookupError
    ensures (page.input != "" && transport == Reached) ==>
      (next.result == NotFound <==> SingleLookup(rows, Normalise(page.input)).None?)
    ensures page.input != "" && transport == Reached && SingleLookup(rows, Normalise(page.input)).Some? ==>
      next.result == Found(Project(SingleLookup(rows, Normalise(page.input)).value))
  {
    if page.input == "" then page
    else
      var result :=
        if transport == Threw then LookupError
        else match SingleLookup(rows, Normalise(page.input))
          case None => NotFound
          case Some(p) => Found(Project(p));
      Page(page.input, result, true)
  }

  /** What the lookup shows depends only on the public columns: two tables that
      differ only in security codes, emails, costs or any other hidden column
      give the same result. */
  lemma {:induction false} SearchHidesSecrets(page: Page, rows: seq<Shipment>, other: seq<Shipment>, transport: Transport)
    requires |rows| == |other|
    requires forall k :: 0 <= k < |rows| ==> Project(rows[k]) == Project(other[k])
    ensures Search(page, rows, transport) == Search(page, other, transport)
  {
    if page.input != "" && transport == Reached {
      var key := Normalise(page.input);
      ProjectFilter(rows, other, key);
    }
  }

  /** Rows with the same projections give the same `.single()` outcome, projected. */
  lemma {:induction false} ProjectFilter(rows: seq<Shipment>, other: seq<Shipment>, key: string)
    requires |rows| == |other|
    requires forall k :: 0 <= k < |rows| ==> Project(rows[k]) == Project(other[k])
    ensures |Filter(rows, HasTracking(key))| == |Filter(other, HasTracking(key))|
    ensures |Filter(rows, HasTracking(key))| > 0 ==>
      Project(Filter(rows, HasTracking(key))[0]) == Project(Filter(other, HasTracking(key))[0])
  {
    if rows != [] {
      assert Project(rows[0]) == Project(other[0]);
      ProjectFilter(rows[1..], other[1..], key);
    }
  }

  /** A code already in upper case is what the lookup key becomes when it is
      typed in lower case with blanks around it. */
  lemma NormaliseTyped(code: string, typed: string)
    requires Upper(code) == code
    requires Trim(typed) == Lower(code) || Trim(typed) == code
    ensures Normalise(typed) == code
  {
    var t := Trim(typed);
    forall i | 0 <= i < |t| ensures Upper(t)[i] == code[i] {
      var c := code[i];
      assert UpperChar(c) == c by { assert Upper(code)[i] == UpperChar(c); }
      UpperLower(c);
    }
  }

  /** Every code the reception desk generates is already upper case. */
  lemma GeneratedCodeIsUpper(destination: string, draw: nat)
    requires draw < 9000
    ensures var code := Reception.TrackingId(destination, draw); Upper(code) == code
  {
    var city := Upper(Reception.CityPrefix(destination));
    var digits := Reception.Digits4(1000 + draw);
    var code := Reception.TrackingId(destination, draw);
    assert code == "TLX-" + city + "-" + digits;
    forall i | 0 <= i < |code| ensures UpperChar(code[i]) == code[i] {
      if 4 <= i < 4 + |city| {
        assert code[i] == city[i - 4];
      } else if 4 + |city| + 1 <= i {
        assert code[i] == digits[i - 5 - |city|];
      }
    }
  }

  /** A generated code is already in normal form, so a customer who types it in
      lower case with blanks around it still finds the package, as long as
      no other row carries the same code. */
  lemma FindsTypedCode(rows: seq<Shipment>, p: Shipment, destination: string, draw: nat, typed: string)
    requires UniqueIds(rows) && p in rows
    requires forall q :: q in rows && q.trackingId == p.trackingId ==> q == p
    requires draw < 9000 && p.trackingId == Reception.TrackingId(destination, draw)
    requires Trim(typed) == Lower(p.trackingId) || Trim(typed) == p.trackingId
    requires typed != ""
    ensures Search(Page(typed, NoResult, false), rows, Reached).result == Found(Project(p))
  {
    GeneratedCodeIsUpper(destination, draw);
    NormaliseTyped(p.trackingId, typed);
    SingleLookupFinds(rows, p);
  }

  /** `cerrarModal`: the modal closes and both the input and the result are cleared. */
  function Close(page: Page): (next: Page)
    ensures !next.modalOpen && next.input == "" && next.result == NoResult
  {
    Page("", NoResult, false)
  }

  /** Closing after any search returns the page to its opening state. */
  lemma CloseAfterSearch(page: Page, rows: seq<Shipment>, transport: Transport)
    ensures Close(Search(page, rows, transport)) == Page("", NoResult, false)
  {
  }

  /** `estado.replace('_', ' ')`: only the first underscore becomes a space. */
  function Label(s: string): (r: string)
    ensures |r| == |s|
    ensures forall i :: 0 <= i < |s| && s[i] != '_' ==> r[i] == s[i]
    ensures forall i :: 0 <= i < |s| && s[i] == '_' ==> (r[i] == ' ' <==> forall j :: 0 <= j < i ==> s[j] != '_')
  {
    if s == [] then []
    else if s[0] == '_' then [' '] + s[1..]
    else [s[0]] + Label(s[1..])
  }

  /** A status name without an underscore is shown as it is stored. */
  lemma LabelWithoutUnderscore(s: string)
    requires forall i :: 0 <= i < |s| ==> s[i] != '_'
    ensures Label(s) == s
  {
  }

  /** Only the first underscore is replaced: whatever follows it, further
      underscores included, is shown unchanged. */
  lemma {:induction false} LabelFirstUnderscore(a: string, b: string)
    requires forall i :: 0 <= i < |a| ==> a[i] != '_'
    ensures Label(a + "_" + b) == a + " " + b
  {
    var s := a + "_" + b;
    if a == [] {
      assert s == ['_'] + b;
      assert s[1..] == b;
    } else {
      assert s[0] == a[0] && a[0] != '_';
      assert s[1..] == a[1..] + "_" + b;
      LabelFirstUnderscore(a[1..], b);
      assert Label(s) == [a[0]] + (a[1..] + " " + b);
      assert [a[0]] + (a[1..] + " " + b) == a + " " + b;
    }
  }

  /** `en_ruta` is shown as `en ruta`; the other statuses as stored. */
  lemma StatusLabel(s: Status)
    ensures Label(StatusName(s)) == if s == EnRuta then "en ruta" else StatusName(s)
  {
    match s
    case EnRuta =>
      LabelFirstUnderscore("en", "ruta");
      assert "en" + "_" + "ruta" == StatusName(EnRuta);
    case _ =>
      LabelWithoutUnderscore(StatusName(s));
  }
}
