/** The reception desk (`src/pages/Recepcion.jsx`): the price table, the
    tracking-code format and the form a new shipment is built from. */
module Reception {
  import opened Domain
  import opened Text

  /** The base fare `calcularPrecio` picks for an origin/destination pair. */
  function BaseFare(origin: string, destination: string): (base: real)
    ensures base == 50.0 || base == 70.0 || base == 120.0 || base == 150.0 || base == 200.0
  {
    if origin == destination then 50.0
    else if (origin == "Tlaxcala Centro" && destination == "Chiautempan")
         || (origin == "Chiautempan" && destination == "Tlaxcala Centro") then 70.0
    else if origin == "Calpulalpan" || destination == "Calpulalpan" then 200.0
    else if origin == "Huamantla" || destination == "Huamantla" then 150.0
    else 120.0
  }

  /** `calcularPrecio`: nothing is charged for a zero weight, otherwise the
      base fare plus 15 per kilogram. */
  function Quote(origin: string, destination: string, weight: Kg): (cost: real)
    ensures cost == 0.0 <==> weight == 0.0
    ensures weight > 0.0 ==> 50.0 + 15.0 * weight <= cost <= 200.0 + 15.0 * weight
  {
    if weight == 0.0 then 0.0 else BaseFare(origin, destination) + 15.0 * weight
  }

  /** The fare table, case by case, for a positive weight. */
  lemma QuoteTable(origin: string, destination: string, weight: Kg)
    requires weight > 0.0
    ensures origin == destination ==> Quote(origin, destination, weight) == 50.0 + 15.0 * weight
    ensures {origin, destination} == {"Tlaxcala Centro", "Chiautempan"} ==>
      Quote(origin, destination, weight) == 70.0 + 15.0 * weight
    ensures (origin != destination && (origin == "Calpulalpan" || destination == "Calpulalpan")) ==>
      Quote(origin, destination, weight) == 200.0 + 15.0 * weight
    ensures (origin != destination && origin != "Calpulalpan" && destination != "Calpulalpan"
             && (origin == "Huamantla" || destination == "Huamantla")) ==>
      Quote(origin, destination, weight) == 150.0 + 15.0 * weight
    ensures (origin != destination && {origin, destination} != {"Tlaxcala Centro", "Chiautempan"}
             && origin !in {"Calpulalpan", "Huamantla"} && destination !in {"Calpulalpan", "Huamantla"}) ==>
      Quote(origin, destination, weight) == 120.0 + 15.0 * weight
  {
    if {origin, destination} == {"Tlaxcala Centro", "Chiautempan"} {
      assert origin in {"Tlaxcala Centro", "Chiautempan"} && destination in {"Tlaxcala Centro", "Chiautempan"};
    }
  }

  /** The fare treats the route as an unordered pair. */
  lemma QuoteSymmetric(origin: string, destination: string, weight: Kg)
    ensures Quote(origin, destination, weight) == Quote(destination, origin, weight)
  {
  }

  /** The worked examples: Tlaxcala Centro to Apizaco at 10 kg, and an unweighed parcel. */
  lemma QuoteExamples()
    ensures Quote("Tlaxcala Centro", "Apizaco", 10.0) == 270.0
    ensures Quote("Calpulalpan", "Apizaco", 0.0) == 0.0
    ensures Quote("Calpulalpan", "Huamantla", 2.0) == 230.0
  {
  }

  function DigitChar(d: nat): char
    requires d < 10
  {
    ('0' as int + d) as char
  }

  function DigitValue(c: char): int {
    c as int - '0' as int
  }

  /** The decimal spelling of a four-digit number. */
  function Digits4(k: nat): (s: string)
    requires 1000 <= k <= 9999
    ensures |s| == 4 && forall i :: 0 <= i < 4 ==> '0' <= s[i] <= '9'
  {
    [DigitChar(k / 1000), DigitChar(k / 100 % 10), DigitChar(k / 10 % 10), DigitChar(k % 10)]
  }

  /** Reads back the number a four-digit string spells. */
  function Number4(s: string): int
    requires |s| == 4
  {
    1000 * DigitValue(s[0]) + 100 * DigitValue(s[1]) + 10 * DigitValue(s[2]) + DigitValue(s[3])
  }

  lemma Digits4RoundTrip(k: nat)
    requires 1000 <= k <= 9999
    ensures Number4(Digits4(k)) == k
  {
    var a, b, c, d := k / 1000, k / 100 % 10, k / 10 % 10, k % 10;
    assert k / 100 == 10 * a + b;
    assert k / 10 == 10 * (k / 100) + c;
    assert k == 10 * (k / 10) + d;
  }

  /** `destino.substring(0, 3)`: at most the first three characters. */
  function CityPrefix(destination: string): (r: string)
    ensures |r| == if |destination| < 3 then |destination| else 3
    ensures r <= destination
  {
    if |destination| < 3 then destination else destination[..3]
  }

  /** `generarTrackingID` with `Math.floor(1000 + Math.random() * 9000)` given
      as `1000 + draw`. */
  function TrackingId(destination: string, draw: nat): (code: string)
    requires draw < 9000
    ensures |code| == 9 + |CityPrefix(destination)| && code[..4] == "TLX-"
    ensures forall i :: |code| - 4 <= i < |code| ==> '0' <= code[i] <= '9'
  {
    "TLX-" + Upper(CityPrefix(destination)) + "-" + Digits4(1000 + draw)
  }

  /** The city part of a tracking code: between `TLX-` and the last `-`. */
  function CodeCity(code: string): string
    requires |code| >= 9
  {
    code[4..|code| - 5]
  }

  /** The number at the end of a tracking code. */
  function CodeNumber(code: string): int
    requires |code| >= 4
  {
    Number4(code[|code| - 4..])
  }

  /** A tracking code reads back as the prefix, the upper-cased city code and the drawn number. */
  lemma TrackingIdParts(destination: string, draw: nat)
    requires draw < 9000
    ensures var code := TrackingId(destination, draw);
      && |code| == 9 + |CityPrefix(destination)|
      && code[..4] == "TLX-"
      && code[|code| - 5] == '-'
      && CodeCity(code) == Upper(CityPrefix(destination))
      && CodeNumber(code) == 1000 + draw
      && 1000 <= CodeNumber(code) <= 9999
  {
    var code := TrackingId(destination, draw);
    var m := |CityPrefix(destination)|;
    assert code[4..|code| - 5] == Upper(CityPrefix(destination));
    assert code[|code| - 4..] == Digits4(1000 + draw);
    Digits4RoundTrip(1000 + draw);
  }

  /** Every destination offered by the form has at least three letters, so the code has 12 characters. */
  lemma TrackingIdLength(destination: string, draw: nat)
    requires draw < 9000 && |destination| >= 3
    ensures |TrackingId(destination, draw)| == 12
  {
  }

  /** Different draws give different codes for the same destination; nothing
      else prevents two shipments from sharing a code. */
  lemma TrackingIdDraws(destination: string, draw1: nat, draw2: nat)
    requires draw1 < 9000 && draw2 < 9000
    ensures TrackingId(destination, draw1) == TrackingId(destination, draw2) <==> draw1 == draw2
  {
    TrackingIdParts(destination, draw1);
    TrackingIdParts(destination, draw2);
  }

  /** The reception form: `cliente`, `email_cliente`, `origen`, `destino`,
      `descripcion` and the parsed `peso`. */
  datatype Form = Form(customer: string, email: string, origin: string, destination: string, description: string, weight: Kg)

  /** The form after a successful submit (an empty `peso` parses as 0). */
  const BlankForm := Form("", "", "Tlaxcala Centro", "Apizaco", "", 0.0)

  /** The row `handleSubmit` inserts. The insert does not name
      `codigo_seguridad`; `code` is whatever the database stores in that column
      for a new row (a column default or trigger is not part of this model). */
  function NewShipment(form: Form, id: nat, draw: nat, code: Option<string>, now: int): (p: Shipment)
    requires draw < 9000
    ensures p.status == Recibido && p.driver.None? && p.incidentNote.None? && p.securityCode == code
    ensures p.cost == Quote(form.origin, form.destination, form.weight) && p.weight == form.weight
    ensures p.trackingId == TrackingId(form.destination, draw)
    ensures p.customerEmail == form.email && p.origin == form.origin && p.destination == form.destination
    ensures p.customerName == form.customer && p.description == form.description
    ensures p.id == id && p.createdAt == now
  {
    Shipment(id, TrackingId(form.destination, draw), form.customer, form.email, form.origin,
             form.destination, form.description, Quote(form.origin, form.destination, form.weight),
             form.weight, Recibido, None, code, None, now)
  }
}
