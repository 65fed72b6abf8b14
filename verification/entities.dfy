/**
 * The seven record kinds of the tour editor and `modelEquals`, the
 * semantic equality the diff engine uses: the conjunction, over a kind's
 * attribute list, of a per-attribute comparison that tolerates up to a
 * second of difference in dates, compares arrays element-wise and
 * everything else by value.
 */
module Entities {
  import opened Wrappers
  import Util

  /** A date attribute, as its millisecond timestamp. */
  type Millis = int

  /** Two dates within this many milliseconds of each other count as equal. */
  const DateToleranceMs: int := 1000

  /** `TourElementTypeEnum`: visit, drive or break. */
  datatype ElementType = V | D | B

  datatype Kind =
    | JWlerKind
    | JWlerAvailabilityKind
    | ClientKind
    | ClientAvailabilityKind
    | LocationKind
    | TourKind
    | TourElementKind

  /**
   * One record of any kind. Every kind carries its `id`; foreign keys are the
   * ids of the referenced records. A tour element's optional `client` is
   * called `visitedClient` here (`None` is the source's `null`).
   */
  datatype Model =
    | JWler(id: int, name: string)
    | JWlerAvailability(id: int, jwler: int, start: Millis, end: Millis)
    | Client(id: int, name: string, visitLocation: int)
    | ClientAvailability(id: int, client: int, start: Millis, end: Millis)
    | Location(id: int, name: string, coordinates: string)
    | Tour(id: int, date: string, name: string, jwlers: seq<int>, elements: seq<int>)
    | TourElement(id: int, tour: int, start: Millis, end: Millis, elementType: ElementType, visitedClient: Option<int>)
  {
    function KindOf(): Kind {
      match this
      case JWler(_, _) => JWlerKind
      case JWlerAvailability(_, _, _, _) => JWlerAvailabilityKind
      case Client(_, _, _) => ClientKind
      case ClientAvailability(_, _, _, _) => ClientAvailabilityKind
      case Location(_, _, _) => LocationKind
      case Tour(_, _, _, _, _) => TourKind
      case TourElement(_, _, _, _, _, _) => TourElementKind
    }
  }

  /** The record's id, as a function value (for the generic collection helpers). */
  function IdOf(m: Model): int {
    m.id
  }

  /** The value of one attribute, tagged with the attribute's declared type. */
  datatype Plain = Num(n: int) | Str(s: string) | Null
  datatype Attr = DateAttr(ms: Millis) | ArrayAttr(items: seq<int>) | PlainAttr(value: Plain)

  function ElementTypeName(t: ElementType): string {
    match t
    case V => "V"
    case D => "D"
    case B => "B"
  }

  /**
   * The attribute list of a record, in the order of its kind's attribute
   * type map. Records of one kind always yield attributes of the same types
   * in the same positions.
   */
  function Attributes(m: Model): (attrs: seq<Attr>)
    ensures |attrs| >= 2 && attrs[0] == PlainAttr(Num(m.id))
  {
    match m
    case JWler(id, name) => [PlainAttr(Num(id)), PlainAttr(Str(name))]
    case JWlerAvailability(id, jwler, start, end) =>
      [PlainAttr(Num(id)), PlainAttr(Num(jwler)), DateAttr(start), DateAttr(end)]
    case Client(id, name, visitLocation) =>
      [PlainAttr(Num(id)), PlainAttr(Str(name)), PlainAttr(Num(visitLocation))]
    case ClientAvailability(id, client, start, end) =>
      [PlainAttr(Num(id)), PlainAttr(Num(client)), DateAttr(start), DateAttr(end)]
    case Location(id, name, coordinates) =>
      [PlainAttr(Num(id)), PlainAttr(Str(name)), PlainAttr(Str(coordinates))]
    case Tour(id, date, name, jwlers, elements) =>
      [PlainAttr(Num(id)), PlainAttr(Str(date)), PlainAttr(Str(name)), ArrayAttr(jwlers), ArrayAttr(elements)]
    case TourElement(id, tour, start, end, elementType, visitedClient) =>
      [PlainAttr(Num(id)), PlainAttr(Num(tour)), DateAttr(start), DateAttr(end),
       PlainAttr(Str(ElementTypeName(elementType))),
       PlainAttr(if visitedClient.Some? then Num(visitedClient.value) else Null)]
  }

  /** `Math.abs(a - b) < 1000`. */
  predicate WithinTolerance(a: Millis, b: Millis) {
    -DateToleranceMs < a - b < DateToleranceMs
  }

  /** The comparison of one attribute: dates with tolerance, arrays element-wise, the rest by value. */
  predicate AttrEquals(a: Attr, b: Attr) {
    match (a, b)
    case (DateAttr(x), DateAttr(y)) => WithinTolerance(x, y)
    case (ArrayAttr(x), ArrayAttr(y)) => Util.ArrayEquals(x, y)
    case (PlainAttr(x), PlainAttr(y)) => x == y
    case _ => false
  }

  /**
   * `modelEquals(a, b)`: both records are of one kind and every attribute of
   * that kind compares equal.
   */
  predicate ModelEquals(a: Model, b: Model)
    ensures ModelEquals(a, b) ==> a.id == b.id && a.KindOf() == b.KindOf()
  {
    var xs := Attributes(a);
    var ys := Attributes(b);
    var r := a.KindOf() == b.KindOf() && |xs| == |ys| && forall i :: 0 <= i < |xs| ==> AttrEquals(xs[i], ys[i]);
    assert r ==> AttrEquals(xs[0], ys[0]);
    r
  }

  /** modelEquals is reflexive, so an unmodified record never shows up as changed. */
  lemma ModelEqualsReflexive(m: Model)
    ensures ModelEquals(m, m)
  {
    var xs := Attributes(m);
    forall i | 0 <= i < |xs| ensures AttrEquals(xs[i], xs[i]) {
      match xs[i]
      case DateAttr(x) =>
      case ArrayAttr(x) => Util.ArrayEqualsIsEquality(x, x);
      case PlainAttr(x) =>
    }
  }

  lemma ModelEqualsSymmetric(a: Model, b: Model)
    ensures ModelEquals(a, b) <==> ModelEquals(b, a)
  {
    var xs := Attributes(a);
    var ys := Attributes(b);
    if ModelEquals(a, b) {
      forall i | 0 <= i < |ys| ensures AttrEquals(ys[i], xs[i]) {
        assert AttrEquals(xs[i], ys[i]);
      }
    }
    if ModelEquals(b, a) {
      forall i | 0 <= i < |xs| ensures AttrEquals(xs[i], ys[i]) {
        assert AttrEquals(ys[i], xs[i]);
      }
    }
  }

  /**
   * Field-by-field reading of modelEquals on tour elements: ids, tour,
   * type and client by value, start and end within a second.
   */
  lemma TourElementEquality(a: Model, b: Model)
    requires a.TourElement? && b.TourElement?
    ensures ModelEquals(a, b) <==>
      a.id == b.id && a.tour == b.tour && WithinTolerance(a.start, b.start) && WithinTolerance(a.end, b.end)
      && a.elementType == b.elementType && a.visitedClient == b.visitedClient
  {
    var xs := Attributes(a);
    var ys := Attributes(b);
    if ModelEquals(a, b) {
      assert AttrEquals(xs[4], ys[4]);
      assert AttrEquals(xs[5], ys[5]);
      assert a.elementType == b.elementType by {
        match a.elementType
        case V =>
        case D =>
        case B =>
      }
      assert AttrEquals(xs[1], ys[1]) && AttrEquals(xs[2], ys[2]) && AttrEquals(xs[3], ys[3]);
    }
  }

  /** Field-by-field reading of modelEquals on tours: the two id lists compare element-wise. */
  lemma TourEquality(a: Model, b: Model)
    requires a.Tour? && b.Tour?
    ensures ModelEquals(a, b) <==>
      a.id == b.id && a.date == b.date && a.name == b.name && a.jwlers == b.jwlers && a.elements == b.elements
  {
    var xs := Attributes(a);
    var ys := Attributes(b);
    Util.ArrayEqualsIsEquality(a.jwlers, b.jwlers);
    Util.ArrayEqualsIsEquality(a.elements, b.elements);
    if ModelEquals(a, b) {
      assert AttrEquals(xs[1], ys[1]) && AttrEquals(xs[2], ys[2]) && AttrEquals(xs[3], ys[3]) && AttrEquals(xs[4], ys[4]);
    }
  }

  /**
   * The one-second tolerance makes modelEquals non-transitive: a record whose
   * start drifts by 0.6 s twice compares equal to each neighbour but not to
   * the first one.
   */
  lemma ToleranceIsNotTransitive()
    ensures var a := JWlerAvailability(1, 7, 0, 3600000);
            var b := JWlerAvailability(1, 7, 600, 3600000);
            var c := JWlerAvailability(1, 7, 1200, 3600000);
            ModelEquals(a, b) && ModelEquals(b, c) && !ModelEquals(a, c)
  {
    var a := JWlerAvailability(1, 7, 0, 3600000);
    var c := JWlerAvailability(1, 7, 1200, 3600000);
    assert !AttrEquals(Attributes(a)[2], Attributes(c)[2]);
  }
}
