/**
 * The older, URL-based iteration of the store, in which a record refers
 * to another by the other's API URL (`.../api/jwler/42/`): `extractId`
 * takes the id back out of such a URL, `getJwlersOfTour` resolves a tour's
 * jwler URLs, and the `unassignedClients` getter drops every client that
 * a tour element's client URL names.
 */
module Legacy {
  import opened Wrappers
  import opened JsText
  import opened Entities
  import Util

  /** A tour of the older iteration: its jwlers are URLs. */
  datatype LegacyTour = LegacyTour(id: int, jwlers: seq<string>)

  /** A tour element of the older iteration: the visited client, if any, is a URL. */
  datatype LegacyElement = LegacyElement(id: int, client: Option<string>)

  datatype LegacyStore = LegacyStore(
    jwlers: map<int, Model>,
    clients: map<int, Model>,
    tours: map<int, LegacyTour>,
    tourElements: map<int, seq<LegacyElement>>)

  /**
   * `extractId(url)`: what lies between the last "/" before the final
   * character and the final character. For a URL of two characters or
   * more the id is the longest "/"-free stretch that ends just before the
   * final character.
   */
  function ExtractId(url: string): (id: string)
    ensures |url| >= 2 ==> |id| <= |url| - 1 && url[|url| - 1 - |id|..|url| - 1] == id && '/' !in id
    ensures |url| >= 2 ==> |id| == |url| - 1 || url[|url| - 2 - |id|] == '/'
  {
    Substring(url, LastIndexOf(url, '/', |url| - 2) + 1, |url| - 1)
  }

  /**
   * For a URL of two characters or more, the result is the text after the
   * last "/" at or before the second-to-last position (or from the start
   * when there is none) up to, not including, the last character.
   */
  lemma ExtractIdSpan(url: string)
    requires |url| >= 2
    ensures var k := LastIndexOf(url, '/', |url| - 2);
      && -1 <= k <= |url| - 2
      && (k >= 0 ==> url[k] == '/')
      && (forall j :: k < j <= |url| - 2 ==> url[j] != '/')
      && ExtractId(url) == url[k + 1..|url| - 1]
  {
  }

  /**
   * The short URLs: the empty one and a single character other than "/"
   * give the empty id, while "/" alone gives "/" back, because `substring`
   * swaps its arguments when the start exceeds the end.
   */
  lemma ExtractIdOfShortUrls(c: char)
    ensures ExtractId("") == ""
    ensures c != '/' ==> ExtractId([c]) == ""
    ensures ExtractId("/") == "/"
  {
    assert LastIndexOf("/", '/', -1) == 0;
  }

  /** A URL of the form `prefix/id/` with no "/" in `id` gives back `id`. */
  lemma ExtractIdOfResourceUrl(prefix: string, id: string)
    requires '/' !in id
    ensures ExtractId(prefix + "/" + id + "/") == id
  {
    var url := prefix + "/" + id + "/";
    var k := LastIndexOf(url, '/', |url| - 2);
    ExtractIdSpan(url);
    assert url[|prefix|] == '/';
    assert forall j :: |prefix| < j <= |url| - 2 ==> url[j] == id[j - |prefix| - 1];
    assert k == |prefix|;
    assert url[k + 1..|url| - 1] == id;
  }

  // ---------------------------------------------------------------------
  // getJwlersOfTour

  /** The store record a URL names: `undefined` (here `None`) for a `NaN` id or a missing key. */
  function Resolve(records: map<int, Model>, url: string): (r: Option<Model>)
    ensures r.Some? <==> exists id :: ParseInt(ExtractId(url)) == Some(id) && id in records
    ensures r.Some? ==> r.value in records.Values
  {
    match ParseInt(ExtractId(url))
    case None => None
    case Some(id) => if id in records then Some(records[id]) else None
  }

  /**
   * `getJwlersOfTour`: one entry per jwler URL of the tour, in order; an
   * entry is the store's jwler under the URL's id, or nothing when the id
   * is not a number or not a key (the non-null assertion does not check).
   */
  method GetJwlersOfTour(store: LegacyStore, tour: LegacyTour) returns (jwlers: seq<Option<Model>>)
    ensures |jwlers| == |tour.jwlers|
    ensures forall i :: 0 <= i < |tour.jwlers| ==> jwlers[i] == Resolve(store.jwlers, tour.jwlers[i])
    ensures forall i :: 0 <= i < |tour.jwlers| ==>
              (jwlers[i].Some? <==> exists id :: ParseInt(ExtractId(tour.jwlers[i])) == Some(id) && id in store.jwlers)
  {
    jwlers := [];
    var i := 0;
    while i < |tour.jwlers|
      invariant 0 <= i <= |tour.jwlers|
      invariant |jwlers| == i
      invariant forall p :: 0 <= p < i ==> jwlers[p] == Resolve(store.jwlers, tour.jwlers[p])
    {
      jwlers := jwlers + [Resolve(store.jwlers, tour.jwlers[i])];
      i := i + 1;
    }
  }

  // ---------------------------------------------------------------------
  // unassignedClients

  /** `parseInt(extractId(te.client))` for an element with a client URL that yields a number. */
  function ReferencedClient(te: LegacyElement): Option<int> {
    if te.client.None? then None else ParseInt(ExtractId(te.client.value))
  }

  /**
   * The client ids the elements of one group name, with `refOf` giving the
   * id an element names (`ReferencedClient` in the getter).
   */
  function ClientsNamedBy(elements: seq<LegacyElement>, refOf: LegacyElement -> Option<int>): set<int> {
    set i | 0 <= i < |elements| && refOf(elements[i]).Some? :: refOf(elements[i]).value
  }

  /** The client ids named by the group of the tour under key `tk`, looked up by the tour's own id. */
  function TourRefs(st: LegacyStore, tk: int, refOf: LegacyElement -> Option<int>): set<int> {
    if tk in st.tours && st.tours[tk].id in st.tourElements then ClientsNamedBy(st.tourElements[st.tours[tk].id], refOf) else {}
  }

  /** Every client id named by an element of an existing tour. */
  function NamedClients(st: LegacyStore, refOf: LegacyElement -> Option<int>): set<int> {
    set tk, c | tk in st.tours && c in TourRefs(st, tk, refOf) :: c
  }

  function RefsAmong(st: LegacyStore, keys: seq<int>, refOf: LegacyElement -> Option<int>): set<int> {
    set p, c | 0 <= p < |keys| && c in TourRefs(st, keys[p], refOf) :: c
  }

  lemma ClientsNamedStep(elements: seq<LegacyElement>, refOf: LegacyElement -> Option<int>, i: int)
    requires 0 <= i < |elements|
    ensures ClientsNamedBy(elements[..i + 1], refOf) ==
      ClientsNamedBy(elements[..i], refOf) + (if refOf(elements[i]).Some? then {refOf(elements[i]).value} else {})
  {
    assert forall p :: 0 <= p < i ==> elements[..i + 1][p] == elements[..i][p];
  }

  lemma RefsAmongStep(st: LegacyStore, keys: seq<int>, refOf: LegacyElement -> Option<int>, j: int)
    requires 0 <= j < |keys|
    ensures RefsAmong(st, keys[..j + 1], refOf) == RefsAmong(st, keys[..j], refOf) + TourRefs(st, keys[j], refOf)
  {
    var pre := keys[..j];
    var ext := keys[..j + 1];
    assert forall p :: 0 <= p < j ==> ext[p] == pre[p];
    forall c | c in RefsAmong(st, ext, refOf) ensures c in RefsAmong(st, pre, refOf) + TourRefs(st, keys[j], refOf) {
      var p :| 0 <= p < |ext| && c in TourRefs(st, ext[p], refOf);
      if p < j {
        assert c in TourRefs(st, pre[p], refOf);
      }
    }
    forall c | c in RefsAmong(st, pre, refOf) ensures c in RefsAmong(st, ext, refOf) {
      var p :| 0 <= p < |pre| && c in TourRefs(st, pre[p], refOf);
      assert c in TourRefs(st, ext[p], refOf);
    }
    forall c | c in TourRefs(st, keys[j], refOf) ensures c in RefsAmong(st, ext, refOf) {
      assert c in TourRefs(st, ext[j], refOf);
    }
  }

  lemma RefsAmongAll(st: LegacyStore, keys: seq<int>, refOf: LegacyElement -> Option<int>)
    requires forall x :: x in keys <==> x in st.tours
    ensures RefsAmong(st, keys, refOf) == NamedClients(st, refOf)
  {
    forall c | c in NamedClients(st, refOf) ensures c in RefsAmong(st, keys, refOf) {
      var tk :| tk in st.tours && c in TourRefs(st, tk, refOf);
      var p :| 0 <= p < |keys| && keys[p] == tk;
    }
  }

  /** `elements.forEach(te => result.delete(...))`; a `NaN` id deletes nothing. */
  method DropNamed(result: map<int, Model>, elements: seq<LegacyElement>, refOf: LegacyElement -> Option<int>)
    returns (r: map<int, Model>)
    ensures r == result - ClientsNamedBy(elements, refOf)
  {
    r := result;
    var i := 0;
    while i < |elements|
      invariant 0 <= i <= |elements|
      invariant r == result - ClientsNamedBy(elements[..i], refOf)
    {
      ClientsNamedStep(elements, refOf, i);
      var id := refOf(elements[i]);
      if id.Some? {
        r := r - {id.value};
      }
      i := i + 1;
    }
    assert elements[..i] == elements;
  }

  /** The part of the getter's loop for the tour under key `tk`. */
  method DropTour(st: LegacyStore, result: map<int, Model>, tk: int, refOf: LegacyElement -> Option<int>)
    returns (r: map<int, Model>)
    requires tk in st.tours
    ensures r == result - TourRefs(st, tk, refOf)
  {
    var t := st.tours[tk];
    if t.id in st.tourElements {
      r := DropNamed(result, st.tourElements[t.id], refOf);
    } else {
      r := result;
    }
  }

  /**
   * `unassignedClients`: a copy of the clients without every id that a
   * client URL of an element of an existing tour names. Tours are walked
   * in ascending key order.
   */
  method UnassignedClients(st: LegacyStore) returns (result: map<int, Model>)
    ensures forall k :: k in result <==> k in st.clients && k !in NamedClients(st, ReferencedClient)
    ensures forall k :: k in result ==> result[k] == st.clients[k]
  {
    result := st.clients;
    var keys := Util.KeysInOrder(st.tours.Keys);
    ghost var refs: set<int> := {};
    var j := 0;
    while j < |keys|
      invariant 0 <= j <= |keys|
      invariant refs == RefsAmong(st, keys[..j], ReferencedClient)
      invariant result == st.clients - refs
    {
      RefsAmongStep(st, keys, ReferencedClient, j);
      result := DropTour(st, result, keys[j], ReferencedClient);
      RemoveInTurn(st.clients, refs, TourRefs(st, keys[j], ReferencedClient));
      refs := refs + TourRefs(st, keys[j], ReferencedClient);
      j := j + 1;
    }
    assert keys[..j] == keys;
    RefsAmongAll(st, keys, ReferencedClient);
    RemainingClients(st.clients, NamedClients(st, ReferencedClient), result);
  }

  lemma RemoveInTurn(m: map<int, Model>, a: set<int>, b: set<int>)
    ensures (m - a) - b == m - (a + b)
  {
  }

  lemma RemainingClients(clients: map<int, Model>, named: set<int>, result: map<int, Model>)
    requires result == clients - named
    ensures forall k :: k in result <==> k in clients && k !in named
    ensures forall k :: k in result ==> result[k] == clients[k]
  {
  }

  /** A group filed under a key that is no tour's id names no client. */
  lemma OrphanGroupsAreIgnored(st: LegacyStore, g: int, elements: seq<LegacyElement>)
    requires forall tk :: tk in st.tours ==> st.tours[tk].id != g
    ensures NamedClients(st.(tourElements := st.tourElements[g := elements]), ReferencedClient) == NamedClients(st, ReferencedClient)
  {
    var st' := st.(tourElements := st.tourElements[g := elements]);
    assert forall tk :: TourRefs(st', tk, ReferencedClient) == TourRefs(st, tk, ReferencedClient);
  }

  /**
   * An element of an existing tour whose client URL is `prefix/c/` (with
   * `c` written in decimal) names client `c`, so `c` is not unassigned.
   */
  lemma ClientUrlNamesClient(st: LegacyStore, tk: int, i: int, prefix: string, c: int)
    requires tk in st.tours && st.tours[tk].id in st.tourElements
    requires 0 <= i < |st.tourElements[st.tours[tk].id]|
    requires st.tourElements[st.tours[tk].id][i].client == Some(prefix + "/" + IntToString(c) + "/")
    ensures c in NamedClients(st, ReferencedClient)
  {
    var te := st.tourElements[st.tours[tk].id][i];
    NoSlashInNumber(c);
    ExtractIdOfResourceUrl(prefix, IntToString(c));
    ParseIntRoundTrip(c);
    assert ReferencedClient(te) == Some(c);
    assert c in ClientsNamedBy(st.tourElements[st.tours[tk].id], ReferencedClient);
    assert c in TourRefs(st, tk, ReferencedClient);
  }
}
