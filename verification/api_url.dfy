/**
 * The API address and the jwler URL builder of the older iteration, and
 * how the URLs it builds round-trip through `extractId`.
 */
module ApiUrls {
  import opened Wrappers
  import opened JsText
  import opened Entities
  import opened Legacy

  /** `API_URL`. */
  const ApiUrl: string := "http://127.0.0.1:8000"

  const JwlerPath: string := "/api/jwler/"

  /** `getJwlerUrl(id)`: the API address, the jwler path, the id and a closing "/". */
  function GetJwlerUrl(id: string): (url: string)
    ensures |url| == |ApiUrl| + |JwlerPath| + |id| + 1
    ensures ApiUrl <= url
    ensures url[|ApiUrl|..|ApiUrl| + |JwlerPath|] == JwlerPath
    ensures url[|url| - 1] == '/'
    ensures url[|ApiUrl| + |JwlerPath|..|url| - 1] == id
  {
    ApiUrl + JwlerPath + id + "/"
  }

  /** For an id without "/", `extractId` gives the id back. */
  lemma ExtractIdOfJwlerUrl(id: string)
    requires '/' !in id
    ensures ExtractId(GetJwlerUrl(id)) == id
  {
    var prefix := ApiUrl + "/api/jwler";
    assert JwlerPath == "/api/jwler" + "/";
    assert ApiUrl + JwlerPath == prefix + "/";
    ExtractIdOfResourceUrl(prefix, id);
  }

  /** A URL built from a numeric id parses back to that id. */
  lemma JwlerUrlRoundTrip(n: int)
    ensures ParseInt(ExtractId(GetJwlerUrl(IntToString(n)))) == Some(n)
  {
    NoSlashInNumber(n);
    ExtractIdOfJwlerUrl(IntToString(n));
    ParseIntRoundTrip(n);
  }

  /** The URL built from a stored jwler's key resolves to that jwler. */
  lemma StoredJwlerResolves(store: LegacyStore, n: int)
    requires n in store.jwlers
    ensures Resolve(store.jwlers, GetJwlerUrl(IntToString(n))) == Some(store.jwlers[n])
  {
    JwlerUrlRoundTrip(n);
  }
}
