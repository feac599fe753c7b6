/** `search_apps`: the server asks the app store for software matching the query and maps
    each store record to the shape the client shows. */
module SearchMapping {
  import opened Wrappers
  import opened Json
  import opened Http

  /** One search result as the server returns it. */
  datatype SearchEntry = SearchEntry(
    trackId: Json,
    name: Json,
    title: Json,
    description: Json,
    images: seq<Json>,
    rating: Json)

  /** The mapping of one store record. */
  function MapApp(app: map<string, Json>): (e: SearchEntry)
    ensures e.trackId == Get(app, "trackId") && e.name == Get(app, "trackName")
    ensures e.title == (if "trackCensoredName" in app then app["trackCensoredName"] else Get(app, "trackName"))
    ensures e.description == Get(app, "description") && e.rating == Get(app, "averageUserRating")
    ensures e.images == [Get(app, "artworkUrl100"), Get(app, "artworkUrl512"), Get(app, "artworkUrl60")]
  {
    SearchEntry(
      trackId := Get(app, "trackId"),
      name := Get(app, "trackName"),
      title := GetOr(app, "trackCensoredName", Get(app, "trackName")),
      description := Get(app, "description"),
      images := [Get(app, "artworkUrl100"), Get(app, "artworkUrl512"), Get(app, "artworkUrl60")],
      rating := Get(app, "averageUserRating"))
  }

  /** The keys the mapping reads. */
  const UsedKeys: set<string> :=
    {"trackId", "trackName", "trackCensoredName", "description", "artworkUrl100", "artworkUrl512", "artworkUrl60", "averageUserRating"}

  /** The title is the censored name whenever that key is present, even when its value is null;
      without the key it is the name. The images are always the 100, 512 and 60 pixel artwork,
      in that order, null where the store has none. */
  lemma MapAppFields(app: map<string, Json>)
    ensures "trackCensoredName" in app ==> MapApp(app).title == app["trackCensoredName"]
    ensures "trackCensoredName" !in app ==> MapApp(app).title == MapApp(app).name
    ensures |MapApp(app).images| == 3
    ensures "artworkUrl100" !in app ==> MapApp(app).images[0] == JNull
    ensures "artworkUrl512" !in app ==> MapApp(app).images[1] == JNull
    ensures "artworkUrl60" !in app ==> MapApp(app).images[2] == JNull
    ensures "trackName" !in app ==> MapApp(app).name == JNull
  {
  }

  /** Only the eight documented keys influence the mapping; every other field of the store
      record is dropped. */
  lemma MapAppReadsOnlyUsedKeys(app: map<string, Json>, other: map<string, Json>)
    requires forall k :: k in UsedKeys ==> (k in app <==> k in other)
    requires forall k :: k in UsedKeys && k in app ==> app[k] == other[k]
    ensures MapApp(app) == MapApp(other)
  {
  }

  /** The search endpoint, given the query and the store's decoded reply. An empty query is
      refused before the store is asked. A reply that is not an object, a `results` value that
      cannot be iterated, or a visited item that is not an object fails the request. A missing
      `results` key gives no results. Otherwise there is one entry per store record, in order. */
  method SearchApps(q: string, reply: Json) returns (r: Result<seq<SearchEntry>, HttpError>)
    ensures |q| < 1 ==> r == Err(ValidationFailed)
    ensures |q| >= 1 && !reply.JObj? ==> r == Err(ServerError)
    ensures |q| >= 1 && reply.JObj? && "results" !in reply.fields ==> r == Ok([])
    ensures |q| >= 1 && reply.JObj? && "results" in reply.fields && reply.fields["results"].JStr? ==>
              r == (if reply.fields["results"].s == "" then Ok([]) else Err(ServerError))
    ensures |q| >= 1 && reply.JObj? && "results" in reply.fields && reply.fields["results"].JObj? ==>
              r == (if reply.fields["results"].fields == map[] then Ok([]) else Err(ServerError))
    ensures |q| >= 1 && reply.JObj? && "results" in reply.fields &&
            (reply.fields["results"].JNull? || reply.fields["results"].JBool? || reply.fields["results"].JNum?) ==>
              r == Err(ServerError)
    ensures r.Ok? && reply.JObj? && "results" in reply.fields && reply.fields["results"].JArr? ==>
              var items := reply.fields["results"].items;
              && |r.value| == |items|
              && forall k :: 0 <= k < |items| ==> items[k].JObj? && r.value[k] == MapApp(items[k].fields)
    ensures r.Err? && |q| >= 1 && reply.JObj? && "results" in reply.fields && reply.fields["results"].JArr? ==>
              r == Err(ServerError) &&
              exists k :: 0 <= k < |reply.fields["results"].items| && !reply.fields["results"].items[k].JObj?
  {
    if |q| < 1 {
      return Err(ValidationFailed);
    }
    if !reply.JObj? {
      return Err(ServerError);
    }
    var items: seq<Json>;
    match GetOr(reply.fields, "results", JArr([])) {
      case JArr(xs) => items := xs;
      // Iterating a string yields its characters and iterating an object its keys; both are
      // strings, which have no `get`, so only an empty one gets through the loop.
      case JStr(text) => return if text == "" then Ok([]) else Err(ServerError);
      case JObj(m) => return if m == map[] then Ok([]) else Err(ServerError);
      case _ => return Err(ServerError);
    }
    var apps: seq<SearchEntry> := [];
    var i := 0;
    while i < |items|
      invariant 0 <= i <= |items|
      invariant |apps| == i
      invariant forall k :: 0 <= k < i ==> items[k].JObj? && apps[k] == MapApp(items[k].fields)
    {
      if !items[i].JObj? {
        return Err(ServerError);
      }
      apps := apps + [MapApp(items[i].fields)];
      i := i + 1;
    }
    return Ok(apps);
  }
}
