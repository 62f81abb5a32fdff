/** The `api-request` handler in main.js: it matches the endpoint against
    six anchored patterns, picks a route by method, and dispatches to the
    database handler; an unknown pair, like any thrown error, comes back as
    `{ error: message }`. The model is the route choice, a function of the
    request. */
module Router {
  import opened Wrappers
  import opened Text
  import opened Js

  /** The handler call a request is dispatched to, with the arguments it
      receives: the digit strings the patterns capture, the decoded group
      name, `params?.sok`, or the request body. */
  datatype Route =
    | GetElevById(id: string)
    | GetFaggruppeDetails(navn: string)
    | GetEleverForFaggruppe(navn: string)
    | GetElever(sok: JsValue)
    | GetFaggrupper(sok: JsValue)
    | AddElev(body: Option<Obj>)
    | BulkUpdateTilrettelegginger(elevId: string, body: Option<Obj>)
    | BulkUpdateKommentar(elevId: string, body: Option<Obj>)
    | AddTilrettelegging(body: Option<Obj>)
    | DeleteElev(id: string)
    | DeleteTilrettelegging(id: string)
    | ClearAllData
    | UpdateTilrettelegging(id: string, body: Option<Obj>)
    | UpdateElev(id: string, body: Option<Obj>)

  const ELEVER := "/api/elever"
  const ELEVER_PREFIX := "/api/elever/"
  const FAGGRUPPER := "/api/faggrupper"
  const FAGGRUPPER_PREFIX := "/api/faggrupper/"
  const FAGGRUPPE_PREFIX := "/api/faggruppe/"
  const TILRETTELEGGING := "/api/tilrettelegging"
  const TILRETTELEGGING_PREFIX := "/api/tilrettelegging/"
  const BULK_FLAG_SUFFIX := "/bulk-update-tilrettelegginger"
  const BULK_KOMMENTAR_SUFFIX := "/bulk-update-kommentar"
  const ALL_DATA := "/api/database/all-data"

  /** The error `decodeURIComponent` throws on a malformed escape. */
  const URI_MALFORMED := "URI malformed"

  function UnknownEndpoint(m: JsValue, endpoint: string): string {
    "Ukjent endepunkt: " + ToJsString(m) + " " + endpoint
  }

  // -----------------------------------------------------------------------
  // The patterns
  // -----------------------------------------------------------------------

  /** The characters the regular expression `.` does not match. */
  predicate IsLineTerminator(c: char) {
    c == '\n' || c == '\r' || c == '\U{2028}' || c == '\U{2029}'
  }

  /** What `(.+)` followed by `$` matches in full. */
  predicate IsRestOfLine(s: string) {
    |s| > 0 && forall i :: 0 <= i < |s| ==> !IsLineTerminator(s[i])
  }

  /** `^prefix(\d+)$`: the captured digits. */
  function MatchDigits(endpoint: string, prefix: string): (r: Option<string>)
    ensures r.Some? <==> exists d :: IsDigits(d) && endpoint == prefix + d
    ensures r.Some? ==> IsDigits(r.value) && endpoint == prefix + r.value
  {
    if StartsWith(endpoint, prefix) && IsDigits(endpoint[|prefix|..]) then
      assert endpoint == prefix + endpoint[|prefix|..];
      Some(endpoint[|prefix|..])
    else
      assert forall d :: endpoint == prefix + d ==> StartsWith(endpoint, prefix) && endpoint[|prefix|..] == d;
      None
  }

  /** `^prefix(.+)$`: the captured text. */
  function MatchRest(endpoint: string, prefix: string): (r: Option<string>)
    ensures r.Some? <==> exists x :: IsRestOfLine(x) && endpoint == prefix + x
    ensures r.Some? ==> IsRestOfLine(r.value) && endpoint == prefix + r.value
  {
    if StartsWith(endpoint, prefix) && IsRestOfLine(endpoint[|prefix|..]) then
      assert endpoint == prefix + endpoint[|prefix|..];
      Some(endpoint[|prefix|..])
    else
      assert forall x :: endpoint == prefix + x ==> StartsWith(endpoint, prefix) && endpoint[|prefix|..] == x;
      None
  }

  /** The length of the run of digits `s` starts with. */
  function DigitRun(s: string): (n: nat)
    ensures n <= |s|
    ensures forall i :: 0 <= i < n ==> IsDigit(s[i])
    ensures n < |s| ==> !IsDigit(s[n])
    decreases |s|
  {
    if |s| > 0 && IsDigit(s[0]) then 1 + DigitRun(s[1..]) else 0
  }

  /** A digit string followed by text that starts with a non-digit: the
      digit run is exactly the digit string. */
  lemma DigitRunOfDigitsThen(d: string, t: string)
    requires IsDigits(d) && |t| > 0 && !IsDigit(t[0])
    ensures DigitRun(d + t) == |d| && (d + t)[..|d|] == d && (d + t)[|d|..] == t
  {
    assert (d + t)[|d|] == t[0];
  }

  /** `^prefix(\d+)suffix$` for a suffix that starts with a non-digit:
      `\d+` can only take the whole run of digits after the prefix. */
  function MatchDigitsThen(endpoint: string, prefix: string, suffix: string): (r: Option<string>)
    requires |suffix| > 0 && !IsDigit(suffix[0])
    ensures r.Some? <==> exists d :: IsDigits(d) && endpoint == prefix + d + suffix
    ensures r.Some? ==> IsDigits(r.value) && endpoint == prefix + r.value + suffix
  {
    if !StartsWith(endpoint, prefix) then
      assert forall d :: endpoint == prefix + d + suffix ==> StartsWith(endpoint, prefix);
      None
    else
      var rest := endpoint[|prefix|..];
      assert endpoint == prefix + rest;
      var n := DigitRun(rest);
      if n > 0 && rest[n..] == suffix then
        assert rest == rest[..n] + suffix;
        assert IsDigits(rest[..n]) && endpoint == prefix + rest[..n] + suffix;
        Some(rest[..n])
      else
        assert forall d :: IsDigits(d) && endpoint == prefix + d + suffix ==> false by {
          forall d | IsDigits(d) && endpoint == prefix + d + suffix ensures false {
            assert rest == d + suffix;
            DigitRunOfDigitsThen(d, suffix);
          }
        }
        None
  }

  // -----------------------------------------------------------------------
  // The dispatch
  // -----------------------------------------------------------------------

  /** The ids a route carries are what `(\d+)` captured. */
  predicate CapturesAreDigits(route: Route) {
    match route
    case GetElevById(id) => IsDigits(id)
    case BulkUpdateTilrettelegginger(id, _) => IsDigits(id)
    case BulkUpdateKommentar(id, _) => IsDigits(id)
    case DeleteElev(id) => IsDigits(id)
    case DeleteTilrettelegging(id) => IsDigits(id)
    case UpdateTilrettelegging(id, _) => IsDigits(id)
    case UpdateElev(id, _) => IsDigits(id)
    case _ => true
  }

  /** `params?.sok`. */
  function Sok(params: Option<Obj>): JsValue {
    if params.None? then Undefined else Get(params.value, "sok")
  }

  /** A route that passes a decoded group name; a malformed escape throws. */
  function Decoded(x: string, decode: string -> Option<string>, route: string -> Route): (r: Result<Route>)
    ensures r.Err? <==> decode(x).None?
    ensures r.Err? ==> r.error == URI_MALFORMED
  {
    match decode(x)
    case None => Err(URI_MALFORMED)
    case Some(navn) => Ok(route(navn))
  }

  function DetailsRoute(navn: string): Route { GetFaggruppeDetails(navn) }

  function ListRoute(navn: string): Route { GetEleverForFaggruppe(navn) }

  /** The `api-request` handler up to the handler call. `decode` is
      `decodeURIComponent`, `None` where it throws. */
  function HandleRequest(method0: JsValue, endpoint0: JsValue, params: Option<Obj>, body: Option<Obj>,
                         decode: string -> Option<string>): (r: Result<Route>)
    ensures r.Ok? ==> CapturesAreDigits(r.value)
  {
    var m := if method0.Undefined? then Str("GET") else method0;
    if !endpoint0.Str? then Err(NotAStringError("endpoint", endpoint0, "match"))
    else
      var endpoint := endpoint0.s;
      var elevById := MatchDigits(endpoint, ELEVER_PREFIX);
      var faggruppeDetails := MatchRest(endpoint, FAGGRUPPER_PREFIX);
      var faggruppeList := MatchRest(endpoint, FAGGRUPPE_PREFIX);
      var tilrettelegging := MatchDigits(endpoint, TILRETTELEGGING_PREFIX);
      var bulkFlag := MatchDigitsThen(endpoint, ELEVER_PREFIX, BULK_FLAG_SUFFIX);
      var bulkKommentar := MatchDigitsThen(endpoint, ELEVER_PREFIX, BULK_KOMMENTAR_SUFFIX);
      if m == Str("GET") && elevById.Some? then Ok(GetElevById(elevById.value))
      else if m == Str("GET") && faggruppeDetails.Some? then Decoded(faggruppeDetails.value, decode, DetailsRoute)
      else if m == Str("GET") && faggruppeList.Some? then Decoded(faggruppeList.value, decode, ListRoute)
      else if m == Str("GET") && endpoint == ELEVER then Ok(GetElever(Sok(params)))
      else if m == Str("GET") && endpoint == FAGGRUPPER then Ok(GetFaggrupper(Sok(params)))
      else if m == Str("POST") && endpoint == ELEVER then Ok(AddElev(body))
      else if m == Str("POST") && bulkFlag.Some? then Ok(BulkUpdateTilrettelegginger(bulkFlag.value, body))
      else if m == Str("POST") && bulkKommentar.Some? then Ok(BulkUpdateKommentar(bulkKommentar.value, body))
      else if m == Str("POST") && endpoint == TILRETTELEGGING then Ok(AddTilrettelegging(body))
      else if m == Str("DELETE") && elevById.Some? then Ok(DeleteElev(elevById.value))
      else if m == Str("DELETE") && tilrettelegging.Some? then Ok(DeleteTilrettelegging(tilrettelegging.value))
      else if m == Str("DELETE") && endpoint == ALL_DATA then Ok(ClearAllData)
      else if m == Str("PUT") && tilrettelegging.Some? then Ok(UpdateTilrettelegging(tilrettelegging.value, body))
      else if m == Str("PUT") && elevById.Some? then Ok(UpdateElev(elevById.value, body))
      else Err(UnknownEndpoint(m, endpoint))
  }

  // -----------------------------------------------------------------------
  // Properties of the dispatch
  // -----------------------------------------------------------------------

  /** The method used when the request names none. */
  function EffectiveMethod(method0: JsValue): JsValue {
    if method0.Undefined? then Str("GET") else method0
  }

  /** A request without a method is a GET request. */
  lemma MissingMethodIsGet(endpoint: JsValue, params: Option<Obj>, body: Option<Obj>, decode: string -> Option<string>)
    ensures HandleRequest(Undefined, endpoint, params, body, decode) == HandleRequest(Str("GET"), endpoint, params, body, decode)
  {
  }

  lemma ElevPathIsNoOtherPath(d: string)
    ensures MatchRest(ELEVER_PREFIX + d, FAGGRUPPER_PREFIX).None?
    ensures MatchRest(ELEVER_PREFIX + d, FAGGRUPPE_PREFIX).None?
    ensures MatchDigits(ELEVER_PREFIX + d, TILRETTELEGGING_PREFIX).None?
    ensures ELEVER_PREFIX + d != ELEVER && ELEVER_PREFIX + d != FAGGRUPPER
    ensures ELEVER_PREFIX + d != TILRETTELEGGING && ELEVER_PREFIX + d != ALL_DATA
  {
    var e := ELEVER_PREFIX + d;
    assert e[5] == 'e';
    assert forall x :: (FAGGRUPPER_PREFIX + x)[5] == 'f';
    assert forall x :: (FAGGRUPPE_PREFIX + x)[5] == 'f';
    assert forall x :: (TILRETTELEGGING_PREFIX + x)[5] == 't';
    assert |e| >= 12 && e[11] == '/';
    assert ELEVER[5] == 'e' && |ELEVER| == 11;
    assert FAGGRUPPER[5] == 'f' && TILRETTELEGGING[5] == 't' && ALL_DATA[5] == 'd';
  }

  /** `/api/elever/<digits>`: GET reads the student, DELETE deletes it,
      PUT updates it, each with the digit string. */
  lemma ElevByIdRoutes(d: string, params: Option<Obj>, body: Option<Obj>, decode: string -> Option<string>)
    requires IsDigits(d)
    ensures HandleRequest(Str("GET"), Str(ELEVER_PREFIX + d), params, body, decode) == Ok(GetElevById(d))
    ensures HandleRequest(Str("DELETE"), Str(ELEVER_PREFIX + d), params, body, decode) == Ok(DeleteElev(d))
    ensures HandleRequest(Str("PUT"), Str(ELEVER_PREFIX + d), params, body, decode) == Ok(UpdateElev(d, body))
  {
    ElevPathIsNoOtherPath(d);
  }

  /** `/api/elever/<s>` with anything but digits after the slash matches
      no pattern: a GET for it is an unknown endpoint. */
  lemma NonDigitIdIsUnknown(s: string, params: Option<Obj>, body: Option<Obj>, decode: string -> Option<string>)
    requires !IsDigits(s)
    ensures MatchDigits(ELEVER_PREFIX + s, ELEVER_PREFIX).None?
    ensures HandleRequest(Str("GET"), Str(ELEVER_PREFIX + s), params, body, decode)
              == Err(UnknownEndpoint(Str("GET"), ELEVER_PREFIX + s))
    ensures HandleRequest(Str("PUT"), Str(ELEVER_PREFIX + s), params, body, decode)
              == Err(UnknownEndpoint(Str("PUT"), ELEVER_PREFIX + s))
  {
    ElevPathIsNoOtherPath(s);
    assert forall d :: ELEVER_PREFIX + s == ELEVER_PREFIX + d ==> d == s by {
      forall d | ELEVER_PREFIX + s == ELEVER_PREFIX + d ensures d == s {
        assert s == (ELEVER_PREFIX + s)[|ELEVER_PREFIX|..];
        assert d == (ELEVER_PREFIX + d)[|ELEVER_PREFIX|..];
      }
    }
  }

  lemma SuffixesDiffer(d: string, d': string)
    requires IsDigits(d) && IsDigits(d')
    ensures ELEVER_PREFIX + d + BULK_KOMMENTAR_SUFFIX != ELEVER_PREFIX + d' + BULK_FLAG_SUFFIX
  {
    if ELEVER_PREFIX + d + BULK_KOMMENTAR_SUFFIX == ELEVER_PREFIX + d' + BULK_FLAG_SUFFIX {
      var e := ELEVER_PREFIX + d + BULK_KOMMENTAR_SUFFIX;
      assert e[|ELEVER_PREFIX|..] == d + BULK_KOMMENTAR_SUFFIX;
      assert e[|ELEVER_PREFIX|..] == d' + BULK_FLAG_SUFFIX;
      DigitRunOfDigitsThen(d, BULK_KOMMENTAR_SUFFIX);
      DigitRunOfDigitsThen(d', BULK_FLAG_SUFFIX);
    }
  }

  lemma BulkPathIsNoOtherPath(d: string, suffix: string)
    requires IsDigits(d)
    requires suffix == BULK_FLAG_SUFFIX || suffix == BULK_KOMMENTAR_SUFFIX
    ensures MatchDigits(ELEVER_PREFIX + d + suffix, ELEVER_PREFIX).None?
    ensures ELEVER_PREFIX + d + suffix != ELEVER && ELEVER_PREFIX + d + suffix != TILRETTELEGGING
  {
    var e := ELEVER_PREFIX + d + suffix;
    assert e[|ELEVER_PREFIX|..] == d + suffix;
    assert !IsDigits(d + suffix) by {
      assert (d + suffix)[|d|] == suffix[0];
    }
    assert forall x :: e == ELEVER_PREFIX + x ==> x == d + suffix by {
      forall x | e == ELEVER_PREFIX + x ensures x == d + suffix {
        assert x == (ELEVER_PREFIX + x)[|ELEVER_PREFIX|..];
      }
    }
    BulkPathIsNoFixedPath(d, suffix);
  }

  lemma BulkPathIsNoFixedPath(d: string, suffix: string)
    requires suffix == BULK_FLAG_SUFFIX || suffix == BULK_KOMMENTAR_SUFFIX
    ensures ELEVER_PREFIX + d + suffix != ELEVER && ELEVER_PREFIX + d + suffix != TILRETTELEGGING
  {
    var e := ELEVER_PREFIX + d + suffix;
    assert |e| > |ELEVER| && e[5] != TILRETTELEGGING[5];
  }

  lemma BulkFlagMatch(d: string)
    requires IsDigits(d)
    ensures MatchDigitsThen(ELEVER_PREFIX + d + BULK_FLAG_SUFFIX, ELEVER_PREFIX, BULK_FLAG_SUFFIX) == Some(d)
  {
    var flag := MatchDigitsThen(ELEVER_PREFIX + d + BULK_FLAG_SUFFIX, ELEVER_PREFIX, BULK_FLAG_SUFFIX);
    DigitRunOfDigitsThen(flag.value, BULK_FLAG_SUFFIX);
    DigitRunOfDigitsThen(d, BULK_FLAG_SUFFIX);
    assert (ELEVER_PREFIX + d + BULK_FLAG_SUFFIX)[|ELEVER_PREFIX|..] == d + BULK_FLAG_SUFFIX;
    assert (ELEVER_PREFIX + flag.value + BULK_FLAG_SUFFIX)[|ELEVER_PREFIX|..] == flag.value + BULK_FLAG_SUFFIX;
  }

  lemma BulkKommentarMatch(d: string)
    requires IsDigits(d)
    ensures MatchDigitsThen(ELEVER_PREFIX + d + BULK_KOMMENTAR_SUFFIX, ELEVER_PREFIX, BULK_KOMMENTAR_SUFFIX) == Some(d)
    ensures MatchDigitsThen(ELEVER_PREFIX + d + BULK_KOMMENTAR_SUFFIX, ELEVER_PREFIX, BULK_FLAG_SUFFIX).None?
  {
    var kommentar := MatchDigitsThen(ELEVER_PREFIX + d + BULK_KOMMENTAR_SUFFIX, ELEVER_PREFIX, BULK_KOMMENTAR_SUFFIX);
    DigitRunOfDigitsThen(kommentar.value, BULK_KOMMENTAR_SUFFIX);
    DigitRunOfDigitsThen(d, BULK_KOMMENTAR_SUFFIX);
    assert (ELEVER_PREFIX + d + BULK_KOMMENTAR_SUFFIX)[|ELEVER_PREFIX|..] == d + BULK_KOMMENTAR_SUFFIX;
    assert (ELEVER_PREFIX + kommentar.value + BULK_KOMMENTAR_SUFFIX)[|ELEVER_PREFIX|..]
             == kommentar.value + BULK_KOMMENTAR_SUFFIX;
    forall d' | IsDigits(d') ensures ELEVER_PREFIX + d + BULK_KOMMENTAR_SUFFIX != ELEVER_PREFIX + d' + BULK_FLAG_SUFFIX {
      SuffixesDiffer(d, d');
    }
  }

  /** The bulk paths never match the by-id pattern, because of its `$`;
      POST sends each to its bulk handler with the captured digits. */
  lemma BulkRoutes(d: string, params: Option<Obj>, body: Option<Obj>, decode: string -> Option<string>)
    requires IsDigits(d)
    ensures MatchDigits(ELEVER_PREFIX + d + BULK_FLAG_SUFFIX, ELEVER_PREFIX).None?
    ensures MatchDigits(ELEVER_PREFIX + d + BULK_KOMMENTAR_SUFFIX, ELEVER_PREFIX).None?
    ensures HandleRequest(Str("POST"), Str(ELEVER_PREFIX + d + BULK_FLAG_SUFFIX), params, body, decode)
              == Ok(BulkUpdateTilrettelegginger(d, body))
    ensures HandleRequest(Str("POST"), Str(ELEVER_PREFIX + d + BULK_KOMMENTAR_SUFFIX), params, body, decode)
              == Ok(BulkUpdateKommentar(d, body))
  {
    BulkPathIsNoOtherPath(d, BULK_FLAG_SUFFIX);
    BulkPathIsNoOtherPath(d, BULK_KOMMENTAR_SUFFIX);
    BulkFlagMatch(d);
    BulkKommentarMatch(d);
  }

  lemma GroupPathsDiffer(x: string)
    ensures MatchDigits(FAGGRUPPER_PREFIX + x, ELEVER_PREFIX).None?
    ensures MatchDigits(FAGGRUPPE_PREFIX + x, ELEVER_PREFIX).None?
    ensures MatchRest(FAGGRUPPE_PREFIX + x, FAGGRUPPER_PREFIX).None?
  {
    assert forall y :: (ELEVER_PREFIX + y)[5] == 'e';
    assert (FAGGRUPPER_PREFIX + x)[5] == 'f' && (FAGGRUPPE_PREFIX + x)[5] == 'f';
    assert forall y :: (FAGGRUPPER_PREFIX + y)[14] == 'r';
    assert (FAGGRUPPE_PREFIX + x)[14] == '/';
  }

  /** `/api/faggrupper/<x>` and `/api/faggruppe/<x>` for a non-empty `x`
      on one line, which may hold `/`: GET decodes `x` and reads the
      group's subject, or its students; a malformed escape is reported as
      an error. */
  lemma GroupRoutes(x: string, params: Option<Obj>, body: Option<Obj>, decode: string -> Option<string>)
    requires IsRestOfLine(x)
    ensures HandleRequest(Str("GET"), Str(FAGGRUPPER_PREFIX + x), params, body, decode)
              == if decode(x).Some? then Ok(GetFaggruppeDetails(decode(x).value)) else Err(URI_MALFORMED)
    ensures HandleRequest(Str("GET"), Str(FAGGRUPPE_PREFIX + x), params, body, decode)
              == if decode(x).Some? then Ok(GetEleverForFaggruppe(decode(x).value)) else Err(URI_MALFORMED)
  {
    GroupPathsDiffer(x);
    var details := MatchRest(FAGGRUPPER_PREFIX + x, FAGGRUPPER_PREFIX);
    assert (FAGGRUPPER_PREFIX + x)[|FAGGRUPPER_PREFIX|..] == x;
    assert (FAGGRUPPER_PREFIX + details.value)[|FAGGRUPPER_PREFIX|..] == details.value;
    var list := MatchRest(FAGGRUPPE_PREFIX + x, FAGGRUPPE_PREFIX);
    assert (FAGGRUPPE_PREFIX + x)[|FAGGRUPPE_PREFIX|..] == x;
    assert (FAGGRUPPE_PREFIX + list.value)[|FAGGRUPPE_PREFIX|..] == list.value;
  }

  /** The fixed paths: the two searches take `params?.sok`; POST on the
      student list adds a student, on the record path adds a record;
      DELETE on the data path wipes the store. */
  lemma FixedRoutes(params: Option<Obj>, body: Option<Obj>, decode: string -> Option<string>)
    ensures HandleRequest(Str("GET"), Str(ELEVER), params, body, decode) == Ok(GetElever(Sok(params)))
    ensures HandleRequest(Str("GET"), Str(FAGGRUPPER), params, body, decode) == Ok(GetFaggrupper(Sok(params)))
    ensures HandleRequest(Str("POST"), Str(ELEVER), params, body, decode) == Ok(AddElev(body))
    ensures HandleRequest(Str("POST"), Str(TILRETTELEGGING), params, body, decode) == Ok(AddTilrettelegging(body))
    ensures HandleRequest(Str("DELETE"), Str(ALL_DATA), params, body, decode) == Ok(ClearAllData)
  {
    FixedReadRoutes(params, body, decode);
    FixedWriteRoutes(params, body, decode);
  }

  lemma FixedReadRoutes(params: Option<Obj>, body: Option<Obj>, decode: string -> Option<string>)
    ensures HandleRequest(Str("GET"), Str(ELEVER), params, body, decode) == Ok(GetElever(Sok(params)))
    ensures HandleRequest(Str("GET"), Str(FAGGRUPPER), params, body, decode) == Ok(GetFaggrupper(Sok(params)))
  {
    assert |ELEVER| < |ELEVER_PREFIX| && |FAGGRUPPER| < |FAGGRUPPER_PREFIX|;
    assert ELEVER[5] != FAGGRUPPER_PREFIX[5] && ELEVER[5] != FAGGRUPPE_PREFIX[5];
    assert FAGGRUPPER[5] != ELEVER_PREFIX[5] && FAGGRUPPER[14] != FAGGRUPPE_PREFIX[14];
  }

  lemma FixedWriteRoutes(params: Option<Obj>, body: Option<Obj>, decode: string -> Option<string>)
    ensures HandleRequest(Str("POST"), Str(ELEVER), params, body, decode) == Ok(AddElev(body))
    ensures HandleRequest(Str("POST"), Str(TILRETTELEGGING), params, body, decode) == Ok(AddTilrettelegging(body))
    ensures HandleRequest(Str("DELETE"), Str(ALL_DATA), params, body, decode) == Ok(ClearAllData)
  {
    assert |ELEVER| < |ELEVER_PREFIX|;
    assert |TILRETTELEGGING| < |TILRETTELEGGING_PREFIX| && TILRETTELEGGING[5] != ELEVER_PREFIX[5];
    assert ALL_DATA[5] != ELEVER_PREFIX[5] && ALL_DATA[5] != TILRETTELEGGING_PREFIX[5];
  }

  /** `/api/tilrettelegging/<digits>`: PUT updates the record, DELETE
      deletes it, each with the digit string. */
  lemma TilretteleggingRoutes(d: string, params: Option<Obj>, body: Option<Obj>, decode: string -> Option<string>)
    requires IsDigits(d)
    ensures HandleRequest(Str("PUT"), Str(TILRETTELEGGING_PREFIX + d), params, body, decode)
              == Ok(UpdateTilrettelegging(d, body))
    ensures HandleRequest(Str("DELETE"), Str(TILRETTELEGGING_PREFIX + d), params, body, decode)
              == Ok(DeleteTilrettelegging(d))
  {
    assert forall y :: (ELEVER_PREFIX + y)[5] == 'e';
    assert (TILRETTELEGGING_PREFIX + d)[5] == 't';
    assert (TILRETTELEGGING_PREFIX + d)[|TILRETTELEGGING_PREFIX|..] == d;
    var m := MatchDigits(TILRETTELEGGING_PREFIX + d, TILRETTELEGGING_PREFIX);
    assert (TILRETTELEGGING_PREFIX + m.value)[|TILRETTELEGGING_PREFIX|..] == m.value;
  }

  /** A bulk path whose id does not start with a digit, such as the
      rendering of a negative id, has no route for POST. */
  lemma NonDigitBulkIsUnknown(s: string, suffix: string, params: Option<Obj>, body: Option<Obj>,
                              decode: string -> Option<string>)
    requires |s| > 0 && !IsDigit(s[0])
    requires suffix == BULK_FLAG_SUFFIX || suffix == BULK_KOMMENTAR_SUFFIX
    ensures HandleRequest(Str("POST"), Str(ELEVER_PREFIX + s + suffix), params, body, decode)
              == Err(UnknownEndpoint(Str("POST"), ELEVER_PREFIX + s + suffix))
  {
    var e := ELEVER_PREFIX + s + suffix;
    assert e[|ELEVER_PREFIX|] == s[0];
    assert e[5] == 'e' && TILRETTELEGGING[5] == 't';
    assert |e| > |ELEVER|;
    forall d, x | IsDigits(d) ensures e != ELEVER_PREFIX + d + x {
      assert (ELEVER_PREFIX + d + x)[|ELEVER_PREFIX|] == d[0];
    }
  }

  /** `/api/tilrettelegging/<s>` with anything but digits after the slash
      has no route for PUT or DELETE. */
  lemma NonDigitRecordPathIsUnknown(s: string, params: Option<Obj>, body: Option<Obj>, decode: string -> Option<string>)
    requires !IsDigits(s)
    ensures HandleRequest(Str("PUT"), Str(TILRETTELEGGING_PREFIX + s), params, body, decode)
              == Err(UnknownEndpoint(Str("PUT"), TILRETTELEGGING_PREFIX + s))
    ensures HandleRequest(Str("DELETE"), Str(TILRETTELEGGING_PREFIX + s), params, body, decode)
              == Err(UnknownEndpoint(Str("DELETE"), TILRETTELEGGING_PREFIX + s))
  {
    var e := TILRETTELEGGING_PREFIX + s;
    assert forall y :: (ELEVER_PREFIX + y)[5] == 'e';
    assert e[5] == 't' && ALL_DATA[5] == 'd';
    assert forall d :: e == TILRETTELEGGING_PREFIX + d ==> d == s by {
      forall d | e == TILRETTELEGGING_PREFIX + d ensures d == s {
        assert s == e[|TILRETTELEGGING_PREFIX|..];
        assert d == (TILRETTELEGGING_PREFIX + d)[|TILRETTELEGGING_PREFIX|..];
      }
    }
  }

  // -----------------------------------------------------------------------
  // Which requests are known
  // -----------------------------------------------------------------------

  ghost predicate IsIdPath(e: string, prefix: string) {
    exists d :: IsDigits(d) && e == prefix + d
  }

  ghost predicate IsNamePath(e: string, prefix: string) {
    exists x :: IsRestOfLine(x) && e == prefix + x
  }

  ghost predicate IsBulkPath(e: string, suffix: string) {
    exists d :: IsDigits(d) && e == ELEVER_PREFIX + d + suffix
  }

  /** The method and path pairs that have a handler, read off the
      endpoint list rather than off the order of the checks. */
  ghost predicate Routable(m: JsValue, e: string) {
    || (m == Str("GET") && (IsIdPath(e, ELEVER_PREFIX) || IsNamePath(e, FAGGRUPPER_PREFIX)
                            || IsNamePath(e, FAGGRUPPE_PREFIX) || e == ELEVER || e == FAGGRUPPER))
    || (m == Str("POST") && (e == ELEVER || IsBulkPath(e, BULK_FLAG_SUFFIX)
                             || IsBulkPath(e, BULK_KOMMENTAR_SUFFIX) || e == TILRETTELEGGING))
    || (m == Str("DELETE") && (IsIdPath(e, ELEVER_PREFIX) || IsIdPath(e, TILRETTELEGGING_PREFIX) || e == ALL_DATA))
    || (m == Str("PUT") && (IsIdPath(e, TILRETTELEGGING_PREFIX) || IsIdPath(e, ELEVER_PREFIX)))
  }

  lemma UnknownIsNotMalformed(m: JsValue, e: string)
    ensures UnknownEndpoint(m, e) != URI_MALFORMED
  {
    assert UnknownEndpoint(m, e)[1] == 'k' && URI_MALFORMED[1] == 'R';
  }

  /** A request is answered with 'Ukjent endepunkt: <method> <endpoint>'
      exactly when no handler serves its method and path. */
  lemma UnknownEndpointExactly(method0: JsValue, e: string, params: Option<Obj>, body: Option<Obj>,
                               decode: string -> Option<string>)
    ensures HandleRequest(method0, Str(e), params, body, decode) == Err(UnknownEndpoint(EffectiveMethod(method0), e))
            <==> !Routable(EffectiveMethod(method0), e)
  {
    UnknownIsNotMalformed(EffectiveMethod(method0), e);
  }

  /** No exception escapes: the only errors are the TypeError for an
      endpoint that is not a string, a malformed escape in a group name,
      and the unknown endpoint. */
  lemma RequestErrors(method0: JsValue, endpoint0: JsValue, params: Option<Obj>, body: Option<Obj>,
                      decode: string -> Option<string>)
    ensures !endpoint0.Str? ==> HandleRequest(method0, endpoint0, params, body, decode)
                                  == Err(NotAStringError("endpoint", endpoint0, "match"))
    ensures endpoint0.Str? && HandleRequest(method0, endpoint0, params, body, decode).Err? ==>
              || HandleRequest(method0, endpoint0, params, body, decode).error == URI_MALFORMED
              || HandleRequest(method0, endpoint0, params, body, decode).error
                   == UnknownEndpoint(EffectiveMethod(method0), endpoint0.s)
    ensures HandleRequest(method0, endpoint0, params, body, decode) == Err(URI_MALFORMED) ==>
              exists x :: IsRestOfLine(x) && decode(x).None?
  {
    if endpoint0.Str? {
      var e := endpoint0.s;
      UnknownIsNotMalformed(EffectiveMethod(method0), e);
      var details := MatchRest(e, FAGGRUPPER_PREFIX);
      var list := MatchRest(e, FAGGRUPPE_PREFIX);
      if HandleRequest(method0, endpoint0, params, body, decode) == Err(URI_MALFORMED) {
        if details.Some? && decode(details.value).None? {
          assert IsRestOfLine(details.value);
        } else {
          assert list.Some? && decode(list.value).None?;
        }
      }
    }
  }
}
