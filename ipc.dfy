/** The `api-request` handler in full (main.js): the route chosen by
    `Router.HandleRequest`, then the database handler's call with the
    captured arguments. The by-id patterns capture digit text, which the
    INTEGER key column compares by its decimal value. */
module Ipc {
  import opened Wrappers
  import opened Text
  import opened Js
  import opened Sql
  import opened Schema
  import opened Queries
  import Handler
  import Router

  /** What a handler answers with on success. */
  datatype Reply =
    | Students(elever: seq<Elev>)
    | GroupNames(names: seq<string>)
    | Student(details: ElevDetails)
    | Subject(fag: Option<FagDetails>)
    | Members(members: seq<GroupMember>)
    | Created(created: Handler.CreatedElev)
    | NewRecordId(id: int)
    | Changes(changes: nat)
    | Wiped(cleared: Handler.Cleared)

  /** The row id a captured digit string names. */
  function RowId(digits: string): int
    requires IsDigits(digits)
  {
    DecimalValue(digits)
  }

  /** The page writes ids into paths with a template literal, and the
      route reads the same id back. */
  lemma RowIdOfRenderedId(id: nat)
    ensures IsDigits(IntToString(id)) && RowId(IntToString(id)) == id
  {
    NatToStringRoundTrip(id);
  }

  /** The routes that only read. */
  predicate IsRead(route: Router.Route) {
    route.GetElevById? || route.GetFaggruppeDetails? || route.GetEleverForFaggruppe?
    || route.GetElever? || route.GetFaggrupper?
  }

  /** A GET request, or one without a method, can only reach a read. */
  lemma GetOnlyReads(method0: JsValue, endpoint0: JsValue, params: Option<Obj>, body: Option<Obj>,
                     decode: string -> Option<string>)
    requires method0 == Str("GET") || method0.Undefined?
    ensures var route := Router.HandleRequest(method0, endpoint0, params, body, decode);
            route.Ok? ==> IsRead(route.value)
  {
  }

  /** No request creates or drops a table or moves the schema version. */
  twostate predicate SchemaKept(db: Database)
    reads db
  {
    && db.hasElever == old(db.hasElever) && db.hasTilrettelegginger == old(db.hasTilrettelegginger)
    && db.hasSequenceTable == old(db.hasSequenceTable) && db.userVersion == old(db.userVersion)
  }

  /** What a dispatched handler call does to the store, for the routes
      the student page sends. */
  twostate predicate DispatchEffect(db: Database, route: Router.Route, new r: Result<Reply>)
    requires Router.CapturesAreDigits(route)
    reads db
  {
    && (!IsRead(route) && !IsStudentWrite(route) ==> db.elever == old(db.elever))
    && (route.GetElevById? ==>
              if old(db.hasElever && db.hasTilrettelegginger) then
                var details := ElevById(db.elever, db.tilrettelegginger, RowId(route.id));
                r == if details.Ok? then Ok(Student(details.value)) else Err(details.error)
              else r.Err?)
    && (route.DeleteTilrettelegging? ==>
                && db.elever == old(db.elever)
                && (old(db.hasTilrettelegginger) ==>
                      db.tilrettelegginger == Handler.RemoveRecord(old(db.tilrettelegginger), RowId(route.id))))
    && (route.AddTilrettelegging? && route.body.Some? && old(db.hasElever && db.hasTilrettelegginger)
              && Handler.NewRecord(old(db.elever), old(db.tilrettelegginger), route.body.value).Ok? ==>
                && r.Ok?
                && db.tilrettelegginger
                     == old(db.tilrettelegginger) + [Handler.NewRecord(old(db.elever), old(db.tilrettelegginger),
                                                                      route.body.value).value])
    && (route.AddTilrettelegging?
        && !(route.body.Some? && old(db.hasElever && db.hasTilrettelegginger)
             && Handler.NewRecord(old(db.elever), old(db.tilrettelegginger), route.body.value).Ok?)
        ==> r.Err?)
    && (route.UpdateElev? && route.body.Some? && old(db.hasElever)
              && Get(route.body.value, "navn").Str? && Get(route.body.value, "klasse").Str? ==>
                && r.Ok?
                && db.elever == Handler.UpdateElevRow(old(db.elever), RowId(route.id),
                                                      Handler.FormatName(Get(route.body.value, "navn").s),
                                                      Some(Upper(Get(route.body.value, "klasse").s)))
                && db.tilrettelegginger == old(db.tilrettelegginger))
    && (route.UpdateElev?
        && !(route.body.Some? && old(db.hasElever)
             && Get(route.body.value, "navn").Str? && Get(route.body.value, "klasse").Str?)
        ==> r.Err?)
    && (route.UpdateTilrettelegging?
        && !(route.body.Some? && old(db.hasTilrettelegginger) && Handler.RecordUpdate(route.body.value).Ok?)
        ==> r.Err?)
    && (route.UpdateTilrettelegging? && old(db.hasTilrettelegginger)
              && route.body.Some? && Handler.RecordUpdate(route.body.value).Ok? ==>
                && r.Ok?
                && db.tilrettelegginger == Handler.UpdateRecord(old(db.tilrettelegginger), RowId(route.id),
                                                               Handler.RecordUpdate(route.body.value).value))
    && (route.BulkUpdateTilrettelegginger?
        && !(old(db.hasTilrettelegginger) && route.body.Some?
             && Handler.FlagColumnOf(Get(route.body.value, "field")).Some?)
        ==> r.Err?)
    && (route.BulkUpdateTilrettelegginger? && old(db.hasTilrettelegginger) && route.body.Some?
              && Handler.FlagColumnOf(Get(route.body.value, "field")).Some? ==>
                && r.Ok?
                && db.tilrettelegginger
                     == Handler.SetFlagForElev(old(db.tilrettelegginger), RowId(route.elevId),
                                               Handler.FlagColumnOf(Get(route.body.value, "field")).value,
                                               Bit(Get(route.body.value, "value"))))
    && (route.BulkUpdateKommentar?
        && !(old(db.hasTilrettelegginger) && route.body.Some? && !Get(route.body.value, "kommentar").Bool?)
        ==> r.Err?)
    && (route.BulkUpdateKommentar? && old(db.hasTilrettelegginger) && route.body.Some?
              && !Get(route.body.value, "kommentar").Bool? ==>
                && r.Ok?
                && db.tilrettelegginger
                     == Handler.SetKommentarForElev(old(db.tilrettelegginger), RowId(route.elevId),
                                                    Handler.StoredText(Get(route.body.value, "kommentar"))))
  }

  /** The routes that write the student table (and, by cascade or wipe,
      the records). */
  predicate IsStudentWrite(route: Router.Route) {
    route.AddElev? || route.DeleteElev? || route.UpdateElev? || route.ClearAllData?
  }

  /** The handler call for a read: nothing changes. */
  method DispatchRead(db: Database, route: Router.Route) returns (r: Result<Reply>)
    requires db.Valid() && Router.CapturesAreDigits(route) && IsRead(route)
    ensures DispatchEffect(db, route, r)
  {
    match route
    case GetElevById(id) =>
      var res := Handler.GetElevById(db, RowId(id));
      r := if res.Ok? then Ok(Student(res.value)) else Err(res.error);
    case GetFaggruppeDetails(navn) =>
      var res := Handler.GetFaggruppeDetails(db, navn);
      r := if res.Ok? then Ok(Subject(res.value)) else Err(res.error);
    case GetEleverForFaggruppe(navn) =>
      var res := Handler.GetEleverForFaggruppe(db, navn);
      r := if res.Ok? then Ok(Members(res.value)) else Err(res.error);
    case GetElever(sok) =>
      var res := Handler.GetElever(db, sok);
      r := if res.Ok? then Ok(Students(res.value)) else Err(res.error);
    case GetFaggrupper(sok) =>
      var res := Handler.GetFaggrupper(db, sok);
      r := if res.Ok? then Ok(GroupNames(res.value)) else Err(res.error);
  }

  /** The handler call for a write to the student table. */
  method DispatchStudentWrite(db: Database, route: Router.Route) returns (r: Result<Reply>)
    requires db.Valid() && Router.CapturesAreDigits(route) && IsStudentWrite(route)
    modifies db
    ensures db.Valid()
    ensures r.Err? ==> unchanged(db)
    ensures SchemaKept(db)
    ensures DispatchEffect(db, route, r)
  {
    match route
    case AddElev(b) =>
      var res := Handler.AddElev(db, b);
      r := if res.Ok? then Ok(Created(res.value)) else Err(res.error);
    case DeleteElev(id) =>
      var res := Handler.DeleteElev(db, RowId(id));
      r := if res.Ok? then Ok(Changes(res.value)) else Err(res.error);
    case ClearAllData =>
      var res := Handler.ClearAllData(db);
      r := if res.Ok? then Ok(Wiped(res.value)) else Err(res.error);
    case UpdateElev(id, b) =>
      var res := Handler.UpdateElev(db, RowId(id), b);
      r := if res.Ok? then Ok(Changes(res.value)) else Err(res.error);
  }

  /** The two bulk routes, which change every record of one student. */
  predicate IsBulkWrite(route: Router.Route) {
    route.BulkUpdateTilrettelegginger? || route.BulkUpdateKommentar?
  }

  /** The handler call for a bulk write to the record table. */
  method DispatchBulkWrite(db: Database, route: Router.Route) returns (r: Result<Reply>)
    requires db.Valid() && Router.CapturesAreDigits(route) && IsBulkWrite(route)
    modifies db
    ensures db.Valid()
    ensures r.Err? ==> unchanged(db)
    ensures SchemaKept(db)
    ensures DispatchEffect(db, route, r)
  {
    match route
    case BulkUpdateTilrettelegginger(elevId, b) =>
      var res := Handler.BulkUpdateTilrettelegginger(db, RowId(elevId), b);
      r := if res.Ok? then Ok(Changes(res.value)) else Err(res.error);
    case BulkUpdateKommentar(elevId, b) =>
      var res := Handler.BulkUpdateKommentar(db, RowId(elevId), b);
      r := if res.Ok? then Ok(Changes(res.value)) else Err(res.error);
  }

  /** The handler call for a write to one record. */
  method DispatchRecordWrite(db: Database, route: Router.Route) returns (r: Result<Reply>)
    requires db.Valid() && Router.CapturesAreDigits(route)
    requires !IsRead(route) && !IsStudentWrite(route) && !IsBulkWrite(route)
    modifies db
    ensures db.Valid()
    ensures r.Err? ==> unchanged(db)
    ensures SchemaKept(db)
    ensures DispatchEffect(db, route, r)
  {
    match route
    case AddTilrettelegging(b) =>
      var res := Handler.AddTilrettelegging(db, b);
      r := if res.Ok? then Ok(NewRecordId(res.value)) else Err(res.error);
    case DeleteTilrettelegging(id) =>
      var res := Handler.DeleteTilrettelegging(db, RowId(id));
      r := if res.Ok? then Ok(Changes(res.value)) else Err(res.error);
    case UpdateTilrettelegging(id, b) =>
      var res := Handler.UpdateTilrettelegging(db, RowId(id), b);
      r := if res.Ok? then Ok(Changes(res.value)) else Err(res.error);
  }

  /** The handler call for a route. A failed call changes nothing; reads
      change nothing at all. */
  method Dispatch(db: Database, route: Router.Route) returns (r: Result<Reply>)
    requires db.Valid() && Router.CapturesAreDigits(route)
    modifies db
    ensures db.Valid()
    ensures r.Err? ==> unchanged(db)
    ensures IsRead(route) ==> unchanged(db)
    ensures SchemaKept(db)
    ensures DispatchEffect(db, route, r)
  {
    if IsRead(route) {
      r := DispatchRead(db, route);
    } else if IsStudentWrite(route) {
      r := DispatchStudentWrite(db, route);
    } else if IsBulkWrite(route) {
      r := DispatchBulkWrite(db, route);
    } else {
      r := DispatchRecordWrite(db, route);
    }
  }

  /** `ipcMain.handle('api-request', ...)`: the route, then its handler
      call; a request that matches no route is answered with the router's
      error and changes nothing. */
  method ApiRequest(db: Database, method0: JsValue, endpoint0: JsValue, params: Option<Obj>, body: Option<Obj>,
                    decode: string -> Option<string>)
    returns (route: Result<Router.Route>, r: Result<Reply>)
    requires db.Valid()
    modifies db
    ensures db.Valid()
    ensures route == Router.HandleRequest(method0, endpoint0, params, body, decode)
    ensures r.Err? ==> unchanged(db)
    ensures route.Err? ==> r == Err(route.error)
    ensures route.Ok? ==> Router.CapturesAreDigits(route.value) && DispatchEffect(db, route.value, r)
    ensures route.Ok? && IsRead(route.value) ==> unchanged(db)
    ensures SchemaKept(db)
    ensures method0 == Str("GET") || method0.Undefined? ==> unchanged(db)
  {
    if method0 == Str("GET") || method0.Undefined? { GetOnlyReads(method0, endpoint0, params, body, decode); }
    route := Router.HandleRequest(method0, endpoint0, params, body, decode);
    if route.Err? { return route, Err(route.error); }
    r := Dispatch(db, route.value);
  }
}
