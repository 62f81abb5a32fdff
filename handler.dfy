/** The database handler (database-handler.js): one operation per request,
    over the store that `module.exports = function(db)` closes over. Each
    operation answers with its result or with `{ error: message }`, here a
    `Result`. Reads are tied to the query functions of `Queries`; writes
    are tied to the row transforms below, each of which keeps the table
    invariants. */
module Handler {
  import opened Wrappers
  import opened Text
  import opened Seqs
  import opened Js
  import opened Sql
  import opened Schema
  import opened Queries

  // -----------------------------------------------------------------------
  // Row ids
  // -----------------------------------------------------------------------

  function MaxOf(ids: seq<int>): (m: int)
    requires |ids| > 0
    ensures m in ids
    ensures forall i :: 0 <= i < |ids| ==> ids[i] <= m
    decreases |ids|
  {
    if |ids| == 1 then ids[0]
    else
      var m := MaxOf(ids[1..]);
      if ids[0] >= m then ids[0] else m
  }

  /** The row id SQLite gives a new row of a table without AUTOINCREMENT:
      one more than the largest row id, or 1 in an empty table. */
  function NextRowId(ids: seq<int>): (r: int)
    ensures forall i :: 0 <= i < |ids| ==> ids[i] < r
    ensures |ids| == 0 ==> r == 1
    ensures |ids| > 0 ==> r - 1 in ids
  {
    if |ids| == 0 then 1 else MaxOf(ids) + 1
  }

  function NextElevId(es: seq<Elev>): (id: int)
    ensures forall e :: e in es ==> e.elevId < id
  {
    var ids := MapSeq(es, ElevIdOf);
    assert forall i :: 0 <= i < |es| ==> ids[i] == es[i].elevId;
    NextRowId(ids)
  }

  function NextRecordId(ts: seq<Tilrettelegging>): (id: int)
    ensures forall t :: t in ts ==> t.tilretteleggingId < id
  {
    var ids := MapSeq(ts, RecordIdOf);
    assert forall i :: 0 <= i < |ts| ==> ids[i] == ts[i].tilretteleggingId;
    NextRowId(ids)
  }

  // -----------------------------------------------------------------------
  // addElev: INSERT INTO elever (navn, klasse) VALUES (?, ?)
  // -----------------------------------------------------------------------

  /** The text a TEXT column stores for a JavaScript argument that binds:
      a string as it is, a number in its textual form, nothing for `null`
      and `undefined`. */
  function StoredText(v: JsValue): (r: Option<string>)
    requires !v.Bool?
    ensures v.Str? ==> r == Some(v.s)
    ensures v.Num? ==> r == Some(IntToString(v.n) + ".0")
    ensures r.None? <==> v.Undefined? || v.Null?
  {
    TextColumn(Bind(v).value)
  }

  /** The row the insert adds, or the engine's error: a boolean argument
      does not bind, and a missing name violates NOT NULL. The new row has
      a row id above every existing one and stores both values as given. */
  function NewElev(es: seq<Elev>, navn: JsValue, klasse: JsValue): (r: Result<Elev>)
    ensures r.Err? <==> navn.Bool? || klasse.Bool? || navn.Undefined? || navn.Null?
    ensures r.Err? ==> r.error == if navn.Bool? || klasse.Bool? then BIND_ERROR else NotNullFailed("elever.navn")
    ensures r.Ok? ==> forall e :: e in es ==> e.elevId < r.value.elevId
    ensures r.Ok? ==> Some(r.value.navn) == StoredText(navn) && r.value.klasse == StoredText(klasse)
  {
    match (Bind(navn), Bind(klasse))
    case (Err(e), _) => Err(e)
    case (_, Err(e)) => Err(e)
    case (Ok(n), Ok(k)) =>
      match TextColumn(n)
      case None => Err(NotNullFailed("elever.navn"))
      case Some(s) => Ok(Elev(NextElevId(es), s, TextColumn(k)))
  }

  /** Adding a student keeps the tables valid. */
  lemma InsertElevKeepsValid(es: seq<Elev>, ts: seq<Tilrettelegging>, e: Elev)
    requires TablesValid(es, ts)
    requires forall x :: x in es ==> x.elevId < e.elevId
    ensures TablesValid(es + [e], ts)
  {
    AppendFreshUniqueBy(es, e, ElevIdOf);
    AppendFreshAscendingBy(es, e, ElevIdOf);
    assert ElevIds(es) <= ElevIds(es + [e]);
  }

  // -----------------------------------------------------------------------
  // deleteElev: DELETE FROM elever WHERE elev_id = ?, with ON DELETE CASCADE
  // -----------------------------------------------------------------------

  function RemoveElev(es: seq<Elev>, id: int): (r: seq<Elev>)
    ensures forall e :: e in r <==> e in es && e.elevId != id
  {
    FilterElements(es, KeyIsNot(ElevIdOf, id));
    assert forall e :: KeyIsNot(ElevIdOf, id)(e) == (e.elevId != id);
    Filter(es, KeyIsNot(ElevIdOf, id))
  }

  /** The cascade: the records of the deleted student go with it. */
  function CascadeRecords(ts: seq<Tilrettelegging>, id: int): (r: seq<Tilrettelegging>)
    ensures forall t :: t in r <==> t in ts && t.elevId != id
  {
    FilterElements(ts, KeyIsNot((t: Tilrettelegging) => t.elevId, id));
    Filter(ts, KeyIsNot((t: Tilrettelegging) => t.elevId, id))
  }

  /** Deleting a student and its records keeps the tables valid. */
  lemma DeleteElevKeepsValid(es: seq<Elev>, ts: seq<Tilrettelegging>, id: int)
    requires TablesValid(es, ts)
    ensures TablesValid(RemoveElev(es, id), CascadeRecords(ts, id))
  {
    FilterUniqueBy(es, KeyIsNot(ElevIdOf, id), ElevIdOf);
    FilterUniqueBy(ts, KeyIsNot((t: Tilrettelegging) => t.elevId, id), RecordIdOf);
    FilterAscendingBy(es, KeyIsNot(ElevIdOf, id), ElevIdOf);
    FilterAscendingBy(ts, KeyIsNot((t: Tilrettelegging) => t.elevId, id), RecordIdOf);
    var es', ts' := RemoveElev(es, id), CascadeRecords(ts, id);
    forall t | t in ts' ensures t.elevId in ElevIds(es') {
      var e :| e in es && e.elevId == t.elevId;
      assert e in es';
    }
  }

  /** The number of rows a delete or update keyed on a unique id reports:
      1 when the row exists, 0 otherwise. */
  lemma ChangesOfUniqueId<T>(s: seq<T>, key: T -> int, id: int)
    requires UniqueBy(s, key)
    ensures Count(s, KeyIs(key, id)) <= 1
    ensures Count(s, KeyIs(key, id)) == 1 <==> exists x :: x in s && key(x) == id
  {
    CountUniqueKey(s, key, id);
  }

  // -----------------------------------------------------------------------
  // addTilrettelegging
  // -----------------------------------------------------------------------

  /** The student a bound `elev_id` refers to once the INTEGER column has
      converted it: a number, or text of digits only. */
  function OwnerId(v: JsValue): Option<int> {
    match v
    case Num(n) => Some(n)
    case Str(s) => if IsDigits(s) then Some(DecimalValue(s)) else None
    case _ => None
  }

  predicate AnyBool(vs: seq<JsValue>) {
    exists i :: 0 <= i < |vs| && vs[i].Bool?
  }

  /** The record the insert adds, or the engine's error: a boolean among
      the four arguments does not bind, a missing `elev_id` violates NOT
      NULL, and one that names no student violates the foreign key. The
      new record has a fresh row id, belongs to that student, has all
      three flags off and the empty comment. */
  function NewRecord(es: seq<Elev>, ts: seq<Tilrettelegging>, data: Obj): (r: Result<Tilrettelegging>)
    ensures var args := [Get(data, "elev_id"), Get(data, "faggruppe_navn"), Get(data, "fagnavn"), Get(data, "lærer")];
            && (AnyBool(args) ==> r == Err(BIND_ERROR))
            && (!AnyBool(args) && (args[0].Undefined? || args[0].Null?) ==>
                  r == Err(NotNullFailed("tilrettelegginger.elev_id")))
            && (r.Ok? <==> !AnyBool(args) && OwnerId(args[0]).Some? && OwnerId(args[0]).value in ElevIds(es))
            && (r.Err? && !AnyBool(args) && !(args[0].Undefined? || args[0].Null?) ==> r.error == FOREIGN_KEY_FAILED)
            && (r.Ok? ==>
                  && r.value.elevId == OwnerId(args[0]).value
                  && r.value.faggruppeNavn == StoredText(args[1])
                  && r.value.fagnavn == StoredText(args[2])
                  && r.value.laerer == StoredText(args[3]))
    ensures r.Ok? ==> forall t :: t in ts ==> t.tilretteleggingId < r.value.tilretteleggingId
    ensures r.Ok? ==> r.value.ekstraTid == 0 && r.value.skjermetPlass == 0 && r.value.opplestOppgave == 0
    ensures r.Ok? ==> r.value.kommentar == Some("")
  {
    var args := [Get(data, "elev_id"), Get(data, "faggruppe_navn"), Get(data, "fagnavn"), Get(data, "lærer")];
    if Bind(args[0]).Err? || Bind(args[1]).Err? || Bind(args[2]).Err? || Bind(args[3]).Err? then
      Err(BIND_ERROR)
    else
      assert !AnyBool(args);
      match IntegerColumn(Bind(args[0]).value)
      case IntNull => Err(NotNullFailed("tilrettelegginger.elev_id"))
      case IntText(_) => Err(FOREIGN_KEY_FAILED)
      case IntValue(i) =>
        if i in ElevIds(es) then
          Ok(Tilrettelegging(NextRecordId(ts), i,
                             TextColumn(Bind(args[1]).value), TextColumn(Bind(args[2]).value),
                             TextColumn(Bind(args[3]).value), 0, 0, 0, Some("")))
        else Err(FOREIGN_KEY_FAILED)
  }

  /** Adding a record that refers to an existing student, with a fresh id
      and flags that are bits, keeps the tables valid. */
  lemma InsertRecordKeepsValid(es: seq<Elev>, ts: seq<Tilrettelegging>, t: Tilrettelegging)
    requires TablesValid(es, ts)
    requires forall x :: x in ts ==> x.tilretteleggingId < t.tilretteleggingId
    requires t.elevId in ElevIds(es) && HasBitFlags(t)
    ensures TablesValid(es, ts + [t])
  {
    AppendFreshUniqueBy(ts, t, RecordIdOf);
    AppendFreshAscendingBy(ts, t, RecordIdOf);
  }

  // -----------------------------------------------------------------------
  // deleteTilrettelegging: DELETE FROM tilrettelegginger WHERE tilrettelegging_id = ?
  // -----------------------------------------------------------------------

  function RemoveRecord(ts: seq<Tilrettelegging>, id: int): (r: seq<Tilrettelegging>)
    ensures forall t :: t in r <==> t in ts && t.tilretteleggingId != id
  {
    FilterElements(ts, KeyIsNot(RecordIdOf, id));
    assert forall t :: KeyIsNot(RecordIdOf, id)(t) == (t.tilretteleggingId != id);
    Filter(ts, KeyIsNot(RecordIdOf, id))
  }

  lemma RemoveRecordKeepsValid(es: seq<Elev>, ts: seq<Tilrettelegging>, id: int)
    requires TablesValid(es, ts)
    ensures TablesValid(es, RemoveRecord(ts, id))
  {
    FilterUniqueBy(ts, KeyIsNot(RecordIdOf, id), RecordIdOf);
    FilterAscendingBy(ts, KeyIsNot(RecordIdOf, id), RecordIdOf);
  }

  // -----------------------------------------------------------------------
  // Updates of records
  // -----------------------------------------------------------------------

  /** A record update that leaves ids and owners alone and writes bits to
      the flags keeps the tables valid. */
  lemma UpdateRecordsKeepsValid(es: seq<Elev>, ts: seq<Tilrettelegging>, f: Tilrettelegging -> Tilrettelegging)
    requires TablesValid(es, ts)
    requires forall t :: f(t).tilretteleggingId == t.tilretteleggingId && f(t).elevId == t.elevId
    requires forall t :: HasBitFlags(t) ==> HasBitFlags(f(t))
    ensures TablesValid(es, MapSeq(ts, f))
  {
    MapUniqueBy(ts, f, RecordIdOf);
    MapAscendingBy(ts, f, RecordIdOf);
    var r := MapSeq(ts, f);
    forall t | t in r ensures t.elevId in ElevIds(es) && HasBitFlags(t) {
      var i :| 0 <= i < |r| && r[i] == t;
      assert ts[i] in ts;
    }
  }

  /** The new values `updateTilrettelegging` writes: each flag as `v ? 1 :
      0`, the comment as bound. */
  datatype RecordChange = RecordChange(ekstraTid: int, skjermetPlass: int, opplestOppgave: int, kommentar: Option<string>)

  function RecordUpdate(data: Obj): (r: Result<RecordChange>)
    ensures r.Err? <==> Get(data, "kommentar").Bool?
    ensures r.Err? ==> r.error == BIND_ERROR
    ensures r.Ok? ==> && (r.value.ekstraTid == 1 <==> Truthy(Get(data, "ekstra_tid")))
                      && (r.value.skjermetPlass == 1 <==> Truthy(Get(data, "skjermet_plass")))
                      && (r.value.opplestOppgave == 1 <==> Truthy(Get(data, "opplest_oppgave")))
                      && IsBit(r.value.ekstraTid) && IsBit(r.value.skjermetPlass) && IsBit(r.value.opplestOppgave)
                      && r.value.kommentar == StoredText(Get(data, "kommentar"))
  {
    match Bind(Get(data, "kommentar"))
    case Err(e) => Err(e)
    case Ok(k) =>
      Ok(RecordChange(Bit(Get(data, "ekstra_tid")), Bit(Get(data, "skjermet_plass")),
                      Bit(Get(data, "opplest_oppgave")), TextColumn(k)))
  }

  function ApplyChange(id: int, c: RecordChange): Tilrettelegging -> Tilrettelegging {
    (t: Tilrettelegging) =>
      if t.tilretteleggingId == id
      then t.(ekstraTid := c.ekstraTid, skjermetPlass := c.skjermetPlass,
              opplestOppgave := c.opplestOppgave, kommentar := c.kommentar)
      else t
  }

  /** `UPDATE ... WHERE tilrettelegging_id = ?`: the record with the id
      takes the new flags and comment; every other record and every other
      column stays as it was. */
  function UpdateRecord(ts: seq<Tilrettelegging>, id: int, c: RecordChange): (r: seq<Tilrettelegging>)
    ensures |r| == |ts|
    ensures forall i :: 0 <= i < |ts| && ts[i].tilretteleggingId != id ==> r[i] == ts[i]
    ensures forall i :: 0 <= i < |ts| && ts[i].tilretteleggingId == id ==>
              r[i] == Tilrettelegging(id, ts[i].elevId, ts[i].faggruppeNavn, ts[i].fagnavn, ts[i].laerer,
                                      c.ekstraTid, c.skjermetPlass, c.opplestOppgave, c.kommentar)
  {
    MapSeq(ts, ApplyChange(id, c))
  }

  function SetFlagOf(elevId: int, c: FlagColumn, v: int): Tilrettelegging -> Tilrettelegging {
    (t: Tilrettelegging) => if t.elevId == elevId then WithFlag(t, c, v) else t
  }

  /** `UPDATE tilrettelegginger SET <field> = ? WHERE elev_id = ?`: every
      record of the student has the flag set, nothing else changes. */
  function SetFlagForElev(ts: seq<Tilrettelegging>, elevId: int, c: FlagColumn, v: int): (r: seq<Tilrettelegging>)
    ensures |r| == |ts|
    ensures forall i :: 0 <= i < |ts| && ts[i].elevId != elevId ==> r[i] == ts[i]
    ensures forall i :: 0 <= i < |ts| && ts[i].elevId == elevId ==>
              FlagOf(r[i], c) == v && (forall d :: d != c ==> FlagOf(r[i], d) == FlagOf(ts[i], d))
              && r[i].tilretteleggingId == ts[i].tilretteleggingId && r[i].elevId == elevId
              && r[i].faggruppeNavn == ts[i].faggruppeNavn && r[i].fagnavn == ts[i].fagnavn
              && r[i].laerer == ts[i].laerer && r[i].kommentar == ts[i].kommentar
  {
    MapSeq(ts, SetFlagOf(elevId, c, v))
  }

  function SetKommentarOf(elevId: int, k: Option<string>): Tilrettelegging -> Tilrettelegging {
    (t: Tilrettelegging) => if t.elevId == elevId then t.(kommentar := k) else t
  }

  /** `UPDATE tilrettelegginger SET kommentar = ? WHERE elev_id = ?`. */
  function SetKommentarForElev(ts: seq<Tilrettelegging>, elevId: int, k: Option<string>): (r: seq<Tilrettelegging>)
    ensures |r| == |ts|
    ensures forall i :: 0 <= i < |ts| && ts[i].elevId != elevId ==> r[i] == ts[i]
    ensures forall i :: 0 <= i < |ts| && ts[i].elevId == elevId ==> r[i] == ts[i].(kommentar := k)
  {
    MapSeq(ts, SetKommentarOf(elevId, k))
  }

  /** The whitelist of `bulkUpdateTilrettelegginger`: the flag a field
      name denotes, if it is one of the three. */
  function FlagColumnOf(field: JsValue): (r: Option<FlagColumn>)
    ensures r.Some? <==> field in {Str("ekstra_tid"), Str("skjermet_plass"), Str("opplest_oppgave")}
    ensures r.Some? ==> field == Str(ColumnName(r.value))
  {
    if field == Str("ekstra_tid") then Some(EkstraTid)
    else if field == Str("skjermet_plass") then Some(SkjermetPlass)
    else if field == Str("opplest_oppgave") then Some(OpplestOppgave)
    else None
  }

  const INVALID_FIELD := "Ugyldig felt for oppdatering."

  // -----------------------------------------------------------------------
  // updateElev: the name is capitalised word by word, the class upper-cased
  // -----------------------------------------------------------------------

  /** `n.charAt(0).toUpperCase() + n.slice(1).toLowerCase()`. */
  function Capitalize(w: string): (c: string)
    ensures |c| == |w|
    ensures |w| > 0 ==> c[0] == UpperChar(w[0])
    ensures forall i :: 1 <= i < |w| ==> c[i] == LowerChar(w[i])
  {
    if |w| == 0 then "" else Upper(w[..1]) + Lower(w[1..])
  }

  /** `navn.split(' ').map(capitalise).join(' ')`. */
  function FormatName(navn: string): string {
    Join(MapSeq(Split(navn, ' '), Capitalize), ' ')
  }

  lemma CapitalizeKeepsSpaces(w: string)
    ensures ' ' in Capitalize(w) <==> ' ' in w
  {
    var c := Capitalize(w);
    forall i | 0 <= i < |w| ensures c[i] == ' ' <==> w[i] == ' ' {}
    if ' ' in w { var i :| 0 <= i < |w| && w[i] == ' '; assert c[i] == ' '; }
    if ' ' in c { var i :| 0 <= i < |c| && c[i] == ' '; assert w[i] == ' '; }
  }

  lemma CapitalizeIdempotent(w: string)
    ensures Capitalize(Capitalize(w)) == Capitalize(w)
  {
  }

  /** The formatted name has the same words as the given one, each
      capitalised. */
  lemma FormatNameWords(navn: string)
    ensures Split(FormatName(navn), ' ') == MapSeq(Split(navn, ' '), Capitalize)
  {
    var parts := Split(navn, ' ');
    SplitParts(navn, ' ');
    var caps := MapSeq(parts, Capitalize);
    forall k | 0 <= k < |caps| ensures ' ' !in caps[k] {
      CapitalizeKeepsSpaces(parts[k]);
    }
    SplitJoin(caps, ' ');
  }

  /** Formatting a formatted name changes nothing. */
  lemma FormatNameIdempotent(navn: string)
    ensures FormatName(FormatName(navn)) == FormatName(navn)
  {
    FormatNameWords(navn);
    var parts := Split(navn, ' ');
    var caps := MapSeq(parts, Capitalize);
    forall k | 0 <= k < |caps| ensures MapSeq(caps, Capitalize)[k] == caps[k] {
      CapitalizeIdempotent(parts[k]);
    }
    assert MapSeq(caps, Capitalize) == caps;
  }

  function SetElevOf(id: int, navn: string, klasse: Option<string>): Elev -> Elev {
    (e: Elev) => if e.elevId == id then Elev(id, navn, klasse) else e
  }

  /** `UPDATE elever SET navn = ?, klasse = ? WHERE elev_id = ?`. */
  function UpdateElevRow(es: seq<Elev>, id: int, navn: string, klasse: Option<string>): (r: seq<Elev>)
    ensures |r| == |es|
    ensures forall i :: 0 <= i < |es| && es[i].elevId != id ==> r[i] == es[i]
    ensures forall i :: 0 <= i < |es| && es[i].elevId == id ==> r[i] == Elev(id, navn, klasse)
  {
    MapSeq(es, SetElevOf(id, navn, klasse))
  }

  /** After the update, a row carrying the id is the edited student. */
  lemma UpdatedElevIs(es: seq<Elev>, id: int, navn: string, klasse: Option<string>, e: Elev)
    requires e in UpdateElevRow(es, id, navn, klasse) && e.elevId == id
    ensures e == Elev(id, navn, klasse)
  {
    var r := UpdateElevRow(es, id, navn, klasse);
    var i :| 0 <= i < |r| && r[i] == e;
  }

  lemma UpdateElevRowKeepsValid(es: seq<Elev>, ts: seq<Tilrettelegging>, id: int, navn: string, klasse: Option<string>)
    requires TablesValid(es, ts)
    ensures TablesValid(UpdateElevRow(es, id, navn, klasse), ts)
  {
    var f := SetElevOf(id, navn, klasse);
    MapUniqueBy(es, f, ElevIdOf);
    MapAscendingBy(es, f, ElevIdOf);
    var r := UpdateElevRow(es, id, navn, klasse);
    forall x | x in es ensures x.elevId in ElevIds(r) {
      var i :| 0 <= i < |es| && es[i] == x;
      assert r[i] in r;
    }
  }

  // -----------------------------------------------------------------------
  // The operations over the store
  // -----------------------------------------------------------------------

  /** `getElever(sok = '')`: the default applies only to `undefined`. */
  method GetElever(db: Database, sok: JsValue) returns (r: Result<seq<Elev>>)
    requires db.Valid()
    ensures !db.hasElever ==> r == Err(NoSuchTable("elever"))
    ensures db.hasElever ==> r == Ok(SearchElever(db.elever, SearchPrefix(sok)))
  {
    if !db.hasElever { return Err(NoSuchTable("elever")); }
    r := Ok(SearchElever(db.elever, SearchPrefix(sok)));
  }

  method GetFaggrupper(db: Database, sok: JsValue) returns (r: Result<seq<string>>)
    requires db.Valid()
    ensures !db.hasTilrettelegginger ==> r == Err(NoSuchTable("tilrettelegginger"))
    ensures db.hasTilrettelegginger ==> r == Ok(SearchFaggrupper(db.tilrettelegginger, SearchPrefix(sok)))
  {
    if !db.hasTilrettelegginger { return Err(NoSuchTable("tilrettelegginger")); }
    r := Ok(SearchFaggrupper(db.tilrettelegginger, SearchPrefix(sok)));
  }

  /** The student is looked up first; the records only once it is found. */
  method GetElevById(db: Database, id: int) returns (r: Result<ElevDetails>)
    requires db.Valid()
    ensures !db.hasElever ==> r == Err(NoSuchTable("elever"))
    ensures db.hasElever && id !in ElevIds(db.elever) ==> r == Err(NOT_FOUND)
    ensures db.hasElever && id in ElevIds(db.elever) && !db.hasTilrettelegginger ==>
              r == Err(NoSuchTable("tilrettelegginger"))
    ensures db.hasElever && db.hasTilrettelegginger ==> r == ElevById(db.elever, db.tilrettelegginger, id)
  {
    if !db.hasElever { return Err(NoSuchTable("elever")); }
    if FindElev(db.elever, id).None? { return Err(NOT_FOUND); }
    if !db.hasTilrettelegginger { return Err(NoSuchTable("tilrettelegginger")); }
    r := ElevById(db.elever, db.tilrettelegginger, id);
  }

  /** `undefined` when no record has the group: `Ok(None)`. */
  method GetFaggruppeDetails(db: Database, navn: string) returns (r: Result<Option<FagDetails>>)
    requires db.Valid()
    ensures !db.hasTilrettelegginger ==> r == Err(NoSuchTable("tilrettelegginger"))
    ensures db.hasTilrettelegginger ==> r == Ok(FaggruppeDetails(db.tilrettelegginger, navn))
    ensures r.Ok? && r.value.Some? ==>
              exists t :: t in db.tilrettelegginger && t.faggruppeNavn == Some(navn)
                          && r.value.value == FagDetails(t.fagnavn, t.laerer)
                          && forall u :: u in db.tilrettelegginger && u.faggruppeNavn == Some(navn) ==>
                                           t.tilretteleggingId <= u.tilretteleggingId
  {
    if !db.hasTilrettelegginger { return Err(NoSuchTable("tilrettelegginger")); }
    FaggruppeDetailsLowestId(db.tilrettelegginger, navn);
    r := Ok(FaggruppeDetails(db.tilrettelegginger, navn));
  }

  method GetEleverForFaggruppe(db: Database, navn: string) returns (r: Result<seq<GroupMember>>)
    requires db.Valid()
    ensures !db.hasElever ==> r == Err(NoSuchTable("elever"))
    ensures db.hasElever && !db.hasTilrettelegginger ==> r == Err(NoSuchTable("tilrettelegginger"))
    ensures db.hasElever && db.hasTilrettelegginger ==>
              r == Ok(EleverForFaggruppe(db.elever, db.tilrettelegginger, navn))
  {
    if !db.hasElever { return Err(NoSuchTable("elever")); }
    if !db.hasTilrettelegginger { return Err(NoSuchTable("tilrettelegginger")); }
    r := Ok(EleverForFaggruppe(db.elever, db.tilrettelegginger, navn));
  }

  /** `{ id, navn, klasse }`: the new row id and the two values as passed. */
  datatype CreatedElev = CreatedElev(id: int, navn: JsValue, klasse: JsValue)

  /** `addElev({ navn, klasse })`. A missing body fails while destructuring
      the parameter; a missing table when the statement is prepared. */
  method AddElev(db: Database, body: Option<Obj>) returns (r: Result<CreatedElev>)
    requires db.Valid()
    modifies db
    ensures db.Valid()
    ensures r.Err? ==> unchanged(db)
    ensures body.None? ==> r == Err(DestructureError("navn", "undefined"))
    ensures body.Some? && !old(db.hasElever) ==> r == Err(NoSuchTable("elever"))
    ensures body.Some? && old(db.hasElever) ==>
              var navn, klasse := Get(body.value, "navn"), Get(body.value, "klasse");
              match NewElev(old(db.elever), navn, klasse)
              case Err(e) => r == Err(e)
              case Ok(row) =>
                && r == Ok(CreatedElev(row.elevId, navn, klasse))
                && db.elever == old(db.elever) + [row]
                && db.tilrettelegginger == old(db.tilrettelegginger)
    ensures db.hasElever == old(db.hasElever) && db.hasTilrettelegginger == old(db.hasTilrettelegginger)
    ensures db.hasSequenceTable == old(db.hasSequenceTable) && db.userVersion == old(db.userVersion)
  {
    if body.None? { return Err(DestructureError("navn", "undefined")); }
    var navn, klasse := Get(body.value, "navn"), Get(body.value, "klasse");
    if !db.hasElever { return Err(NoSuchTable("elever")); }
    var row := NewElev(db.elever, navn, klasse);
    if row.Err? { return Err(row.error); }
    InsertElevKeepsValid(db.elever, db.tilrettelegginger, row.value);
    db.elever := db.elever + [row.value];
    r := Ok(CreatedElev(row.value.elevId, navn, klasse));
  }

  /** `deleteElev(id)`: `{ changes }` counts the student row only, not the
      records the cascade removes with it. */
  method DeleteElev(db: Database, id: int) returns (r: Result<nat>)
    requires db.Valid()
    modifies db
    ensures db.Valid()
    ensures r.Err? ==> unchanged(db)
    ensures r.Err? <==> !old(db.hasElever)
    ensures r.Err? ==> r.error == NoSuchTable("elever")
    ensures r.Ok? ==> && r.value == (if id in ElevIds(old(db.elever)) then 1 else 0)
                      && db.elever == RemoveElev(old(db.elever), id)
                      && db.tilrettelegginger == CascadeRecords(old(db.tilrettelegginger), id)
    ensures db.hasElever == old(db.hasElever) && db.hasTilrettelegginger == old(db.hasTilrettelegginger)
    ensures db.hasSequenceTable == old(db.hasSequenceTable) && db.userVersion == old(db.userVersion)
  {
    if !db.hasElever { return Err(NoSuchTable("elever")); }
    ChangesOfUniqueId(db.elever, ElevIdOf, id);
    var changes := Count(db.elever, KeyIs(ElevIdOf, id));
    DeleteElevKeepsValid(db.elever, db.tilrettelegginger, id);
    db.elever, db.tilrettelegginger := RemoveElev(db.elever, id), CascadeRecords(db.tilrettelegginger, id);
    r := Ok(changes);
  }

  /** `addTilrettelegging(data)`: destructuring happens inside the handler,
      so a missing body is reported with the variable's name. */
  method AddTilrettelegging(db: Database, data: Option<Obj>) returns (r: Result<int>)
    requires db.Valid()
    modifies db
    ensures db.Valid()
    ensures r.Err? ==> unchanged(db)
    ensures data.None? ==> r == Err(DestructureError("elev_id", "data"))
    ensures data.Some? && !old(db.hasTilrettelegginger) ==> r == Err(NoSuchTable("tilrettelegginger"))
    ensures data.Some? && old(db.hasTilrettelegginger) && !old(db.hasElever) ==> r == Err(NoSuchTable("main.elever"))
    ensures data.Some? && old(db.hasTilrettelegginger) && old(db.hasElever) ==>
              match NewRecord(old(db.elever), old(db.tilrettelegginger), data.value)
              case Err(e) => r == Err(e)
              case Ok(row) =>
                && r == Ok(row.tilretteleggingId)
                && db.tilrettelegginger == old(db.tilrettelegginger) + [row]
                && db.elever == old(db.elever)
    ensures db.hasElever == old(db.hasElever) && db.hasTilrettelegginger == old(db.hasTilrettelegginger)
    ensures db.hasSequenceTable == old(db.hasSequenceTable) && db.userVersion == old(db.userVersion)
  {
    if data.None? { return Err(DestructureError("elev_id", "data")); }
    if !db.hasTilrettelegginger { return Err(NoSuchTable("tilrettelegginger")); }
    // The foreign key's parent table is resolved when the statement is prepared.
    if !db.hasElever { return Err(NoSuchTable("main.elever")); }
    var row := NewRecord(db.elever, db.tilrettelegginger, data.value);
    if row.Err? { return Err(row.error); }
    InsertRecordKeepsValid(db.elever, db.tilrettelegginger, row.value);
    db.tilrettelegginger := db.tilrettelegginger + [row.value];
    r := Ok(row.value.tilretteleggingId);
  }

  method DeleteTilrettelegging(db: Database, id: int) returns (r: Result<nat>)
    requires db.Valid()
    modifies db
    ensures db.Valid()
    ensures r.Err? ==> unchanged(db)
    ensures r.Err? <==> !old(db.hasTilrettelegginger)
    ensures r.Err? ==> r.error == NoSuchTable("tilrettelegginger")
    ensures r.Ok? ==> && r.value == (if exists t :: t in old(db.tilrettelegginger) && t.tilretteleggingId == id then 1 else 0)
                      && db.tilrettelegginger == RemoveRecord(old(db.tilrettelegginger), id)
                      && db.elever == old(db.elever)
    ensures db.hasElever == old(db.hasElever) && db.hasTilrettelegginger == old(db.hasTilrettelegginger)
    ensures db.hasSequenceTable == old(db.hasSequenceTable) && db.userVersion == old(db.userVersion)
  {
    if !db.hasTilrettelegginger { return Err(NoSuchTable("tilrettelegginger")); }
    ChangesOfUniqueId(db.tilrettelegginger, RecordIdOf, id);
    var changes := Count(db.tilrettelegginger, KeyIs(RecordIdOf, id));
    RemoveRecordKeepsValid(db.elever, db.tilrettelegginger, id);
    db.tilrettelegginger := RemoveRecord(db.tilrettelegginger, id);
    r := Ok(changes);
  }

  method UpdateTilrettelegging(db: Database, id: int, data: Option<Obj>) returns (r: Result<nat>)
    requires db.Valid()
    modifies db
    ensures db.Valid()
    ensures r.Err? ==> unchanged(db)
    ensures data.None? ==> r == Err(DestructureError("ekstra_tid", "data"))
    ensures data.Some? && !old(db.hasTilrettelegginger) ==> r == Err(NoSuchTable("tilrettelegginger"))
    ensures data.Some? && old(db.hasTilrettelegginger) ==>
              match RecordUpdate(data.value)
              case Err(e) => r == Err(e)
              case Ok(c) =>
                && r == Ok(if exists t :: t in old(db.tilrettelegginger) && t.tilretteleggingId == id then 1 else 0)
                && db.tilrettelegginger == UpdateRecord(old(db.tilrettelegginger), id, c)
                && db.elever == old(db.elever)
    ensures db.hasElever == old(db.hasElever) && db.hasTilrettelegginger == old(db.hasTilrettelegginger)
    ensures db.hasSequenceTable == old(db.hasSequenceTable) && db.userVersion == old(db.userVersion)
  {
    if data.None? { return Err(DestructureError("ekstra_tid", "data")); }
    if !db.hasTilrettelegginger { return Err(NoSuchTable("tilrettelegginger")); }
    var c := RecordUpdate(data.value);
    if c.Err? { return Err(c.error); }
    ChangesOfUniqueId(db.tilrettelegginger, RecordIdOf, id);
    var changes := Count(db.tilrettelegginger, KeyIs(RecordIdOf, id));
    UpdateRecordsKeepsValid(db.elever, db.tilrettelegginger, ApplyChange(id, c.value));
    db.tilrettelegginger := UpdateRecord(db.tilrettelegginger, id, c.value);
    r := Ok(changes);
  }

  /** `bulkUpdateTilrettelegginger(elevId, { field, value })`: the field
      must be one of the three flag columns; it is checked before the
      statement is prepared. */
  method BulkUpdateTilrettelegginger(db: Database, elevId: int, body: Option<Obj>) returns (r: Result<nat>)
    requires db.Valid()
    modifies db
    ensures db.Valid()
    ensures r.Err? ==> unchanged(db)
    ensures body.None? ==> r == Err(DestructureError("field", "undefined"))
    ensures body.Some? && FlagColumnOf(Get(body.value, "field")).None? ==> r == Err(INVALID_FIELD)
    ensures body.Some? && FlagColumnOf(Get(body.value, "field")).Some? && !old(db.hasTilrettelegginger) ==>
              r == Err(NoSuchTable("tilrettelegginger"))
    ensures body.Some? && FlagColumnOf(Get(body.value, "field")).Some? && old(db.hasTilrettelegginger) ==>
              && r == Ok(|RecordsOf(old(db.tilrettelegginger), elevId)|)
              && db.tilrettelegginger == SetFlagForElev(old(db.tilrettelegginger), elevId,
                                                        FlagColumnOf(Get(body.value, "field")).value,
                                                        Bit(Get(body.value, "value")))
              && db.elever == old(db.elever)
    ensures db.hasElever == old(db.hasElever) && db.hasTilrettelegginger == old(db.hasTilrettelegginger)
    ensures db.hasSequenceTable == old(db.hasSequenceTable) && db.userVersion == old(db.userVersion)
  {
    if body.None? { return Err(DestructureError("field", "undefined")); }
    var column := FlagColumnOf(Get(body.value, "field"));
    if column.None? { return Err(INVALID_FIELD); }
    if !db.hasTilrettelegginger { return Err(NoSuchTable("tilrettelegginger")); }
    var v := Bit(Get(body.value, "value"));
    FilterLength(db.tilrettelegginger, OwnedBy(elevId));
    var changes := Count(db.tilrettelegginger, OwnedBy(elevId));
    UpdateRecordsKeepsValid(db.elever, db.tilrettelegginger, SetFlagOf(elevId, column.value, v));
    db.tilrettelegginger := SetFlagForElev(db.tilrettelegginger, elevId, column.value, v);
    r := Ok(changes);
  }

  method BulkUpdateKommentar(db: Database, elevId: int, body: Option<Obj>) returns (r: Result<nat>)
    requires db.Valid()
    modifies db
    ensures db.Valid()
    ensures r.Err? ==> unchanged(db)
    ensures body.None? ==> r == Err(DestructureError("kommentar", "undefined"))
    ensures body.Some? && !old(db.hasTilrettelegginger) ==> r == Err(NoSuchTable("tilrettelegginger"))
    ensures body.Some? && old(db.hasTilrettelegginger) && Get(body.value, "kommentar").Bool? ==> r == Err(BIND_ERROR)
    ensures body.Some? && old(db.hasTilrettelegginger) && !Get(body.value, "kommentar").Bool? ==>
              && r == Ok(|RecordsOf(old(db.tilrettelegginger), elevId)|)
              && db.tilrettelegginger == SetKommentarForElev(old(db.tilrettelegginger), elevId,
                                                             StoredText(Get(body.value, "kommentar")))
              && db.elever == old(db.elever)
    ensures db.hasElever == old(db.hasElever) && db.hasTilrettelegginger == old(db.hasTilrettelegginger)
    ensures db.hasSequenceTable == old(db.hasSequenceTable) && db.userVersion == old(db.userVersion)
  {
    if body.None? { return Err(DestructureError("kommentar", "undefined")); }
    if !db.hasTilrettelegginger { return Err(NoSuchTable("tilrettelegginger")); }
    var kommentar := Get(body.value, "kommentar");
    if kommentar.Bool? { return Err(BIND_ERROR); }
    FilterLength(db.tilrettelegginger, OwnedBy(elevId));
    var changes := Count(db.tilrettelegginger, OwnedBy(elevId));
    UpdateRecordsKeepsValid(db.elever, db.tilrettelegginger, SetKommentarOf(elevId, StoredText(kommentar)));
    db.tilrettelegginger := SetKommentarForElev(db.tilrettelegginger, elevId, StoredText(kommentar));
    r := Ok(changes);
  }

  /** `updateElev(id, { navn, klasse })`: the name is formatted before the
      statement is prepared, the class is upper-cased while the arguments
      are evaluated, after it. */
  method UpdateElev(db: Database, id: int, body: Option<Obj>) returns (r: Result<nat>)
    requires db.Valid()
    modifies db
    ensures db.Valid()
    ensures r.Err? ==> unchanged(db)
    ensures body.None? ==> r == Err(DestructureError("navn", "undefined"))
    ensures body.Some? && !Get(body.value, "navn").Str? ==>
              r == Err(NotAStringError("navn", Get(body.value, "navn"), "split"))
    ensures body.Some? && Get(body.value, "navn").Str? && !old(db.hasElever) ==> r == Err(NoSuchTable("elever"))
    ensures body.Some? && Get(body.value, "navn").Str? && old(db.hasElever) && !Get(body.value, "klasse").Str? ==>
              r == Err(NotAStringError("klasse", Get(body.value, "klasse"), "toUpperCase"))
    ensures body.Some? && Get(body.value, "navn").Str? && old(db.hasElever) && Get(body.value, "klasse").Str? ==>
              && r == Ok(if id in ElevIds(old(db.elever)) then 1 else 0)
              && db.elever == UpdateElevRow(old(db.elever), id, FormatName(Get(body.value, "navn").s),
                                            Some(Upper(Get(body.value, "klasse").s)))
              && db.tilrettelegginger == old(db.tilrettelegginger)
    ensures db.hasElever == old(db.hasElever) && db.hasTilrettelegginger == old(db.hasTilrettelegginger)
    ensures db.hasSequenceTable == old(db.hasSequenceTable) && db.userVersion == old(db.userVersion)
  {
    if body.None? { return Err(DestructureError("navn", "undefined")); }
    var navn, klasse := Get(body.value, "navn"), Get(body.value, "klasse");
    if !navn.Str? { return Err(NotAStringError("navn", navn, "split")); }
    var formatted := FormatName(navn.s);
    if !db.hasElever { return Err(NoSuchTable("elever")); }
    if !klasse.Str? { return Err(NotAStringError("klasse", klasse, "toUpperCase")); }
    ChangesOfUniqueId(db.elever, ElevIdOf, id);
    var changes := Count(db.elever, KeyIs(ElevIdOf, id));
    UpdateElevRowKeepsValid(db.elever, db.tilrettelegginger, id, formatted, Some(Upper(klasse.s)));
    db.elever := UpdateElevRow(db.elever, id, formatted, Some(Upper(klasse.s)));
    r := Ok(changes);
  }

  // -----------------------------------------------------------------------
  // clearAllData
  // -----------------------------------------------------------------------

  /** `{ success: true, message }`. */
  datatype Cleared = Cleared(message: string)

  const CLEARED_MESSAGE := "All elevdata er slettet."

  /** `clearAllData`: in one transaction, delete every record, every
      student, and the row id counters in `sqlite_sequence`. A statement
      whose table is missing fails and the transaction rolls back, so the
      store is either emptied or left exactly as it was. */
  method ClearAllData(db: Database) returns (r: Result<Cleared>)
    requires db.Valid()
    modifies db
    ensures db.Valid()
    ensures r.Err? ==> unchanged(db)
    ensures r.Ok? <==> old(db.hasTilrettelegginger && db.hasElever && db.hasSequenceTable)
    ensures !old(db.hasTilrettelegginger) ==> r == Err(NoSuchTable("tilrettelegginger"))
    ensures old(db.hasTilrettelegginger) && !old(db.hasElever) ==> r == Err(NoSuchTable("elever"))
    ensures old(db.hasTilrettelegginger && db.hasElever) && !old(db.hasSequenceTable) ==>
              r == Err(NoSuchTable("sqlite_sequence"))
    ensures r.Ok? ==> r.value == Cleared(CLEARED_MESSAGE) && db.elever == [] && db.tilrettelegginger == []
    ensures db.hasElever == old(db.hasElever) && db.hasTilrettelegginger == old(db.hasTilrettelegginger)
    ensures db.hasSequenceTable == old(db.hasSequenceTable) && db.userVersion == old(db.userVersion)
  {
    // The transaction works on its own copy of the rows and commits at the end.
    var elever, tilrettelegginger := db.elever, db.tilrettelegginger;
    if !db.hasTilrettelegginger { return Err(NoSuchTable("tilrettelegginger")); }
    tilrettelegginger := [];
    if !db.hasElever { return Err(NoSuchTable("elever")); }
    elever := [];
    if !db.hasSequenceTable { return Err(NoSuchTable("sqlite_sequence")); }
    db.elever, db.tilrettelegginger := elever, tilrettelegginger;
    r := Ok(Cleared(CLEARED_MESSAGE));
  }

  /** The wipe as intended: it empties both tables whether or not the
      engine has created `sqlite_sequence`. */
  method ClearAllDataTolerant(db: Database) returns (r: Result<Cleared>)
    requires db.Valid()
    modifies db
    ensures db.Valid()
    ensures r.Err? ==> unchanged(db)
    ensures r.Ok? <==> old(db.hasTilrettelegginger && db.hasElever)
    ensures !old(db.hasTilrettelegginger) ==> r == Err(NoSuchTable("tilrettelegginger"))
    ensures old(db.hasTilrettelegginger) && !old(db.hasElever) ==> r == Err(NoSuchTable("elever"))
    ensures r.Ok? ==> r.value == Cleared(CLEARED_MESSAGE) && db.elever == [] && db.tilrettelegginger == []
    ensures db.hasElever == old(db.hasElever) && db.hasTilrettelegginger == old(db.hasTilrettelegginger)
    ensures db.hasSequenceTable == old(db.hasSequenceTable) && db.userVersion == old(db.userVersion)
  {
    var elever, tilrettelegginger := db.elever, db.tilrettelegginger;
    if !db.hasTilrettelegginger { return Err(NoSuchTable("tilrettelegginger")); }
    tilrettelegginger := [];
    if !db.hasElever { return Err(NoSuchTable("elever")); }
    elever := [];
    db.elever, db.tilrettelegginger := elever, tilrettelegginger;
    r := Ok(Cleared(CLEARED_MESSAGE));
  }

  /** The store as the program creates it: a new file, migrated. One
      student is added, then everything is wiped: the wipe fails on the
      counter table the schema never creates, and the student remains. */
  method WipeAfterMigration() returns (r: Result<Cleared>, remaining: nat)
    ensures r == Err(NoSuchTable("sqlite_sequence"))
    ensures remaining == 1
  {
    var db := new Database();
    var m := RunMigrations(db, NoFault);
    var added := AddElev(db, Some(map["navn" := Str("Ola Nordmann")]));
    r := ClearAllData(db);
    remaining := |db.elever|;
  }

  /** The same sequence with the corrected wipe empties the store. */
  method WipeAfterMigrationTolerant() returns (r: Result<Cleared>, remaining: nat)
    ensures r == Ok(Cleared(CLEARED_MESSAGE))
    ensures remaining == 0
  {
    var db := new Database();
    var m := RunMigrations(db, NoFault);
    var added := AddElev(db, Some(map["navn" := Str("Ola Nordmann")]));
    r := ClearAllDataTolerant(db);
    remaining := |db.elever|;
  }
}
