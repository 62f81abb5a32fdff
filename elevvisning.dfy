/** The student page (ElevvisningPage.jsx): the list of the student's
    records as row objects, the transformations its handlers apply to
    that list before the request goes out, the selection of records to
    delete, the "all checked" boxes and the guards in front of the
    requests. The page's list is compared with what a fetch of the
    student returns after the request has reached the store. */
module ElevvisningPage {
  import opened Wrappers
  import opened Text
  import opened Seqs
  import opened Js
  import opened Schema
  import opened Queries
  import Handler
  import Router
  import Ipc

  const ID := "tilrettelegging_id"
  const KOMMENTAR := "kommentar"

  // -----------------------------------------------------------------------
  // Rows
  // -----------------------------------------------------------------------

  /** A nullable text column as the row object carries it. */
  function TextValue(t: Option<string>): JsValue {
    if t.Some? then Str(t.value) else Null
  }

  /** The edit form as a fetch of the student fills it: their name and class. */
  function EditForm(e: Elev): Obj {
    map["navn" := Str(e.navn), "klasse" := TextValue(e.klasse)]
  }

  /** A record as `SELECT *` hands it to the page: one property per column. */
  function ToRow(t: Tilrettelegging): Obj {
    map["tilrettelegging_id" := Num(t.tilretteleggingId), "elev_id" := Num(t.elevId),
        "faggruppe_navn" := TextValue(t.faggruppeNavn), "fagnavn" := TextValue(t.fagnavn),
        "lærer" := TextValue(t.laerer), "ekstra_tid" := Num(t.ekstraTid),
        "skjermet_plass" := Num(t.skjermetPlass), "opplest_oppgave" := Num(t.opplestOppgave),
        "kommentar" := TextValue(t.kommentar)]
  }

  /** The list a fetch of the student puts on the page: `getElevById`'s
      records of the student, in its order, as row objects. */
  function StoreRows(ts: seq<Tilrettelegging>, elevId: int): seq<Obj> {
    MapSeq(SortBy(RecordsOf(ts, elevId), GroupKey), ToRow)
  }

  /** The records behind the fetched list are exactly the student's. */
  lemma StoreRecords(ts: seq<Tilrettelegging>, elevId: int)
    ensures forall t :: t in SortBy(RecordsOf(ts, elevId), GroupKey) <==> t in ts && t.elevId == elevId
  {
    FilterElements(ts, OwnedBy(elevId));
    var sorted := SortBy(RecordsOf(ts, elevId), GroupKey);
    assert forall t :: t in sorted <==> t in multiset(RecordsOf(ts, elevId));
  }

  // -----------------------------------------------------------------------
  // The single update (handleUpdateTilrettelegging)
  // -----------------------------------------------------------------------

  /** `typeof value === 'boolean' ? (value ? 1 : 0) : value`: a boolean
      becomes 1 or 0, anything else is kept, and truth is preserved. */
  function FinalValue(v: JsValue): (f: JsValue)
    ensures !f.Bool?
    ensures v.Bool? ==> f == Num(if v.b then 1 else 0)
    ensures !v.Bool? ==> f == v
    ensures Truthy(f) <==> Truthy(v)
  {
    if v.Bool? then Num(Bit(v)) else v
  }

  function UpdateIfId(id: JsValue, field: string, f: JsValue): Obj -> Obj {
    (t: Obj) => if Get(t, ID) == id then t[field := f] else t
  }

  /** `tilrettelegginger.map(t => t.tilrettelegging_id === id ? { ...t, [field]: finalValue } : t)`:
      the list keeps its length; the rows with the id have `field` set to
      the final value and every other property as it was; every other row
      is unchanged. */
  function OptimisticUpdate(rows: seq<Obj>, id: JsValue, field: string, value: JsValue): (r: seq<Obj>)
    ensures |r| == |rows|
    ensures forall i :: 0 <= i < |rows| && Get(rows[i], ID) != id ==> r[i] == rows[i]
    ensures forall i :: 0 <= i < |rows| && Get(rows[i], ID) == id ==>
              && Get(r[i], field) == FinalValue(value)
              && r[i].Keys == rows[i].Keys + {field}
              && forall k :: k != field ==> Get(r[i], k) == Get(rows[i], k)
  {
    MapSeq(rows, UpdateIfId(id, field, FinalValue(value)))
  }

  /** `Array.find` on the id: the first row that has it. */
  function FindById(rows: seq<Obj>, id: JsValue): (r: Option<Obj>)
    ensures r.None? <==> forall i :: 0 <= i < |rows| ==> Get(rows[i], ID) != id
    ensures r.Some? ==> exists i :: && 0 <= i < |rows| && rows[i] == r.value && Get(rows[i], ID) == id
                                    && forall j :: 0 <= j < i ==> Get(rows[j], ID) != id
    decreases |rows|
  {
    if |rows| == 0 then None
    else if Get(rows[0], ID) == id then
      assert rows[0] == rows[0];
      Some(rows[0])
    else
      var r := FindById(rows[1..], id);
      assert forall i :: 1 <= i < |rows| ==> rows[i] == rows[1..][i - 1];
      if r.Some? then
        var i :| && 0 <= i < |rows[1..]| && rows[1..][i] == r.value && Get(rows[1..][i], ID) == id
                 && forall j :: 0 <= j < i ==> Get(rows[1..][j], ID) != id;
        assert forall j :: 1 <= j < i + 1 ==> Get(rows[j], ID) != id;
        assert rows[i + 1] == r.value;
        r
      else r
  }

  /** The edits the table's controls make: a checkbox sends a flag name
      with the box's boolean, the comment dialog the comment as text. */
  predicate IsCellEdit(field: string, value: JsValue) {
    || (Handler.FlagColumnOf(Str(field)).Some? && value.Bool?)
    || (field == KOMMENTAR && value.Str?)
  }

  /** A flag set on a record is the same property set on its row. */
  lemma FlagRow(t: Tilrettelegging, c: FlagColumn, v: int)
    ensures ToRow(WithFlag(t, c, v)) == ToRow(t)[ColumnName(c) := Num(v)]
  {
    var u := WithFlag(t, c, v);
    assert ToRow(u).Keys == ToRow(t)[ColumnName(c) := Num(v)].Keys;
  }

  /** A comment stored on a record is the same property set on its row. */
  lemma KommentarRow(t: Tilrettelegging, k: string)
    ensures ToRow(t.(kommentar := Some(k))) == ToRow(t)[KOMMENTAR := Str(k)]
  {
    assert ToRow(t.(kommentar := Some(k))).Keys == ToRow(t)[KOMMENTAR := Str(k)].Keys;
  }

  /** The record as the edit means it. */
  function EditRecord(t: Tilrettelegging, field: string, value: JsValue): Tilrettelegging
    requires IsCellEdit(field, value)
  {
    match Handler.FlagColumnOf(Str(field))
    case Some(c) => WithFlag(t, c, Bit(value))
    case None => t.(kommentar := Some(value.s))
  }

  /** The edited row is the edited record's row. */
  lemma EditedRow(t: Tilrettelegging, field: string, value: JsValue)
    requires IsCellEdit(field, value)
    ensures ToRow(EditRecord(t, field, value)) == ToRow(t)[field := FinalValue(value)]
  {
    match Handler.FlagColumnOf(Str(field))
    case Some(c) => FlagRow(t, c, Bit(value));
    case None => KommentarRow(t, value.s);
  }

  /** A checkbox edit read back by `updateTilrettelegging`: the flag takes
      the box's bit and the other flags and the comment keep theirs. */
  lemma FlagEditUpdate(t: Tilrettelegging, c: FlagColumn, b: bool)
    requires HasBitFlags(t)
    ensures var u := Handler.RecordUpdate(ToRow(t)[ColumnName(c) := Num(Bit(Bool(b)))]);
            u.Ok? && Handler.ApplyChange(t.tilretteleggingId, u.value)(t) == WithFlag(t, c, Bit(Bool(b)))
  {
    var row := ToRow(t)[ColumnName(c) := Num(Bit(Bool(b)))];
    assert Get(row, KOMMENTAR) == TextValue(t.kommentar);
    var u := Handler.RecordUpdate(row).value;
    match c
    case EkstraTid =>
      assert u.skjermetPlass == t.skjermetPlass && u.opplestOppgave == t.opplestOppgave;
    case SkjermetPlass =>
      assert u.ekstraTid == t.ekstraTid && u.opplestOppgave == t.opplestOppgave;
    case OpplestOppgave =>
      assert u.ekstraTid == t.ekstraTid && u.skjermetPlass == t.skjermetPlass;
  }

  /** A comment edit read back by `updateTilrettelegging`: the comment
      takes the text and the flags keep theirs. */
  lemma KommentarEditUpdate(t: Tilrettelegging, k: string)
    requires HasBitFlags(t)
    ensures var u := Handler.RecordUpdate(ToRow(t)[KOMMENTAR := Str(k)]);
            u.Ok? && Handler.ApplyChange(t.tilretteleggingId, u.value)(t) == t.(kommentar := Some(k))
  {
    var row := ToRow(t)[KOMMENTAR := Str(k)];
    assert Get(row, KOMMENTAR) == Str(k);
    var u := Handler.RecordUpdate(row).value;
    assert u.ekstraTid == t.ekstraTid && u.skjermetPlass == t.skjermetPlass && u.opplestOppgave == t.opplestOppgave;
  }

  /** The row the page sends, read back by `updateTilrettelegging`, gives
      the edited record when the record's flags are bits. */
  lemma EditedRowUpdate(t: Tilrettelegging, field: string, value: JsValue)
    requires IsCellEdit(field, value) && HasBitFlags(t)
    ensures var u := Handler.RecordUpdate(ToRow(t)[field := FinalValue(value)]);
            u.Ok? && Handler.ApplyChange(t.tilretteleggingId, u.value)(t) == EditRecord(t, field, value)
  {
    match Handler.FlagColumnOf(Str(field))
    case Some(c) => FlagEditUpdate(t, c, value.b);
    case None => KommentarEditUpdate(t, value.s);
  }

  /** Any two records of a table with unique ids that share an id are the
      same record. */
  lemma SameIdSameRecord(ts: seq<Tilrettelegging>, t: Tilrettelegging, u: Tilrettelegging)
    requires UniqueRecordIds(ts) && t in ts && u in ts && t.tilretteleggingId == u.tilretteleggingId
    ensures t == u
  {
    var i :| 0 <= i < |ts| && ts[i] == t;
    var j :| 0 <= j < |ts| && ts[j] == u;
    assert RecordIdOf(ts[i]) == RecordIdOf(ts[j]);
  }

  /** A change of the records that keeps each record's owner and group
      shows on the fetched list as the same change of each listed record. */
  lemma StoreRowsAfterMap(ts: seq<Tilrettelegging>, elevId: int, f: Tilrettelegging -> Tilrettelegging)
    requires forall t :: f(t).elevId == t.elevId && f(t).faggruppeNavn == t.faggruppeNavn
    ensures StoreRows(MapSeq(ts, f), elevId) == MapSeq(MapSeq(SortBy(RecordsOf(ts, elevId), GroupKey), f), ToRow)
  {
    assert forall t :: OwnedBy(elevId)(f(t)) == OwnedBy(elevId)(t);
    FilterMapCommute(ts, OwnedBy(elevId), f);
    assert forall t :: GroupKey(f(t)) == GroupKey(t);
    SortByMapCommute(RecordsOf(ts, elevId), GroupKey, f);
  }

  /** The optimistic edit of the listed rows is the store's update of the
      listed records, when the change sent is the edit of the record with
      the id. */
  lemma EditShowsAsUpdate(ts: seq<Tilrettelegging>, sorted: seq<Tilrettelegging>, t0: Tilrettelegging,
                          field: string, value: JsValue, c: Handler.RecordChange)
    requires UniqueRecordIds(ts) && t0 in ts && forall t :: t in sorted ==> t in ts
    requires IsCellEdit(field, value)
    requires Handler.ApplyChange(t0.tilretteleggingId, c)(t0) == EditRecord(t0, field, value)
    ensures MapSeq(MapSeq(sorted, Handler.ApplyChange(t0.tilretteleggingId, c)), ToRow)
            == OptimisticUpdate(MapSeq(sorted, ToRow), Num(t0.tilretteleggingId), field, value)
  {
    var f := Handler.ApplyChange(t0.tilretteleggingId, c);
    var after := MapSeq(MapSeq(sorted, f), ToRow);
    var rows := MapSeq(sorted, ToRow);
    var updated := MapSeq(rows, UpdateIfId(Num(t0.tilretteleggingId), field, FinalValue(value)));
    forall i | 0 <= i < |sorted| ensures after[i] == updated[i] {
      var t := sorted[i];
      assert Get(rows[i], ID) == Num(t.tilretteleggingId);
      if t.tilretteleggingId == t0.tilretteleggingId {
        SameIdSameRecord(ts, t, t0);
        EditedRow(t0, field, value);
      }
    }
    assert after == updated;
  }

  lemma ChangeKeepsOwnerAndGroup(id: int, c: Handler.RecordChange)
    ensures forall t :: && Handler.ApplyChange(id, c)(t).elevId == t.elevId
                        && Handler.ApplyChange(id, c)(t).faggruppeNavn == t.faggruppeNavn
  {
  }

  /** The edit of a stored record, sent as its edited row, is accepted by
      `updateTilrettelegging`, and the store's update shows on the fetched
      list as the optimistic edit. */
  lemma EditOfRecordMatchesStore(ts: seq<Tilrettelegging>, elevId: int, t0: Tilrettelegging,
                                  field: string, value: JsValue)
    requires UniqueRecordIds(ts) && FlagsAreBits(ts) && t0 in ts
    requires IsCellEdit(field, value)
    ensures var u := Handler.RecordUpdate(ToRow(t0)[field := FinalValue(value)]);
            && u.Ok?
            && OptimisticUpdate(StoreRows(ts, elevId), Num(t0.tilretteleggingId), field, value)
               == StoreRows(Handler.UpdateRecord(ts, t0.tilretteleggingId, u.value), elevId)
  {
    var sorted := SortBy(RecordsOf(ts, elevId), GroupKey);
    StoreRecords(ts, elevId);
    EditedRowUpdate(t0, field, value);
    var c := Handler.RecordUpdate(ToRow(t0)[field := FinalValue(value)]).value;
    ChangeKeepsOwnerAndGroup(t0.tilretteleggingId, c);
    StoreRowsAfterMap(ts, elevId, Handler.ApplyChange(t0.tilretteleggingId, c));
    EditShowsAsUpdate(ts, sorted, t0, field, value, c);
  }

  /** The row the optimistic list holds at a position whose id matches. */
  lemma UpdatedRowAt(rows: seq<Obj>, id: JsValue, field: string, value: JsValue, i: nat)
    requires i < |rows| && Get(rows[i], ID) == id
    ensures OptimisticUpdate(rows, id, field, value)[i] == rows[i][field := FinalValue(value)]
  {
  }

  /** A row's id property is its record's id. */
  lemma RowIdOfRecord(t: Tilrettelegging)
    ensures Get(ToRow(t), ID) == Num(t.tilretteleggingId)
  {
  }

  /** The optimistic list keeps the ids of the fetched rows. */
  lemma UpdatedIds(ts: seq<Tilrettelegging>, elevId: int, id: int, field: string, value: JsValue)
    requires IsCellEdit(field, value)
    ensures var sorted := SortBy(RecordsOf(ts, elevId), GroupKey);
            var updated := OptimisticUpdate(StoreRows(ts, elevId), Num(id), field, value);
            && |updated| == |sorted|
            && forall i :: 0 <= i < |sorted| ==> Get(updated[i], ID) == Num(sorted[i].tilretteleggingId)
  {
    var sorted := SortBy(RecordsOf(ts, elevId), GroupKey);
    var rows := StoreRows(ts, elevId);
    var updated := OptimisticUpdate(rows, Num(id), field, value);
    assert field != ID;
    forall i | 0 <= i < |sorted| ensures Get(updated[i], ID) == Num(sorted[i].tilretteleggingId) {
      assert rows[i] == ToRow(sorted[i]);
      RowIdOfRecord(sorted[i]);
    }
  }

  /** With no row carrying the id, the optimistic list is the list. */
  lemma NoMatchNoChange(rows: seq<Obj>, id: JsValue, field: string, value: JsValue)
    requires field != ID
    requires FindById(OptimisticUpdate(rows, id, field, value), id).None?
    ensures OptimisticUpdate(rows, id, field, value) == rows
  {
    var updated := OptimisticUpdate(rows, id, field, value);
    assert forall i :: 0 <= i < |rows| ==> Get(updated[i], ID) == Get(rows[i], ID);
  }

  /** The row found in the optimistic list is the edit of a stored record. */
  lemma FoundRowMatchesStore(ts: seq<Tilrettelegging>, elevId: int, id: int, field: string, value: JsValue,
                             row: Obj)
    requires UniqueRecordIds(ts) && FlagsAreBits(ts)
    requires IsCellEdit(field, value)
    requires FindById(OptimisticUpdate(StoreRows(ts, elevId), Num(id), field, value), Num(id)) == Some(row)
    ensures Handler.RecordUpdate(row).Ok?
    ensures OptimisticUpdate(StoreRows(ts, elevId), Num(id), field, value)
            == StoreRows(Handler.UpdateRecord(ts, id, Handler.RecordUpdate(row).value), elevId)
  {
    var sorted := SortBy(RecordsOf(ts, elevId), GroupKey);
    var rows := StoreRows(ts, elevId);
    var updated := OptimisticUpdate(rows, Num(id), field, value);
    StoreRecords(ts, elevId);
    UpdatedIds(ts, elevId, id, field, value);
    var i0 :| 0 <= i0 < |updated| && updated[i0] == row && Get(updated[i0], ID) == Num(id);
    var t0 := sorted[i0];
    assert t0 in ts && t0.tilretteleggingId == id;
    assert rows[i0] == ToRow(t0);
    UpdatedRowAt(rows, Num(id), field, value, i0);
    EditOfRecordMatchesStore(ts, elevId, t0, field, value);
  }

  /** The single update agrees with the store. When no row of the list has
      the id, the list stays as it was and the request carries no body.
      Otherwise the row found and sent is accepted by
      `updateTilrettelegging`, and the optimistic list is exactly what a
      fetch shows once the store has applied it. */
  lemma OptimisticUpdateMatchesStore(ts: seq<Tilrettelegging>, elevId: int, id: int, field: string, value: JsValue)
    requires UniqueRecordIds(ts) && FlagsAreBits(ts)
    requires IsCellEdit(field, value)
    ensures var rows := StoreRows(ts, elevId);
            var updated := OptimisticUpdate(rows, Num(id), field, value);
            match FindById(updated, Num(id))
            case None => updated == rows
            case Some(row) =>
              && Handler.RecordUpdate(row).Ok?
              && updated == StoreRows(Handler.UpdateRecord(ts, id, Handler.RecordUpdate(row).value), elevId)
  {
    var rows := StoreRows(ts, elevId);
    var updated := OptimisticUpdate(rows, Num(id), field, value);
    match FindById(updated, Num(id))
    case None =>
      assert field != ID;
      NoMatchNoChange(rows, Num(id), field, value);
    case Some(row) =>
      FoundRowMatchesStore(ts, elevId, id, field, value, row);
  }

  // -----------------------------------------------------------------------
  // The bulk changes (handleGlobalTilretteleggingChange, handleGlobalKommentarSubmit)
  // -----------------------------------------------------------------------

  function SetField(field: string, v: JsValue): Obj -> Obj {
    (t: Obj) => t[field := v]
  }

  /** `tilrettelegginger.every(t => t[field] === 1)`: vacuously true for
      the empty list. */
  predicate AllChecked(rows: seq<Obj>, field: string) {
    forall i :: 0 <= i < |rows| ==> Get(rows[i], field) == Num(1)
  }

  /** `tilrettelegginger.map(t => ({ ...t, [field]: value ? 1 : 0 }))`:
      every row has `field` set to 1 or 0 by the value's truth and keeps
      every other property, so the box reads checked after a set to true
      and unchecked after a set to false on a non-empty list. */
  function GlobalFlagChange(rows: seq<Obj>, field: string, value: JsValue): (r: seq<Obj>)
    ensures |r| == |rows|
    ensures forall i :: 0 <= i < |rows| ==>
              && Get(r[i], field) == Num(if Truthy(value) then 1 else 0)
              && r[i].Keys == rows[i].Keys + {field}
              && forall k :: k != field ==> Get(r[i], k) == Get(rows[i], k)
    ensures Truthy(value) ==> AllChecked(r, field)
    ensures !Truthy(value) && |rows| > 0 ==> !AllChecked(r, field)
  {
    var r := MapSeq(rows, SetField(field, Num(Bit(value))));
    assert |rows| > 0 ==> Get(r[0], field) == Num(Bit(value));
    r
  }

  /** `tilrettelegginger.map(t => ({ ...t, kommentar: globalKommentar }))`:
      every row carries the comment and keeps every other property. */
  function GlobalKommentar(rows: seq<Obj>, kommentar: string): (r: seq<Obj>)
    ensures |r| == |rows|
    ensures forall i :: 0 <= i < |rows| ==>
              && Get(r[i], KOMMENTAR) == Str(kommentar)
              && r[i].Keys == rows[i].Keys + {KOMMENTAR}
              && forall k :: k != KOMMENTAR ==> Get(r[i], k) == Get(rows[i], k)
  {
    MapSeq(rows, SetField(KOMMENTAR, Str(kommentar)))
  }

  /** The bulk flag change agrees with the store: the optimistic list is
      what a fetch shows after `bulkUpdateTilrettelegginger` has set the
      flag to `value ? 1 : 0` on the student's records. */
  lemma GlobalFlagMatchesStore(ts: seq<Tilrettelegging>, elevId: int, c: FlagColumn, value: JsValue)
    ensures GlobalFlagChange(StoreRows(ts, elevId), ColumnName(c), value)
            == StoreRows(Handler.SetFlagForElev(ts, elevId, c, Bit(value)), elevId)
  {
    var sorted := SortBy(RecordsOf(ts, elevId), GroupKey);
    StoreRecords(ts, elevId);
    var f := Handler.SetFlagOf(elevId, c, Bit(value));
    StoreRowsAfterMap(ts, elevId, f);
    var after := MapSeq(MapSeq(sorted, f), ToRow);
    var rows := MapSeq(sorted, ToRow);
    var changed := MapSeq(rows, SetField(ColumnName(c), Num(Bit(value))));
    forall i | 0 <= i < |sorted| ensures after[i] == changed[i] {
      FlagRow(sorted[i], c, Bit(value));
    }
    assert after == changed;
  }

  /** The bulk comment agrees with the store: the optimistic list is what
      a fetch shows after `bulkUpdateKommentar` has stored the text on the
      student's records. */
  lemma GlobalKommentarMatchesStore(ts: seq<Tilrettelegging>, elevId: int, kommentar: string)
    ensures GlobalKommentar(StoreRows(ts, elevId), kommentar)
            == StoreRows(Handler.SetKommentarForElev(ts, elevId, Some(kommentar)), elevId)
  {
    var sorted := SortBy(RecordsOf(ts, elevId), GroupKey);
    StoreRecords(ts, elevId);
    var f := Handler.SetKommentarOf(elevId, Some(kommentar));
    StoreRowsAfterMap(ts, elevId, f);
    var after := MapSeq(MapSeq(sorted, f), ToRow);
    var rows := MapSeq(sorted, ToRow);
    var changed := MapSeq(rows, SetField(KOMMENTAR, Str(kommentar)));
    forall i | 0 <= i < |sorted| ensures after[i] == changed[i] {
      KommentarRow(sorted[i], kommentar);
    }
    assert after == changed;
  }

  /** A flag's property on a record's row holds the flag. */
  lemma FlagOfRow(t: Tilrettelegging, c: FlagColumn)
    ensures Get(ToRow(t), ColumnName(c)) == Num(FlagOf(t, c))
  {
    match c
    case EkstraTid =>
    case SkjermetPlass =>
    case OpplestOppgave =>
  }

  /** The "all checked" box of a flag on a fetched list is checked exactly
      when every record of the student has the flag set. */
  lemma AllCheckedOfStore(ts: seq<Tilrettelegging>, elevId: int, c: FlagColumn)
    ensures AllChecked(StoreRows(ts, elevId), ColumnName(c))
            <==> forall t :: t in ts && t.elevId == elevId ==> FlagOf(t, c) == 1
  {
    var sorted := SortBy(RecordsOf(ts, elevId), GroupKey);
    StoreRecords(ts, elevId);
    var rows := StoreRows(ts, elevId);
    assert |rows| == |sorted|;
    forall i | 0 <= i < |rows| ensures Get(rows[i], ColumnName(c)) == Num(FlagOf(sorted[i], c)) {
      assert rows[i] == ToRow(sorted[i]);
      FlagOfRow(sorted[i], c);
    }
    if AllChecked(rows, ColumnName(c)) {
      forall t | t in ts && t.elevId == elevId ensures FlagOf(t, c) == 1 {
        var i :| 0 <= i < |sorted| && sorted[i] == t;
        assert Get(rows[i], ColumnName(c)) == Num(1);
      }
    }
  }

  // -----------------------------------------------------------------------
  // The selection for deletion (handleSelectFagForDeletion)
  // -----------------------------------------------------------------------

  function IsNot(id: JsValue): JsValue -> bool {
    (x: JsValue) => x != id
  }

  /** `prev.includes(id) ? prev.filter(x => x !== id) : [...prev, id]`:
      a selected id is deselected, every other id keeps its state; an
      unselected id is appended. */
  function ToggleSelection(sel: seq<JsValue>, id: JsValue): (r: seq<JsValue>)
    ensures id in sel ==> forall x :: x in r <==> x in sel && x != id
    ensures id !in sel ==> r == sel + [id]
  {
    if id in sel then
      FilterElements(sel, IsNot(id));
      Filter(sel, IsNot(id))
    else sel + [id]
  }

  /** The selection never holds an id twice. */
  lemma ToggleKeepsNoDuplicates(sel: seq<JsValue>, id: JsValue)
    requires NoDuplicates(sel)
    ensures NoDuplicates(ToggleSelection(sel, id))
  {
    if id in sel {
      FilterNoDuplicates(sel, IsNot(id));
    }
  }

  /** Toggling twice restores the selection as a set, and restores it
      exactly when the id was not selected. */
  lemma ToggleTwice(sel: seq<JsValue>, id: JsValue)
    ensures forall x :: x in ToggleSelection(ToggleSelection(sel, id), id) <==> x in sel
    ensures id !in sel ==> ToggleSelection(ToggleSelection(sel, id), id) == sel
  {
    if id !in sel {
      FilterAppend(sel, [id], IsNot(id));
      FilterAll(sel, IsNot(id));
      assert Filter([id], IsNot(id)) == [];
    }
  }

  // -----------------------------------------------------------------------
  // The guards and the requests they let through
  // -----------------------------------------------------------------------

  /** A request as `window.api.sendRequest` receives it. */
  datatype Request = Request(httpMethod: string, endpoint: string, body: Option<Obj>)

  const EMPTY_NAME_OR_CLASS := "Navn og klasse kan ikke være tomme."
  const MISSING_GROUP := "Faggruppe-navn er påkrevd."

  /** `handleSaveChanges`: nothing is sent when the name or the class is
      empty; otherwise the edit goes out as the body of a PUT on the
      student's path. */
  function SaveChangesRequest(pageId: string, editData: Obj): (r: Option<Request>)
    ensures r.None? <==> !Truthy(Get(editData, "navn")) || !Truthy(Get(editData, "klasse"))
  {
    if !Truthy(Get(editData, "navn")) || !Truthy(Get(editData, "klasse")) then None
    else Some(Request("PUT", Router.ELEVER_PREFIX + pageId, Some(editData)))
  }

  /** `{ elev_id: elev.elev_id, ...nyttFagData }`. */
  function NewFagBody(elev: Elev, nyttFagData: Obj): Obj {
    map["elev_id" := Num(elev.elevId)] + nyttFagData
  }

  /** `handleAddFagSubmit`: nothing is sent without a student or with an
      empty group name; otherwise a POST on the record list. */
  function AddFagRequest(elev: Option<Elev>, nyttFagData: Obj): (r: Option<Request>)
    ensures r.None? <==> elev.None? || !Truthy(Get(nyttFagData, "faggruppe_navn"))
  {
    if elev.None? || !Truthy(Get(nyttFagData, "faggruppe_navn")) then None
    else Some(Request("POST", Router.TILRETTELEGGING, Some(NewFagBody(elev.value, nyttFagData))))
  }

  /** `handleDeleteClick`: the confirmation opens only for a non-empty
      selection. */
  function DeleteModalOpens(sel: seq<JsValue>, wasOpen: bool): (open: bool)
    ensures open <==> wasOpen || |sel| > 0
  {
    if |sel| > 0 then true else wasOpen
  }

  /** A saved edit reaches `updateElev` for the page's student, with the
      edit as its body. */
  lemma SaveChangesReachesUpdateElev(id: nat, editData: Obj, decode: string -> Option<string>)
    requires SaveChangesRequest(IntToString(id), editData).Some?
    ensures var q := SaveChangesRequest(IntToString(id), editData).value;
            && Router.HandleRequest(Str(q.httpMethod), Str(q.endpoint), None, q.body, decode)
                 == Ok(Router.UpdateElev(IntToString(id), Some(editData)))
            && Ipc.RowId(IntToString(id)) == id
  {
    Ipc.RowIdOfRenderedId(id);
    Router.ElevByIdRoutes(IntToString(id), None, Some(editData), decode);
  }

  /** A subject added from the page reaches `addTilrettelegging` with the
      form's body. */
  lemma AddFagRoutes(elev: Elev, nyttFagData: Obj, decode: string -> Option<string>)
    requires AddFagRequest(Some(elev), nyttFagData).Some?
    ensures var q := AddFagRequest(Some(elev), nyttFagData).value;
            Router.HandleRequest(Str(q.httpMethod), Str(q.endpoint), None, q.body, decode)
              == Ok(Router.AddTilrettelegging(Some(NewFagBody(elev, nyttFagData))))
  {
    Router.FixedRoutes(None, Some(NewFagBody(elev, nyttFagData)), decode);
  }

  /** For a student in the store whose form holds text, the store adds a
      record of that student with the form's group, subject and teacher. */
  lemma AddFagCreatesRecord(es: seq<Elev>, ts: seq<Tilrettelegging>, elev: Elev, nyttFagData: Obj)
    requires elev in es && "elev_id" !in nyttFagData
    requires !Get(nyttFagData, "faggruppe_navn").Bool?
    requires !Get(nyttFagData, "fagnavn").Bool? && !Get(nyttFagData, "lærer").Bool?
    ensures var t := Handler.NewRecord(es, ts, NewFagBody(elev, nyttFagData));
            && t.Ok? && t.value.elevId == elev.elevId
            && t.value.faggruppeNavn == Handler.StoredText(Get(nyttFagData, "faggruppe_navn"))
            && t.value.fagnavn == Handler.StoredText(Get(nyttFagData, "fagnavn"))
            && t.value.laerer == Handler.StoredText(Get(nyttFagData, "lærer"))
  {
    var body := NewFagBody(elev, nyttFagData);
    assert Get(body, "elev_id") == Num(elev.elevId);
    assert Get(body, "faggruppe_navn") == Get(nyttFagData, "faggruppe_navn");
    assert Get(body, "fagnavn") == Get(nyttFagData, "fagnavn");
    assert Get(body, "lærer") == Get(nyttFagData, "lærer");
    var args := [Get(body, "elev_id"), Get(body, "faggruppe_navn"), Get(body, "fagnavn"), Get(body, "lærer")];
    assert forall i :: 0 <= i < 4 ==> !args[i].Bool?;
  }

  // -----------------------------------------------------------------------
  // The page's state and handlers
  // -----------------------------------------------------------------------

  const LOAD_FAILED := "Kunne ikke laste elevdata."
  const SAVED := "Elevdata oppdatert!"
  const SAVE_FAILED := "Kunne ikke oppdatere elevdata."
  const ADDED := "Fag lagt til!"
  const ADD_FAILED := "Kunne ikke legge til fag."
  const DELETED := "Valgte fag er slettet!"

  /** The empty add-subject form. */
  const EMPTY_FAG_FORM: Obj := map["faggruppe_navn" := Str(""), "fagnavn" := Str(""), "lærer" := Str("")]

  /** The comment dialog's target: `{ id, kommentar }` of a row. */
  datatype EditingComment = EditingComment(id: JsValue, kommentar: JsValue)

  /** The record id a value names once written into
      `/api/tilrettelegging/${v}` and captured by `(\d+)`. */
  function PathRowId(v: JsValue): (r: Option<int>)
    ensures v.Num? && v.n >= 0 ==> r == Some(v.n)
    ensures v.Num? && v.n < 0 ==> r.None?
  {
    assert v.Num? && v.n >= 0 ==> IsDigits(IntToString(v.n)) && Ipc.RowId(IntToString(v.n)) == v.n by {
      if v.Num? && v.n >= 0 { Ipc.RowIdOfRenderedId(v.n); }
    }
    assert v.Num? && v.n < 0 ==> ToJsString(v)[0] == '-';
    var s := ToJsString(v);
    if IsDigits(s) then Some(Ipc.RowId(s)) else None
  }

  /** Some selected value names record `id`. */
  predicate Selected(sel: seq<JsValue>, id: int) {
    exists v :: v in sel && PathRowId(v) == Some(id)
  }

  /** A fetched student's records, as rows, are the store's list. */
  lemma FetchedRows(es: seq<Elev>, ts: seq<Tilrettelegging>, id: int)
    requires ElevById(es, ts, id).Ok?
    ensures MapSeq(ElevById(es, ts, id).value.tilrettelegginger, ToRow) == StoreRows(ts, id)
  {
  }

  /** The page for the student whose id is the route parameter `id`, with
      the store behind `window.api` and `decodeURIComponent` as `decode`. */
  class Page {
    const db: Database
    const id: string
    const decode: string -> Option<string>
    var elev: Option<Elev>
    var tilrettelegginger: seq<Obj>
    var loading: bool
    var error: string
    var message: string
    var editData: Obj
    var isEditing: bool
    var globalKommentar: string
    var nyttFagData: Obj
    var selectedFagForDeletion: seq<JsValue>
    var isDeleteModalOpen: bool
    var isCommentModalOpen: bool
    var currentEditingComment: Option<EditingComment>

    /** The initial state of every `useState`. */
    constructor (db: Database, id: string, decode: string -> Option<string>)
      ensures this.db == db && this.id == id && this.decode == decode
      ensures elev.None? && tilrettelegginger == [] && loading && error == "" && message == ""
      ensures editData == map["navn" := Str(""), "klasse" := Str("")] && !isEditing && globalKommentar == ""
      ensures nyttFagData == EMPTY_FAG_FORM && selectedFagForDeletion == [] && !isDeleteModalOpen
      ensures !isCommentModalOpen && currentEditingComment.None?
    {
      this.db, this.id, this.decode := db, id, decode;
      elev, tilrettelegginger, loading, error, message := None, [], true, "", "";
      editData, isEditing, globalKommentar := map["navn" := Str(""), "klasse" := Str("")], false, "";
      nyttFagData, selectedFagForDeletion, isDeleteModalOpen := EMPTY_FAG_FORM, [], false;
      isCommentModalOpen, currentEditingComment := false, None;
    }

    /** The list on the page is what a fetch of the student shows now. */
    ghost predicate ShowsStore()
      reads this, db
    {
      elev.Some? && tilrettelegginger == StoreRows(db.tilrettelegginger, elev.value.elevId)
    }

    /** The page shows the stored student the route parameter names, and the
        edit form holds their name and class. */
    ghost predicate ShowsStudent()
      reads this, db
    {
      && IsDigits(id) && elev.Some? && elev.value in db.elever && elev.value.elevId == Ipc.RowId(id)
      && editData == EditForm(elev.value)
    }

    /** The student the route parameter names is in the store. */
    ghost predicate StudentStored()
      reads this, db
    {
      IsDigits(id) && db.hasElever && db.hasTilrettelegginger && Ipc.RowId(id) in ElevIds(db.elever)
    }

    /** `updateElev` accepts `PUT /api/elever/${id}` with this body: the
        id is digits, the table exists, and name and class are text. */
    predicate SaveAccepted(data: Obj)
      reads db
    {
      IsDigits(id) && db.hasElever && Get(data, "navn").Str? && Get(data, "klasse").Str?
    }

    /** `addTilrettelegging` accepts this body. */
    predicate AddAccepted(body: Obj)
      reads db
    {
      db.hasElever && db.hasTilrettelegginger && Handler.NewRecord(db.elever, db.tilrettelegginger, body).Ok?
    }

    /** `updateTilrettelegging` accepts `PUT /api/tilrettelegging/${v}`
        with this body: the path names a record id, there is a body, the
        table exists and the body binds. */
    predicate UpdateAccepted(v: JsValue, body: Option<Obj>)
      reads db
    {
      PathRowId(v).Some? && body.Some? && db.hasTilrettelegginger && Handler.RecordUpdate(body.value).Ok?
    }

    /** `bulkUpdateTilrettelegginger` accepts the flag change of student
        `elevId`: the id renders as digits, the table exists, and the flag
        is on the whitelist. */
    predicate BulkFlagAccepted(elevId: int, field: string)
      reads db
    {
      elevId >= 0 && db.hasTilrettelegginger && Handler.FlagColumnOf(Str(field)).Some?
    }

    /** `bulkUpdateKommentar` accepts a text comment for student `elevId`. */
    predicate BulkKommentarAccepted(elevId: int)
      reads db
    {
      elevId >= 0 && db.hasTilrettelegginger
    }

    /** `GET /api/elever/${elevId}`: the student and its records exactly
        when the id is digits naming a stored student; the store is not
        touched. */
    method GetStudent(elevId: string) returns (r: Result<ElevDetails>)
      requires db.Valid()
      modifies db
      ensures unchanged(db)
      ensures r.Ok? <==> IsDigits(elevId) && db.hasElever && db.hasTilrettelegginger
                         && Ipc.RowId(elevId) in ElevIds(db.elever)
      ensures r.Ok? ==> r == ElevById(db.elever, db.tilrettelegginger, Ipc.RowId(elevId))
    {
      if IsDigits(elevId) {
        Router.ElevByIdRoutes(elevId, None, None, decode);
      } else {
        Router.NonDigitIdIsUnknown(elevId, None, None, decode);
      }
      var route, reply := Ipc.ApiRequest(db, Str("GET"), Str(Router.ELEVER_PREFIX + elevId), None, None, decode);
      r := if reply.Ok? && reply.value.Student? then Ok(reply.value.details)
           else if reply.Err? then Err(reply.error) else Err(LOAD_FAILED);
    }

    /** `fetchElevData(elevId)`: found, the student and its records replace
        the page's, so that the page shows the store; otherwise the page
        shows the load error and keeps what it had. The store is not
        touched, and any message is cleared. */
    method FetchElevData(elevId: string)
      requires db.Valid()
      modifies this`elev, this`tilrettelegginger, this`loading, this`error, this`message, this`editData, db
      ensures unchanged(db) && !loading
      ensures elevId == "" ==> unchanged(this`elev, this`tilrettelegginger, this`error, this`message, this`editData)
      ensures elevId != "" ==> message == ""
      ensures elevId != "" && IsDigits(elevId) && db.hasElever && db.hasTilrettelegginger
              && Ipc.RowId(elevId) in ElevIds(db.elever) ==>
                && ShowsStore() && error == ""
                && elev == Some(ElevById(db.elever, db.tilrettelegginger, Ipc.RowId(elevId)).value.elev)
                && elev.value in db.elever && elev.value.elevId == Ipc.RowId(elevId)
                && editData == EditForm(elev.value)
      ensures elevId != "" && !(IsDigits(elevId) && db.hasElever && db.hasTilrettelegginger
                                && Ipc.RowId(elevId) in ElevIds(db.elever)) ==>
                && error == LOAD_FAILED && elev == old(elev) && tilrettelegginger == old(tilrettelegginger)
                && editData == old(editData)
    {
      if elevId == "" {
        loading := false;
        return;
      }
      loading, message, error := true, "", "";
      var r := GetStudent(elevId);
      if r.Ok? {
        FetchedRows(db.elever, db.tilrettelegginger, Ipc.RowId(elevId));
        elev := Some(r.value.elev);
        tilrettelegginger := MapSeq(r.value.tilrettelegginger, ToRow);
        editData := EditForm(r.value.elev);
      } else {
        error := LOAD_FAILED;
      }
      loading := false;
    }

    /** The success paths of saving, adding and deleting as written: the
        message is set, then the page refetches, and the refetch clears the
        message in the same update. Once the page has an id, the message is
        lost. */
    method ShowThenRefresh(text: string)
      requires db.Valid()
      modifies this`elev, this`tilrettelegginger, this`loading, this`error, this`message, this`editData, db
      ensures unchanged(db) && !loading
      ensures id == "" ==> message == text
      ensures id != "" ==> message == ""
      ensures StudentStored() ==> ShowsStore() && ShowsStudent()
    {
      message := text;
      FetchElevData(id);
    }

    /** The order the messages evidently call for: refetch, then show the
        message, which now stays on the page. */
    method RefreshThenShow(text: string)
      requires db.Valid()
      modifies this`elev, this`tilrettelegginger, this`loading, this`error, this`message, this`editData, db
      ensures unchanged(db) && !loading
      ensures message == text
      ensures StudentStored() ==> ShowsStore() && ShowsStudent()
    {
      FetchElevData(id);
      message := text;
    }

    /** `handleSaveChanges`: with an empty name or class the page shows the
        error and sends nothing. Otherwise the edit is sent to
        `updateElev`, which stores the formatted name and the upper-cased
        class; on success the page refetches, which clears the message it
        has just set. */
    method HandleSaveChanges()
      requires db.Valid()
      modifies this`elev, this`tilrettelegginger, this`loading, this`error, this`message, this`editData
      modifies this`isEditing, db
      ensures db.Valid()
      ensures SaveChangesRequest(id, old(editData)).None? ==>
                && unchanged(db) && error == EMPTY_NAME_OR_CLASS
                && unchanged(this`elev, this`tilrettelegginger, this`message, this`editData, this`isEditing)
      ensures SaveChangesRequest(id, old(editData)).Some? && !old(SaveAccepted(editData)) ==>
                && unchanged(db) && error == SAVE_FAILED
                && unchanged(this`elev, this`tilrettelegginger, this`message, this`editData, this`isEditing)
      ensures var navn, klasse := Get(old(editData), "navn"), Get(old(editData), "klasse");
              SaveChangesRequest(id, old(editData)).Some? && old(SaveAccepted(editData)) ==>
                && db.elever == Handler.UpdateElevRow(old(db.elever), Ipc.RowId(id), Handler.FormatName(navn.s),
                                                      Some(Upper(klasse.s)))
                && db.tilrettelegginger == old(db.tilrettelegginger)
                && !isEditing && message == ""
                && (StudentStored() ==>
                      && ShowsStore() && ShowsStudent()
                      && elev.value == Elev(Ipc.RowId(id), Handler.FormatName(navn.s), Some(Upper(klasse.s))))
    {
      ghost var navn, klasse := Get(editData, "navn"), Get(editData, "klasse");
      var request := SaveChangesRequest(id, editData);
      if request.None? {
        error := EMPTY_NAME_OR_CLASS;
        return;
      }
      var ok := SendSave(editData);
      if ok {
        ShowThenRefresh(SAVED);
        isEditing := false;
        if StudentStored() {
          Handler.UpdatedElevIs(old(db.elever), Ipc.RowId(id), Handler.FormatName(navn.s), Some(Upper(klasse.s)), elev.value);
        }
      } else {
        error := SAVE_FAILED;
      }
    }

    /** `PUT /api/elever/${id}` with the edit: for a digit id and a name and
        class that are text, the store answers and the student's row takes
        the formatted name and the upper-cased class; a refused request
        changes nothing. */
    method SendSave(data: Obj) returns (ok: bool)
      requires db.Valid()
      modifies db
      ensures db.Valid() && Ipc.SchemaKept(db)
      ensures ok <==> old(SaveAccepted(data))
      ensures !ok ==> unchanged(db)
      ensures var navn, klasse := Get(data, "navn"), Get(data, "klasse");
              old(SaveAccepted(data)) ==>
                && db.elever == Handler.UpdateElevRow(old(db.elever), Ipc.RowId(id), Handler.FormatName(navn.s),
                                                      Some(Upper(klasse.s)))
                && db.tilrettelegginger == old(db.tilrettelegginger)
    {
      if IsDigits(id) {
        Router.ElevByIdRoutes(id, None, Some(data), decode);
      } else {
        Router.NonDigitIdIsUnknown(id, None, Some(data), decode);
      }
      var route, r := Ipc.ApiRequest(db, Str("PUT"), Str(Router.ELEVER_PREFIX + id), None, Some(data), decode);
      ok := r.Ok?;
    }

    /** `openCommentModal(t)`: the dialog opens on the row's id and comment. */
    method OpenCommentModal(row: Obj)
      modifies this`currentEditingComment, this`isCommentModalOpen
      ensures currentEditingComment == Some(EditingComment(Get(row, ID), Get(row, KOMMENTAR)))
      ensures isCommentModalOpen
    {
      currentEditingComment := Some(EditingComment(Get(row, ID), Get(row, KOMMENTAR)));
      isCommentModalOpen := true;
    }

    method CloseCommentModal()
      modifies this`currentEditingComment, this`isCommentModalOpen
      ensures currentEditingComment.None? && !isCommentModalOpen
    {
      isCommentModalOpen, currentEditingComment := false, None;
    }

    /** `handleUpdateTilrettelegging(id, field, value)`: the list takes the
        optimistic update at once, and the updated row is sent as the body:
        the store updates that record when it accepts the row, and changes
        nothing otherwise. On a list that shows the store, an edit made by
        the table's controls leaves the list showing the store. */
    method HandleUpdateTilrettelegging(tilretteleggingId: JsValue, field: string, value: JsValue)
      requires db.Valid()
      modifies this`tilrettelegginger, db
      ensures db.Valid() && db.elever == old(db.elever)
      ensures tilrettelegginger == OptimisticUpdate(old(tilrettelegginger), tilretteleggingId, field, value)
      ensures var sent := FindById(tilrettelegginger, tilretteleggingId);
              !old(UpdateAccepted(tilretteleggingId, sent)) ==> unchanged(db)
      ensures var sent := FindById(tilrettelegginger, tilretteleggingId);
              old(UpdateAccepted(tilretteleggingId, sent)) ==>
                db.tilrettelegginger == Handler.UpdateRecord(old(db.tilrettelegginger), PathRowId(tilretteleggingId).value,
                                                             Handler.RecordUpdate(sent.value).value)
      ensures old(ShowsStore()) && old(db.hasTilrettelegginger) && tilretteleggingId.Num? && tilretteleggingId.n >= 0
              && IsCellEdit(field, value)
              ==> ShowsStore()
    {
      ghost var before := ShowsStore();
      ghost var ts0 := db.tilrettelegginger;
      var updated := OptimisticUpdate(tilrettelegginger, tilretteleggingId, field, value);
      tilrettelegginger := updated;
      var updatedFag := FindById(updated, tilretteleggingId);
      if before && db.hasTilrettelegginger && tilretteleggingId.Num? && tilretteleggingId.n >= 0
         && IsCellEdit(field, value) {
        OptimisticUpdateMatchesStore(ts0, elev.value.elevId, tilretteleggingId.n, field, value);
        assert PathRowId(tilretteleggingId) == Some(tilretteleggingId.n);
      }
      SendUpdate(tilretteleggingId, updatedFag);
    }

    /** `PUT /api/tilrettelegging/${v}` with the body: an accepted request
        updates the record the path names, anything else changes nothing,
        and the students stay. */
    method SendUpdate(v: JsValue, body: Option<Obj>)
      requires db.Valid()
      modifies db
      ensures db.Valid() && Ipc.SchemaKept(db) && db.elever == old(db.elever)
      ensures !old(UpdateAccepted(v, body)) ==> unchanged(db)
      ensures old(UpdateAccepted(v, body)) ==>
                db.tilrettelegginger == Handler.UpdateRecord(old(db.tilrettelegginger), PathRowId(v).value,
                                                             Handler.RecordUpdate(body.value).value)
    {
      var s := ToJsString(v);
      if IsDigits(s) {
        Router.TilretteleggingRoutes(s, None, body, decode);
      } else {
        Router.NonDigitRecordPathIsUnknown(s, None, body, decode);
      }
      var route, r := Ipc.ApiRequest(db, Str("PUT"), Str(Router.TILRETTELEGGING_PREFIX + s), None, body, decode);
    }

    /** `handleSaveComment(newComment)`: the comment goes through the single
        update of the dialog's row, and the dialog closes. */
    method HandleSaveComment(newComment: string)
      requires db.Valid()
      modifies this`tilrettelegginger, this`currentEditingComment, this`isCommentModalOpen, db
      ensures db.Valid()
      ensures currentEditingComment.None? && !isCommentModalOpen
      ensures old(currentEditingComment).None? ==> unchanged(db) && tilrettelegginger == old(tilrettelegginger)
      ensures old(currentEditingComment).Some? ==>
                tilrettelegginger == OptimisticUpdate(old(tilrettelegginger), old(currentEditingComment).value.id,
                                                      KOMMENTAR, Str(newComment))
      ensures db.elever == old(db.elever)
      ensures old(currentEditingComment).Some? ==>
                var v := old(currentEditingComment).value.id;
                var sent := FindById(tilrettelegginger, v);
                && (!old(UpdateAccepted(v, sent)) ==> unchanged(db))
                && (old(UpdateAccepted(v, sent)) ==>
                      db.tilrettelegginger == Handler.UpdateRecord(old(db.tilrettelegginger), PathRowId(v).value,
                                                                   Handler.RecordUpdate(sent.value).value))
      ensures old(ShowsStore()) && old(db.hasTilrettelegginger) && old(currentEditingComment).Some?
              && old(currentEditingComment).value.id.Num? && old(currentEditingComment).value.id.n >= 0 ==>
                ShowsStore()
    {
      if currentEditingComment.Some? {
        HandleUpdateTilrettelegging(currentEditingComment.value.id, KOMMENTAR, Str(newComment));
      }
      CloseCommentModal();
    }

    /** `handleGlobalTilretteleggingChange(field, value)`: without a student
        nothing happens; otherwise every row takes the flag at once and the
        bulk update is sent. On a list that shows the store, a change of one
        of the three flags leaves the list showing the store. */
    method HandleGlobalTilretteleggingChange(field: string, value: JsValue)
      requires db.Valid()
      modifies this`tilrettelegginger, db
      ensures db.Valid()
      ensures elev.None? ==> unchanged(db) && tilrettelegginger == old(tilrettelegginger)
      ensures elev.Some? ==> tilrettelegginger == GlobalFlagChange(old(tilrettelegginger), field, value)
      ensures db.elever == old(db.elever)
      ensures elev.Some? && !old(BulkFlagAccepted(elev.value.elevId, field)) ==> unchanged(db)
      ensures elev.Some? && old(BulkFlagAccepted(elev.value.elevId, field)) ==>
                db.tilrettelegginger
                  == Handler.SetFlagForElev(old(db.tilrettelegginger), elev.value.elevId,
                                            Handler.FlagColumnOf(Str(field)).value, Bit(value))
      ensures old(ShowsStore()) && old(db.hasTilrettelegginger) && elev.value.elevId >= 0
              && Handler.FlagColumnOf(Str(field)).Some?
              ==> ShowsStore()
    {
      if elev.None? { return; }
      ghost var before := ShowsStore();
      ghost var ts0 := db.tilrettelegginger;
      var elevId := elev.value.elevId;
      tilrettelegginger := GlobalFlagChange(tilrettelegginger, field, value);
      if before && db.hasTilrettelegginger && elevId >= 0 && Handler.FlagColumnOf(Str(field)).Some? {
        GlobalFlagMatchesStore(ts0, elevId, Handler.FlagColumnOf(Str(field)).value, value);
      }
      SendBulkFlag(elevId, field, value);
    }

    /** `POST /api/elever/${elevId}/bulk-update-tilrettelegginger` with the
        flag and its value: when accepted, every record of the student takes
        the flag's bit; otherwise nothing changes. The students stay. */
    method SendBulkFlag(elevId: int, field: string, value: JsValue)
      requires db.Valid()
      modifies db
      ensures db.Valid() && Ipc.SchemaKept(db) && db.elever == old(db.elever)
      ensures !old(BulkFlagAccepted(elevId, field)) ==> unchanged(db)
      ensures old(BulkFlagAccepted(elevId, field)) ==>
                db.tilrettelegginger
                  == Handler.SetFlagForElev(old(db.tilrettelegginger), elevId,
                                            Handler.FlagColumnOf(Str(field)).value, Bit(value))
    {
      var body := map["field" := Str(field), "value" := value];
      var endpoint := Router.ELEVER_PREFIX + ToJsString(Num(elevId)) + Router.BULK_FLAG_SUFFIX;
      if elevId >= 0 {
        var d := IntToString(elevId);
        assert endpoint == Router.ELEVER_PREFIX + d + Router.BULK_FLAG_SUFFIX;
        Ipc.RowIdOfRenderedId(elevId);
        Router.BulkRoutes(d, None, Some(body), decode);
        assert Get(body, "field") == Str(field) && Get(body, "value") == value;
        var r := SendRouted(Str("POST"), endpoint, Some(body), Router.BulkUpdateTilrettelegginger(d, Some(body)));
      } else {
        SendNegativeBulk(elevId, Router.BULK_FLAG_SUFFIX, body);
      }
    }

    /** `handleGlobalKommentarSubmit`: without a student nothing happens;
        otherwise every row takes the comment at once and the bulk update is
        sent. On a list that shows the store, the list keeps showing it. */
    method HandleGlobalKommentarSubmit()
      requires db.Valid()
      modifies this`tilrettelegginger, db
      ensures db.Valid()
      ensures elev.None? ==> unchanged(db) && tilrettelegginger == old(tilrettelegginger)
      ensures elev.Some? ==> tilrettelegginger == GlobalKommentar(old(tilrettelegginger), globalKommentar)
      ensures db.elever == old(db.elever)
      ensures elev.Some? && !old(BulkKommentarAccepted(elev.value.elevId)) ==> unchanged(db)
      ensures elev.Some? && old(BulkKommentarAccepted(elev.value.elevId)) ==>
                db.tilrettelegginger
                  == Handler.SetKommentarForElev(old(db.tilrettelegginger), elev.value.elevId, Some(globalKommentar))
      ensures old(ShowsStore()) && old(db.hasTilrettelegginger) && elev.value.elevId >= 0 ==> ShowsStore()
    {
      if elev.None? { return; }
      ghost var before := ShowsStore();
      ghost var ts0 := db.tilrettelegginger;
      var elevId := elev.value.elevId;
      tilrettelegginger := GlobalKommentar(tilrettelegginger, globalKommentar);
      if before && db.hasTilrettelegginger && elevId >= 0 {
        GlobalKommentarMatchesStore(ts0, elevId, globalKommentar);
      }
      SendBulkKommentar(elevId, globalKommentar);
    }

    /** `POST /api/elever/${elevId}/bulk-update-kommentar` with the text:
        when accepted, every record of the student takes the comment;
        otherwise nothing changes. The students stay. */
    method SendBulkKommentar(elevId: int, kommentar: string)
      requires db.Valid()
      modifies db
      ensures db.Valid() && Ipc.SchemaKept(db) && db.elever == old(db.elever)
      ensures !old(BulkKommentarAccepted(elevId)) ==> unchanged(db)
      ensures old(BulkKommentarAccepted(elevId)) ==>
                db.tilrettelegginger
                  == Handler.SetKommentarForElev(old(db.tilrettelegginger), elevId, Some(kommentar))
    {
      var body := map[KOMMENTAR := Str(kommentar)];
      var endpoint := Router.ELEVER_PREFIX + ToJsString(Num(elevId)) + Router.BULK_KOMMENTAR_SUFFIX;
      if elevId >= 0 {
        var d := IntToString(elevId);
        assert endpoint == Router.ELEVER_PREFIX + d + Router.BULK_KOMMENTAR_SUFFIX;
        Ipc.RowIdOfRenderedId(elevId);
        Router.BulkRoutes(d, None, Some(body), decode);
        assert Get(body, "kommentar") == Str(kommentar);
        assert Handler.StoredText(Str(kommentar)) == Some(kommentar);
        var r := SendRouted(Str("POST"), endpoint, Some(body), Router.BulkUpdateKommentar(d, Some(body)));
      } else {
        SendNegativeBulk(elevId, Router.BULK_KOMMENTAR_SUFFIX, body);
      }
    }

    /** A request the router resolves to `route` changes the store as the
        handler behind that route does. */
    method SendRouted(method0: JsValue, endpoint: string, body: Option<Obj>, ghost route: Router.Route)
      returns (r: Result<Ipc.Reply>)
      requires db.Valid()
      requires Router.HandleRequest(method0, Str(endpoint), None, body, decode) == Ok(route)
      modifies db
      ensures db.Valid() && Ipc.SchemaKept(db)
      ensures Router.CapturesAreDigits(route) && Ipc.DispatchEffect(db, route, r)
      ensures r.Err? ==> unchanged(db)
    {
      var route', r' := Ipc.ApiRequest(db, method0, Str(endpoint), None, body, decode);
      r := r';
    }

    /** A bulk request for a negative student id reaches no route, since
        the captured id must be digits, and leaves the store as it was. */
    method SendNegativeBulk(elevId: int, suffix: string, body: Obj)
      requires db.Valid() && elevId < 0
      requires suffix == Router.BULK_FLAG_SUFFIX || suffix == Router.BULK_KOMMENTAR_SUFFIX
      modifies db
      ensures db.Valid() && unchanged(db)
    {
      var d := IntToString(elevId);
      assert d[0] == '-';
      Router.NonDigitBulkIsUnknown(d, suffix, None, Some(body), decode);
      var route, r := Ipc.ApiRequest(db, Str("POST"), Str(Router.ELEVER_PREFIX + d + suffix), None, Some(body), decode);
    }

    /** `handleAddFagSubmit`: without a student or a group name the page
        shows the error and sends nothing. Otherwise the form goes to
        `addTilrettelegging` with the student's id; for a stored student
        the store appends the new record, and the form is reset. */
    method HandleAddFagSubmit()
      requires db.Valid()
      modifies this`elev, this`tilrettelegginger, this`loading, this`error, this`message, this`editData
      modifies this`nyttFagData, db
      ensures db.Valid()
      ensures AddFagRequest(old(elev), old(nyttFagData)).None? ==>
                && unchanged(db) && error == MISSING_GROUP
                && unchanged(this`elev, this`tilrettelegginger, this`message, this`nyttFagData)
      ensures AddFagRequest(old(elev), old(nyttFagData)).Some?
              && !old(AddAccepted(NewFagBody(elev.value, nyttFagData))) ==>
                && unchanged(db) && error == ADD_FAILED
                && unchanged(this`elev, this`tilrettelegginger, this`message, this`nyttFagData)
      ensures AddFagRequest(old(elev), old(nyttFagData)).Some?
              && old(AddAccepted(NewFagBody(elev.value, nyttFagData))) ==>
                && db.tilrettelegginger
                     == old(db.tilrettelegginger) + [Handler.NewRecord(old(db.elever), old(db.tilrettelegginger),
                                                                      NewFagBody(old(elev).value, old(nyttFagData))).value]
                && db.elever == old(db.elever)
                && nyttFagData == EMPTY_FAG_FORM
                && (id != "" ==> message == "")
                && (StudentStored() ==> ShowsStore())
    {
      var request := AddFagRequest(elev, nyttFagData);
      if request.None? {
        error := MISSING_GROUP;
        return;
      }
      var ok := SendAddFag(NewFagBody(elev.value, nyttFagData));
      if ok {
        nyttFagData := EMPTY_FAG_FORM;
        ShowThenRefresh(ADDED);
      } else {
        error := ADD_FAILED;
      }
    }

    /** `POST /api/tilrettelegging` with the form's body: when the store
        accepts the body, it gains the new record and nothing else; a
        refused request changes nothing. */
    method SendAddFag(body: Obj) returns (ok: bool)
      requires db.Valid()
      modifies db
      ensures db.Valid() && Ipc.SchemaKept(db)
      ensures ok <==> old(AddAccepted(body))
      ensures !ok ==> unchanged(db)
      ensures old(AddAccepted(body)) ==>
                && db.tilrettelegginger
                     == old(db.tilrettelegginger) + [Handler.NewRecord(old(db.elever), old(db.tilrettelegginger),
                                                                      body).value]
                && db.elever == old(db.elever)
    {
      Router.FixedRoutes(None, Some(body), decode);
      var route, r := Ipc.ApiRequest(db, Str("POST"), Str(Router.TILRETTELEGGING), None, Some(body), decode);
      ok := r.Ok?;
    }

    /** `handleSelectFagForDeletion(fagId)`. */
    method HandleSelectFagForDeletion(fagId: JsValue)
      modifies this`selectedFagForDeletion
      ensures selectedFagForDeletion == ToggleSelection(old(selectedFagForDeletion), fagId)
    {
      selectedFagForDeletion := ToggleSelection(selectedFagForDeletion, fagId);
    }

    /** `handleDeleteClick`. */
    method HandleDeleteClick()
      modifies this`isDeleteModalOpen
      ensures isDeleteModalOpen == DeleteModalOpens(selectedFagForDeletion, old(isDeleteModalOpen))
    {
      if |selectedFagForDeletion| > 0 {
        isDeleteModalOpen := true;
      }
    }

    /** `DELETE /api/tilrettelegging/${fagId}`: the record the path names
        is gone, and nothing else changes. */
    method SendDelete(fagId: JsValue)
      requires db.Valid()
      modifies db
      ensures db.Valid() && db.elever == old(db.elever) && Ipc.SchemaKept(db)
      ensures forall t :: t in db.tilrettelegginger <==>
                t in old(db.tilrettelegginger) && PathRowId(fagId) != Some(t.tilretteleggingId)
    {
      var s := ToJsString(fagId);
      if IsDigits(s) {
        Router.TilretteleggingRoutes(s, None, None, decode);
      } else {
        Router.NonDigitRecordPathIsUnknown(s, None, None, decode);
      }
      var route, r := Ipc.ApiRequest(db, Str("DELETE"), Str(Router.TILRETTELEGGING_PREFIX + s), None, None, decode);
    }

    /** `confirmDeletion`: one DELETE per selected id, in order; then the
        selection is cleared, the dialog closes and the page refetches,
        which clears the message it has just set. The records the selection
        names are gone and every other record stays. */
    method ConfirmDeletion()
      requires db.Valid()
      modifies this`elev, this`tilrettelegginger, this`loading, this`error, this`message, this`editData
      modifies this`selectedFagForDeletion, this`isDeleteModalOpen, db
      ensures db.Valid() && db.elever == old(db.elever)
      ensures forall t :: t in db.tilrettelegginger <==>
                t in old(db.tilrettelegginger) && !Selected(old(selectedFagForDeletion), t.tilretteleggingId)
      ensures selectedFagForDeletion == [] && !isDeleteModalOpen
      ensures id != "" ==> message == ""
      ensures StudentStored() ==> ShowsStore()
    {
      var sel := selectedFagForDeletion;
      for i := 0 to |sel|
        invariant db.Valid() && db.elever == old(db.elever)
        invariant forall t :: t in db.tilrettelegginger <==>
                    t in old(db.tilrettelegginger) && !Selected(sel[..i], t.tilretteleggingId)
      {
        SendDelete(sel[i]);
        assert sel[..i + 1] == sel[..i] + [sel[i]];
      }
      assert sel[..|sel|] == sel;
      selectedFagForDeletion := [];
      isDeleteModalOpen := false;
      ShowThenRefresh(DELETED);
    }
  }
}
