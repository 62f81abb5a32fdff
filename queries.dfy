/** The read statements of the data access layer (database-handler.js) as
    functions of the table contents. Rows are scanned in row id order. */
module Queries {
  import opened Wrappers
  import opened Text
  import opened Seqs
  import opened Js
  import opened Sql
  import opened Schema

  /** `LIMIT 10` of the two searches. */
  const SEARCH_LIMIT: nat := 10

  /** The search term as the statement sees it: `sok` defaults to `''`
      when absent, and `sok + '%'` converts any other value to a string. */
  function SearchPrefix(sok: JsValue): string {
    if sok == Undefined then "" else ToJsString(sok)
  }

  function NameKey(e: Elev): Key { Some(e.navn) }

  // -----------------------------------------------------------------------
  // getElever
  // -----------------------------------------------------------------------

  /** The students whose name matches `navn LIKE sok || '%'`. */
  function NameLike(sok: string): Elev -> bool {
    (e: Elev) => LikePrefix(e.navn, sok)
  }

  function MatchingElever(elever: seq<Elev>, sok: string): seq<Elev> {
    Filter(elever, NameLike(sok))
  }

  /** `SELECT elev_id, navn, klasse FROM elever WHERE navn LIKE ? ORDER BY
      navn LIMIT 10`: at most ten matching students, in name order, and no
      matching student left out sorts before one returned. */
  function SearchElever(elever: seq<Elev>, sok: string): (r: seq<Elev>)
    ensures |r| == Min(SEARCH_LIMIT, |MatchingElever(elever, sok)|)
    ensures forall e :: e in r ==> e in elever && LikePrefix(e.navn, sok)
    ensures forall i, j :: 0 <= i < j < |r| ==> StrLe(r[i].navn, r[j].navn)
    ensures multiset(r) <= multiset(MatchingElever(elever, sok))
    ensures forall e, m :: e in r && m in multiset(MatchingElever(elever, sok)) - multiset(r)
                           ==> StrLe(e.navn, m.navn)
  {
    var r := OrderLimit(MatchingElever(elever, sok), NameKey, SEARCH_LIMIT);
    SearchEleverFacts(elever, sok, r);
    r
  }

  lemma SearchEleverFacts(elever: seq<Elev>, sok: string, r: seq<Elev>)
    requires r == OrderLimit(MatchingElever(elever, sok), NameKey, SEARCH_LIMIT)
    ensures forall e :: e in r ==> e in elever && LikePrefix(e.navn, sok)
    ensures forall i, j :: 0 <= i < j < |r| ==> StrLe(r[i].navn, r[j].navn)
    ensures forall e, m :: e in r && m in multiset(MatchingElever(elever, sok)) - multiset(r)
                           ==> StrLe(e.navn, m.navn)
  {
    var matching := MatchingElever(elever, sok);
    FilterElements(elever, NameLike(sok));
    forall e | e in r ensures e in elever && LikePrefix(e.navn, sok) {
      assert e in multiset(r);
      assert e in multiset(matching);
      assert e in matching;
    }
    forall i, j | 0 <= i < j < |r| ensures StrLe(r[i].navn, r[j].navn) {
      assert KeyLe(NameKey(r[i]), NameKey(r[j]));
    }
    forall e, m | e in r && m in multiset(matching) - multiset(r) ensures StrLe(e.navn, m.navn) {
      assert KeyLe(NameKey(e), NameKey(m));
    }
  }

  // -----------------------------------------------------------------------
  // getFaggrupper
  // -----------------------------------------------------------------------

  predicate GroupMatches(t: Tilrettelegging, sok: string) {
    t.faggruppeNavn.Some? && LikePrefix(t.faggruppeNavn.value, sok)
  }

  function GroupName(t: Tilrettelegging): string {
    if t.faggruppeNavn.Some? then t.faggruppeNavn.value else ""
  }

  /** The group names, one per matching record (NULL never matches LIKE). */
  function MatchingGroupNames(ts: seq<Tilrettelegging>, sok: string): (names: seq<string>)
    ensures forall n :: n in names <==> exists t :: t in ts && t.faggruppeNavn == Some(n) && LikePrefix(n, sok)
  {
    var matching := Filter(ts, (t: Tilrettelegging) => GroupMatches(t, sok));
    FilterElements(ts, (t: Tilrettelegging) => GroupMatches(t, sok));
    var names := MapSeq(matching, GroupName);
    assert forall n :: n in names ==> exists t :: t in ts && t.faggruppeNavn == Some(n) && LikePrefix(n, sok) by {
      forall n | n in names ensures exists t :: t in ts && t.faggruppeNavn == Some(n) && LikePrefix(n, sok) {
        var i :| 0 <= i < |names| && names[i] == n;
        assert matching[i] in ts;
      }
    }
    assert forall t :: t in ts && GroupMatches(t, sok) ==> t.faggruppeNavn.value in names by {
      forall t | t in ts && GroupMatches(t, sok) ensures t.faggruppeNavn.value in names {
        var i :| 0 <= i < |matching| && matching[i] == t;
        assert names[i] == t.faggruppeNavn.value;
      }
    }
    names
  }

  function TextKey(s: string): Key { Some(s) }

  lemma NoDuplicatesOfSubMultiset(r: seq<string>, d: seq<string>)
    requires NoDuplicates(d) && multiset(r) <= multiset(d)
    ensures NoDuplicates(r)
  {
    forall i, j | 0 <= i < j < |r| ensures r[i] != r[j] {
      if r[i] == r[j] {
        var x := r[i];
        assert r == r[..j] + r[j..];
        assert x in r[..j] && x in r[j..];
        assert multiset(r)[x] == multiset(r[..j])[x] + multiset(r[j..])[x];
        NoDuplicatesCount(d, x);
        assert false;
      }
    }
  }

  /** `SELECT DISTINCT faggruppe_navn FROM tilrettelegginger WHERE
      faggruppe_navn LIKE ? ORDER BY faggruppe_navn LIMIT 10`: at most ten
      pairwise distinct group names, each matching and used by some record,
      in order, and no matching name left out sorts before one returned. */
  function SearchFaggrupper(ts: seq<Tilrettelegging>, sok: string): (r: seq<string>)
    ensures |r| == Min(SEARCH_LIMIT, |Distinct(MatchingGroupNames(ts, sok))|)
    ensures NoDuplicates(r)
    ensures forall n :: n in r ==> LikePrefix(n, sok) && exists t :: t in ts && t.faggruppeNavn == Some(n)
    ensures forall i, j :: 0 <= i < j < |r| ==> StrLe(r[i], r[j])
    ensures forall n, m :: n in r && m in MatchingGroupNames(ts, sok) && m !in r ==> StrLe(n, m)
  {
    var r := OrderLimit(Distinct(MatchingGroupNames(ts, sok)), TextKey, SEARCH_LIMIT);
    SearchFaggrupperFacts(ts, sok, r);
    r
  }

  lemma SearchFaggrupperFacts(ts: seq<Tilrettelegging>, sok: string, r: seq<string>)
    requires r == OrderLimit(Distinct(MatchingGroupNames(ts, sok)), TextKey, SEARCH_LIMIT)
    ensures NoDuplicates(r)
    ensures forall n :: n in r ==> LikePrefix(n, sok) && exists t :: t in ts && t.faggruppeNavn == Some(n)
    ensures forall i, j :: 0 <= i < j < |r| ==> StrLe(r[i], r[j])
    ensures forall n, m :: n in r && m in MatchingGroupNames(ts, sok) && m !in r ==> StrLe(n, m)
  {
    var names := MatchingGroupNames(ts, sok);
    var distinct := Distinct(names);
    NoDuplicatesOfSubMultiset(r, distinct);
    forall n | n in r ensures LikePrefix(n, sok) && exists t :: t in ts && t.faggruppeNavn == Some(n) {
      assert n in multiset(r);
      assert n in multiset(distinct);
      assert n in names;
    }
    forall i, j | 0 <= i < j < |r| ensures StrLe(r[i], r[j]) {
      assert KeyLe(TextKey(r[i]), TextKey(r[j]));
    }
    forall n, m | n in r && m in names && m !in r ensures StrLe(n, m) {
      assert m in distinct;
      assert m in multiset(distinct) - multiset(r);
      assert KeyLe(TextKey(n), TextKey(m));
    }
  }

  // -----------------------------------------------------------------------
  // getElevById
  // -----------------------------------------------------------------------

  const NOT_FOUND := "Elev ikke funnet."

  /** `{ ...elev, tilrettelegginger }`. */
  datatype ElevDetails = ElevDetails(elev: Elev, tilrettelegginger: seq<Tilrettelegging>)

  function GroupKey(t: Tilrettelegging): Key { t.faggruppeNavn }

  /** `SELECT * FROM elever WHERE elev_id = ?` with `.get`: the first
      matching row, or nothing. */
  function FindElev(es: seq<Elev>, id: int): (r: Option<Elev>)
    ensures r.None? <==> id !in ElevIds(es)
    ensures r.Some? ==> r.value in es && r.value.elevId == id
    decreases |es|
  {
    if |es| == 0 then None
    else if es[0].elevId == id then Some(es[0])
    else
      assert ElevIds(es) == {es[0].elevId} + ElevIds(es[1..]) by {
        assert es == [es[0]] + es[1..];
      }
      FindElev(es[1..], id)
  }

  /** `WHERE elev_id = ?` on the records. */
  function OwnedBy(id: int): Tilrettelegging -> bool {
    (t: Tilrettelegging) => t.elevId == id
  }

  function RecordsOf(ts: seq<Tilrettelegging>, id: int): seq<Tilrettelegging> {
    Filter(ts, OwnedBy(id))
  }

  /** `getElevById`: the error 'Elev ikke funnet.' exactly when no student
      has the id; otherwise that student with exactly its records, ordered
      by group name (NULL first). */
  function ElevById(es: seq<Elev>, ts: seq<Tilrettelegging>, id: int): (r: Result<ElevDetails>)
    ensures r.Err? <==> id !in ElevIds(es)
    ensures r.Err? ==> r.error == NOT_FOUND
    ensures r.Ok? ==> r.value.elev in es && r.value.elev.elevId == id
    ensures r.Ok? ==> forall t :: t in r.value.tilrettelegginger <==> t in ts && t.elevId == id
    ensures r.Ok? ==> multiset(r.value.tilrettelegginger) == multiset(RecordsOf(ts, id))
    ensures r.Ok? ==> SortedBy(r.value.tilrettelegginger, GroupKey)
  {
    match FindElev(es, id)
    case None => Err(NOT_FOUND)
    case Some(elev) =>
      FilterElements(ts, OwnedBy(id));
      SortBySorted(RecordsOf(ts, id), GroupKey);
      var sorted := SortBy(RecordsOf(ts, id), GroupKey);
      assert forall t :: t in sorted <==> t in multiset(RecordsOf(ts, id));
      Ok(ElevDetails(elev, sorted))
  }

  // -----------------------------------------------------------------------
  // getFaggruppeDetails
  // -----------------------------------------------------------------------

  /** `{ fagnavn, lærer }`. */
  datatype FagDetails = FagDetails(fagnavn: Option<string>, laerer: Option<string>)

  /** Index of the first record of group `navn`, or `|ts|` when none. */
  function FirstOfGroup(ts: seq<Tilrettelegging>, navn: string): (i: nat)
    ensures i <= |ts|
    ensures i < |ts| ==> ts[i].faggruppeNavn == Some(navn)
    ensures forall j :: 0 <= j < i ==> ts[j].faggruppeNavn != Some(navn)
    decreases |ts|
  {
    if |ts| == 0 then 0
    else if ts[0].faggruppeNavn == Some(navn) then 0
    else 1 + FirstOfGroup(ts[1..], navn)
  }

  /** `SELECT fagnavn, lærer FROM tilrettelegginger WHERE faggruppe_navn = ?
      LIMIT 1` with `.get`: nothing when no record has the group, otherwise
      the subject and teacher of the first such record. */
  function FaggruppeDetails(ts: seq<Tilrettelegging>, navn: string): (r: Option<FagDetails>)
    ensures r.None? <==> forall t :: t in ts ==> t.faggruppeNavn != Some(navn)
    ensures r.Some? ==> exists i :: 0 <= i < |ts| && ts[i].faggruppeNavn == Some(navn)
                                && (forall j :: 0 <= j < i ==> ts[j].faggruppeNavn != Some(navn))
                                && r.value == FagDetails(ts[i].fagnavn, ts[i].laerer)
  {
    var i := FirstOfGroup(ts, navn);
    if i < |ts| then Some(FagDetails(ts[i].fagnavn, ts[i].laerer)) else None
  }

  /** With the rows in row id order, the record `LIMIT 1` picks is the
      group's record with the lowest row id, wherever it sits. */
  lemma {:induction false} FaggruppeDetailsLowestId(ts: seq<Tilrettelegging>, navn: string)
    requires AscendingBy(ts, RecordIdOf)
    ensures FaggruppeDetails(ts, navn).Some? ==>
              exists t :: t in ts && t.faggruppeNavn == Some(navn)
                          && FaggruppeDetails(ts, navn).value == FagDetails(t.fagnavn, t.laerer)
                          && forall u :: u in ts && u.faggruppeNavn == Some(navn) ==>
                                           t.tilretteleggingId <= u.tilretteleggingId
  {
    var i := FirstOfGroup(ts, navn);
    if i < |ts| {
      forall u | u in ts && u.faggruppeNavn == Some(navn)
        ensures ts[i].tilretteleggingId <= u.tilretteleggingId
      {
        var j :| 0 <= j < |ts| && ts[j] == u;
        assert RecordIdOf(ts[i]) <= RecordIdOf(ts[j]);
      }
    }
  }

  // -----------------------------------------------------------------------
  // getEleverForFaggruppe
  // -----------------------------------------------------------------------

  /** One row of the join: the student's id, name and class with the
      record's group, flags and comment. */
  datatype GroupMember = GroupMember(
    elevId: int, navn: string, klasse: Option<string>, faggruppeNavn: Option<string>,
    ekstraTid: int, skjermetPlass: int, opplestOppgave: int, kommentar: Option<string>)

  function JoinRow(e: Elev, t: Tilrettelegging): GroupMember {
    GroupMember(e.elevId, e.navn, e.klasse, t.faggruppeNavn,
                t.ekstraTid, t.skjermetPlass, t.opplestOppgave, t.kommentar)
  }

  predicate InGroup(t: Tilrettelegging, navn: string) { t.faggruppeNavn == Some(navn) }

  /** The joined rows of one record: one per student with its id, when
      the record is in the group. */
  function JoinRecord(es: seq<Elev>, t: Tilrettelegging, navn: string): (here: seq<GroupMember>)
    ensures forall m :: m in here <==> exists e :: e in es && e.elevId == t.elevId && InGroup(t, navn) && m == JoinRow(e, t)
  {
    var owners := Filter(es, (e: Elev) => e.elevId == t.elevId);
    FilterElements(es, (e: Elev) => e.elevId == t.elevId);
    var here := if InGroup(t, navn) then MapSeq(owners, (e: Elev) => JoinRow(e, t)) else [];
    assert forall m :: m in here <==> exists e :: e in es && e.elevId == t.elevId && InGroup(t, navn) && m == JoinRow(e, t) by {
      forall m | m in here ensures exists e :: e in es && e.elevId == t.elevId && InGroup(t, navn) && m == JoinRow(e, t) {
        var i :| 0 <= i < |here| && here[i] == m;
        assert owners[i] in es;
      }
      forall e | e in es && e.elevId == t.elevId && InGroup(t, navn) ensures JoinRow(e, t) in here {
        var i :| 0 <= i < |owners| && owners[i] == e;
        assert here[i] == JoinRow(e, t);
      }
    }
    here
  }

  /** `elever e JOIN tilrettelegginger t ON e.elev_id = t.elev_id WHERE
      t.faggruppe_navn = ?`, before ordering. */
  function JoinGroup(es: seq<Elev>, ts: seq<Tilrettelegging>, navn: string): (rows: seq<GroupMember>)
    ensures forall m :: m in rows <==>
              exists e, t :: e in es && t in ts && e.elevId == t.elevId && InGroup(t, navn) && m == JoinRow(e, t)
    decreases |ts|
  {
    if |ts| == 0 then []
    else
      assert ts == [ts[0]] + ts[1..];
      JoinRecord(es, ts[0], navn) + JoinGroup(es, ts[1..], navn)
  }

  function MemberKey(m: GroupMember): Key { Some(m.navn) }

  /** `getEleverForFaggruppe`: exactly the joined rows of the group's
      records and their students, in name order. */
  function EleverForFaggruppe(es: seq<Elev>, ts: seq<Tilrettelegging>, navn: string): (r: seq<GroupMember>)
    ensures forall m :: m in r <==>
              exists e, t :: e in es && t in ts && e.elevId == t.elevId && InGroup(t, navn) && m == JoinRow(e, t)
    ensures forall i, j :: 0 <= i < j < |r| ==> StrLe(r[i].navn, r[j].navn)
    ensures multiset(r) == multiset(JoinGroup(es, ts, navn))
  {
    var r := SortBy(JoinGroup(es, ts, navn), MemberKey);
    EleverForFaggruppeFacts(es, ts, navn, r);
    r
  }

  lemma EleverForFaggruppeFacts(es: seq<Elev>, ts: seq<Tilrettelegging>, navn: string, r: seq<GroupMember>)
    requires r == SortBy(JoinGroup(es, ts, navn), MemberKey)
    ensures forall m :: m in r <==>
              exists e, t :: e in es && t in ts && e.elevId == t.elevId && InGroup(t, navn) && m == JoinRow(e, t)
    ensures forall i, j :: 0 <= i < j < |r| ==> StrLe(r[i].navn, r[j].navn)
  {
    var rows := JoinGroup(es, ts, navn);
    SortBySorted(rows, MemberKey);
    forall m ensures m in r <==> m in rows {
      assert m in r <==> m in multiset(r);
      assert m in rows <==> m in multiset(rows);
    }
    forall i, j | 0 <= i < j < |r| ensures StrLe(r[i].navn, r[j].navn) {
      assert KeyLe(MemberKey(r[i]), MemberKey(r[j]));
    }
  }
}
