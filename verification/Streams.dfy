/** internal/store/streams.go for one channel: its rows as a map from stream ID to row. */
module Streams {
  import opened Prelude

  datatype Stream = Stream(title: string, startTime: string, live: bool, mediaType: string, activated: int)

  type Table = map<string, Stream>

  /** A nil field is left as it was. */
  datatype StreamUpdate = StreamUpdate(title: Option<string>, startTime: Option<string>, mediaType: Option<string>)

  datatype UpdateError = NoUpdate | NotFound

  // ---------------------------------------------------------------- statements

  /** A conflict keeps the activation time. */
  function Upsert(t: Table, id: string, st: Stream): Table {
    t[id := if id in t then st.(activated := t[id].activated) else st]
  }

  function SetLive(t: Table, id: string, live: bool): Table {
    if id in t then t[id := t[id].(live := live)] else t
  }

  function Update(t: Table, id: string, u: StreamUpdate): Result<Table, UpdateError> {
    if u.title.None? && u.startTime.None? && u.mediaType.None? then Err(NoUpdate)
    else if id !in t then Err(NotFound)
    else
      var st := t[id];
      Ok(t[id := Stream(
        if u.title.Some? then u.title.value else st.title,
        if u.startTime.Some? then u.startTime.value else st.startTime,
        st.live,
        if u.mediaType.Some? then u.mediaType.value else st.mediaType,
        st.activated)])
  }

  // ---------------------------------------------------------------- what the statements do

  /** Every other row is as it was. */
  ghost predicate SameOthers(t: Table, u: Table, id: string) {
    forall x :: x != id ==> (x in u <==> x in t) && (x in u ==> u[x] == t[x])
  }

  /** An upsert stores the given row live or ended; over a stored one it keeps its activation time. */
  lemma {:induction false} UpsertMeaning(t: Table, id: string, st: Stream)
    ensures var u := Upsert(t, id, st);
            && SameOthers(t, u, id) && id in u
            && u[id].title == st.title && u[id].startTime == st.startTime
            && u[id].live == st.live && u[id].mediaType == st.mediaType
            && u[id].activated == (if id in t then t[id].activated else st.activated)
  {
  }

  ghost predicate IsEdited(given: Option<string>, before: string, after: string) {
    if given.Some? then after == given.value else after == before
  }

  /** An edit changes the given details of a stored stream and nothing else, least of all whether it
      is live. */
  lemma {:induction false} UpdateMeaning(t: Table, id: string, u: StreamUpdate)
    ensures Update(t, id, u) == Err(NoUpdate) <==> u == StreamUpdate(None, None, None)
    ensures Update(t, id, u) == Err(NotFound) <==> u != StreamUpdate(None, None, None) && id !in t
    ensures Update(t, id, u).Ok? ==>
              var rows := Update(t, id, u).value;
              && id in t && id in rows && SameOthers(t, rows, id)
              && IsEdited(u.title, t[id].title, rows[id].title)
              && IsEdited(u.startTime, t[id].startTime, rows[id].startTime)
              && IsEdited(u.mediaType, t[id].mediaType, rows[id].mediaType)
              && rows[id].live == t[id].live && rows[id].activated == t[id].activated
  {
  }

  // ---------------------------------------------------------------- queries

  /** No stream was activated later. */
  predicate IsNewest(t: Table, id: string) {
    id in t && forall other :: other in t ==> t[other].activated <= t[id].activated
  }

  /** ORDER BY activated_time DESC LIMIT 1. */
  ghost predicate IsRecent(t: Table, recent: Option<string>) {
    if recent.Some? then IsNewest(t, recent.value) else t == map[]
  }

  /** ORDER BY activated_time DESC over the given rows; equal times in any order. */
  ghost predicate IsOrdered(t: Table, ids: set<string>, list: seq<string>) {
    && Distinct(list)
    && (forall id :: id in list <==> id in ids)
    && (forall i, j :: 0 <= i < j < |list| && list[i] in t && list[j] in t ==>
          t[list[i]].activated >= t[list[j]].activated)
  }

  lemma {:induction false} NewestExists(t: Table, ids: set<string>)
    requires ids != {} && ids <= t.Keys
    ensures exists id :: id in ids && forall x :: x in ids ==> t[x].activated <= t[id].activated
  {
    var id :| id in ids;
    if ids != {id} {
      NewestExists(t, ids - {id});
      var best :| best in ids - {id} && forall x :: x in ids - {id} ==> t[x].activated <= t[best].activated;
      var top := if t[best].activated > t[id].activated then best else id;
      assert forall x :: x in ids ==> x == id || x in ids - {id};
      assert top in ids && forall x :: x in ids ==> t[x].activated <= t[top].activated;
    }
  }

  method GetRecentStream(t: Table) returns (recent: Option<string>)
    ensures IsRecent(t, recent)
  {
    if t == map[] { return None; }
    var some :| some in t;
    NewestExists(t, t.Keys);
    var id :| id in t.Keys && IsNewest(t, id);
    return Some(id);
  }

  method OrderByActivated(t: Table, ids: set<string>) returns (list: seq<string>)
    requires ids <= t.Keys
    ensures IsOrdered(t, ids, list)
  {
    list := [];
    var rest := ids;
    while rest != {}
      invariant rest <= ids && Distinct(list)
      invariant forall id :: id in ids <==> id in rest || id in list
      invariant forall id :: id in list ==> id !in rest
      invariant forall i, j :: 0 <= i < j < |list| ==> t[list[i]].activated >= t[list[j]].activated
      invariant forall i, id :: 0 <= i < |list| && id in rest ==> t[list[i]].activated >= t[id].activated
      decreases |rest|
    {
      NewestExists(t, rest);
      var id :| id in rest && forall x :: x in rest ==> t[x].activated <= t[id].activated;
      list := list + [id];
      rest := rest - {id};
    }
  }

  /** GetPastStreams: the ended streams besides one, newest first. */
  ghost function PastIDs(t: Table, exclude: string): set<string> {
    set id | id in t && !t[id].live && id != exclude
  }

  // ---------------------------------------------------------------- the order of activations

  ghost predicate DistinctTimes(t: Table) {
    forall a, b :: a in t && b in t && a != b ==> t[a].activated != t[b].activated
  }

  /** Every live stream is the most recently activated one. */
  ghost predicate LiveIsNewest(t: Table) {
    forall id :: id in t && t[id].live ==> IsNewest(t, id)
  }

  lemma {:induction false} AtMostOneLive(t: Table, a: string, b: string)
    requires DistinctTimes(t) && LiveIsNewest(t)
    requires a in t && b in t && t[a].live && t[b].live
    ensures a == b
  {
    assert t[a].activated == t[b].activated;
  }

  ghost predicate Before(t: Table, clock: int) {
    forall id :: id in t ==> t[id].activated < clock
  }
}
