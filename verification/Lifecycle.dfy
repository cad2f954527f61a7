/**
 * internal/server/lifecycle.go for one channel: activation, deactivation, removal and local
 * retention as the sequential updates they are, and runs of them.
 */
module Lifecycle {
  import opened Prelude
  import opened Streams
  import opened Transcripts

  datatype Event =
    | PastStreams(ids: seq<string>)
    | NewStream(id: string, stream: Stream)
    | Status(id: string, live: bool)
    | DeletedStream(id: string, wasLive: bool)

  // ---------------------------------------------------------------- what the operations compute

  /** The rows after activating a stream, before retention. `setLiveFails` is the one store error
      that does not stop the activation. */
  ghost function Activated(t: Table, recent: Option<string>, id: string, st: Stream, setLiveFails: bool): Table {
    if recent == Some(id) then SetLive(t, id, true)
    else Upsert(Ended(t, recent, setLiveFails), id, st)
  }

  /** The previous stream ended. */
  function Ended(t: Table, recent: Option<string>, setLiveFails: bool): Table {
    if recent.Some? && recent.value in t && t[recent.value].live && !setLiveFails
    then SetLive(t, recent.value, false) else t
  }

  /** The streams of a listing other than the active one, the first `num` of which stay. */
  ghost function Others(list: seq<string>, active: string): seq<string> {
    Except(list, {active})
  }

  ghost function Clip(num: int, n: nat): nat {
    if num < 0 then 0 else if num > n then n else num
  }

  ghost function KeptOthers(list: seq<string>, active: string, num: int): seq<string> {
    Others(list, active)[..Clip(num, |Others(list, active)|)]
  }

  ghost function Dropped(list: seq<string>, active: string, num: int): seq<string> {
    Others(list, active)[Clip(num, |Others(list, active)|)..]
  }

  /** What retention deletes: the dropped streams, except those whose deletion fails. */
  ghost function Gone(list: seq<string>, active: string, num: int, stuck: set<string>): seq<string> {
    Except(Dropped(list, active, num), stuck)
  }

  ghost function Without<V>(t: map<string, V>, gone: seq<string>): map<string, V> {
    map id | id in t && id !in gone :: t[id]
  }

  /** The store calls of an activation that fail; `stuck` are the streams that cannot be deleted. */
  datatype Faults = Faults(read: bool, setLive: bool, upsert: bool, list: bool, stuck: set<string>, past: bool)

  /** The broadcasts of a stream that starts: the past streams, if they can be read, and the stream. */
  ghost predicate Announced(news: seq<Event>, t: Table, id: string, st: Stream, pastFails: bool) {
    if pastFails then news == [NewStream(id, st)]
    else
      && |news| == 2 && news[0].PastStreams? && IsOrdered(t, PastIDs(t, id), news[0].ids)
      && news[1] == NewStream(id, st)
  }

  /** The row of a stream that was activated: the newest one only comes live again; any other has the
      given details and is live, and a stored one keeps its activation time. */
  ghost predicate IsStarted(t: Table, row: Stream, newest: bool, id: string, st: Stream) {
    if newest then id in t && row.live && row.(live := t[id].live) == t[id]
    else
      && row.title == st.title && row.startTime == st.startTime && row.mediaType == st.mediaType && row.live
      && row.activated == (if id in t then t[id].activated else st.activated)
  }

  /** The other streams that are left are as they were, except that the one that was the newest is
      ended, if that did not fail. */
  ghost predicate OnlyRecentEnded(t: Table, left: Table, recent: Option<string>, id: string, setLiveFails: bool) {
    forall x :: x in left && x != id ==>
      x in t && left[x] == t[x].(live := t[x].live && !(recent == Some(x) && !setLiveFails))
  }

  /** The list names each ended stream besides the one held out, once, and no live one. */
  ghost predicate ListsEnded(t: Table, heldOut: string, ids: seq<string>) {
    && Distinct(ids)
    && (forall id :: id in ids <==> id in t && !t[id].live && id != heldOut)
    && (forall i, j :: 0 <= i < j < |ids| && ids[i] in t && ids[j] in t ==> t[ids[i]].activated >= t[ids[j]].activated)
  }

  datatype RemoveOutcome = Removed | NotStored | StillLive | DatabaseError

  class Channel {
    const numPast: int
    var streams: Table
    var transcripts: map<string, Transcript>
    var purges: seq<string>          // streams whose media folder was asked to be deleted
    var sent: seq<Event>             // broadcasts, oldest first
    var counter: int                 // AdminChangeCounter

    constructor (numPast: int)
      ensures this.numPast == numPast && streams == map[] && transcripts == map[] && purges == [] && sent == []
    {
      this.numPast := numPast;
      streams, transcripts, purges, sent, counter := map[], map[], [], [], 0;
    }

    method DeleteStreamCascade(id: string)
      modifies this`streams, this`transcripts
      ensures streams == Without(old(streams), [id]) && transcripts == Without(old(transcripts), [id])
    {
      streams := map x | x in streams && x != id :: streams[x];
      transcripts := map x | x in transcripts && x != id :: transcripts[x];
    }

    /** The counting loop over GetAllStreams with local storage. A stream that cannot be deleted
        keeps its rows and its media. */
    method ApplyRetention(list: seq<string>, active: string, stuck: set<string>)
      modifies this`streams, this`transcripts, this`purges
      ensures streams == Without(old(streams), Gone(list, active, numPast, stuck))
      ensures transcripts == Without(old(transcripts), Gone(list, active, numPast, stuck))
      ensures purges == old(purges) + Gone(list, active, numPast, stuck)
    {
      var kept := 0;
      ghost var gone: seq<string> := [];
      WithoutNothing(streams);
      WithoutNothing(transcripts);
      for i := 0 to |list|
        invariant kept == Clip(numPast, |Others(list[..i], active)|)
        invariant gone == Gone(list[..i], active, numPast, stuck)
        invariant streams == Without(old(streams), gone) && transcripts == Without(old(transcripts), gone)
        invariant purges == old(purges) + gone
      {
        NextListed(list, i, active, numPast, stuck);
        if list[i] == active {
          continue;
        }
        if kept < numPast {
          kept := kept + 1;
          continue;
        }
        if list[i] in stuck {
          continue;
        }
        WithoutAgain(old(streams), gone, list[i]);
        WithoutAgain(old(transcripts), gone, list[i]);
        DeleteStreamCascade(list[i]);
        purges := purges + [list[i]];
        gone := gone + [list[i]];
      }
      assert list[..|list|] == list;
    }

    /** broadcastPastStreams: one stream is held out as the current one. A failed read sends nothing. */
    method BroadcastPastStreams(readFails: bool) returns (ghost heldOut: string)
      modifies this`sent
      ensures readFails ==> sent == old(sent)
      ensures !readFails ==>
                && |sent| == |old(sent)| + 1 && sent[..|old(sent)|] == old(sent)
                && sent[|old(sent)|].PastStreams? && IsHeldOut(streams, heldOut)
                && IsOrdered(streams, PastIDs(streams, heldOut), sent[|old(sent)|].ids)
                && ListsEnded(streams, heldOut, sent[|old(sent)|].ids)
    {
      heldOut := "";
      if readFails { return; }
      var list := OrderByActivated(streams, streams.Keys);
      var exclude := "";
      if |list| > 0 {
        exclude := list[0];
      }
      var i := 0;
      while i < |list|
        invariant 0 <= i <= |list|
        invariant forall j :: 0 <= j < i ==> !streams[list[j]].live
      {
        if streams[list[i]].live {
          exclude := list[i];
          break;
        }
        i := i + 1;
      }
      HeldOutOf(streams, list, i, exclude);
      var past := set id | id in streams && !streams[id].live && id != exclude;
      assert past == PastIDs(streams, exclude);
      var ids := OrderByActivated(streams, past);
      sent := sent + [PastStreams(ids)];
      heldOut := exclude;
    }

    /** The part of activateStream for an ID that is not the newest stream's, after the upsert. */
    method StartStream(id: string, st: Stream, f: Faults) returns (ghost list: seq<string>)
      modifies this`streams, this`transcripts, this`purges, this`sent
      ensures if f.list then list == [] else IsOrdered(old(streams), old(streams).Keys, list)
      ensures streams == Without(old(streams), Gone(list, id, numPast, f.stuck))
      ensures transcripts == Without(old(transcripts), Gone(list, id, numPast, f.stuck))
      ensures purges == old(purges) + Gone(list, id, numPast, f.stuck)
      ensures |sent| >= |old(sent)| && sent[..|old(sent)|] == old(sent)
      ensures Announced(sent[|old(sent)|..], streams, id, st, f.past)
      ensures !f.past ==> sent[|old(sent)|].PastStreams? && ListsEnded(streams, id, sent[|old(sent)|].ids)
    {
      var all := [];
      if !f.list {
        all := OrderByActivated(streams, streams.Keys);
      }
      list := all;
      ApplyRetention(all, id, f.stuck);
      if !f.past {
        var past := set x | x in streams && !streams[x].live && x != id;
        assert past == PastIDs(streams, id);
        var ids := OrderByActivated(streams, past);
        sent := sent + [PastStreams(ids)];
      }
      sent := sent + [NewStream(id, st)];
    }

    /** activateStream. `st` is the row to be written, live, with the time of the call; `list` is
        what retention listed. */
    method ActivateStream(id: string, st: Stream, f: Faults)
      returns (activated: bool, ghost recent: Option<string>, ghost list: seq<string>)
      requires st.live
      modifies this
      ensures counter == old(counter) + if activated then 1 else 0
      ensures !activated ==> transcripts == old(transcripts) && purges == old(purges) && sent == old(sent)
      ensures f.read ==> !activated && streams == old(streams)
      ensures activated ==> id in streams && IsStarted(old(streams), streams[id], recent == Some(id), id, st)
      ensures activated && recent == Some(id) ==> SameOthers(old(streams), streams, id)
      ensures activated && recent != Some(id) ==> OnlyRecentEnded(old(streams), streams, recent, id, f.setLive)
      ensures activated && recent != Some(id) && !f.past ==>
                && |sent| == |old(sent)| + 2 && sent[|old(sent)|].PastStreams?
                && ListsEnded(streams, id, sent[|old(sent)|].ids)
      ensures !f.read ==> IsRecent(old(streams), recent)
      ensures !f.read && recent == Some(id) ==>
                && transcripts == old(transcripts) && purges == old(purges)
                && (activated <==> !old(streams)[id].live && !f.setLive)
                && streams == (if activated then SetLive(old(streams), id, true) else old(streams))
                && sent == old(sent) + (if activated then [Status(id, true)] else [])
      ensures !f.read && recent != Some(id) ==> activated == !f.upsert
      ensures !f.read && recent != Some(id) && f.upsert ==>
                streams == Ended(old(streams), recent, f.setLive)
      ensures !f.read && recent != Some(id) && !f.upsert ==>
                var t := Activated(old(streams), recent, id, st, f.setLive);
                && (if f.list then list == [] else IsOrdered(t, t.Keys, list))
                && streams == Without(t, Gone(list, id, numPast, f.stuck))
                && transcripts == Without(old(transcripts), Gone(list, id, numPast, f.stuck))
                && purges == old(purges) + Gone(list, id, numPast, f.stuck)
                && |sent| >= |old(sent)| && sent[..|old(sent)|] == old(sent)
                && Announced(sent[|old(sent)|..], streams, id, st, f.past)
    {
      recent, list := None, [];
      if f.read { return false, recent, list; }
      var current := GetRecentStream(streams);
      recent := current;
      if current.None? || current.value != id {
        streams := Ended(streams, current, f.setLive);
        if f.upsert { return false, recent, list; }
        streams := Upsert(streams, id, st);
        list := StartStream(id, st, f);
      } else {
        if streams[id].live || f.setLive { return false, recent, list; }
        streams := SetLive(streams, id, true);
        sent := sent + [Status(id, true)];
      }
      if recent != Some(id) {
        StartedRow(old(streams), recent, id, st, f, list, numPast);
      }
      counter := counter + 1;
      return true, recent, list;
    }

    /** deactivateStream: only the newest stream, and only if live. */
    method DeactivateStream(id: string, readFails: bool, writeFails: bool)
      returns (deactivated: bool, ghost recent: Option<string>)
      modifies this`streams, this`sent, this`counter
      ensures IsRecent(old(streams), recent)
      ensures deactivated <==> recent == Some(id) && old(streams)[id].live && !readFails && !writeFails
      ensures streams == if deactivated then SetLive(old(streams), id, false) else old(streams)
      ensures sent == old(sent) + if deactivated then [Status(id, false)] else []
      ensures deactivated ==>
                && id in streams && SameOthers(old(streams), streams, id)
                && !streams[id].live && old(streams)[id] == streams[id].(live := true)
      ensures counter == old(counter) + if deactivated then 1 else 0
    {
      var current := GetRecentStream(streams);
      recent := current;
      if readFails || current.None? || current.value != id || !streams[id].live || writeFails {
        return false, recent;
      }
      streams := SetLive(streams, id, false);
      sent := sent + [Status(id, false)];
      counter := counter + 1;
      return true, recent;
    }

    /** deleteAdminStreamHandler with removeStream: a live stream is refused. */
    method RemoveStream(id: string, deleteMedia: bool, readFails: bool, deleteFails: bool)
      returns (outcome: RemoveOutcome)
      modifies this
      ensures outcome == if readFails then DatabaseError
                         else if id !in old(streams) then NotStored
                         else if old(streams)[id].live then StillLive
                         else if deleteFails then DatabaseError
                         else Removed
      ensures var removed := outcome.Removed?;
              && streams == (if removed then Without(old(streams), [id]) else old(streams))
              && transcripts == (if removed then Without(old(transcripts), [id]) else old(transcripts))
              && sent == old(sent) + (if removed then [DeletedStream(id, false)] else [])
              && purges == old(purges) + (if removed && deleteMedia then [id] else [])
              && counter == old(counter) + (if removed then 1 else 0)
    {
      if readFails { return DatabaseError; }
      if id !in streams { return NotStored; }
      if streams[id].live { return StillLive; }
      if deleteFails { return DatabaseError; }
      var wasLive := streams[id].live;
      DeleteStreamCascade(id);
      sent := sent + [DeletedStream(id, wasLive)];
      if deleteMedia { purges := purges + [id]; }
      counter := counter + 1;
      return Removed;
    }
  }

  lemma {:induction false} StartedRow(t: Table, recent: Option<string>, id: string, st: Stream, f: Faults,
                                      list: seq<string>, num: int)
    requires recent != Some(id) && st.live
    ensures var after := Activated(t, recent, id, st, f.setLive);
            var left := Without(after, Gone(list, id, num, f.stuck));
            && id in left && IsStarted(t, left[id], false, id, st)
            && OnlyRecentEnded(t, left, recent, id, f.setLive)
  {
    ExceptMembers(list, {id});
    ExceptMembers(Dropped(list, id, num), f.stuck);
    UpsertMeaning(Ended(t, recent, f.setLive), id, st);
  }

  // ---------------------------------------------------------------- the retention loop

  lemma WithoutNothing<V>(t: map<string, V>)
    ensures Without(t, []) == t
  {
  }

  lemma {:induction false} WithoutAgain<V>(t: map<string, V>, gone: seq<string>, id: string)
    ensures Without(Without(t, gone), [id]) == Without(t, gone + [id])
  {
    assert forall x :: x in Without(t, gone + [id]) <==> x in t && x !in gone && x != id;
  }

  lemma {:induction false} NextListed(list: seq<string>, i: nat, active: string, num: int, stuck: set<string>)
    requires i < |list|
    ensures Others(list[..i + 1], active) == Others(list[..i], active) + (if list[i] == active then [] else [list[i]])
    ensures Gone(list[..i + 1], active, num, stuck) ==
              Gone(list[..i], active, num, stuck) +
              (if list[i] != active && Clip(num, |Others(list[..i], active)|) >= num && list[i] !in stuck
               then [list[i]] else [])
  {
    assert list[..i + 1][..i] == list[..i];
    var next := if list[i] != active && Clip(num, |Others(list[..i], active)|) >= num then [list[i]] else [];
    assert Dropped(list[..i + 1], active, num) == Dropped(list[..i], active, num) + next;
    ExceptAppend(Dropped(list[..i], active, num), next, stuck);
  }

  /** The stream held out of the past list: the live one, or else the newest. */
  ghost predicate IsHeldOut(t: Table, exclude: string) {
    || (exclude in t && t[exclude].live)
    || ((forall id :: id in t ==> !t[id].live) && (if t == map[] then exclude == "" else IsNewest(t, exclude)))
  }

  lemma {:induction false} HeldOutOf(t: Table, list: seq<string>, i: nat, exclude: string)
    requires IsOrdered(t, t.Keys, list) && i <= |list|
    requires forall j :: 0 <= j < i ==> !t[list[j]].live
    requires if i < |list| then exclude == list[i] && t[list[i]].live
             else exclude == if |list| > 0 then list[0] else ""
    ensures IsHeldOut(t, exclude)
  {
    if i < |list| {
      assert list[i] in t.Keys;
    } else {
      forall id | id in t ensures !t[id].live && t[id].activated <= t[exclude].activated {
        assert id in list;
        var j :| 0 <= j < |list| && list[j] == id;
      }
      if |list| > 0 { assert list[0] in t.Keys; }
    }
  }

  // ---------------------------------------------------------------- retention, exactly

  /** After local retention the channel holds the active stream, the numPast most recently
      activated others and what could not be deleted; every dropped one is older than every kept
      one and, once deleted, has its media purged once; nothing else is touched. */
  lemma {:induction false} RetentionExact(t: Table, list: seq<string>, active: string, num: int, stuck: set<string>)
    requires IsOrdered(t, t.Keys, list) && active in t
    ensures var kept, dropped := KeptOthers(list, active, num), Dropped(list, active, num);
            var after, gone := Without(t, Gone(list, active, num, stuck)), Gone(list, active, num, stuck);
            && active in after && Distinct(gone)
            && (forall id :: id in after <==> id == active || id in kept || (id in dropped && id in stuck))
            && (forall id :: id in after ==> after[id] == t[id])
            && (forall id :: id in gone <==> id in t && id !in after)
            && |kept| == Clip(num, |t| - 1)
            && (forall a, b :: a in kept && b in dropped ==> a in t && b in t && t[a].activated >= t[b].activated)
  {
    var dropped := Dropped(list, active, num);
    KeptOrDropped(t, list, active, num);
    ExceptMembers(dropped, stuck);
    ExceptDistinct(dropped, stuck);
    OthersCount(t, list, active);
    KeptBeforeDropped(t, list, active, Clip(num, |Others(list, active)|));
  }

  /** Every stream is the active one, kept or dropped, and only one of these. */
  lemma {:induction false} KeptOrDropped(t: Table, list: seq<string>, active: string, num: int)
    requires IsOrdered(t, t.Keys, list) && active in t
    ensures var kept, dropped := KeptOthers(list, active, num), Dropped(list, active, num);
            && Distinct(dropped) && active !in kept && active !in dropped
            && (forall id :: id in t <==> id == active || id in kept || id in dropped)
            && (forall id :: id in kept ==> id !in dropped)
  {
    var others := Others(list, active);
    ExceptMembers(list, {active});
    ExceptDistinct(list, {active});
    var kept, dropped := KeptOthers(list, active, num), Dropped(list, active, num);
    assert others == kept + dropped;
    forall id | id in kept ensures id !in dropped {
      var i :| 0 <= i < |kept| && kept[i] == id;
      assert others[i] == id;
    }
  }

  lemma {:induction false} OthersCount(t: Table, list: seq<string>, active: string)
    requires IsOrdered(t, t.Keys, list) && active in t
    ensures |Others(list, active)| == |t| - 1
  {
    assert active in list;
    var i :| 0 <= i < |list| && list[i] == active;
    DeleteAt(list, i);
    DistinctCount(list, t.Keys);
  }

  lemma {:induction false} DistinctCount(list: seq<string>, ids: set<string>)
    requires Distinct(list) && forall id :: id in list <==> id in ids
    ensures |list| == |ids|
    decreases |list|
  {
    if list == [] {
      assert ids == {};
    } else {
      var n := |list| - 1;
      assert list == list[..n] + [list[n]];
      DistinctCount(list[..n], ids - {list[n]});
    }
  }

  ghost predicate NewestFirst(t: Table, list: seq<string>) {
    && (forall id :: id in list ==> id in t)
    && (forall i, j :: 0 <= i < j < |list| && list[i] in t && list[j] in t ==>
          t[list[i]].activated >= t[list[j]].activated)
  }

  /** Dropping an element keeps a listing in order. */
  lemma {:induction false} DroppedOrdered(t: Table, list: seq<string>, i: nat)
    requires NewestFirst(t, list) && i < |list|
    ensures NewestFirst(t, list[..i] + list[i + 1..])
  {
    var rest := list[..i] + list[i + 1..];
    assert forall k :: 0 <= k < |rest| ==> rest[k] == list[if k < i then k else k + 1];
  }

  lemma {:induction false} ExceptOrdered(t: Table, list: seq<string>, active: string)
    requires Distinct(list) && NewestFirst(t, list)
    ensures NewestFirst(t, Others(list, active))
  {
    if active in list {
      var i :| 0 <= i < |list| && list[i] == active;
      DeleteAt(list, i);
      DroppedOrdered(t, list, i);
    } else {
      ExceptNothing(list, {active});
    }
  }

  lemma {:induction false} KeptBeforeDropped(t: Table, list: seq<string>, active: string, n: nat)
    requires IsOrdered(t, t.Keys, list) && n <= |Others(list, active)|
    ensures forall a, b :: a in Others(list, active)[..n] && b in Others(list, active)[n..] ==>
              a in t && b in t && t[a].activated >= t[b].activated
  {
    assert forall id :: id in list ==> id in t.Keys;
    ExceptOrdered(t, list, active);
    var others := Others(list, active);
    forall a, b | a in others[..n] && b in others[n..]
      ensures a in t && b in t && t[a].activated >= t[b].activated
    {
      var i :| 0 <= i < n && others[..n][i] == a;
      var j :| 0 <= j < |others| - n && others[n..][j] == b;
      assert others[i] == a && others[n + j] == b;
    }
  }

  // ---------------------------------------------------------------- one live stream

  /** Activating a stream at a fresh time, with local retention after it, leaves every live stream
      the newest one exactly when the stream is new, or already the newest, or no other is kept. */
  lemma {:induction false} ActivationKeepsLiveNewestIff(
    t: Table, recent: Option<string>, id: string, st: Stream, list: seq<string>, num: int)
    requires DistinctTimes(t) && LiveIsNewest(t) && Before(t, st.activated) && st.live
    requires IsRecent(t, recent) && recent != Some(id)
    requires var after := Activated(t, recent, id, st, false); IsOrdered(after, after.Keys, list)
    ensures var after := Activated(t, recent, id, st, false);
            LiveIsNewest(Without(after, Dropped(list, id, num))) <==> id !in t || num <= 0
  {
    var after := Activated(t, recent, id, st, false);
    var result := Without(after, Dropped(list, id, num));
    OnlyActivatedIsLive(t, recent, id, st);
    ActiveStays(after, list, id, num);
    if id !in t {
      assert forall x :: x in result && x != id ==> result[x].activated < result[id].activated;
    } else if num > 0 {
      var newest := recent.value;
      NewestOtherIsKept(after, list, id, num, newest);
      assert result[newest].activated > result[id].activated;
      assert result[id].live && !IsNewest(result, id);
    }
  }

  lemma {:induction false} ActiveStays(t: Table, list: seq<string>, active: string, num: int)
    requires IsOrdered(t, t.Keys, list) && active in t
    ensures active in Without(t, Dropped(list, active, num))
    ensures num <= 0 ==> forall id :: id in Without(t, Dropped(list, active, num)) ==> id == active
  {
    KeptOrDropped(t, list, active, num);
  }

  lemma {:induction false} OnlyActivatedIsLive(t: Table, recent: Option<string>, id: string, st: Stream)
    requires DistinctTimes(t) && LiveIsNewest(t) && st.live && IsRecent(t, recent) && recent != Some(id)
    ensures var after := Activated(t, recent, id, st, false);
            && id in after && after[id].live
            && (forall x :: x in after && x != id ==> x in t && !after[x].live && after[x].activated == t[x].activated)
            && (forall x :: x in t ==> x in after)
            && after[id].activated == (if id in t then t[id].activated else st.activated)
  {
    forall x | x in t && t[x].live ensures Some(x) == recent {
      assert t[x].activated == t[recent.value].activated;
    }
  }

  lemma {:induction false} NewestOtherIsKept(t: Table, list: seq<string>, active: string, num: int, newest: string)
    requires IsOrdered(t, t.Keys, list) && DistinctTimes(t) && active in t && num > 0
    requires newest in t && newest != active
    requires forall x :: x in t && x != active ==> t[x].activated <= t[newest].activated
    ensures newest in Without(t, Dropped(list, active, num))
  {
    KeptOrDropped(t, list, active, num);
    OthersCount(t, list, active);
    var others, n := Others(list, active), Clip(num, |Others(list, active)|);
    KeptBeforeDropped(t, list, active, n);
    if |others| > 0 {
      assert others[0] in others[..n] && others[0] in t && others[0] != active;
    }
  }

  // ---------------------------------------------------------------- two live streams

  ghost predicate IsLive(t: Table, id: string) {
    id in t && t[id].live
  }

  /** The streams other than the active one that were activated after x. */
  ghost function NewerOthers(t: Table, active: string, x: string): set<string>
    requires x in t
  {
    set y | y in t && y != active && t[y].activated > t[x].activated
  }

  /** Retention keeps a stream exactly if fewer than num others are newer. */
  lemma {:induction false} StaysIff(t: Table, list: seq<string>, active: string, num: int, x: string)
    requires IsOrdered(t, t.Keys, list) && DistinctTimes(t) && active in t && x in t && x != active
    ensures x in Without(t, Dropped(list, active, num)) <==> |NewerOthers(t, active, x)| < num
  {
    var others := Others(list, active);
    ExceptMembers(list, {active});
    ExceptDistinct(list, {active});
    ExceptOrdered(t, list, active);
    assert x in others;
    var i :| 0 <= i < |others| && others[i] == x;
    Rank(t, others, active, i);
    InTail(others, i, Clip(num, |others|));
  }

  lemma {:induction false} InTail(list: seq<string>, i: nat, n: nat)
    requires Distinct(list) && i < |list| && n <= |list|
    ensures list[i] in list[n..] <==> i >= n
  {
    if i >= n {
      assert list[n..][i - n] == list[i];
    }
  }

  lemma {:induction false} Rank(t: Table, others: seq<string>, active: string, i: nat)
    requires DistinctTimes(t) && Distinct(others) && i < |others|
    requires forall id :: id in others <==> id in t && id != active
    requires forall j, k :: 0 <= j < k < |others| ==> t[others[j]].activated >= t[others[k]].activated
    ensures others[i] in t && |NewerOthers(t, active, others[i])| == i
  {
    var newer := NewerOthers(t, active, others[i]);
    assert forall j :: 0 <= j < |others| ==> others[j] in others;
    forall id | id in newer ensures id in others[..i] {
      var j :| 0 <= j < |others| && others[j] == id;
      assert j < i;
    }
    forall id | id in others[..i] ensures id in newer {
      var j :| 0 <= j < i && others[..i][j] == id;
      assert others[j] == id && others[j] != others[i];
    }
    DistinctCount(others[..i], newer);
  }

  /** After reactivating the stored stream a, the streams newer than it are those there were, or at
      least num of them. */
  lemma {:induction false} NewerAfterRetention(t: Table, list: seq<string>, a: string, num: int)
    requires IsOrdered(t, t.Keys, list) && DistinctTimes(t) && a in t
    ensures var left := Without(t, Dropped(list, a, num));
            a in left && (|NewerOthers(left, a, a)| < num <==> |NewerOthers(t, a, a)| < num)
  {
    ActiveStays(t, list, a, num);
    var left, newer := Without(t, Dropped(list, a, num)), NewerOthers(t, a, a);
    var still := NewerOthers(left, a, a);
    assert still <= newer;
    SubsetSize(still, newer);
    if |still| < num <= |newer| {
      EnoughNewerStay(t, list, a, num);
      assert false;
    }
  }

  /** If at least num streams are newer than a, at least num of them stay. */
  lemma {:induction false} EnoughNewerStay(t: Table, list: seq<string>, a: string, num: int)
    requires IsOrdered(t, t.Keys, list) && DistinctTimes(t) && a in t && num <= |NewerOthers(t, a, a)|
    ensures a in Without(t, Dropped(list, a, num))
    ensures |NewerOthers(Without(t, Dropped(list, a, num)), a, a)| >= num
  {
    ActiveStays(t, list, a, num);
    KeptOrDropped(t, list, a, num);
    OthersCount(t, list, a);
    var left, newer, kept := Without(t, Dropped(list, a, num)), NewerOthers(t, a, a), KeptOthers(list, a, num);
    forall x | x in kept ensures x in NewerOthers(left, a, a) {
      StaysIff(t, list, a, num, x);
      if t[x].activated < t[a].activated {
        assert newer <= NewerOthers(t, a, x);
        SubsetSize(newer, NewerOthers(t, a, x));
      }
    }
    SubsetSize(newer, t.Keys - {a});
    ExceptDistinct(list, {a});
    KeptSize(kept, NewerOthers(left, a, a));
  }

  lemma {:induction false} KeptSize(kept: seq<string>, ids: set<string>)
    requires Distinct(kept) && forall x :: x in kept ==> x in ids
    ensures |kept| <= |ids|
  {
    var elements := set x | x in kept;
    DistinctCount(kept, elements);
    SubsetSize(elements, ids);
  }

  /** The rows ActivateStream leaves for an ID that is not the newest, when no store call fails. */
  ghost predicate Starts(t: Table, id: string, st: Stream, num: int, left: Table) {
    exists recent, list :: StartsWith(t, recent, id, st, list, num, left)
  }

  ghost predicate StartsWith(t: Table, recent: Option<string>, id: string, st: Stream, list: seq<string>, num: int,
                             left: Table) {
    && st.live && IsRecent(t, recent) && recent != Some(id)
    && var after := Activated(t, recent, id, st, false);
       && IsOrdered(after, after.Keys, list)
       && left == Without(after, Dropped(list, id, num))
  }

  /** A stored stream activated again is live, but not the newest unless it is the only one. */
  lemma {:induction false} Reactivated(t: Table, a: string, st: Stream, num: int, left: Table)
    requires DistinctTimes(t) && LiveIsNewest(t) && a in t && Starts(t, a, st, num, left)
    ensures IsLive(left, a) && left[a].activated == t[a].activated
    ensures forall x :: x in left ==> x in t && left[x].activated == t[x].activated && (x == a || !left[x].live)
    ensures |NewerOthers(left, a, a)| < num <==> |NewerOthers(t, a, a)| < num
    ensures num > 0 ==> !IsNewest(left, a)
  {
    var recent, list :| StartsWith(t, recent, a, st, list, num, left);
    var after := Activated(t, recent, a, st, false);
    OnlyActivatedIsLive(t, recent, a, st);
    SameNewer(t, after, a, a);
    NewerAfterRetention(after, list, a, num);
    if num > 0 {
      NewestOtherIsKept(after, list, a, num, recent.value);
      assert left[recent.value].activated > left[a].activated;
    }
  }

  /** A new stream leaves the rank and, unless it was the newest, the state of an older one alone. */
  lemma {:induction false} NewBeside(t: Table, a: string, c: string, st: Stream, num: int, left: Table)
    requires DistinctTimes(t) && IsLive(t, a) && c !in t && Before(t, st.activated)
    requires Starts(t, c, st, num, left)
    requires num > 0 ==> !IsNewest(t, a)
    ensures IsLive(left, c)
    ensures IsLive(left, a) <==> |NewerOthers(t, a, a)| < num
  {
    var recent, list :| StartsWith(t, recent, c, st, list, num, left);
    var after := Activated(t, recent, c, st, false);
    NewRow(t, recent, c, st);
    LiveAfterRetention(after, list, c, num, a);
    NewerBeside(t, after, a, c);
  }

  lemma {:induction false} NewerBeside(t: Table, u: Table, x: string, c: string)
    requires x in t && c !in t && u.Keys == t.Keys + {c}
    requires forall y :: y in t ==> u[y].activated == t[y].activated
    ensures NewerOthers(u, c, x) == NewerOthers(t, x, x)
  {
    SameNewer(t, u, x, c);
  }

  lemma {:induction false} LiveAfterRetention(t: Table, list: seq<string>, active: string, num: int, x: string)
    requires IsOrdered(t, t.Keys, list) && DistinctTimes(t) && active in t && x in t && x != active
    ensures var left := Without(t, Dropped(list, active, num));
            && (IsLive(left, active) <==> t[active].live)
            && (IsLive(left, x) <==> t[x].live && |NewerOthers(t, active, x)| < num)
  {
    ActiveStays(t, list, active, num);
    StaysIff(t, list, active, num, x);
  }

  /** Who is newer than x depends on the times of the other streams alone. */
  lemma {:induction false} SameNewer(t: Table, u: Table, x: string, active: string)
    requires x in t && x in u && u[x].activated == t[x].activated
    requires forall y :: y in u && y != active ==> y in t && u[y].activated == t[y].activated
    requires forall y :: y in t ==> y in u && u[y].activated == t[y].activated
    requires active == x || active !in t
    ensures NewerOthers(u, active, x) == NewerOthers(t, x, x)
  {
  }

  lemma {:induction false} NewRow(t: Table, recent: Option<string>, c: string, st: Stream)
    requires DistinctTimes(t) && c !in t && Before(t, st.activated) && IsRecent(t, recent)
    ensures var after := Activated(t, recent, c, st, false);
            && DistinctTimes(after) && after.Keys == t.Keys + {c} && after[c] == st
            && (forall x :: x in t ==> after[x].activated == t[x].activated)
            && (forall x :: x in t && !IsNewest(t, x) ==> after[x] == t[x])
  {
    var after := Activated(t, recent, c, st, false);
    assert forall x :: x in after ==> x == c || x in t;
  }

  /** Reactivating a stored stream that is not the newest, and then activating a new one, leaves both
      live exactly if fewer than num streams are newer than the reactivated one: the second
      activation ends the newest stream, which is not the live one. Otherwise its retention
      deletes the live stream. */
  lemma {:induction false} TwoLiveStreamsIff(t: Table, a: string, stA: Stream, t2: Table, c: string, stC: Stream,
                                             t3: Table, num: int)
    requires DistinctTimes(t) && LiveIsNewest(t) && a in t && c !in t2 && Before(t, stC.activated)
    requires Starts(t, a, stA, num, t2) && Starts(t2, c, stC, num, t3)
    ensures IsLive(t3, c)
    ensures IsLive(t3, a) <==> |NewerOthers(t, a, a)| < num
  {
    Reactivated(t, a, stA, num, t2);
    NewBeside(t2, a, c, stC, num, t3);
  }

  function EndedStream(activated: int): Stream {
    Stream("", "", false, "audio", activated)
  }

  lemma {:induction false} TwoEnded(t: Table)
    requires t == map["a" := EndedStream(1), "b" := EndedStream(2)]
    ensures "a" in t && "c" !in t && |NewerOthers(t, "a", "a")| == 1
    ensures DistinctTimes(t) && LiveIsNewest(t) && Before(t, 4)
  {
    assert NewerOthers(t, "a", "a") == {"b"};
  }

  /** Two ended streams, the older of which is activated again, and then a new one: two are live. */
  lemma {:induction false} ReactivationLeavesTwoLive(t: Table, stA: Stream, t2: Table, stC: Stream, t3: Table, num: int)
    requires t == map["a" := EndedStream(1), "b" := EndedStream(2)] && num >= 2 && stC.activated == 4
    requires Starts(t, "a", stA, num, t2) && Starts(t2, "c", stC, num, t3)
    ensures IsLive(t3, "a") && IsLive(t3, "c")
  {
    TwoEnded(t);
    TwoLiveStreamsIff(t, "a", stA, t2, "c", stC, t3, num);
  }

  // ---------------------------------------------------------------- syncs

  ghost predicate OneIsLive(t: Table) {
    forall a, b :: IsLive(t, a) && IsLive(t, b) ==> a == b
  }

  lemma {:induction false} SameTimes(t: Table, u: Table)
    requires u.Keys == t.Keys && forall x :: x in t ==> u[x].activated == t[x].activated
    ensures forall x :: IsNewest(u, x) <==> IsNewest(t, x)
  {
    forall x ensures IsNewest(u, x) <==> IsNewest(t, x) {
      if IsNewest(u, x) {
        forall y | y in t ensures t[y].activated <= t[x].activated { assert y in u; }
      }
      if IsNewest(t, x) {
        forall y | y in u ensures u[y].activated <= u[x].activated { assert y in t; }
      }
    }
  }

  lemma {:induction false} OldestBeside(t: Table, u: Table, oldest: string)
    requires oldest !in t && u.Keys == t.Keys + {oldest}
    requires forall x :: x in t ==> u[x] == t[x] && u[oldest].activated < t[x].activated
    ensures forall x :: x in t ==> (IsNewest(u, x) <==> IsNewest(t, x))
  {
    forall x | x in t ensures IsNewest(u, x) <==> IsNewest(t, x) {
      if IsNewest(u, x) {
        forall y | y in t ensures t[y].activated <= t[x].activated { assert y in u; }
      }
      if IsNewest(t, x) {
        forall y | y in u ensures u[y].activated <= u[x].activated { assert y == oldest || y in t; }
      }
    }
  }

  lemma {:induction false} LiveIsOne(t: Table)
    requires DistinctTimes(t) && LiveIsNewest(t)
    ensures OneIsLive(t)
  {
    forall a, b | IsLive(t, a) && IsLive(t, b) ensures a == b {
      AtMostOneLive(t, a, b);
    }
  }

  lemma {:induction false} SyncKeepsOneIff(t: Table, id: string, st: Stream)
    requires OneIsLive(t)
    ensures OneIsLive(Upsert(t, id, st)) <==> !st.live || forall other :: IsLive(t, other) ==> other == id
  {
    var after := Upsert(t, id, st);
    assert forall x :: x != id ==> (IsLive(after, x) <==> IsLive(t, x));
    assert IsLive(after, id) <==> st.live;
  }

  /** A sync of a stored stream keeps "every live stream is the newest" exactly if it says the stream
      has ended or the stream is the newest; and it leaves one live stream at most exactly if it says
      so or no other is live. */
  lemma {:induction false} SyncKeepsLiveNewestIff(t: Table, id: string, st: Stream)
    requires DistinctTimes(t) && LiveIsNewest(t) && id in t
    ensures LiveIsNewest(Upsert(t, id, st)) <==> !st.live || IsNewest(t, id)
    ensures OneIsLive(Upsert(t, id, st)) <==> !st.live || forall other :: IsLive(t, other) ==> other == id
  {
    SameTimes(t, Upsert(t, id, st));
    LiveIsOne(t);
    SyncKeepsOneIff(t, id, st);
  }

  /** A sync stores a stream it does not find with the activation time zero: it is the oldest. Live,
      it keeps either exactly if nothing else is stored, or live. */
  lemma {:induction false} NewSyncKeepsLiveNewestIff(t: Table, id: string, st: Stream)
    requires DistinctTimes(t) && LiveIsNewest(t) && id !in t && st.activated == 0
    requires forall x :: x in t ==> t[x].activated > 0
    ensures LiveIsNewest(Upsert(t, id, st)) <==> !st.live || t == map[]
    ensures OneIsLive(Upsert(t, id, st)) <==> !st.live || forall other :: !IsLive(t, other)
  {
    var after := Upsert(t, id, st);
    OldestBeside(t, after, id);
    if t != map[] {
      var x :| x in t;
      assert x in after && after[x].activated > 0;
    }
    LiveIsOne(t);
    SyncKeepsOneIff(t, id, st);
    assert forall other :: IsLive(t, other) ==> other != id;
  }

  // ---------------------------------------------------------------- runs

  datatype Step =
    | Activate(id: string, st: Stream, gone: set<string>)   // gone: what retention then deletes
    | Deactivate(id: string)
    | SyncStream(id: string, st: Stream)                    // UpsertStream in syncHandler
    | Edit(id: string, u: StreamUpdate)
    | Delete(id: string)                                    // admin or maintenance

  datatype State = State(streams: Table, clock: int)

  /** Activations name the newest stream or an unstored ID, at increasing times; syncs name the
      newest stream. */
  ghost predicate Enabled(s: State, a: Step) {
    match a
    case Activate(id, st, gone) =>
      st.live && st.activated > s.clock && (id !in s.streams || IsNewest(s.streams, id)) && id !in gone
    case Deactivate(_) => true
    case SyncStream(id, _) => IsNewest(s.streams, id)
    case Edit(_, _) => true
    case Delete(_) => true
  }

  ghost predicate Moves(s: State, a: Step, t: State)
    requires Enabled(s, a)
  {
    match a
    case Activate(id, st, gone) =>
      && t.clock == st.activated
      && exists recent :: IsRecent(s.streams, recent) &&
           t.streams == Activated(s.streams, recent, id, st, false) - gone
    case Deactivate(id) =>
      && t.clock == s.clock
      && exists recent :: IsRecent(s.streams, recent) &&
           t.streams == if recent == Some(id) then SetLive(s.streams, id, false) else s.streams
    case SyncStream(id, st) => t == s.(streams := Upsert(s.streams, id, st))
    case Edit(id, u) =>
      t == (match Update(s.streams, id, u) case Ok(rows) => s.(streams := rows) case Err(_) => s)
    case Delete(id) => t == s.(streams := s.streams - {id})
  }

  /** The rows activateStream leaves for a stream that is not the newest are those of such a step. */
  lemma {:induction false} StartIsAStep(s: State, id: string, st: Stream, num: int, left: Table)
    requires Starts(s.streams, id, st, num, left) && st.activated > s.clock && id !in s.streams
    ensures exists gone ::
              Enabled(s, Activate(id, st, gone)) && Moves(s, Activate(id, st, gone), State(left, st.activated))
  {
    var recent, list :| StartsWith(s.streams, recent, id, st, list, num, left);
    var after := Activated(s.streams, recent, id, st, false);
    KeptOrDropped(after, list, id, num);
    var gone := set x | x in Dropped(list, id, num);
    assert left == after - gone;
    assert Enabled(s, Activate(id, st, gone)) && Moves(s, Activate(id, st, gone), State(left, st.activated));
  }

  /** The newest stream coming live again, or ending, is one too; the other rows stay. */
  lemma {:induction false} SwitchIsAStep(s: State, id: string, live: bool, st: Stream, left: Table)
    requires IsNewest(s.streams, id) && id in left && SameOthers(s.streams, left, id)
    requires left[id] == s.streams[id].(live := live) && st.live && st.activated > s.clock
    ensures live ==> Moves(s, Activate(id, st, {}), State(left, st.activated)) && Enabled(s, Activate(id, st, {}))
    ensures !live ==> Moves(s, Deactivate(id), State(left, s.clock))
  {
    assert IsRecent(s.streams, Some(id));
    assert left == SetLive(s.streams, id, live);
    if live {
      assert left - {} == left;
      assert Activated(s.streams, Some(id), id, st, false) == left;
    }
  }

  /** So is a resync, an edit and a delete: what the statement leaves, told by its effect. */
  lemma {:induction false} StatementsAreSteps(s: State, id: string, st: Stream, u: StreamUpdate, left: Table)
    ensures IsNewest(s.streams, id) && SameOthers(s.streams, left, id) && id in left
            && left[id] == st.(activated := s.streams[id].activated) ==>
              Moves(s, SyncStream(id, st), State(left, s.clock))
    ensures Update(s.streams, id, u) == Ok(left) ==> Moves(s, Edit(id, u), State(left, s.clock))
    ensures left.Keys == s.streams.Keys - {id} && SameOthers(s.streams, left, id) ==>
              Moves(s, Delete(id), State(left, s.clock))
  {
    if IsNewest(s.streams, id) && SameOthers(s.streams, left, id) && id in left
       && left[id] == st.(activated := s.streams[id].activated) {
      assert left == Upsert(s.streams, id, st);
    }
    if left.Keys == s.streams.Keys - {id} && SameOthers(s.streams, left, id) {
      assert left == s.streams - {id};
    }
  }

  ghost predicate Inv(s: State) {
    DistinctTimes(s.streams) && LiveIsNewest(s.streams) && Before(s.streams, s.clock + 1)
  }

  lemma {:induction false} DeletionKeeps(t: Table, gone: set<string>, clock: int)
    requires DistinctTimes(t) && LiveIsNewest(t) && Before(t, clock)
    ensures DistinctTimes(t - gone) && LiveIsNewest(t - gone) && Before(t - gone, clock)
  {
    forall id | id in t - gone && (t - gone)[id].live ensures IsNewest(t - gone, id) {
      assert IsNewest(t, id);
    }
  }

  lemma {:induction false} ActivateKeeps(t: Table, recent: Option<string>, id: string, st: Stream)
    requires DistinctTimes(t) && LiveIsNewest(t) && Before(t, st.activated) && st.live
    requires IsRecent(t, recent) && (id !in t || IsNewest(t, id))
    ensures var after := Activated(t, recent, id, st, false);
            DistinctTimes(after) && LiveIsNewest(after) && Before(after, st.activated + 1)
  {
    if id in t {
      assert t[recent.value].activated == t[id].activated;
      assert recent == Some(id);
    } else {
      OnlyActivatedIsLive(t, recent, id, st);
    }
  }

  lemma {:induction false} StepKeepsInv(s: State, a: Step, t: State)
    requires Inv(s) && Enabled(s, a) && Moves(s, a, t)
    ensures Inv(t)
  {
    match a
    case Activate(id, st, gone) =>
      var recent :| IsRecent(s.streams, recent) && t.streams == Activated(s.streams, recent, id, st, false) - gone;
      ActivateKeeps(s.streams, recent, id, st);
      DeletionKeeps(Activated(s.streams, recent, id, st, false), gone, t.clock + 1);
    case Deactivate(id) =>
    case SyncStream(id, st) =>
    case Edit(id, u) =>
    case Delete(id) => DeletionKeeps(s.streams, {id}, s.clock + 1);
  }

  ghost predicate IsRun(run: seq<State>) {
    && |run| > 0 && run[0].streams == map[]
    && forall k :: 0 <= k < |run| - 1 ==> Follows(run[k], run[k + 1])
  }

  ghost predicate Follows(s: State, t: State) {
    exists a :: Enabled(s, a) && Moves(s, a, t)
  }

  /** In every such run any live stream is the newest, so at most one is live. */
  lemma {:induction false} OneLiveStream(run: seq<State>, k: nat)
    requires IsRun(run) && k < |run|
    ensures Inv(run[k])
    ensures forall a, b :: IsLive(run[k].streams, a) && IsLive(run[k].streams, b) ==>
              a == b && IsNewest(run[k].streams, a)
  {
    if k > 0 {
      OneLiveStream(run, k - 1);
      assert Follows(run[k - 1], run[(k - 1) + 1]);
      var a :| Enabled(run[k - 1], a) && Moves(run[k - 1], a, run[k]);
      StepKeepsInv(run[k - 1], a, run[k]);
    }
    var t := run[k].streams;
    forall a, b | IsLive(t, a) && IsLive(t, b) ensures a == b && IsNewest(t, a) {
      AtMostOneLive(t, a, b);
    }
  }

  /** Then the stream held out of the broadcast past list is the newest one, which is also the one
      clients are sent on connecting. */
  lemma {:induction false} HeldOutIsNewest(s: State, exclude: string)
    requires Inv(s) && s.streams != map[] && IsHeldOut(s.streams, exclude)
    ensures IsNewest(s.streams, exclude)
  {
  }
}
