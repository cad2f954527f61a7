/** internal/store/incoming.go: the queued stream URLs, by their primary key. */
module IncomingQueue {
  import opened Prelude

  datatype Entry = Entry(channel: string, url: string)

  /** received_at in whole seconds. */
  type Queue = map<Entry, int>

  ghost function Stamps(q: Queue, channel: string): (stamps: set<int>)
    ensures forall e :: e in q && e.channel == channel ==> q[e] in stamps
    ensures forall v :: v in stamps ==> exists e :: e in q && e.channel == channel && q[e] == v
  {
    set e | e in q && e.channel == channel :: q[e]
  }

  /** COALESCE(MAX(received_at), 0) over the channel. */
  ghost predicate IsLatest(q: Queue, channel: string, latest: int) {
    if Stamps(q, channel) == {} then latest == 0 else IsMaximum(Stamps(q, channel), latest)
  }

  lemma {:induction false} LatestExists(q: Queue, channel: string)
    ensures exists latest :: IsLatest(q, channel, latest)
  {
    if Stamps(q, channel) != {} {
      MaximumExists(Stamps(q, channel));
      var m :| IsMaximum(Stamps(q, channel), m);
      assert IsLatest(q, channel, m);
    } else {
      assert IsLatest(q, channel, 0);
    }
  }

  /** GetLatestIncomingTime. */
  ghost function Latest(q: Queue, channel: string): (latest: int)
    ensures IsLatest(q, channel, latest)
  {
    LatestExists(q, channel);
    var latest :| IsLatest(q, channel, latest);
    latest
  }

  lemma {:induction false} LatestBounds(q: Queue, e: Entry)
    requires e in q
    ensures q[e] <= Latest(q, e.channel)
  {
    assert q[e] in Stamps(q, e.channel);
  }

  lemma {:induction false} LatestBelow(q: Queue, channel: string, bound: int)
    requires 0 <= bound && forall e :: e in q ==> q[e] <= bound
    ensures Latest(q, channel) <= bound
  {
  }

  /** Removing URLs never makes a channel look newer to a cursor. */
  lemma {:induction false} RemovalNeverFlags(q: Queue, gone: set<Entry>, channel: string, since: int)
    requires since >= 0 && Latest(q - gone, channel) > since
    ensures Latest(q, channel) > since
  {
    var m := Latest(q - gone, channel);
    assert m in Stamps(q - gone, channel);
    var e :| e in q - gone && e.channel == channel && (q - gone)[e] == m;
    LatestBounds(q, e);
  }
}
