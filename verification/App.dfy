/**
 * internal/server/app.go: queueing an announced URL. The row is written, then the admin counter,
 * then everyone parked on the notifier is woken; WaitRuns shows why that order loses no wakeup.
 */
module App {
  import opened Prelude
  import opened IncomingQueue
  import opened Notifier

  datatype QueueError = UnknownChannel | DatabaseError

  class App {
    var queue: Queue
    var counters: map<string, int>      // AdminChangeCounter of every configured channel
    const notifier: Notifier

    constructor (counters: map<string, int>)
      ensures this.counters == counters && queue == map[]
      ensures notifier.Valid() && fresh(notifier) && fresh(notifier.signal)
    {
      this.counters, queue := counters, map[];
      notifier := new Notifier();
    }

    /** Closes the signal every parked poll of this moment holds; later polls hold a new one. */
    method BumpAdminChange(channel: string)
      requires notifier.Valid()
      modifies this`counters, notifier`signal, notifier.signal
      ensures notifier.Valid()
      ensures channel !in old(counters) ==>
                counters == old(counters) && notifier.signal == old(notifier.signal)
      ensures channel in old(counters) ==>
                && counters == old(counters)[channel := old(counters)[channel] + 1]
                && old(notifier.signal).closed && fresh(notifier.signal)
    {
      if channel !in counters { return; }
      counters := counters[channel := counters[channel] + 1];
      notifier.Notify();
    }

    /** An error changes nothing and wakes nobody. */
    method QueueIncomingStream(channel: string, url: string, now: int, writeFails: bool)
      returns (r: Result<(), QueueError>)
      requires notifier.Valid()
      modifies this`queue, this`counters, notifier`signal, notifier.signal
      ensures notifier.Valid()
      ensures r == if channel !in old(counters) then Err(UnknownChannel)
                   else if writeFails then Err(DatabaseError) else Ok(())
      ensures r.Err? ==> queue == old(queue) && counters == old(counters) && notifier.signal == old(notifier.signal)
      ensures r.Ok? ==>
                && queue == old(queue)[Entry(channel, url) := now]
                && counters == old(counters)[channel := old(counters)[channel] + 1]
                && old(notifier.signal).closed && fresh(notifier.signal)
    {
      if channel !in counters { return Err(UnknownChannel); }
      if writeFails { return Err(DatabaseError); }
      queue := queue[Entry(channel, url) := now];
      BumpAdminChange(channel);
      return Ok(());
    }
  }
}
