/** The procedures that access the shared record, each with its retry loop, and with
    arbitrary steps of the other processes between any two of its own accesses. */
module RecordClients {
  import opened TransitionModel
  import opened Timestamps
  import opened TransitionRecords
  import opened RecordProtocol

  datatype AbortReply = NotFound | AlreadyFinished | Accepted | GaveUp | StorageError

  ghost predicate OnPath(start: Sys, log: seq<Event>, s: Sys) {
    After(start, log) == Some(s) && Sound(s)
  }

  lemma NextOnPath(start: Sys, log: seq<Event>, s: Sys, e: Event)
    requires OnPath(start, log, s) && Enabled(s, e)
    ensures OnPath(start, log + [e], Apply(s, e))
  {
    hide Apply, Enabled, Sound;
    assert (log + [e])[..|log|] == log;
    StepKeepsSound(s, e);
  }

  /** The status the record had after the first `at` steps. */
  ghost function StatusAt(start: Sys, log: seq<Event>, at: nat): Option<Status> {
    if at <= |log| && After(start, log[..at]).Some? then StatusOf(After(start, log[..at]).value.store) else None
  }

  lemma StatusAtIsStable(start: Sys, log: seq<Event>, log': seq<Event>, at: nat)
    requires at <= |log| && log <= log'
    ensures StatusAt(start, log', at) == StatusAt(start, log, at)
  {
    assert log'[..at] == log[..at];
  }

  /** An accepted abort is not lost: unless a later step acts on a record seen finished
      or missing, or deletes it, the record stays signaled or reaches its final status. */
  lemma {:induction false} AcceptedAbortLasts(start: Sys, log: seq<Event>, at: nat)
    requires Sound(start) && at <= |log| && After(start, log).Some?
    requires StatusAt(start, log, at) in {Some(AbortSignaled), Some(Aborted)}
    requires forall i :: at <= i < |log| && After(start, log[..i]).Some? ==> !Backward(After(start, log[..i]).value, log[i])
    ensures After(start, log).value.store.Some? && Rank(After(start, log).value.store) >= 2
  {
    if at == |log| {
      assert log[..at] == log;
    } else {
      var mid := log[..|log| - 1];
      assert forall i :: 0 <= i < |mid| ==> mid[..i] == log[..i] && mid[i] == log[i];
      StatusAtIsStable(start, mid, log, at);
      AcceptedAbortLasts(start, mid, at);
      RunKeepsSound(start, mid);
      StepMovesForward(After(start, mid).value, log[|log| - 1]);
    }
  }

  class Instances {
    var sys: Sys
    ghost var log: seq<Event>

    ghost predicate Follows(start: Sys)
      reads this
    {
      OnPath(start, log, sys)
    }

    /** One atomic access to the store. */
    method Access(e: Event, ghost start: Sys)
      requires Follows(start) && Enabled(sys, e)
      modifies this
      ensures Follows(start) && sys == Apply(old(sys), e) && log == old(log) + [e]
    {
      hide Apply, Enabled;
      NextOnPath(start, log, sys, e);
      sys := Apply(sys, e);
      log := log + [e];
    }

    /** Any number of steps of the other processes; the memory of `p` is its own. */
    method Others(p: nat, ghost start: Sys)
      requires Follows(start)
      modifies this
      ensures Follows(start) && old(log) <= log
      ensures (p in sys.held <==> p in old(sys.held)) && (p in sys.held ==> sys.held[p] == old(sys.held)[p])
    {
    }

    /** Reads the clock; no two readings are equal. */
    method Now(p: nat, ghost start: Sys) returns (stamp: int)
      requires Follows(start)
      modifies this
      ensures Follows(start) && old(log) <= log && FreshStamp(sys, stamp)
      ensures sys == old(sys).(clock := stamp) && old(sys.clock) <= stamp
    {
      stamp := Unused(sys.used, sys.clock);
      Access(Tick(stamp), start);
    }

    /** The API request to abort.  When it is accepted, the record was signaled or
        already aborted at some moment during the call.  A read or a write may fail, and a
        write may be carried out although it is reported as failed. */
    method AbortTransition(p: nat, ghost start: Sys) returns (reply: AbortReply, ghost at: nat)
      requires Follows(start)
      modifies this
      ensures Follows(start) && old(log) <= log && |old(log)| <= at <= |log|
      ensures reply == Accepted ==> StatusAt(start, log, at) in {Some(AbortSignaled), Some(Aborted)}
      ensures reply == AlreadyFinished ==> StatusAt(start, log, at) == Some(Completed)
      ensures reply == NotFound ==> StatusAt(start, log, at) == None
    {
      hide Sound;
      at := |log|;
      for retry := 0 to 3
        invariant Follows(start) && old(log) <= log && at == |old(log)|
      {
        Others(p, start);
        assert log[..|log|] == log;
        var readFails: bool := *;
        if readFails {
          return StorageError, |log|;
        }
        if sys.store.None? {
          return NotFound, |log|;
        }
        if sys.store.value.status == Completed {
          return AlreadyFinished, |log|;
        }
        if sys.store.value.status == Aborted {
          return Accepted, |log|;
        }
        Access(ReadForAbort(p), start);
        Others(p, start);
        var ok := sys.store == Some(sys.held[p].rec);
        var report := SomeReport();
        if report == Lost {
          return StorageError, |log|;
        }
        Access(TasAbort(p), start);
        assert log[..|log|] == log;
        if report == HiddenWrite {
          return StorageError, |log|;
        }
        if ok {
          return Accepted, |log|;
        }
      }
      reply := GaveUp;
    }

    /** How the store answers a write. */
    method SomeReport() returns (report: Report)
    {
      var hidden: bool := *;
      var lost: bool := *;
      report := if lost then Lost else if hidden then HiddenWrite else Reported;
    }

    /** One read and one conditional store by the runner; either may fail. */
    method StoreOnce(p: nat, tr: Record, ghost start: Sys)
      returns (readFails: bool, seen: Option<Record>, ok: bool, ghost readAt: nat)
      requires Follows(start) && tr.status in {InProgress, AbortSignaled}
      modifies this
      ensures Follows(start) && old(log) <= log && |old(log)| <= readAt <= |log|
      ensures readFails ==> !ok && seen.None?
      ensures !readFails ==> readAt < |log| && StatusAt(start, log, readAt) == StatusOf(seen)
      ensures ok ==>
                && sys.store.Some?
                && sys.store.value == tr.(lastActive := sys.store.value.lastActive,
                     status := if seen.Some? && seen.value.status == AbortSignaled then AbortSignaled else tr.status)
      ensures ok && seen.Some? ==> StatusAt(start, log, |log| - 1) == StatusOf(seen)
    {
      hide Sound;
      Others(p, start);
      readAt, seen, ok := |log|, None, false;
      readFails := *;
      if readFails {
        return;
      }
      seen := sys.store;
      ghost var atRead := log;
      assert log[..|log|] == log;
      Access(ReadForStore(p, tr), start);
      Others(p, start);
      var stamp := Now(p, start);
      var report := SomeReport();
      if report == Lost {
        StatusAtIsStable(start, atRead, log, readAt);
        return;
      }
      ok := report == Reported && (seen.None? || sys.store == seen);
      ghost var atWrite := log;
      assert log[..|log|] == log;
      Access(TasStore(p, stamp), start);
      StatusAtIsStable(start, atRead, log, readAt);
      StatusAtIsStable(start, atWrite, log, |log| - 1);
    }

    /** The runner's store with its retries.  An abort is reported only if one was read,
        and a success without a report replaced a record that was not signaled, unless
        the record was missing when it was read: then the store tests nothing.  A failing
        read ends the attempts, and so does a failing store of a missing record. */
    method StoreTransition(p: nat, tr: Record, ghost start: Sys)
      returns (abort: bool, stored: bool, missing: bool, ghost at: nat)
      requires Follows(start) && tr.status == InProgress
      modifies this
      ensures Follows(start) && old(log) <= log && |old(log)| <= at <= |log|
      ensures abort ==> StatusAt(start, log, at) == Some(AbortSignaled)
      ensures stored ==> sys.store.Some? && sys.store.value.status == (if abort then AbortSignaled else InProgress)
      ensures stored && !abort && !missing ==>
                |log| > 0 && StatusAt(start, log, |log| - 1).Some? && StatusAt(start, log, |log| - 1) != Some(AbortSignaled)
    {
      hide OnPath, StatusAt;
      abort, stored, missing, at := false, false, false, |log|;
      var offer := tr;
      for retry := 0 to 3
        invariant Follows(start) && old(log) <= log && |old(log)| <= at <= |log|
        invariant offer.status == if abort then AbortSignaled else InProgress
        invariant abort ==> StatusAt(start, log, at) == Some(AbortSignaled)
      {
        ghost var before := log;
        var readFails, seen, ok; ghost var readAt;
        readFails, seen, ok, readAt := StoreOnce(p, offer, start);
        if abort {
          StatusAtIsStable(start, before, log, at);
        }
        if readFails {
          return;
        }
        if seen.Some? && seen.value.status == AbortSignaled {
          abort, at := true, readAt;
          offer := offer.(status := AbortSignaled);
        }
        if ok || seen.None? {
          stored, missing := ok, seen.None?;
          return;
        }
      }
    }

    /** One tick of the keep-alive, with at most `attempts` retries.  A refresh changes
        the activity time of an unfinished record and nothing else. */
    method KeepAlive(p: nat, attempts: nat, ghost start: Sys) returns (refreshed: bool, finished: bool)
      requires Follows(start)
      modifies this
      ensures Follows(start) && old(log) <= log
      ensures refreshed ==>
                && Nonterminal(sys.store) && |log| > 0 && After(start, log[..|log| - 1]).Some?
                && exists t :: After(start, log[..|log| - 1]).value.store == Some(sys.store.value.(lastActive := t))
      ensures finished ==> !Nonterminal(sys.store)
    {
      hide Sound;
      refreshed, finished := false, false;
      for i := 0 to attempts
        invariant Follows(start) && old(log) <= log
      {
        Others(p, start);
        if !Nonterminal(sys.store) {
          return false, true;
        }
        Access(ReadForKeepAlive(p), start);
        assert !Terminal(sys.held[p].rec.status);
        ghost var rec := sys.held[p].rec;
        Others(p, start);
        var stamp := Now(p, start);
        var ok := sys.store == Some(sys.held[p].rec);
        ghost var before := log;
        Access(TasKeepAlive(p, stamp), start);
        assert log[..|log| - 1] == before;
        if ok {
          assert After(start, before).value.store == Some(sys.store.value.(lastActive := rec.lastActive));
          return true, false;
        }
      }
    }

    /** The reaper's treatment of one record of its snapshot.  It starts a runner only
        for an unfinished record that was abandoned and that it was the first to claim.
        `now` is the time it took, `stamp` the one it writes. */
    method ReapRecord(p: nat, ghost start: Sys) returns (started: bool, ghost rec: Option<Record>, ghost now: int, ghost stamp: int)
      requires Follows(start)
      modifies this
      ensures Follows(start) && old(log) <= log
      ensures rec.Some? ==>
                && |log| > 0 && After(start, log[..|log| - 1]).Some?
                && var before := After(start, log[..|log| - 1]).value;
                   && (before.store == rec ==> Reaped(rec.value, now, stamp, sys.store))
                   && (before.store != rec && !Terminal(rec.value.status) ==> sys.store == before.store)
                   && (started <==> before.store == rec && !Terminal(rec.value.status) && rec.value.lastActive + 30 < now)
      ensures started ==>
                && rec.Some? && !Terminal(rec.value.status) && Abandoned(rec.value, sys.clock)
                && |log| > 0 && After(start, log[..|log| - 1]).Some?
                && After(start, log[..|log| - 1]).value.store == rec
                && sys.started == After(start, log[..|log| - 1]).value.started + [rec.value]
    {
      hide Sound;
      Others(p, start);
      if sys.store.None? {
        return false, None, 0, 0;
      }
      Access(ReadForReaper(p), start);
      rec := Some(sys.held[p].rec);
      Others(p, start);
      var time := sys.clock;
      var mark := Now(p, start);
      now, stamp := time, mark;
      var action := ReapActionFor(sys.held[p].rec, time, mark);
      started := action.Write? && action.start && sys.store == Some(sys.held[p].rec);
      ghost var before := log;
      ReapWrites(sys, p, time, mark, true);
      Access(Reap(p, time, mark, true), start);
      assert log[..|log| - 1] == before;
    }
  }
}
