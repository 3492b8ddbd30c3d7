/** API abort, keep-alive and reaper on the paged store, each by itself: what a record
    with pages does to them. */
module StoreClients {
  import opened TransitionModel
  import opened TransitionRecords
  import opened PagedStorage
  import opened EtcdStorage
  import opened RecordProtocol
  import opened RecordClients

  /** The record has pages, and its first page holds something. */
  ghost predicate Unswappable(store: EtcdStore, id: nat)
    reads store
  {
    id in store.records && HasPages(store.cfg, store.pages, id) && !HoldsNothing(store.records[id])
  }

  /** One read and one test-and-set, as all clients but the reaper do them. */
  method Swap(store: EtcdStore, id: nat, status: Option<Status>, lastActive: Option<int>) returns (ok: bool)
    requires store.Valid() && id in store.records
    modifies store
    ensures store.Valid()
    ensures old(Unswappable(store, id)) ==> !ok && store.records == old(store.records) && Unswappable(store, id)
    ensures !old(Unswappable(store, id)) ==> ok && id in store.records
    ensures ok && status.Some? && !old(HasPages(store.cfg, store.pages, id)) ==> store.records[id].status == status.value
  {
    ghost var pages0 := store.pages;
    var found, t, firstPage; ghost var l;
    found, t, firstPage, l := store.GetTransition(id, false);
    PageListEmptyIff(store.cfg, store.pages, id, l);
    if status.Some? {
      t := t.(status := status.value);
    }
    if lastActive.Some? {
      t := t.(lastActive := lastActive.value);
    }
    PreparedIsNumbered(store.cfg, store.size, t);
    WrittenSome(store.pages, Prepare(store.cfg, store.size, t).1, t.id, {});
    TestHoldsIff(store.records[id], store.records[id]);
    PreparedKeepsStatus(store.cfg, store.size, t);
    hide Prepare, WriteSome, Assemble, IsPageList;
    var err;
    ok, err := store.TASTransition(t, firstPage, Reported, {});
    assert forall k: nat :: (id, k) in pages0 ==> (id, k) in store.pages;
  }

  lemma PreparedKeepsStatus(cfg: Settings, size: Transition -> nat, t: Transition)
    requires ValidSettings(cfg)
    ensures var u := Prepare(cfg, size, t).0;
            u == t.(tasks := u.tasks, location := u.location, taskIDs := u.taskIDs)
  {
  }

  /** The API abort.  It gives up on every unfinished record whose first page holds
      something, although nothing interferes. */
  method SignalAbort(store: EtcdStore, id: nat) returns (reply: AbortReply)
    requires store.Valid()
    modifies store
    ensures store.Valid()
    ensures reply == NotFound <==> id !in old(store.records)
    ensures reply == AlreadyFinished <==> id in old(store.records) && old(store.records)[id].status == Completed
    ensures id in old(store.records) && !Terminal(old(store.records)[id].status) ==>
              (reply == GaveUp <==> old(Unswappable(store, id)))
    ensures old(Unswappable(store, id)) ==> store.records == old(store.records)
    ensures reply == Accepted && !old(HasPages(store.cfg, store.pages, id)) ==>
              id in store.records && store.records[id].status in {AbortSignaled, Aborted}
  {
    ghost var before := store.records;
    for retry := 0 to 3
      invariant store.Valid() && store.records == before
      invariant retry > 0 ==> id in before && !Terminal(before[id].status) && old(Unswappable(store, id))
      invariant old(Unswappable(store, id)) ==> Unswappable(store, id)
      invariant !old(Unswappable(store, id)) ==> retry == 0 && store.pages == old(store.pages)
    {
      if id !in store.records {
        return NotFound;
      }
      if store.records[id].status == Completed {
        return AlreadyFinished;
      }
      if store.records[id].status == Aborted {
        return Accepted;
      }
      var ok := Swap(store, id, Some(AbortSignaled), None);
      if ok {
        return Accepted;
      }
    }
    reply := GaveUp;
  }

  /** A tick of the keep-alive with any number of attempts.  It never refreshes an unfinished
      record whose first page holds something. */
  method RefreshActivity(store: EtcdStore, id: nat, now: int, attempts: nat) returns (refreshed: bool)
    requires store.Valid()
    modifies store
    ensures store.Valid()
    ensures old(Unswappable(store, id)) ==> !refreshed && store.records == old(store.records) && Unswappable(store, id)
    ensures id in old(store.records) && !Terminal(old(store.records)[id].status) && !old(Unswappable(store, id)) ==>
              (refreshed <==> attempts > 0)
  {
    ghost var before := store.records;
    for i := 0 to attempts
      invariant store.Valid() && store.records == before
      invariant old(Unswappable(store, id)) ==> Unswappable(store, id)
      invariant id in before && !Terminal(before[id].status) && !old(Unswappable(store, id)) ==> i == 0 && store.pages == old(store.pages)
    {
      if id !in store.records || Terminal(store.records[id].status) {
        return false;
      }
      refreshed := Swap(store, id, None, Some(now));
      if refreshed {
        return;
      }
    }
    refreshed := false;
  }

  /** The record is what a reaper leaves, as far as it is not split into pages. */
  ghost predicate ReapedHeader(rec: Transition, now: int, stamp: int, left: Option<Transition>) {
    if left.None? then Reaped(rec, now, stamp, None)
    else Reaped(rec, now, stamp, Some(left.value.(tasks := rec.tasks, location := rec.location, taskIDs := rec.taskIDs)))
  }

  /** The reaper tests against the record as it lists it, without the pages, and so its
      test-and-set holds: it signals every expired unfinished record, and starts a runner
      for every abandoned one. */
  method ReapListed(store: EtcdStore, id: nat, now: int, stamp: int) returns (started: bool)
    requires store.Valid()
    modifies store
    ensures store.Valid()
    ensures started <==>
            && id in old(store.records) && !Terminal(old(store.records)[id].status)
            && old(store.records)[id].lastActive + 30 < now
    ensures id in old(store.records) ==> ReapedHeader(old(store.records)[id], now, stamp, StoredAt(store.records, id))
    ensures forall other :: other != id ==> StoredAt(store.records, other) == old(StoredAt(store.records, other))
  {
    started := false;
    if id in store.records {
      var rec := store.records[id];
      var action := ReapActionFor(rec, now, stamp);
      match action {
        case Nothing =>
        case Delete =>
          store.DeleteTransition(id, false, false, {});
        case Write(written, start) =>
          PreparedKeepsStatus(store.cfg, store.size, written);
          hide Prepare, WriteSome;
          var ok, err := store.TASTransition(written, rec, Reported, {});
          started := ok && start;
        case Overwrite(written) =>
          PreparedKeepsStatus(store.cfg, store.size, written);
          hide Prepare, WriteSome;
          var err := store.StoreTransition(written, false, {});
      }
    }
  }

  /** A transition with pages whose keep-alive ticks all the time is restarted as soon as it
      has been active for more than three intervals. */
  method LivePagedTransition(store: EtcdStore, id: nat, ticks: seq<int>, attempts: nat, now: int, stamp: int)
    returns (restarted: bool)
    requires store.Valid() && Unswappable(store, id) && !Terminal(store.records[id].status)
    modifies store
    ensures store.Valid()
    ensures restarted <==> now > old(store.records)[id].lastActive + 3 * KeepAliveInterval
  {
    ghost var before := store.records;
    for i := 0 to |ticks|
      invariant store.Valid() && store.records == before && Unswappable(store, id)
    {
      var refreshed := RefreshActivity(store, id, ticks[i], attempts);
    }
    restarted := ReapListed(store, id, now, stamp);
  }
}
