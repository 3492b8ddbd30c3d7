/** The transition record shared by all instances.

    API abort, keep-alive, reaper and runner act on one record of the store, each by
    a read followed later by a test-and-set or an unconditional store.  An `Event` is
    one atomic access; a log is any interleaving of them, crashes included. */
module RecordProtocol {
  import opened TransitionModel
  import opened TransitionRecords

  type Record = Transition

  const KeepAliveInterval: int := 10

  predicate Abandoned(rec: Record, now: int) {
    rec.lastActive < now - 3 * KeepAliveInterval
  }

  /** What a process remembers between its read and its write. */
  datatype Held =
    | AbortHeld(rec: Record)
    | KeepAliveHeld(rec: Record)
    | ReaperHeld(rec: Record)
    | StoreHeld(seen: Option<Record>, tr: Record)

  datatype Sys = Sys(
    store: Option<Record>,
    clock: int,
    used: set<int>,         // timestamps handed out so far
    held: map<nat, Held>,
    started: seq<Record>)   // the records on whose behalf a reaper started a runner

  datatype Event =
    | Tick(to: int)
    | Create(rec: Record)
    | ReadForAbort(p: nat)
    | TasAbort(p: nat)
    | ReadForKeepAlive(p: nat)
    | TasKeepAlive(p: nat, stamp: int)
    | ReadForReaper(p: nat)
    | Reap(p: nat, now: int, stamp: int, reported: bool)
    | ReadForStore(p: nat, tr: Record)
    | TasStore(p: nat, stamp: int)
    | Complete(rec: Record)
    | Crash(p: nat)

  /** A timestamp that has not been used and is not in the future. */
  predicate FreshStamp(s: Sys, stamp: int) {
    stamp <= s.clock && stamp !in s.used
  }

  predicate Nonterminal(o: Option<Record>) {
    o.Some? && !Terminal(o.value.status)
  }

  predicate Enabled(s: Sys, e: Event) {
    match e
    case Tick(to) => s.clock <= to
    case Create(rec) => s.store.None? && rec.status == New && FreshStamp(s, rec.lastActive)
    case ReadForAbort(p) => Nonterminal(s.store)
    case TasAbort(p) => p in s.held && s.held[p].AbortHeld?
    case ReadForKeepAlive(p) => Nonterminal(s.store)
    case TasKeepAlive(p, stamp) => p in s.held && s.held[p].KeepAliveHeld? && FreshStamp(s, stamp)
    case ReadForReaper(p) => s.store.Some?
    case Reap(p, now, stamp, _) => p in s.held && s.held[p].ReaperHeld? && now <= s.clock && FreshStamp(s, stamp)
    case ReadForStore(p, tr) => tr.status in {InProgress, AbortSignaled}
    case TasStore(p, stamp) => p in s.held && s.held[p].StoreHeld? && FreshStamp(s, stamp)
    case Complete(rec) => Terminal(rec.status)
    case Crash(p) => true
  }

  function Drop(held: map<nat, Held>, p: nat): map<nat, Held> {
    map q | q in held && q != p :: held[q]
  }

  /** Test-and-set on the record: writes only if the stored value is the expected one. */
  function Tas(store: Option<Record>, expected: Record, rec: Record): Option<Record> {
    if store == Some(expected) then Some(rec) else store
  }

  datatype ReapAction = Delete | Write(rec: Record, start: bool) | Overwrite(rec: Record) | Nothing

  /** What the reaper does about one record of its snapshot. */
  function ReapActionFor(rec: Record, now: int, stamp: int): ReapAction {
    var abandoned := Abandoned(rec, now);
    if rec.expires < now then
      if Terminal(rec.status) then Delete
      else Write(rec.(status := AbortSignaled, lastActive := if abandoned then stamp else rec.lastActive), abandoned)
    else if abandoned && !Terminal(rec.status) then Write(rec.(lastActive := stamp), true)
    else if Terminal(rec.status) && !rec.compressed then Overwrite(rec.(compressed := true))
    else Nothing
  }

  function ReapStep(s: Sys, p: nat, now: int, stamp: int, reported: bool): Sys
    requires p in s.held && s.held[p].ReaperHeld?
  {
    var rec := s.held[p].rec;
    var s' := s.(held := Drop(s.held, p), used := s.used + {stamp});
    match ReapActionFor(rec, now, stamp)
    case Delete => s'.(store := None)
    case Write(rec', start) =>
      s'.(store := Tas(s.store, rec, rec'),
          started := if start && reported && s.store == Some(rec) then s.started + [rec] else s.started)
    case Overwrite(rec') => s'.(store := Some(rec'))
    case Nothing => s'
  }

  /** The record a runner writes: an abort it has seen is kept. */
  function Stored(seen: Option<Record>, tr: Record, stamp: int): Record {
    tr.(lastActive := stamp,
        status := if seen.Some? && seen.value.status == AbortSignaled then AbortSignaled else tr.status)
  }

  function Apply(s: Sys, e: Event): Sys
    requires Enabled(s, e)
  {
    match e
    case Tick(to) => s.(clock := to)
    case Create(rec) => s.(store := Some(rec), used := s.used + {rec.lastActive})
    case ReadForAbort(p) => s.(held := s.held[p := AbortHeld(s.store.value)])
    case TasAbort(p) =>
      var rec := s.held[p].rec;
      s.(store := Tas(s.store, rec, rec.(status := AbortSignaled)), held := Drop(s.held, p))
    case ReadForKeepAlive(p) => s.(held := s.held[p := KeepAliveHeld(s.store.value)])
    case TasKeepAlive(p, stamp) =>
      var rec := s.held[p].rec;
      s.(store := Tas(s.store, rec, rec.(lastActive := stamp)), held := Drop(s.held, p), used := s.used + {stamp})
    case ReadForReaper(p) => s.(held := s.held[p := ReaperHeld(s.store.value)])
    case Reap(p, now, stamp, reported) => ReapStep(s, p, now, stamp, reported)
    case ReadForStore(p, tr) => s.(held := s.held[p := StoreHeld(s.store, tr)])
    case TasStore(p, stamp) =>
      var h := s.held[p];
      var rec := Stored(h.seen, h.tr, stamp);
      s.(store := if h.seen.None? then Some(rec) else Tas(s.store, h.seen.value, rec),
         held := Drop(s.held, p), used := s.used + {stamp})
    case Complete(rec) => s.(store := Some(rec))
    case Crash(p) => s.(held := Drop(s.held, p))
  }

  function After(s: Sys, log: seq<Event>): Option<Sys> {
    if log == [] then Some(s)
    else
      var mid := After(s, log[..|log| - 1]);
      if mid.Some? && Enabled(mid.value, log[|log| - 1]) then Some(Apply(mid.value, log[|log| - 1])) else None
  }

  // ----- An invariant of the memories --------------------------------------------------

  /** Abort and keep-alive only ever hold a record they saw unfinished, and a runner
      only ever offers one that is in progress or whose abort it has seen. */
  ghost predicate Sound(s: Sys) {
    forall p :: p in s.held ==> SoundMemory(s.held[p])
  }

  predicate SoundMemory(h: Held) {
    match h
    case AbortHeld(rec) => !Terminal(rec.status)
    case KeepAliveHeld(rec) => !Terminal(rec.status)
    case ReaperHeld(_) => true
    case StoreHeld(_, tr) => tr.status in {InProgress, AbortSignaled}
  }

  lemma StepKeepsSound(s: Sys, e: Event)
    requires Sound(s) && Enabled(s, e)
    ensures Sound(Apply(s, e))
  {
  }

  lemma {:induction false} RunKeepsSound(s: Sys, log: seq<Event>)
    requires Sound(s) && After(s, log).Some?
    ensures Sound(After(s, log).value)
  {
    if log != [] {
      RunKeepsSound(s, log[..|log| - 1]);
      StepKeepsSound(After(s, log[..|log| - 1]).value, log[|log| - 1]);
    }
  }

  // ----- What a step writes ----------------------------------------------------------------

  /** What a reaper makes of a record that it read and that is still stored: an expired one
      is deleted if it is finished and signaled if it is not, an abandoned one is claimed,
      and a finished one is compressed. */
  ghost predicate Reaped(rec: Record, now: int, stamp: int, left: Option<Record>) {
    if rec.status == Completed || rec.status == Aborted then
      if rec.expires < now then left == None else left == Some(rec.(compressed := true))
    else if rec.expires < now then
      left == Some(rec.(status := AbortSignaled, lastActive := if rec.lastActive + 30 < now then stamp else rec.lastActive))
    else
      left == Some(rec.(lastActive := if rec.lastActive + 30 < now then stamp else rec.lastActive))
  }

  /** The reaper of an unchanged record leaves exactly that, and starts a runner for it if it
      was abandoned and unfinished.  Of a changed record it only ever deletes or
      overwrites one that it had seen finished. */
  lemma ReapWrites(s: Sys, p: nat, now: int, stamp: int, reported: bool)
    requires Enabled(s, Reap(p, now, stamp, reported))
    ensures var rec, s' := s.held[p].rec, Apply(s, Reap(p, now, stamp, reported));
            var finished := rec.status == Completed || rec.status == Aborted;
            && (s.store == Some(rec) ==> Reaped(rec, now, stamp, s'.store))
            && (s.store == Some(rec) && reported && !finished && rec.lastActive + 30 < now ==> s'.started == s.started + [rec])
            && (s.store != Some(rec) || !reported || finished || rec.lastActive + 30 >= now ==> s'.started == s.started)
            && (s.store != Some(rec) && !finished ==> s'.store == s.store)
  {
  }

  /** The test-and-set of an abort changes the status, that of a keep-alive the activity time,
      and that of a runner's store writes what it offered, with an abort it had read kept. */
  lemma TasWrites(s: Sys, e: Event)
    requires Enabled(s, e)
    ensures var s' := Apply(s, e);
            && (e.TasAbort? ==>
                  s'.store == if s.store == Some(s.held[e.p].rec) then Some(s.held[e.p].rec.(status := AbortSignaled)) else s.store)
            && (e.TasKeepAlive? ==>
                  s'.store == if s.store == Some(s.held[e.p].rec) then Some(s.held[e.p].rec.(lastActive := e.stamp)) else s.store)
            && (e.TasStore? ==>
                  var seen, tr := s.held[e.p].seen, s.held[e.p].tr;
                  s'.store == if seen.None? || s.store == seen then
                      Some(tr.(lastActive := e.stamp, status := if seen.Some? && seen.value.status == AbortSignaled then AbortSignaled else tr.status))
                    else s.store)
            && (e.ReadForAbort? || e.ReadForKeepAlive? || e.ReadForReaper? || e.ReadForStore? || e.Crash? || e.Tick? ==>
                  s'.store == s.store)
            && (!e.Reap? ==> s'.started == s.started)
  {
  }

  // ----- Who can change the status ------------------------------------------------------

  /** Writes that do not test the stored value. */
  predicate Unconditional(s: Sys, e: Event) {
    || e.Complete?
    || (e.TasStore? && e.p in s.held && s.held[e.p].StoreHeld? && s.held[e.p].seen.None?)
    || (e.Reap? && e.p in s.held && s.held[e.p].ReaperHeld? &&
        (ReapActionFor(s.held[e.p].rec, e.now, e.stamp).Delete? || ReapActionFor(s.held[e.p].rec, e.now, e.stamp).Overwrite?))
  }

  function StatusOf(o: Option<Record>): Option<Status> {
    if o.Some? then Some(o.value.status) else None
  }

  /** A write that tests the stored value never erases an abort signal. */
  lemma TasKeepsAbortSignal(s: Sys, e: Event)
    requires Enabled(s, e) && StatusOf(s.store) == Some(AbortSignaled) && !Unconditional(s, e)
    ensures StatusOf(Apply(s, e).store) == Some(AbortSignaled)
  {
  }

  /** Among the writes that test the stored value, only a runner's store can take a
      record out of a final status, and it does so exactly when it had read that
      final record and the record has not changed since. */
  lemma FinalStatusLeftIff(s: Sys, e: Event)
    requires Sound(s) && Enabled(s, e) && !Unconditional(s, e)
    requires s.store.Some? && Terminal(s.store.value.status)
    ensures StatusOf(Apply(s, e).store) != StatusOf(s.store) <==>
            e.TasStore? && s.held[e.p].seen == s.store
  {
  }

  // ----- Runs move forward ----------------------------------------------------------------

  function Rank(o: Option<Record>): nat
    requires o.Some?
  {
    match o.value.status
    case New => 0
    case InProgress => 1
    case AbortSignaled => 2
    case Completed => 3
    case Aborted => 3
  }

  /** The steps that can take a record back: acting on a record that was seen
      finished or missing, and deleting it. */
  predicate Backward(s: Sys, e: Event) {
    || (e.TasStore? && e.p in s.held && s.held[e.p].StoreHeld? && !Nonterminal(s.held[e.p].seen))
    || (e.Reap? && e.p in s.held && s.held[e.p].ReaperHeld? && ReapActionFor(s.held[e.p].rec, e.now, e.stamp).Delete?)
  }

  lemma StepMovesForward(s: Sys, e: Event)
    requires Sound(s) && Enabled(s, e) && s.store.Some? && !Backward(s, e)
    ensures Apply(s, e).store.Some? && Rank(s.store) <= Rank(Apply(s, e).store)
  {
  }

  ghost predicate NeverBackward(s: Sys, log: seq<Event>) {
    forall i :: 0 <= i < |log| && After(s, log[..i]).Some? ==> !Backward(After(s, log[..i]).value, log[i])
  }

  /** In every interleaving without such a step the status only moves forward; in
      particular a signaled abort lasts until the record is completed or aborted. */
  lemma {:induction false} RunsMoveForward(s: Sys, log: seq<Event>)
    requires Sound(s) && s.store.Some? && After(s, log).Some? && NeverBackward(s, log)
    ensures After(s, log).value.store.Some? && Rank(s.store) <= Rank(After(s, log).value.store)
  {
    if log != [] {
      var mid := log[..|log| - 1];
      assert forall i :: 0 <= i < |mid| ==> mid[..i] == log[..i] && mid[i] == log[i];
      RunsMoveForward(s, mid);
      RunKeepsSound(s, mid);
      StepMovesForward(After(s, mid).value, log[|log| - 1]);
    }
  }

  /** A runner that carries on after its early abort: the aborted record goes back to
      in-progress. */
  lemma AbortedRecordIsRevived(rec: Record, tr: Record)
    requires rec.status == Aborted && tr.status == InProgress
    ensures var s := Sys(Some(rec), 0, {}, map[], []);
            var end := After(s, [ReadForStore(0, tr), TasStore(0, 0)]);
            end.Some? && StatusOf(end.value.store) == Some(InProgress)
  {
    var s := Sys(Some(rec), 0, {}, map[], []);
    var e1, e2 := ReadForStore(0, tr), TasStore(0, 0);
    assert [e1, e2][..1] == [e1] && [e1][..0] == [];
    assert After(s, []) == Some(s);
    assert After(s, [e1]) == Some(Apply(s, e1));
  }

  // ----- At most one runner per abandoned record --------------------------------------------

  /** The timestamp of an unfinished record is new with respect to every start. */
  ghost predicate StartsAreSpent(s: Sys) {
    && (Nonterminal(s.store) ==> s.store.value.lastActive in s.used)
    && (forall i :: 0 <= i < |s.started| ==> s.started[i].lastActive in s.used)
    && (forall i :: 0 <= i < |s.started| && Nonterminal(s.store) ==> s.started[i].lastActive != s.store.value.lastActive)
    && (forall i, j :: 0 <= i < j < |s.started| ==> s.started[i].lastActive != s.started[j].lastActive)
  }

  lemma ReapKeepsSpent(s: Sys, p: nat, now: int, stamp: int, reported: bool)
    requires StartsAreSpent(s) && Enabled(s, Reap(p, now, stamp, reported))
    ensures StartsAreSpent(ReapStep(s, p, now, stamp, reported))
  {
  }

  lemma StepKeepsSpent(s: Sys, e: Event)
    requires Sound(s) && StartsAreSpent(s) && Enabled(s, e)
    ensures StartsAreSpent(Apply(s, e))
  {
    if e.Reap? {
      ReapKeepsSpent(s, e.p, e.now, e.stamp, e.reported);
    }
  }

  /** Whatever the interleaving, and however many reapers have read the same abandoned
      record, at most one of them starts a runner on its behalf. */
  lemma {:induction false} AtMostOneRestartPerRecord(s: Sys, log: seq<Event>)
    requires Sound(s) && StartsAreSpent(s) && After(s, log).Some?
    ensures StartsAreSpent(After(s, log).value)
    ensures var started := After(s, log).value.started;
            forall i, j :: 0 <= i < j < |started| ==> started[i] != started[j]
  {
    if log != [] {
      AtMostOneRestartPerRecord(s, log[..|log| - 1]);
      RunKeepsSound(s, log[..|log| - 1]);
      StepKeepsSpent(After(s, log[..|log| - 1]).value, log[|log| - 1]);
    }
  }

  // ----- A live transition is left alone -------------------------------------------------------

  /** The last write of the activity time is at most three intervals ago. */
  predicate Live(s: Sys) {
    Nonterminal(s.store) ==> s.clock <= s.store.value.lastActive + 3 * KeepAliveInterval
  }

  lemma LiveIsNotRestarted(s: Sys, e: Event)
    requires Live(s) && Enabled(s, e)
    ensures Apply(s, e).started == s.started
  {
  }

  /** While successful writes of the activity time are never more than three
      intervals apart, no reaper starts another runner. */
  lemma {:induction false} LiveTransitionIsNeverRestarted(s: Sys, log: seq<Event>)
    requires After(s, log).Some?
    requires forall i :: 0 <= i < |log| && After(s, log[..i]).Some? ==> Live(After(s, log[..i]).value)
    ensures After(s, log).value.started == s.started
  {
    if log != [] {
      var mid := log[..|log| - 1];
      assert forall i :: 0 <= i < |mid| ==> mid[..i] == log[..i];
      LiveTransitionIsNeverRestarted(s, mid);
      LiveIsNotRestarted(After(s, mid).value, log[|log| - 1]);
    }
  }
}
