/** Election of the one instance that polls the hardware.

    The store holds the time of the master's last refresh.  An instance takes over by
    a test-and-set on a value that is 45 seconds old, or by a plain store if there is
    no value yet; the master refreshes by a test-and-set on the value it remembers. */
module Mastership {
  import opened TransitionModel
  import opened Timestamps

  const MasterInterval: int := 15

  datatype Candidate = Idle | Checking | Decided(now: int, seen: Option<int>)

  /** `remembered` is the value the refreshing loop carries, `master` the flag. */
  datatype Instance = Instance(master: bool, remembered: Option<int>, cand: Candidate)

  datatype Sys = Sys(stored: Option<int>, clock: int, used: set<int>, lock: Option<nat>, inst: map<nat, Instance>)

  datatype Event =
    | Tick(to: int)
    | Join(i: nat)
    | Acquire(i: nat)
    | ReadMaster(i: nat, now: int)
    | Claim(i: nat, report: Report)
    | Refresh(i: nat, now: int, report: Report)
    | Retire(i: nat)
    | Crash(i: nat)
    | LockExpires

  predicate FreshStamp(s: Sys, now: int) {
    now <= s.clock && now !in s.used
  }

  predicate Enabled(s: Sys, e: Event) {
    match e
    case Tick(to) => s.clock <= to
    case Join(i) => i !in s.inst
    case Acquire(i) => i in s.inst && !s.inst[i].master && s.inst[i].cand.Idle? && s.lock.None?
    case ReadMaster(i, now) => i in s.inst && s.inst[i].cand.Checking? && FreshStamp(s, now)
    case Claim(i, _) => i in s.inst && s.inst[i].cand.Decided?
    case Refresh(i, now, _) => i in s.inst && s.inst[i].remembered.Some? && FreshStamp(s, now)
    case Retire(i) => i in s.inst
    case Crash(i) => i in s.inst
    case LockExpires => true
  }

  /** The candidate goes on to write: there is no master, or its refresh is overdue. */
  predicate Writes(c: Candidate) {
    c.Decided? && (c.seen.None? || c.seen.value + 3 * MasterInterval <= c.now)
  }

  /** The write takes effect: unconditionally if no value was seen, else only if the
      stored value is still the one seen. */
  predicate Effective(s: Sys, c: Candidate) {
    Writes(c) && (c.seen.None? || s.stored == c.seen)
  }

  function Release(s: Sys, i: nat): Option<nat> {
    if s.lock == Some(i) then None else s.lock
  }

  function Claimed(s: Sys, i: nat, report: Report): Sys
    requires i in s.inst && s.inst[i].cand.Decided?
  {
    var c := s.inst[i].cand;
    var taken := Effective(s, c) && report == Reported;
    s.(stored := if Effective(s, c) && report != Lost then Some(c.now) else s.stored,
       lock := Release(s, i),
       inst := s.inst[i := if taken then Instance(true, Some(c.now), Idle) else s.inst[i].(cand := Idle)])
  }

  function Refreshed(s: Sys, i: nat, now: int, report: Report): Sys
    requires i in s.inst && s.inst[i].remembered.Some?
  {
    var current := s.stored == s.inst[i].remembered;
    s.(stored := if current && report != Lost then Some(now) else s.stored,
       used := s.used + {now},
       inst := if report != Reported then s.inst
               else if current then s.inst[i := s.inst[i].(remembered := Some(now))]
               else s.inst[i := s.inst[i].(master := false, remembered := None)])
  }

  function Apply(s: Sys, e: Event): Sys
    requires Enabled(s, e)
  {
    match e
    case Tick(to) => s.(clock := to)
    case Join(i) => s.(inst := s.inst[i := Instance(false, None, Idle)])
    case Acquire(i) => s.(lock := Some(i), inst := s.inst[i := s.inst[i].(cand := Checking)])
    case ReadMaster(i, now) =>
      s.(used := s.used + {now}, inst := s.inst[i := s.inst[i].(cand := Decided(now, s.stored))])
    case Claim(i, report) => Claimed(s, i, report)
    case Refresh(i, now, report) => Refreshed(s, i, now, report)
    case Retire(i) => s.(inst := s.inst[i := s.inst[i].(master := false, remembered := None)])
    case Crash(i) => s.(inst := map j | j in s.inst && j != i :: s.inst[j])
    case LockExpires => s.(lock := None)
  }

  function After(s: Sys, log: seq<Event>): Option<Sys> {
    if log == [] then Some(s)
    else
      var mid := After(s, log[..|log| - 1]);
      if mid.Some? && Enabled(mid.value, log[|log| - 1]) then Some(Apply(mid.value, log[|log| - 1])) else None
  }

  // ----- At most one instance is current -------------------------------------------------

  /** The instance remembers the stored value: its next refresh will succeed. */
  predicate Current(s: Sys, i: nat) {
    i in s.inst && s.inst[i].remembered.Some? && s.stored == s.inst[i].remembered
  }

  /** Timestamps in use by instances are pairwise distinct. */
  ghost predicate Distinct(s: Sys) {
    && (forall i :: i in s.inst ==> s.inst[i].master == s.inst[i].remembered.Some?)
    && (forall i :: i in s.inst && s.inst[i].remembered.Some? ==> s.inst[i].remembered.value in s.used)
    && (forall i :: i in s.inst && s.inst[i].cand.Decided? ==> s.inst[i].cand.now in s.used && !s.inst[i].master)
    && (forall i :: i in s.inst && s.inst[i].cand.Checking? ==> !s.inst[i].master)
    && (forall i, j :: i in s.inst && j in s.inst && i != j && s.inst[i].remembered.Some? ==>
          s.inst[i].remembered != s.inst[j].remembered &&
          (s.inst[j].cand.Decided? ==> s.inst[j].cand.now != s.inst[i].remembered.value))
    && (forall i, j :: i in s.inst && j in s.inst && i != j && s.inst[i].cand.Decided? && s.inst[j].cand.Decided? ==>
          s.inst[i].cand.now != s.inst[j].cand.now)
  }

  lemma ClaimKeepsDistinct(s: Sys, i: nat, report: Report)
    requires Distinct(s) && Enabled(s, Claim(i, report))
    ensures Distinct(Claimed(s, i, report))
  {
  }

  lemma RefreshKeepsDistinct(s: Sys, i: nat, now: int, report: Report)
    requires Distinct(s) && Enabled(s, Refresh(i, now, report))
    ensures Distinct(Refreshed(s, i, now, report))
  {
  }

  lemma ReadKeepsDistinct(s: Sys, i: nat, now: int)
    requires Distinct(s) && Enabled(s, ReadMaster(i, now))
    ensures Distinct(Apply(s, ReadMaster(i, now)))
  {
  }

  lemma OtherKeepsDistinct(s: Sys, e: Event)
    requires Distinct(s) && Enabled(s, e) && !e.Claim? && !e.Refresh? && !e.ReadMaster?
    ensures Distinct(Apply(s, e))
  {
  }

  lemma StepKeepsDistinct(s: Sys, e: Event)
    requires Distinct(s) && Enabled(s, e)
    ensures Distinct(Apply(s, e))
  {
    hide Distinct;
    match e
    case Claim(i, report) => ClaimKeepsDistinct(s, i, report);
    case Refresh(i, now, report) => RefreshKeepsDistinct(s, i, now, report);
    case ReadMaster(i, now) => ReadKeepsDistinct(s, i, now);
    case _ => OtherKeepsDistinct(s, e);
  }

  /** In every reachable state at most one instance remembers the stored value, even
      when errors hide writes that were carried out. */
  lemma {:induction false} AtMostOneCurrent(s: Sys, log: seq<Event>)
    requires Distinct(s) && After(s, log).Some?
    ensures Distinct(After(s, log).value)
    ensures forall i, j :: Current(After(s, log).value, i) && Current(After(s, log).value, j) ==> i == j
  {
    if log != [] {
      hide Apply, Enabled;
      AtMostOneCurrent(s, log[..|log| - 1]);
      StepKeepsDistinct(After(s, log[..|log| - 1]).value, log[|log| - 1]);
    }
  }

  /** A displaced master drops its flag at the first refresh that reports a result, and
      a current one keeps it. */
  lemma FlagAfterRefresh(s: Sys, i: nat, now: int)
    requires Distinct(s) && Enabled(s, Refresh(i, now, Reported))
    ensures Apply(s, Refresh(i, now, Reported)).inst[i].master <==> Current(s, i)
    ensures Current(s, i) ==> Current(Apply(s, Refresh(i, now, Reported)), i)
  {
  }

  // ----- Displacement -----------------------------------------------------------------------

  predicate By(e: Event, i: nat) {
    match e
    case Claim(j, _) => i == j
    case Refresh(j, _, _) => i == j
    case Retire(j) => i == j
    case Crash(j) => i == j
    case _ => false
  }

  /** Another instance ends the mastership of a current master exactly when it carries
      out a claim on a value that it saw missing, or saw 45 seconds old. */
  lemma DisplacedIff(s: Sys, e: Event, i: nat)
    requires Distinct(s) && Enabled(s, e) && Current(s, i) && !By(e, i)
    ensures !Current(Apply(s, e), i) <==>
            && e.Claim? && e.report != Lost
            && var c := s.inst[e.i].cand;
               c.seen.None? || (s.stored == c.seen && c.seen.value + 45 <= c.now)
  {
  }

  /** A claim whose result is known succeeds exactly when no value was seen, or when the
      value seen is still stored and at least 45 seconds old; it then stores its time and
      makes the candidate the current master, and otherwise changes neither. */
  lemma ClaimWinsIff(s: Sys, i: nat)
    requires Distinct(s) && Enabled(s, Claim(i, Reported))
    ensures var c, s' := s.inst[i].cand, Apply(s, Claim(i, Reported));
            && i in s'.inst && s'.inst[i].cand.Idle?
            && (s'.inst[i].master <==> c.seen.None? || (s.stored == c.seen && c.seen.value + 45 <= c.now))
            && (s'.inst[i].master ==> Current(s', i) && s'.stored == Some(c.now))
            && (!s'.inst[i].master ==> s'.stored == s.stored && !Current(s', i))
  {
  }

  /** So an overdue master is replaced by the first candidate whose calls all succeed. */
  lemma OverdueMasterIsReplaced(s: Sys, i: nat, now: int)
    requires Distinct(s) && Enabled(s, Acquire(i)) && FreshStamp(s, now)
    requires s.stored.None? || s.stored.value + 45 <= now
    ensures var log := [Acquire(i), ReadMaster(i, now), Claim(i, Reported)];
            var end := After(s, log);
            && end.Some? && Current(end.value, i) && end.value.inst[i].master && end.value.stored == Some(now)
            && end.value.lock.None?
  {
    var s1 := Apply(s, Acquire(i));
    var s2 := Apply(s1, ReadMaster(i, now));
    assert After(s, []) == Some(s);
    AfterSnoc(s, [], Acquire(i));
    assert [] + [Acquire(i)] == [Acquire(i)];
    AfterSnoc(s, [Acquire(i)], ReadMaster(i, now));
    assert [Acquire(i)] + [ReadMaster(i, now)] == [Acquire(i), ReadMaster(i, now)];
    AfterSnoc(s, [Acquire(i), ReadMaster(i, now)], Claim(i, Reported));
    assert [Acquire(i), ReadMaster(i, now)] + [Claim(i, Reported)] == [Acquire(i), ReadMaster(i, now), Claim(i, Reported)];
  }

  /** Giving up the mastership drops the flag and leaves the stored value; a crash and an
      expired lock leave it as well. */
  lemma GivingUp(s: Sys, i: nat)
    requires Distinct(s) && i in s.inst
    ensures var s' := Apply(s, Retire(i)); s'.stored == s.stored && i in s'.inst && !s'.inst[i].master && !Current(s', i)
    ensures var s' := Apply(s, Crash(i)); s'.stored == s.stored && i !in s'.inst && forall j :: j != i && j in s.inst ==> j in s'.inst && s'.inst[j] == s.inst[j]
    ensures Apply(s, LockExpires) == s.(lock := None)
  {
  }

  /** The refresh is not overdue. */
  predicate UpToDate(s: Sys) {
    s.stored.Some? ==> s.clock < s.stored.value + 3 * MasterInterval
  }

  /** The lock covers the whole check, and so a candidate that saw no value still sees none. */
  ghost predicate Locked(s: Sys) {
    && (forall i :: i in s.inst && !s.inst[i].cand.Idle? ==> s.lock == Some(i))
    && (forall i :: i in s.inst && s.inst[i].cand.Decided? ==> s.inst[i].cand.now <= s.clock)
    && (forall i :: i in s.inst && s.inst[i].cand.Decided? && s.inst[i].cand.seen.None? ==> s.stored.None?)
    && (s.stored.None? ==> forall i :: i in s.inst ==> s.inst[i].remembered.None?)
  }

  /** The lock is lost while its holder is still checking. */
  predicate PrematureExpiry(s: Sys, e: Event) {
    e.LockExpires? && s.lock.Some? && s.lock.value in s.inst && !s.inst[s.lock.value].cand.Idle?
  }

  /** The master stops by its own doing, or does not learn that its refresh succeeded. */
  predicate GivesUp(e: Event, i: nat) {
    e == Retire(i) || e == Crash(i) || (e.Refresh? && e.i == i && e.report == HiddenWrite)
  }

  lemma ClaimKeepsLocked(s: Sys, e: Event)
    requires e.Claim? && Locked(s) && Enabled(s, e)
    ensures Locked(Apply(s, e))
  {
  }

  lemma RefreshKeepsLocked(s: Sys, e: Event)
    requires e.Refresh? && Locked(s) && Enabled(s, e)
    ensures Locked(Apply(s, e))
  {
  }

  lemma ReadKeepsLocked(s: Sys, e: Event)
    requires e.ReadMaster? && Locked(s) && Enabled(s, e)
    ensures Locked(Apply(s, e))
  {
  }

  lemma OtherKeepsLocked(s: Sys, e: Event)
    requires !e.Claim? && !e.Refresh? && !e.ReadMaster?
    requires Distinct(s) && Locked(s) && Enabled(s, e) && !PrematureExpiry(s, e)
    ensures Locked(Apply(s, e))
  {
  }

  lemma StepKeepsLocked(s: Sys, e: Event)
    requires Distinct(s) && Locked(s) && Enabled(s, e) && !PrematureExpiry(s, e)
    ensures Locked(Apply(s, e))
  {
    hide *;
    match e
    case Claim(_, _) => ClaimKeepsLocked(s, e);
    case Refresh(_, _, _) => RefreshKeepsLocked(s, e);
    case ReadMaster(_, _) => ReadKeepsLocked(s, e);
    case _ => OtherKeepsLocked(s, e);
  }

  lemma StepKeepsCurrent(s: Sys, e: Event, i: nat)
    requires Distinct(s) && Locked(s) && UpToDate(s) && Enabled(s, e) && Current(s, i) && !GivesUp(e, i)
    ensures Current(Apply(s, e), i)
  {
    if e.Claim? {
      var c := s.inst[e.i].cand;
      assert c.now <= s.clock;
    } else if e.Refresh? && e.i != i {
      assert s.inst[e.i].remembered != s.inst[i].remembered;
    }
  }

  ghost predicate Quiet(s: Sys, log: seq<Event>, i: nat) {
    forall n :: 0 <= n < |log| && After(s, log[..n]).Some? ==>
      var m := After(s, log[..n]).value;
      UpToDate(m) && !PrematureExpiry(m, log[n]) && !GivesUp(log[n], i)
  }

  /** A master whose refreshes never fall 45 seconds behind is never displaced, as long
      as the lock outlives the checks it protects. */
  lemma {:induction false} RefreshingMasterIsNeverDisplaced(s: Sys, log: seq<Event>, i: nat)
    requires Distinct(s) && Locked(s) && Current(s, i) && After(s, log).Some? && Quiet(s, log, i)
    ensures Locked(After(s, log).value) && Current(After(s, log).value, i)
  {
    if log != [] {
      hide Apply, Enabled, Distinct, Locked, Current, UpToDate, PrematureExpiry, GivesUp;
      var mid := log[..|log| - 1];
      assert forall n :: 0 <= n < |mid| ==> mid[..n] == log[..n] && mid[n] == log[n];
      RefreshingMasterIsNeverDisplaced(s, mid, i);
      AtMostOneCurrent(s, mid);
      StepKeepsLocked(After(s, mid).value, log[|log| - 1]);
      StepKeepsCurrent(After(s, mid).value, log[|log| - 1], i);
    }
  }

  // ----- What the conditions exclude -------------------------------------------------------------

  lemma AfterSnoc(s: Sys, log: seq<Event>, e: Event)
    requires After(s, log).Some? && Enabled(After(s, log).value, e)
    ensures After(s, log + [e]) == Some(Apply(After(s, log).value, e))
  {
    assert (log + [e])[..|log|] == log;
  }

  function TwoFresh(): Sys {
    Sys(None, 0, {}, None, map[0 := Instance(false, None, Idle), 1 := Instance(false, None, Idle)])
  }

  /** If the lock expires during a check, a candidate that saw no master displaces one
      that has just been elected, and both carry the flag. */
  lemma ExpiredLockDisplacesAFreshMaster() returns (log: seq<Event>, before: nat)
    ensures before < |log| && After(TwoFresh(), log[..before]).Some? && Current(After(TwoFresh(), log[..before]).value, 1)
    ensures UpToDate(After(TwoFresh(), log[..before]).value)
    ensures var end := After(TwoFresh(), log);
            end.Some? && Current(end.value, 0) && !Current(end.value, 1) &&
            1 in end.value.inst && end.value.inst[0].master && end.value.inst[1].master
  {
    var s := TwoFresh();
    log := [];
    AfterSnoc(s, log, Acquire(0));
    log := log + [Acquire(0)];
    AfterSnoc(s, log, ReadMaster(0, 0));
    log := log + [ReadMaster(0, 0)];
    AfterSnoc(s, log, LockExpires);
    log := log + [LockExpires];
    AfterSnoc(s, log, Acquire(1));
    log := log + [Acquire(1)];
    AfterSnoc(s, log, ReadMaster(1, -1));
    log := log + [ReadMaster(1, -1)];
    AfterSnoc(s, log, Claim(1, Reported));
    log := log + [Claim(1, Reported)];
    before := |log|;
    var prefix := log;
    AfterSnoc(s, log, Claim(0, Reported));
    log := log + [Claim(0, Reported)];
    assert log[..before] == prefix;
  }

  /** A refresh that is carried out but reported as an error leaves no current master:
      the flag is dropped at the next refresh although nobody took over. */
  lemma HiddenRefreshEndsMastership(s: Sys, i: nat, t1: int, t2: int)
    requires Distinct(s) && Current(s, i) && FreshStamp(s, t1) && FreshStamp(s, t2) && t1 != t2
    ensures var s1 := Apply(s, Refresh(i, t1, HiddenWrite));
            && Enabled(s1, Refresh(i, t2, Reported))
            && (forall j :: !Current(s1, j))
            && !Apply(s1, Refresh(i, t2, Reported)).inst[i].master
  {
    assert forall j :: j in s.inst && s.inst[j].remembered.Some? ==> s.inst[j].remembered.value in s.used;
  }

  // ----- The election and the refreshing loop as procedures ------------------------------------------

  ghost predicate OnPath(start: Sys, log: seq<Event>, s: Sys) {
    After(start, log) == Some(s) && Distinct(s)
  }

  class Cluster {
    var sys: Sys
    ghost var log: seq<Event>

    ghost predicate Follows(start: Sys)
      reads this
    {
      OnPath(start, log, sys)
    }

    method Access(e: Event, ghost start: Sys)
      requires Follows(start) && Enabled(sys, e)
      modifies this
      ensures Follows(start) && sys == Apply(old(sys), e) && log == old(log) + [e]
    {
      hide Apply, Enabled, Distinct;
      AfterSnoc(start, log, e);
      StepKeepsDistinct(sys, e);
      sys := Apply(sys, e);
      log := log + [e];
    }

    /** Any number of steps of the other instances. */
    method Others(i: nat, ghost start: Sys)
      requires Follows(start) && i in sys.inst
      modifies this
      ensures Follows(start) && old(log) <= log && i in sys.inst && sys.inst[i] == old(sys.inst)[i]
    {
    }

    method Now(ghost start: Sys) returns (now: int)
      requires Follows(start)
      modifies this
      ensures Follows(start) && old(log) <= log && FreshStamp(sys, now)
      ensures sys == old(sys).(clock := now) && old(sys.clock) <= now
    {
      now := Unused(sys.used, sys.clock);
      Access(Tick(now), start);
    }

    /** Tries to become master.  The answer is yes exactly when the instance now carries
        the flag, and then it is the current master.  When it got the lock (`tried`), the
        answer is yes exactly when the claim was reported to have been carried out and the
        value seen was missing, or at least 45 seconds old and still stored at the claim. */
    method GetPowerStatusMaster(i: nat, ghost start: Sys)
      returns (won: bool, ghost tried: bool, ghost seen: Option<int>, ghost now: int, ghost readAt: nat, ghost report: Report)
      requires Follows(start) && i in sys.inst && !sys.inst[i].master && sys.inst[i].cand.Idle?
      modifies this
      ensures Follows(start) && old(log) <= log && i in sys.inst
      ensures won <==> sys.inst[i].master
      ensures won ==> Current(sys, i)
      ensures sys.inst[i].cand.Idle?
      ensures !tried ==> !won
      ensures tried ==>
                && readAt < |log| - 1 && log[readAt] == ReadMaster(i, now) && log[|log| - 1] == Claim(i, report)
                && After(start, log[..readAt]).Some? && After(start, log[..readAt]).value.stored == seen
                && After(start, log[..|log| - 1]).Some?
                && var stored := After(start, log[..|log| - 1]).value.stored;
                   won <==> report == Reported && (seen.None? || (stored == seen && seen.value + 45 <= now))
    {
      hide Distinct;
      won, tried, seen, now, readAt, report := false, false, None, 0, 0, Lost;
      Others(i, start);
      if sys.lock.Some? {
        return;
      }
      Access(Acquire(i), start);
      Others(i, start);
      var time := Now(start);
      tried, seen, now, readAt := true, sys.stored, time, |log|;
      ghost var before := log;
      Access(ReadMaster(i, time), start);
      assert log[..readAt] == before;
      ghost var atRead := log;
      Others(i, start);
      assert log[..readAt] == before && log[readAt] == ReadMaster(i, now);
      var answer: Report := *;
      report := answer;
      won := Effective(sys, sys.inst[i].cand) && answer == Reported;
      ghost var beforeClaim := log;
      Access(Claim(i, answer), start);
      assert log[..|log| - 1] == beforeClaim && log[..readAt] == before;
    }

    /** The refreshing loop for a number of ticks; it ends early when the stored value is
        not the remembered one any more, and the flag is dropped then and only then. */
    method RefreshMaster(i: nat, ticks: nat, ghost start: Sys) returns (lost: bool)
      requires Follows(start) && i in sys.inst && sys.inst[i].master
      modifies this
      ensures Follows(start) && old(log) <= log && i in sys.inst
      ensures lost <==> !sys.inst[i].master
      ensures lost ==> !Current(sys, i)
    {
      lost := false;
      for t := 0 to ticks
        invariant Follows(start) && old(log) <= log && i in sys.inst && sys.inst[i].master
      {
        Others(i, start);
        var now := Now(start);
        var report: Report := *;
        var current := sys.stored == sys.inst[i].remembered;
        Access(Refresh(i, now, report), start);
        if report == Reported && !current {
          return true;
        }
      }
    }
  }
}
