/** Reservations that a run takes on its components and gives back. */
module Reservations {
  import opened Xnames
  import opened TransitionModel
  import opened Sequencing

  datatype Entry = Entry(x: Xname, rkey: string, dkey: string, expires: string,
                         owner: bool, needRsv: bool, error: Option<string>)

  datatype Grant = Grant(id: Xname, rkey: string, dkey: string, expires: string)

  /** What the reservation service answers; `None` is an error.  An error of the check that
      follows a reacquisition is not looked at, so there is always a list, maybe empty. */
  datatype Answers = Answers(
    reacquire: Option<seq<Xname>>, check: seq<Grant>, deputies: Option<seq<Xname>>, acquire: Option<seq<Grant>>)

  datatype ReleaseAnswer = ReleaseAnswer(released: seq<Xname>, refused: seq<Xname>, reason: string)

  datatype Request =
    | Reacquire(names: set<Xname>)
    | ValidateDeputyKeys(names: set<Xname>)
    | FlexAquire(names: set<Xname>)
    | FlexRelease(names: set<Xname>)

  function NamesOf(es: seq<Entry>): (r: seq<Xname>) {
    seq(|es|, i requires 0 <= i < |es| => es[i].x)
  }

  function Ids(gs: seq<Grant>): (r: seq<Xname>) {
    seq(|gs|, i requires 0 <= i < |gs| => gs[i].id)
  }

  function ToSet(s: seq<Xname>): set<Xname> {
    set x | x in s
  }

  function Value<T>(o: Option<seq<T>>): seq<T> {
    if o.Some? then o.value else []
  }

  predicate HasKey(e: Entry) {
    e.rkey != ""
  }

  predicate HasDeputy(e: Entry) {
    e.rkey == "" && e.dkey != ""
  }

  ghost predicate Distinct(es: seq<Entry>) {
    forall i, j :: 0 <= i < j < |es| ==> es[i].x != es[j].x
  }

  /** The names of the entries that satisfy `p`. */
  ghost function Those(es: seq<Entry>, p: Entry -> bool): set<Xname> {
    set i | 0 <= i < |es| && p(es[i]) :: es[i].x
  }

  /** Each answer is about names that were asked for, each at most once. */
  ghost predicate Proper(es: seq<Entry>, a: Answers) {
    && NoDup(Value(a.reacquire)) && ToSet(Value(a.reacquire)) <= Those(es, HasKey)
    && NoDup(Ids(a.check)) && ToSet(Ids(a.check)) <= ToSet(Value(a.reacquire))
    && NoDup(Value(a.deputies)) && ToSet(Value(a.deputies)) <= Those(es, HasDeputy)
    && NoDup(Ids(Value(a.acquire)))
    && ToSet(Ids(Value(a.acquire))) <= Those(es, e => true) - ToSet(Ids(a.check)) - ToSet(Value(a.deputies))
  }

  // ----- What the answers do to an entry --------------------------------------------------------------

  function Reset(e: Entry): Entry {
    e.(needRsv := true, owner := false, error := None)
  }

  function Taken(e: Entry, g: Grant): Entry {
    e.(owner := true, needRsv := false, rkey := g.rkey, dkey := g.dkey, expires := g.expires)
  }

  function Granted(e: Entry, gs: seq<Grant>): Entry
    decreases |gs|
  {
    if gs == [] then e
    else if gs[|gs| - 1].id == e.x then Taken(e, gs[|gs| - 1])
    else Granted(e, gs[..|gs| - 1])
  }

  function ByDeputy(e: Entry): Entry {
    e.(owner := false, needRsv := false, rkey := "", expires := "")
  }

  function Deputised(e: Entry, names: seq<Xname>): Entry {
    if e.x in names then ByDeputy(e) else e
  }

  function GivenBack(e: Entry): Entry {
    e.(owner := false, rkey := "", dkey := "", expires := "", error := None)
  }

  /** An entry after the answer to a release. */
  function Released(e: Entry, r: ReleaseAnswer): Entry {
    var e1 := if e.x in r.released then GivenBack(e) else e;
    if e.x in r.refused then e1.(error := Some(r.reason)) else e1
  }

  /** A released entry is no longer owned and has lost its keys, a refused one keeps them and
      has the reason, and any other is as before. */
  lemma ReleasedMeans(e: Entry, r: ReleaseAnswer)
    ensures var d := Released(e, r);
            && d.x == e.x && d.needRsv == e.needRsv
            && (e.x in r.released ==> !d.owner && d.rkey == "" && d.dkey == "" && d.expires == "")
            && (e.x !in r.released ==> d == e.(error := d.error))
            && d.error == (if e.x in r.refused then Some(r.reason) else if e.x in r.released then None else e.error)
  {
  }

  predicate IsOwner(e: Entry) {
    e.owner
  }

  lemma {:induction false} GrantedMeans(e: Entry, gs: seq<Grant>)
    ensures var r := Granted(e, gs);
            && r.x == e.x && r.error == e.error
            && (e.x !in Ids(gs) ==> r == e)
            && (e.x in Ids(gs) ==> exists g :: g in gs && g.id == e.x && r == Taken(e, g))
  {
    if gs != [] {
      var n := |gs| - 1;
      assert gs[n].id == Ids(gs)[n];
      assert forall i :: 0 <= i < n ==> Ids(gs[..n])[i] == Ids(gs)[i];
      GrantedMeans(e, gs[..n]);
    }
  }

  /** An entry after a call in which all answers arrived. */
  function Settled(e: Entry, a: Answers): Entry {
    Granted(Deputised(Granted(Reset(e), a.check), Value(a.deputies)), Value(a.acquire))
  }

  predicate Owned(e: Entry, a: Answers) {
    e.x in Ids(a.check) || e.x in Ids(Value(a.acquire))
  }

  /** Whether the calls to reacquire and to validate were made and failed. */
  ghost predicate ReacquireFails(es: seq<Entry>, a: Answers) {
    Those(es, HasKey) != {} && a.reacquire.None?
  }

  ghost predicate ValidateFails(es: seq<Entry>, a: Answers) {
    Those(es, HasDeputy) != {} && a.deputies.None?
  }

  ghost function StillNeeded(es: seq<Entry>, a: Answers): set<Xname> {
    Those(es, e => true) - ToSet(Ids(a.check)) - ToSet(Value(a.deputies))
  }

  ghost predicate AcquireFails(es: seq<Entry>, a: Answers) {
    StillNeeded(es, a) != {} && a.acquire.None?
  }

  lemma SettledMeans(es: seq<Entry>, a: Answers, i: nat)
    requires Proper(es, a) && Distinct(es) && i < |es|
    ensures var e, r := es[i], Settled(es[i], a);
            && r.x == e.x && r.error == None
            && (r.owner <==> Owned(e, a))
            && (r.needRsv <==> !Owned(e, a) && e.x !in Value(a.deputies))
            && (r.needRsv ==> r.rkey == e.rkey && r.dkey == e.dkey && r.expires == e.expires)
            && (e.x in Value(a.deputies) ==> r.rkey == "" && r.dkey == e.dkey && r.expires == "")
            && (r.owner ==> exists g :: (g in a.check || g in Value(a.acquire)) && g.id == e.x
                                        && r.rkey == g.rkey && r.dkey == g.dkey && r.expires == g.expires)
  {
    var e := es[i];
    var e1 := Granted(Reset(e), a.check);
    var e2 := Deputised(e1, Value(a.deputies));
    GrantedMeans(Reset(e), a.check);
    GrantedMeans(e2, Value(a.acquire));
    hide Granted;
    KindsAreApart(es, a, i);
  }

  /** No name is answered by two calls. */
  lemma KindsAreApart(es: seq<Entry>, a: Answers, i: nat)
    requires Proper(es, a) && Distinct(es) && i < |es|
    ensures var x := es[i].x;
            && (x in Ids(a.check) ==> x !in Value(a.deputies) && x !in Ids(Value(a.acquire)))
            && (x in Value(a.deputies) ==> x !in Ids(Value(a.acquire)))
  {
    var x := es[i].x;
    assert x in Value(a.deputies) <==> x in ToSet(Value(a.deputies));
    if x in Ids(a.check) {
      assert x in ToSet(Ids(a.check));
      assert x in ToSet(Value(a.reacquire));
      assert x in Those(es, HasKey);
      assert HasKey(es[i]);
    }
    if x in Ids(Value(a.acquire)) {
      assert x in ToSet(Ids(Value(a.acquire)));
    }
  }

  // ----- Requests and what they obtain -------------------------------------------------------------

  ghost function Requests(es: seq<Entry>, a: Answers): seq<Request> {
    (if Those(es, HasKey) != {} then [Reacquire(Those(es, HasKey))] else []) +
    (if !ReacquireFails(es, a) && Those(es, HasDeputy) != {} then [ValidateDeputyKeys(Those(es, HasDeputy))] else []) +
    (if !ReacquireFails(es, a) && !ValidateFails(es, a) && StillNeeded(es, a) != {}
     then [FlexAquire(StillNeeded(es, a))] else [])
  }

  /** The reservations that the service holds for this run after the calls made. */
  ghost function Obtained(es: seq<Entry>, a: Answers): set<Xname> {
    if ReacquireFails(es, a) then {}
    else ToSet(Value(a.reacquire)) + (if ValidateFails(es, a) then {} else ToSet(Ids(Value(a.acquire))))
  }

  ghost predicate Succeeds(es: seq<Entry>, a: Answers) {
    !ReacquireFails(es, a) && !ValidateFails(es, a) && !AcquireFails(es, a)
  }

  /** An entry when a call has failed. */
  function Interrupted(e: Entry, a: Answers, reacquired: bool, validated: bool): Entry {
    var e1 := if reacquired then Granted(Reset(e), a.check) else Reset(e);
    if validated then Deputised(e1, Value(a.deputies)) else e1
  }

  /** When a call fails, the entries confirmed by the check are owned, those with a valid deputy
      key are accepted if that call was made before, and no other entry has changed but for
      the reset. */
  lemma InterruptedMeans(e: Entry, a: Answers, reacquired: bool, validated: bool)
    requires e.x in Ids(a.check) ==> e.x !in Value(a.deputies)
    ensures var d := Interrupted(e, a, reacquired, validated);
            && d.x == e.x && d.error == None
            && (d.owner <==> reacquired && e.x in Ids(a.check))
            && (d.needRsv <==> !(reacquired && e.x in Ids(a.check)) && !(validated && e.x in Value(a.deputies)))
            && (d.needRsv ==> d.rkey == e.rkey && d.dkey == e.dkey && d.expires == e.expires)
  {
    GrantedMeans(Reset(e), a.check);
    hide Granted;
  }

  ghost function Left(es: seq<Entry>, a: Answers, e: Entry): Entry {
    if Succeeds(es, a) then Settled(e, a)
    else Interrupted(e, a, !ReacquireFails(es, a), !ReacquireFails(es, a) && !ValidateFails(es, a))
  }

  // ----- Places in the caller's list ------------------------------------------------------------------

  ghost predicate Indexed(names: seq<Xname>, index: map<Xname, nat>) {
    && (forall x :: x in index ==> index[x] < |names| && names[index[x]] == x)
    && (forall i :: 0 <= i < |names| ==> names[i] in index && index[names[i]] == i)
  }

  function Places(index: map<Xname, nat>, ids: seq<Xname>): seq<nat>
    requires forall i :: 0 <= i < |ids| ==> ids[i] in index
  {
    seq(|ids|, i requires 0 <= i < |ids| => index[ids[i]])
  }

  lemma PlacesFacts(names: seq<Xname>, index: map<Xname, nat>, ids: seq<Xname>)
    requires Indexed(names, index) && NoDup(ids) && forall i :: 0 <= i < |ids| ==> ids[i] in index
    ensures NoDup(Places(index, ids))
    ensures forall i: nat :: i in Places(index, ids) <==> i < |names| && names[i] in ids
  {
    var p := Places(index, ids);
    forall i: nat | i < |names| && names[i] in ids ensures i in p {
      var k :| 0 <= k < |ids| && ids[k] == names[i];
      assert p[k] == i;
    }
  }

  lemma ThoseOneMore(es: seq<Entry>, e: Entry, p: Entry -> bool)
    ensures Those(es + [e], p) == Those(es, p) + (if p(e) then {e.x} else {})
  {
    var more := es + [e];
    forall x | x in Those(es, p) ensures x in Those(more, p) {
      var i :| 0 <= i < |es| && p(es[i]) && es[i].x == x;
      assert more[i] == es[i];
    }
    if p(e) {
      assert more[|es|] == e;
    }
    forall x | x in Those(more, p) ensures x in Those(es, p) + (if p(e) then {e.x} else {}) {
      var i :| 0 <= i < |more| && p(more[i]) && more[i].x == x;
      if i < |es| {
        assert es[i] == more[i];
      }
    }
  }

  lemma IndexedOneMore(names: seq<Xname>, index: map<Xname, nat>, x: Xname)
    requires Indexed(names, index) && x !in names
    ensures Indexed(names + [x], index[x := |names|])
  {
    var more, index' := names + [x], index[x := |names|];
    forall y | y in index' ensures index'[y] < |more| && more[index'[y]] == y {
    }
  }

  lemma PlacesOneMore(index: map<Xname, nat>, gs: seq<Grant>, j: nat)
    requires j < |gs| && forall i :: 0 <= i < |gs| ==> gs[i].id in index
    ensures Places(index, Ids(gs[..j + 1])) == Places(index, Ids(gs[..j])) + [index[gs[j].id]]
  {
  }

  lemma GrantOneMore(e: Entry, gs: seq<Grant>, j: nat)
    requires j < |gs|
    ensures Granted(e, gs[..j + 1]) == if gs[j].id == e.x then Taken(Granted(e, gs[..j]), gs[j]) else Granted(e, gs[..j])
  {
    assert gs[..j + 1][..j] == gs[..j];
    GrantedMeans(e, gs[..j]);
  }

  class Hsm {
    const lockEnabled: bool
    /** Reservations that the service holds for this instance. */
    var held: set<Xname>
    var log: seq<Request>

    constructor (lock: bool)
      ensures lockEnabled == lock && held == {} && log == []
    {
      lockEnabled, held, log := lock, {}, [];
    }

    /** First pass over the list: resets each entry and collects the keys. */
    method Prepare(comps: array<Entry>) returns (index: map<Xname, nat>, resKeys: seq<Xname>, depKeys: seq<Xname>)
      requires Distinct(comps[..])
      modifies comps
      ensures forall i :: 0 <= i < comps.Length ==> comps[i] == Reset(old(comps[i]))
      ensures Indexed(old(NamesOf(comps[..])), index)
      ensures ToSet(resKeys) == old(Those(comps[..], HasKey))
      ensures ToSet(depKeys) == old(Those(comps[..], HasDeputy))
    {
      index, resKeys, depKeys := map[], [], [];
      ghost var es := comps[..];
      for ix := 0 to comps.Length
        invariant forall i :: 0 <= i < comps.Length ==> comps[i] == if i < ix then Reset(es[i]) else es[i]
        invariant Indexed(NamesOf(es[..ix]), index)
        invariant ToSet(resKeys) == Those(es[..ix], HasKey)
        invariant ToSet(depKeys) == Those(es[..ix], HasDeputy)
      {
        var comp := comps[ix];
        assert es[..ix + 1] == es[..ix] + [comp];
        ThoseOneMore(es[..ix], comp, HasKey);
        ThoseOneMore(es[..ix], comp, HasDeputy);
        IndexedOneMore(NamesOf(es[..ix]), index, comp.x);
        assert NamesOf(es[..ix + 1]) == NamesOf(es[..ix]) + [comp.x];
        index := index[comp.x := ix];
        comps[ix] := Reset(comp);
        if HasKey(comp) {
          resKeys := resKeys + [comp.x];
        } else if HasDeputy(comp) {
          depKeys := depKeys + [comp.x];
        }
      }
      assert es[..comps.Length] == es;
    }

    method MarkGranted(comps: array<Entry>, index: map<Xname, nat>, gs: seq<Grant>, ret: seq<nat>) returns (ret': seq<nat>)
      requires Indexed(NamesOf(comps[..]), index)
      requires Answerable(index, Ids(gs))
      modifies comps
      ensures forall i :: 0 <= i < comps.Length ==> comps[i] == Granted(old(comps[i]), gs)
      ensures ret' == ret + Places(index, Ids(gs))
    {
      ret' := ret;
      ghost var es := comps[..];
      assert forall i :: 0 <= i < |gs| ==> gs[i].id == Ids(gs)[i];
      hide Granted;
      forall e ensures Granted(e, []) == e {
        GrantedMeans(e, []);
      }
      for j := 0 to |gs|
        invariant forall i :: 0 <= i < comps.Length ==> comps[i] == Granted(es[i], gs[..j])
        invariant ret' == ret + Places(index, Ids(gs[..j]))
      {
        var k := index[gs[j].id];
        PlacesOneMore(index, gs, j);
        forall i | 0 <= i < comps.Length
          ensures Granted(es[i], gs[..j + 1]) == if i == k then Taken(comps[i], gs[j]) else comps[i]
        {
          assert NamesOf(es)[i] == es[i].x;
          GrantOneMore(es[i], gs, j);
        }
        comps[k] := Taken(comps[k], gs[j]);
        ret' := ret' + [k];
      }
      assert gs[..|gs|] == gs;
    }

    /** Applies `f` to the entries with the given names. */
    method Mark(comps: array<Entry>, index: map<Xname, nat>, names: seq<Xname>, f: Entry -> Entry, ret: seq<nat>)
      returns (ret': seq<nat>)
      requires Indexed(NamesOf(comps[..]), index) && Answerable(index, names)
      requires forall e :: f(e).x == e.x && f(f(e)) == f(e)
      modifies comps
      ensures forall i :: 0 <= i < comps.Length ==> comps[i] == if old(comps[i]).x in names then f(old(comps[i])) else old(comps[i])
      ensures ret' == ret + Places(index, names)
    {
      ret' := ret;
      ghost var es := comps[..];
      for j := 0 to |names|
        invariant forall i :: 0 <= i < comps.Length ==> comps[i] == if es[i].x in names[..j] then f(es[i]) else es[i]
        invariant ret' == ret + Places(index, names[..j])
      {
        var k := index[names[j]];
        assert names[..j + 1] == names[..j] + [names[j]];
        assert Places(index, names[..j + 1]) == Places(index, names[..j]) + [k];
        assert forall i :: 0 <= i < comps.Length ==> NamesOf(es)[i] == es[i].x;
        comps[k] := f(comps[k]);
        ret' := ret' + [k];
      }
      assert names[..|names|] == names;
    }

    /** Takes back reservations from an earlier run. */
    method ReacquireHeld(comps: array<Entry>, index: map<Xname, nat>, resKeys: seq<Xname>, a: Answers, ghost es: seq<Entry>)
      returns (ret: seq<nat>, ok: bool)
      requires Proper(es, a) && Distinct(es) && Indexed(NamesOf(es), index)
      requires |es| == comps.Length && forall i :: 0 <= i < comps.Length ==> comps[i] == Reset(es[i])
      requires ToSet(resKeys) == Those(es, HasKey)
      modifies this`held, this`log, comps
      ensures ok <==> !ReacquireFails(es, a)
      ensures forall i :: 0 <= i < comps.Length ==> comps[i] == Interrupted(es[i], a, ok, false)
      ensures ok ==> Answerable(index, Ids(a.check)) && ret == Places(index, Ids(a.check))
      ensures !ok ==> ret == []
      ensures log == old(log) + if Those(es, HasKey) != {} then [Reacquire(Those(es, HasKey))] else []
      ensures held == old(held) + if ok then ToSet(Value(a.reacquire)) else {}
    {
      ret := [];
      AnswersAreIndexed(es, a, index);
      NothingAsked(es, a, resKeys);
      assert NamesOf(comps[..]) == NamesOf(es);
      hide Proper, Distinct, Indexed, Those, Granted, Ids, NamesOf;
      if |resKeys| > 0 {
        log := log + [Reacquire(ToSet(resKeys))];
        if a.reacquire.None? {
          return ret, false;
        }
        held := held + ToSet(a.reacquire.value);
        if |a.reacquire.value| > 0 {
          ret := MarkGranted(comps, index, a.check, ret);
        }
      }
      ok := true;
    }

    /** Accepts valid deputy keys. */
    method AcceptDeputies(comps: array<Entry>, index: map<Xname, nat>, depKeys: seq<Xname>, a: Answers, soFar: seq<nat>, ghost es: seq<Entry>)
      returns (ret: seq<nat>, ok: bool)
      requires Proper(es, a) && Indexed(NamesOf(es), index)
      requires |es| == comps.Length && forall i :: 0 <= i < comps.Length ==> comps[i] == Interrupted(es[i], a, true, false)
      requires ToSet(depKeys) == Those(es, HasDeputy)
      modifies this`log, comps
      ensures ok <==> !ValidateFails(es, a)
      ensures forall i :: 0 <= i < comps.Length ==> comps[i] == Interrupted(es[i], a, true, ok)
      ensures ok ==> Answerable(index, Value(a.deputies)) && ret == soFar + Places(index, Value(a.deputies))
      ensures !ok ==> ret == soFar
      ensures log == old(log) + if Those(es, HasDeputy) != {} then [ValidateDeputyKeys(Those(es, HasDeputy))] else []
    {
      ret := soFar;
      AnswersAreIndexed(es, a, index);
      NoDeputies(es, a, depKeys);
      InterruptedKeepsNames(es, comps[..], a, true, false);
      hide Proper, Distinct, Indexed, Those, Granted, NamesOf;
      if |depKeys| > 0 {
        log := log + [ValidateDeputyKeys(ToSet(depKeys))];
        if a.deputies.None? {
          return ret, false;
        }
        ret := Mark(comps, index, a.deputies.value, ByDeputy, ret);
      }
      ok := true;
    }

    /** Reserves whatever is left over. */
    method AcquireRest(comps: array<Entry>, index: map<Xname, nat>, a: Answers, soFar: seq<nat>, ghost es: seq<Entry>)
      returns (ret: seq<nat>, ok: bool)
      requires Proper(es, a) && Distinct(es) && Indexed(NamesOf(es), index)
      requires |es| == comps.Length && forall i :: 0 <= i < comps.Length ==> comps[i] == Interrupted(es[i], a, true, true)
      modifies this`held, this`log, comps
      ensures ok <==> !AcquireFails(es, a)
      ensures forall i :: 0 <= i < comps.Length ==>
                comps[i] == if ok then Settled(es[i], a) else Interrupted(es[i], a, true, true)
      ensures ok ==> Answerable(index, Ids(Value(a.acquire))) && ret == soFar + Places(index, Ids(Value(a.acquire)))
      ensures !ok ==> ret == soFar
      ensures log == old(log) + if StillNeeded(es, a) != {} then [FlexAquire(StillNeeded(es, a))] else []
      ensures held == old(held) + ToSet(Ids(Value(a.acquire)))
    {
      ret := soFar;
      AnswersAreIndexed(es, a, index);
      InterruptedKeepsNames(es, comps[..], a, true, true);
      var acquireList := Lacking(comps, index);
      LackingIsStillNeeded(es, comps[..], a);
      NothingToAcquire(es, a);
      EmptyOrNamed(acquireList);
      hide Proper, Distinct, Indexed, StillNeeded, Granted, NamesOf, Those;
      if |acquireList| == 0 {
        return ret, true;
      }
      log := log + [FlexAquire(ToSet(acquireList))];
      if a.acquire.None? {
        return ret, false;
      }
      held := held + ToSet(Ids(a.acquire.value));
      ret := MarkGranted(comps, index, a.acquire.value, ret);
      ok := true;
    }

    method Lacking(comps: array<Entry>, index: map<Xname, nat>) returns (names: seq<Xname>)
      requires Indexed(NamesOf(comps[..]), index)
      ensures NoDup(names) && ToSet(names) == Those(comps[..], Lacks)
    {
      names := [];
      var todo := index.Keys;
      while todo != {}
        invariant todo <= index.Keys
        invariant NoDup(names)
        invariant forall x :: x in names <==> x in index && x !in todo && comps[index[x]].needRsv
        decreases todo
      {
        SomeName(todo);
        var k :| k in todo;
        todo := todo - {k};
        if comps[index[k]].needRsv {
          names := names + [k];
        }
      }
      LackingNames(comps[..], index, names);
    }

    /** Reserves every listed component, or accepts its deputy key; returns the places of
        those that succeeded. */
    method ReserveComponents(comps: array<Entry>, a: Answers) returns (ret: seq<nat>, ok: bool)
      requires Distinct(comps[..]) && Proper(comps[..], a)
      modifies this`held, this`log, comps
      ensures !lockEnabled ==> ok && ret == [] && comps[..] == old(comps[..]) && held == old(held) && log == old(log)
      ensures lockEnabled ==> (ok <==> old(Succeeds(comps[..], a)))
      ensures lockEnabled ==> forall i :: 0 <= i < comps.Length ==> comps[i] == Left(old(comps[..]), a, old(comps[i]))
      ensures lockEnabled && ok ==>
                NoDup(ret) && forall i: nat :: i in ret <==> i < comps.Length && !comps[i].needRsv
      ensures lockEnabled ==> log == old(log) + Requests(old(comps[..]), a)
      ensures lockEnabled ==> held == old(held) + Obtained(old(comps[..]), a)
    {
      ret := [];
      if !lockEnabled {
        return ret, true;
      }
      ghost var es := comps[..];
      if comps.Length == 0 {
        NoEntries(es, a);
        return ret, true;
      }
      hide *;
      var index, resKeys, depKeys := Prepare(comps);
      ret, ok := ReserveListed(comps, index, resKeys, depKeys, a, es);
    }

    method ReserveListed(comps: array<Entry>, index: map<Xname, nat>, resKeys: seq<Xname>, depKeys: seq<Xname>,
                         a: Answers, ghost es: seq<Entry>)
      returns (ret: seq<nat>, ok: bool)
      requires Proper(es, a) && Distinct(es) && Indexed(NamesOf(es), index)
      requires |es| == comps.Length && forall i :: 0 <= i < comps.Length ==> comps[i] == Reset(es[i])
      requires ToSet(resKeys) == Those(es, HasKey) && ToSet(depKeys) == Those(es, HasDeputy)
      modifies this`held, this`log, comps
      ensures ok <==> Succeeds(es, a)
      ensures forall i :: 0 <= i < comps.Length ==> comps[i] == Left(es, a, es[i])
      ensures ok ==> NoDup(ret) && forall i: nat :: i in ret <==> i < comps.Length && !comps[i].needRsv
      ensures log == old(log) + Requests(es, a)
      ensures held == old(held) + Obtained(es, a)
    {
      hide Proper, Distinct, Indexed, Those, Granted, NamesOf, StillNeeded, ToSet, Settled, Interrupted, Reset, NoDup,
           Places, Answered, Ids, Value, Answerable, ReacquireFails, ValidateFails, AcquireFails;
      ret, ok := ReacquireHeld(comps, index, resKeys, a, es);
      if !ok {
        return;
      }
      ret, ok := AcceptDeputies(comps, index, depKeys, a, ret, es);
      if !ok {
        return;
      }
      ret, ok := AcquireRest(comps, index, a, ret, es);
      if ok {
        ReturnedPlaces(es, a, index);
        SettledNeeds(es, a);
      }
    }

    method CollectOwned(comps: array<Entry>) returns (index: map<Xname, nat>, clearList: seq<Xname>)
      requires Distinct(comps[..])
      ensures Indexed(NamesOf(comps[..]), index)
      ensures NoDup(clearList) && ToSet(clearList) == Those(comps[..], IsOwner)
    {
      index, clearList := map[], [];
      ghost var es := comps[..];
      for ix := 0 to comps.Length
        invariant Indexed(NamesOf(es[..ix]), index)
        invariant NoDup(clearList) && ToSet(clearList) == Those(es[..ix], IsOwner)
        invariant forall x :: x in clearList ==> x in NamesOf(es[..ix])
      {
        var comp := comps[ix];
        assert es[..ix + 1] == es[..ix] + [comp];
        ThoseOneMore(es[..ix], comp, IsOwner);
        IndexedOneMore(NamesOf(es[..ix]), index, comp.x);
        assert NamesOf(es[..ix + 1]) == NamesOf(es[..ix]) + [comp.x];
        index := index[comp.x := ix];
        if comp.owner {
          clearList := clearList + [comp.x];
        }
      }
      assert es[..comps.Length] == es;
    }

    /** Gives back the owned reservations; returns the places of those that were refused. */
    method ReleaseComponents(comps: array<Entry>, answer: Option<ReleaseAnswer>) returns (failed: seq<nat>, ok: bool)
      requires Distinct(comps[..])
      requires answer.Some? ==> AboutOwned(answer.value, Those(comps[..], IsOwner))
      modifies this`held, this`log, comps
      ensures var asked := lockEnabled && old(Those(comps[..], IsOwner)) != {};
              && (ok <==> !asked || answer.Some?)
              && log == old(log) + (if asked then [FlexRelease(old(Those(comps[..], IsOwner)))] else [])
              && held == old(held) - (if asked && ok then ToSet(answer.value.released) else {})
              && forall i :: 0 <= i < comps.Length ==>
                   comps[i] == if asked && ok then Released(old(comps[i]), answer.value) else old(comps[i])
      ensures if lockEnabled && old(Those(comps[..], IsOwner)) != {} && ok then
                NoDup(failed) && forall i: nat :: i in failed <==> i < comps.Length && comps[i].x in answer.value.refused
              else failed == []
    {
      failed := [];
      if !lockEnabled {
        return failed, true;
      }
      var index, clearList := CollectOwned(comps);
      ghost var es := comps[..];
      EmptyOrNamed(clearList);
      if |clearList| == 0 {
        return failed, true;
      }
      log := log + [FlexRelease(ToSet(clearList))];
      if answer.None? {
        return failed, false;
      }
      OwnedAreIndexed(es, index, answer.value);
      held := held - ToSet(answer.value.released);
      var released := Mark(comps, index, answer.value.released, GivenBack, failed);
      assert NamesOf(comps[..]) == NamesOf(es);
      var reason := answer.value.reason;
      PlacesFacts(NamesOf(es), index, answer.value.refused);
      assert forall i: nat :: i < |es| ==> NamesOf(es)[i] == es[i].x;
      failed := Mark(comps, index, answer.value.refused, (e: Entry) => e.(error := Some(reason)), failed);
      ok := true;
    }

    /** A run: when reserving fails it ends at once; otherwise it releases at its end. */
    method ReserveAndRun(comps: array<Entry>, a: Answers, answer: Option<ReleaseAnswer>) returns (ran: bool)
      requires lockEnabled && Distinct(comps[..]) && Proper(comps[..], a)
      requires answer.Some? ==> AboutOwned(answer.value, OwnedNames(comps[..], a))
      modifies this`held, this`log, comps
      ensures var es := old(comps[..]);
              && (ran <==> Succeeds(es, a))
              && log == old(log) + Requests(es, a) +
                        (if ran && OwnedNames(es, a) != {} then [FlexRelease(OwnedNames(es, a))] else [])
              && held == old(held) + Obtained(es, a) -
                         (if ran && OwnedNames(es, a) != {} && answer.Some? then ToSet(answer.value.released) else {})
    {
      ghost var es := comps[..];
      var ret;
      ret, ran := ReserveComponents(comps, a);
      if !ran {
        return;
      }
      SettledOwners(es, comps[..], a);
      hide Those, OwnedNames, Requests, Obtained, Proper;
      var failed, ok := ReleaseComponents(comps, answer);
    }
  }

  ghost predicate Answerable(index: map<Xname, nat>, ids: seq<Xname>) {
    forall i :: 0 <= i < |ids| ==> ids[i] in index
  }

  lemma AnswersAreIndexed(es: seq<Entry>, a: Answers, index: map<Xname, nat>)
    requires Proper(es, a) && Indexed(NamesOf(es), index)
    ensures Answerable(index, Ids(a.check))
    ensures Answerable(index, Value(a.deputies))
    ensures Answerable(index, Ids(Value(a.acquire)))
  {
    var all := ToSet(NamesOf(es));
    assert forall i :: 0 <= i < |es| ==> NamesOf(es)[i] == es[i].x;
    assert Those(es, HasKey) <= all && Those(es, HasDeputy) <= all && Those(es, e => true) <= all;
    forall i | 0 <= i < |a.check| ensures Ids(a.check)[i] in index {
      assert Ids(a.check)[i] in ToSet(Ids(a.check));
    }
    forall i | 0 <= i < |Value(a.deputies)| ensures Value(a.deputies)[i] in index {
      assert Value(a.deputies)[i] in ToSet(Value(a.deputies));
    }
    forall i | 0 <= i < |Value(a.acquire)| ensures Ids(Value(a.acquire))[i] in index {
      assert Ids(Value(a.acquire))[i] in ToSet(Ids(Value(a.acquire)));
    }
  }

  /** Without keys to reacquire there is nothing to check, and no failure. */
  lemma NothingAsked(es: seq<Entry>, a: Answers, resKeys: seq<Xname>)
    requires Proper(es, a) && ToSet(resKeys) == Those(es, HasKey)
    ensures resKeys == [] <==> Those(es, HasKey) == {}
    ensures Value(a.reacquire) == [] ==> a.check == []
    ensures resKeys == [] ==> Value(a.reacquire) == []
    ensures a.check == [] ==> forall e :: Granted(e, a.check) == e
  {
    EmptyOrNamed(resKeys);
    EmptyOrNamed(Value(a.reacquire));
    EmptyOrNamed(Ids(a.check));
  }

  lemma EmptyOrNamed(s: seq<Xname>)
    ensures s == [] <==> ToSet(s) == {}
  {
    if s != [] {
      assert s[0] in ToSet(s);
    }
  }

  predicate Lacks(e: Entry) {
    e.needRsv
  }

  lemma LackingNames(es: seq<Entry>, index: map<Xname, nat>, names: seq<Xname>)
    requires Indexed(NamesOf(es), index)
    requires forall x :: x in names <==> x in index && es[index[x]].needRsv
    ensures ToSet(names) == Those(es, Lacks)
  {
    assert forall i :: 0 <= i < |es| ==> NamesOf(es)[i] == es[i].x;
    forall x | x in ToSet(names) ensures x in Those(es, Lacks) {
      assert Lacks(es[index[x]]);
    }
  }

  lemma InterruptedKeepsNames(es: seq<Entry>, es': seq<Entry>, a: Answers, reacquired: bool, validated: bool)
    requires |es'| == |es| && forall i :: 0 <= i < |es| ==> es'[i] == Interrupted(es[i], a, reacquired, validated)
    ensures NamesOf(es') == NamesOf(es)
  {
    forall i | 0 <= i < |es| ensures es'[i].x == es[i].x {
      GrantedMeans(Reset(es[i]), a.check);
    }
  }

  lemma NoDeputies(es: seq<Entry>, a: Answers, depKeys: seq<Xname>)
    requires Proper(es, a) && ToSet(depKeys) == Those(es, HasDeputy)
    ensures depKeys == [] <==> Those(es, HasDeputy) == {}
    ensures depKeys == [] ==> Value(a.deputies) == []
  {
    EmptyOrNamed(depKeys);
    EmptyOrNamed(Value(a.deputies));
  }

  lemma NothingToAcquire(es: seq<Entry>, a: Answers)
    requires Proper(es, a)
    ensures StillNeeded(es, a) == {} ==> Value(a.acquire) == []
    ensures Value(a.acquire) == [] ==> forall e :: Granted(e, Value(a.acquire)) == e
  {
    EmptyOrNamed(Ids(Value(a.acquire)));
  }

  lemma LackingIsStillNeeded(es: seq<Entry>, es': seq<Entry>, a: Answers)
    requires |es'| == |es| && forall i :: 0 <= i < |es| ==> es'[i] == Interrupted(es[i], a, true, true)
    ensures Those(es', Lacks) == StillNeeded(es, a)
  {
    forall i | 0 <= i < |es|
      ensures es'[i].x == es[i].x
      ensures Lacks(es'[i]) <==> es[i].x !in Ids(a.check) && es[i].x !in Value(a.deputies)
    {
      GrantedMeans(Reset(es[i]), a.check);
    }
    hide Interrupted;
    forall x | x in StillNeeded(es, a) ensures x in Those(es', Lacks) {
      var i :| 0 <= i < |es| && es[i].x == x;
      assert Lacks(es'[i]);
    }
    forall x | x in Those(es', Lacks) ensures x in StillNeeded(es, a) {
      var i :| 0 <= i < |es| && Lacks(es'[i]) && es'[i].x == x;
      assert es[i].x == x;
    }
  }

  lemma NoEntries(es: seq<Entry>, a: Answers)
    requires es == [] && Proper(es, a)
    ensures Succeeds(es, a) && Requests(es, a) == [] && Obtained(es, a) == {}
  {
  }

  /** The names that were answered, in the order of the answers. */
  function Answered(a: Answers): seq<Xname> {
    Ids(a.check) + Value(a.deputies) + Ids(Value(a.acquire))
  }

  lemma AnsweredOnce(es: seq<Entry>, a: Answers)
    requires Proper(es, a) && Distinct(es)
    ensures NoDup(Answered(a))
  {
    hide Ids;
    var c, d, q := Ids(a.check), Value(a.deputies), Ids(Value(a.acquire));
    forall x | x in ToSet(c) ensures x !in ToSet(d) && x !in ToSet(q) {
      assert x in Those(es, HasKey);
      var i :| 0 <= i < |es| && HasKey(es[i]) && es[i].x == x;
      KindsAreApart(es, a, i);
    }
    ConcatNoDup(c, d);
    ConcatNoDup(c + d, q);
  }

  lemma ConcatNoDup(s: seq<Xname>, t: seq<Xname>)
    requires NoDup(s) && NoDup(t) && ToSet(s) !! ToSet(t)
    ensures NoDup(s + t) && ToSet(s + t) == ToSet(s) + ToSet(t)
  {
    assert forall x :: x in s ==> x in ToSet(s);
    assert forall x :: x in t ==> x in ToSet(t);
    assert forall x :: x in s + t <==> x in s || x in t;
    forall i, j | 0 <= i < j < |s + t| ensures (s + t)[i] != (s + t)[j] {
      if i < |s| <= j {
        assert s[i] in ToSet(s) && t[j - |s|] in ToSet(t);
      }
    }
  }

  lemma ReturnedPlaces(es: seq<Entry>, a: Answers, index: map<Xname, nat>)
    requires Proper(es, a) && Distinct(es) && Indexed(NamesOf(es), index)
    requires Answerable(index, Ids(a.check)) && Answerable(index, Value(a.deputies)) && Answerable(index, Ids(Value(a.acquire)))
    ensures var ret := Places(index, Ids(a.check)) + Places(index, Value(a.deputies)) + Places(index, Ids(Value(a.acquire)));
            NoDup(ret) && forall i: nat :: i in ret <==> i < |es| && es[i].x in Answered(a)
  {
    var c, d, q := Ids(a.check), Value(a.deputies), Ids(Value(a.acquire));
    AnsweredOnce(es, a);
    var all := c + d + q;
    assert Places(index, all) == Places(index, c) + Places(index, d) + Places(index, q);
    PlacesFacts(NamesOf(es), index, all);
    assert forall i: nat :: i < |es| ==> NamesOf(es)[i] == es[i].x;
  }

  lemma SettledNeeds(es: seq<Entry>, a: Answers)
    requires Proper(es, a) && Distinct(es)
    ensures forall i :: 0 <= i < |es| ==> (!Settled(es[i], a).needRsv <==> es[i].x in Answered(a))
  {
    forall i | 0 <= i < |es| ensures !Settled(es[i], a).needRsv <==> es[i].x in Answered(a) {
      SettledMeans(es, a, i);
      var c, d, q := Ids(a.check), Value(a.deputies), Ids(Value(a.acquire));
      assert forall x :: x in c + d + q <==> x in c || x in d || x in q;
    }
  }

  /** The reservations that the entries of a successful call are marked as owning. */
  ghost function OwnedNames(es: seq<Entry>, a: Answers): set<Xname> {
    ToSet(Ids(a.check)) + ToSet(Ids(Value(a.acquire)))
  }

  ghost predicate AboutOwned(r: ReleaseAnswer, owned: set<Xname>) {
    ToSet(r.released) <= owned && ToSet(r.refused) <= owned && NoDup(r.refused)
  }

  lemma OwnedAreIndexed(es: seq<Entry>, index: map<Xname, nat>, r: ReleaseAnswer)
    requires Indexed(NamesOf(es), index) && AboutOwned(r, Those(es, IsOwner))
    ensures Answerable(index, r.released) && Answerable(index, r.refused)
  {
    assert forall i :: 0 <= i < |es| ==> NamesOf(es)[i] == es[i].x;
    assert forall i :: 0 <= i < |r.released| ==> r.released[i] in ToSet(r.released);
    assert forall i :: 0 <= i < |r.refused| ==> r.refused[i] in ToSet(r.refused);
  }

  lemma SettledOwners(es: seq<Entry>, es': seq<Entry>, a: Answers)
    requires Proper(es, a) && Distinct(es)
    requires |es'| == |es| && forall i :: 0 <= i < |es| ==> es'[i] == Settled(es[i], a)
    ensures Distinct(es') && Those(es', IsOwner) == OwnedNames(es, a)
  {
    forall i | 0 <= i < |es|
      ensures es'[i].x == es[i].x && (IsOwner(es'[i]) <==> es[i].x in OwnedNames(es, a))
    {
      SettledMeans(es, a, i);
    }
    hide Settled;
    forall x | x in OwnedNames(es, a) ensures x in Those(es', IsOwner) {
      assert x in Those(es, HasKey) || x in Those(es, e => true);
      var i :| 0 <= i < |es| && es[i].x == x;
      assert IsOwner(es'[i]);
    }
    forall x | x in Those(es', IsOwner) ensures x in OwnedNames(es, a) {
      var i :| 0 <= i < |es'| && IsOwner(es'[i]) && es'[i].x == x;
      assert es[i].x == x;
    }
  }

  /** What a run leaves held when the service releases all that is asked for: nothing exactly
      when each reacquired reservation was confirmed by the check or acquired anew.  A run
      that ends while reserving keeps everything it had reacquired. */
  lemma HeldAfterRun(es: seq<Entry>, a: Answers, before: set<Xname>)
    requires Proper(es, a) && before !! Those(es, e => true)
    ensures var reacquired := ToSet(Value(a.reacquire));
            var after := before + Obtained(es, a);
            if Succeeds(es, a) then
              && after - OwnedNames(es, a) == before + (reacquired - OwnedNames(es, a))
              && (after - OwnedNames(es, a) == before <==> reacquired <= OwnedNames(es, a))
            else
              && after == before + reacquired
              && (after == before <==> reacquired == {})
  {
    assert Those(es, HasKey) <= Those(es, e => true);
    var reacquired := ToSet(Value(a.reacquire));
    assert before !! reacquired;
    assert before !! OwnedNames(es, a);
  }

  /** A reacquired reservation that the check does not report is kept for ever, and so is
      one that was reacquired before a failing acquisition. */
  lemma ReacquiredButKept(x: Xname, y: Xname)
    requires x != y
    ensures var e, f := Entry(x, "k", "", "", false, false, None), Entry(y, "", "", "", false, false, None);
            var unchecked := Answers(Some([x]), [], None, Some([]));
            var failing := Answers(Some([x]), [Grant(x, "k", "d", "t")], None, None);
            && Proper([e], unchecked) && Succeeds([e], unchecked)
            && Obtained([e], unchecked) - OwnedNames([e], unchecked) == {x}
            && Proper([e, f], failing) && !Succeeds([e, f], failing) && Obtained([e, f], failing) == {x}
  {
    var e, f := Entry(x, "k", "", "", false, false, None), Entry(y, "", "", "", false, false, None);
    var unchecked := Answers(Some([x]), [], None, Some([]));
    var failing := Answers(Some([x]), [Grant(x, "k", "d", "t")], None, None);
    assert HasKey([e][0]) && HasKey([e, f][0]);
    assert x in Those([e], HasKey) && x in Those([e, f], HasKey);
    assert [e, f][1].x == y;
    assert y in Those([e, f], e => true);
    assert y in StillNeeded([e, f], failing);
    assert forall h :: h in [e] ==> !HasDeputy(h);
    assert Those([e], HasDeputy) == {} && Those([e, f], HasDeputy) == {};
  }
}
