/** Retention of finished records: the reaper deletes expired ones, and the oldest of
    the rest when there are more than the configured number. */
module Retention {
  import opened TransitionModel
  import opened Sequencing

  datatype Rec = Rec(created: int, finished: bool, expired: bool)

  // ----- Insertion by age -------------------------------------------------------------------

  /** Position of the first index in `s` whose record is younger than record `t`. */
  function Position(ts: seq<Rec>, s: seq<nat>, t: nat): (p: nat)
    requires t < |ts| && forall i :: 0 <= i < |s| ==> s[i] < |ts|
    ensures p <= |s|
    ensures forall i :: 0 <= i < p ==> ts[s[i]].created <= ts[t].created
    ensures p < |s| ==> ts[s[p]].created > ts[t].created
  {
    if s == [] || ts[s[0]].created > ts[t].created then 0 else 1 + Position(ts, s[1..], t)
  }

  function Insert(ts: seq<Rec>, s: seq<nat>, t: nat): seq<nat>
    requires t < |ts| && forall i :: 0 <= i < |s| ==> s[i] < |ts|
  {
    var p := Position(ts, s, t);
    s[..p] + [t] + s[p..]
  }

  function Take(s: seq<nat>, n: nat): seq<nat> {
    if |s| <= n then s else s[..n]
  }

  ghost predicate Indices(ts: seq<Rec>, s: seq<nat>) {
    forall i :: 0 <= i < |s| ==> s[i] < |ts|
  }

  /** Oldest first. */
  ghost predicate ByAge(ts: seq<Rec>, s: seq<nat>)
    requires Indices(ts, s)
  {
    forall i, j :: 0 <= i < j < |s| ==> ts[s[i]].created <= ts[s[j]].created
  }

  /** All finished records among the first `k`, oldest first. */
  ghost function Aged(ts: seq<Rec>, k: nat): (s: seq<nat>)
    requires k <= |ts|
    ensures forall i :: 0 <= i < |s| ==> s[i] < k
  {
    if k == 0 then []
    else if ts[k - 1].finished then Insert(ts, Aged(ts, k - 1), k - 1)
    else Aged(ts, k - 1)
  }

  lemma InsertedAt(ts: seq<Rec>, s: seq<nat>, t: nat)
    requires t < |ts| && Indices(ts, s)
    ensures var p, r := Position(ts, s, t), Insert(ts, s, t);
            && |r| == |s| + 1 && p <= |s|
            && forall i :: 0 <= i < |r| ==> r[i] == if i < p then s[i] else if i == p then t else s[i - 1]
  {
  }

  lemma InsertKeepsMembers(ts: seq<Rec>, s: seq<nat>, t: nat)
    requires t < |ts| && Indices(ts, s) && NoDup(s) && t !in s
    ensures Indices(ts, Insert(ts, s, t)) && NoDup(Insert(ts, s, t))
    ensures forall x :: x in Insert(ts, s, t) <==> x == t || x in s
  {
    InsertedAt(ts, s, t);
    var p := Position(ts, s, t);
    assert s == s[..p] + s[p..];
  }

  lemma InsertKeepsAge(ts: seq<Rec>, s: seq<nat>, t: nat)
    requires t < |ts| && Indices(ts, s) && ByAge(ts, s)
    ensures Indices(ts, Insert(ts, s, t)) && ByAge(ts, Insert(ts, s, t))
  {
    InsertedAt(ts, s, t);
    var p, r := Position(ts, s, t), Insert(ts, s, t);
    hide Insert;
    forall i, j | 0 <= i < j < |r| ensures ts[r[i]].created <= ts[r[j]].created {
      if i == p && j > p + 1 {
        assert ts[s[p]].created <= ts[s[j - 1]].created;
      }
    }
  }

  lemma {:induction false} AgedIsSorted(ts: seq<Rec>, k: nat)
    requires k <= |ts|
    ensures var s := Aged(ts, k);
            && Indices(ts, s) && ByAge(ts, s) && NoDup(s)
            && forall x: nat :: x in s <==> x < k && ts[x].finished
  {
    hide Insert, ByAge;
    if k == 0 {
      assert ByAge(ts, []) by { NothingByAge(ts); }
    } else {
      AgedIsSorted(ts, k - 1);
      if ts[k - 1].finished {
        InsertKeepsAge(ts, Aged(ts, k - 1), k - 1);
        InsertKeepsMembers(ts, Aged(ts, k - 1), k - 1);
      }
    }
  }

  lemma NothingByAge(ts: seq<Rec>)
    ensures Indices(ts, []) && ByAge(ts, [])
  {
  }

  /** Cutting off before or after an insertion gives the same first `n`. */
  lemma TakeInsert(ts: seq<Rec>, s: seq<nat>, t: nat, n: nat)
    requires t < |ts| && Indices(ts, s)
    ensures Indices(ts, Take(s, n)) && Take(Insert(ts, Take(s, n), t), n) == Take(Insert(ts, s, t), n)
  {
    if |s| > n {
      PositionOfPrefix(ts, s, t, n);
      InsertedAt(ts, s, t);
      InsertedAt(ts, s[..n], t);
      hide Position, Insert;
      var u, v := Insert(ts, s[..n], t), Insert(ts, s, t);
      forall i | 0 <= i < n ensures u[i] == v[i] {
      }
    }
  }

  lemma {:induction false} PositionOfPrefix(ts: seq<Rec>, s: seq<nat>, t: nat, n: nat)
    requires t < |ts| && Indices(ts, s) && n <= |s|
    ensures Position(ts, s[..n], t) == if Position(ts, s, t) < n then Position(ts, s, t) else n
    decreases n
  {
    if n > 0 && ts[s[0]].created <= ts[t].created {
      assert s[..n][1..] == s[1..][..n - 1];
      PositionOfPrefix(ts, s[1..], t, n - 1);
    }
  }

  // ----- Insert and shift -----------------------------------------------------------------------

  /** The slots hold exactly the given indices, followed by empty slots. */
  ghost predicate Holds(slots: seq<Option<nat>>, s: seq<nat>) {
    |s| <= |slots| && forall k :: 0 <= k < |slots| ==> slots[k] == if k < |s| then Some(s[k]) else None
  }

  /** Puts record `t` in its place and moves the younger ones up; the last one drops out
      when the slots are full. */
  method InsertAndShift(slots: array<Option<nat>>, ts: seq<Rec>, t: nat, ghost s: seq<nat>)
    requires t < |ts| && Indices(ts, s) && Holds(slots[..], s)
    modifies slots
    ensures Holds(slots[..], Take(Insert(ts, s, t), slots.Length))
  {
    ghost var p := Position(ts, s, t);
    ghost var r := Insert(ts, s, t);
    ghost var before := slots[..];
    var i := 0;
    while i < slots.Length && slots[i].Some? && ts[slots[i].value].created <= ts[t].created
      invariant 0 <= i <= slots.Length && i <= p
      invariant slots[..] == before
    {
      i := i + 1;
    }
    var curr := Some(t);
    var j := i;
    while j < slots.Length && curr.Some?
      invariant i <= j <= slots.Length && j <= |r|
      invariant forall k :: 0 <= k < slots.Length ==>
                  slots[k] == if k < i then before[k] else if k < j then Some(r[k]) else before[k]
      invariant curr == if j < |r| then Some(r[j]) else None
      decreases slots.Length - j
    {
      var tmp := slots[j];
      slots[j] := curr;
      curr := tmp;
      j := j + 1;
    }
  }

  /** The `n` oldest finished records of the snapshot. */
  method SelectOldest(ts: seq<Rec>, n: nat) returns (slots: array<Option<nat>>)
    ensures fresh(slots) && slots.Length == n
    ensures Holds(slots[..], Take(Aged(ts, |ts|), n))
  {
    slots := new Option<nat>[n](i => None);
    for t := 0 to |ts|
      invariant Holds(slots[..], Take(Aged(ts, t), n))
    {
      if ts[t].finished {
        AgedIsSorted(ts, t);
        TakeInsert(ts, Aged(ts, t), t, n);
        InsertAndShift(slots, ts, t, Take(Aged(ts, t), n));
      }
    }
  }

  // ----- What remains ------------------------------------------------------------------------------

  ghost function Where(ts: seq<Rec>, k: nat, expired: bool): set<nat>
    requires k <= |ts|
  {
    set i: nat | i < k && ts[i].finished && ts[i].expired == expired
  }

  function Elements(s: seq<nat>): set<nat> {
    set x | x in s
  }

  lemma {:induction false} ElementsCount(s: seq<nat>)
    requires NoDup(s)
    ensures |Elements(s)| == |s|
  {
    if s != [] {
      NoDupTail(s);
      ElementsCount(s[1..]);
      assert Elements(s) == Elements(s[1..]) + {s[0]};
    }
  }

  /** The selection is made of finished records, oldest first, without repeats, and every
      finished record outside of it is at least as young as every record in it. */
  lemma SelectionIsOldest(ts: seq<Rec>, n: nat)
    ensures var s := Take(Aged(ts, |ts|), n);
            && NoDup(s) && Indices(ts, s) && ByAge(ts, s)
            && (forall x :: x in s ==> ts[x].finished)
            && (forall x: nat, y :: y in s && x < |ts| && ts[x].finished && x !in s ==> ts[y].created <= ts[x].created)
  {
    AgedIsSorted(ts, |ts|);
    var all := Aged(ts, |ts|);
    var s := Take(all, n);
    forall x: nat, y | y in s && x < |ts| && ts[x].finished && x !in s ensures ts[y].created <= ts[x].created {
      assert x in all;
      var i :| 0 <= i < |s| && s[i] == y;
      var j :| 0 <= j < |all| && all[j] == x;
      assert j >= |s|;
    }
  }

  /** With `n` no more than the number of finished records, every slot is filled, and what
      is left of the finished, unexpired ones is the number kept plus the slots that
      went to records already deleted as expired. */
  lemma RemainingCount(ts: seq<Rec>, n: nat)
    requires n <= |Where(ts, |ts|, false)|
    ensures var s := Take(Aged(ts, |ts|), n);
            && |s| == n
            && |Where(ts, |ts|, false) - Elements(s)| ==
               |Where(ts, |ts|, false)| - n + |Elements(s) * Where(ts, |ts|, true)|
  {
    AgedIsSorted(ts, |ts|);
    var all := Aged(ts, |ts|);
    var s := Take(all, n);
    var live, dead := Where(ts, |ts|, false), Where(ts, |ts|, true);
    assert Elements(all) == live + dead && live !! dead;
    hide Aged, Where, ByAge, NoDup;
    ElementsCount(all);
    assert |live + dead| == |live| + |dead|;
    assert |s| == n;
    PrefixFacts(all, n);
    ElementsCount(s);
    CountSplit(live, dead, Elements(s));
  }

  lemma PrefixFacts(s: seq<nat>, n: nat)
    requires NoDup(s)
    ensures NoDup(Take(s, n)) && Elements(Take(s, n)) <= Elements(s)
  {
  }

  lemma CountSplit(live: set<nat>, dead: set<nat>, sel: set<nat>)
    requires live !! dead && sel <= live + dead
    ensures |live - sel| == |live| - |sel| + |sel * dead|
  {
    assert sel == sel * live + sel * dead;
    assert |sel| == |sel * live| + |sel * dead|;
    assert live == (live - sel) + (sel * live);
    assert |live| == |live - sel| + |sel * live|;
  }

  /** The part of the reaper that removes finished records; `max` as configured, zero or
      less meaning no limit. */
  method Sweep(ts: seq<Rec>, max: int) returns (deleted: set<nat>)
    ensures forall x :: x in deleted ==> x < |ts| && ts[x].finished
    ensures Where(ts, |ts|, true) <= deleted
    ensures var live := Where(ts, |ts|, false);
            var expired := Where(ts, |ts|, true);
            if max <= 0 || |live| <= max then deleted == expired
            else
              var s := Elements(Take(Aged(ts, |ts|), |live| - max));
              && deleted == expired + s
              && |live - deleted| == max + |s * expired|
              && (|live - deleted| == max <==> s !! expired)
  {
    hide Aged, Where, ByAge, NoDup, Take, Elements, Indices, Holds;
    var numComplete;
    deleted, numComplete := DeleteExpired(ts);
    WhereFacts(ts);
    if max <= 0 || numComplete <= max {
      return;
    }
    var n := numComplete - max;
    SelectionCounts(ts, n);
    ghost var s := Take(Aged(ts, |ts|), n);
    var slots := SelectOldest(ts, n);
    var overflow := DeleteSelected(slots, s);
    deleted := deleted + overflow;
  }

  lemma SelectionCounts(ts: seq<Rec>, n: nat)
    requires n <= |Where(ts, |ts|, false)|
    ensures var live, expired := Where(ts, |ts|, false), Where(ts, |ts|, true);
            var s := Take(Aged(ts, |ts|), n);
            var sel := Elements(s);
            && |s| == n
            && (forall x :: x in sel ==> x < |ts| && ts[x].finished)
            && |live - (expired + sel)| == |live| - n + |sel * expired|
            && (|sel * expired| == 0 <==> sel !! expired)
  {
    hide Aged, Where, ByAge, NoDup, Take;
    RemainingCount(ts, n);
    SelectionIsOldest(ts, n);
    WhereFacts(ts);
    SweepCount(Where(ts, |ts|, false), Where(ts, |ts|, true), Elements(Take(Aged(ts, |ts|), n)));
  }

  method DeleteSelected(slots: array<Option<nat>>, ghost s: seq<nat>) returns (deleted: set<nat>)
    requires Holds(slots[..], s) && |s| == slots.Length
    ensures deleted == Elements(s)
  {
    deleted := {};
    for i := 0 to slots.Length
      invariant deleted == Elements(s[..i])
    {
      assert s[..i + 1] == s[..i] + [s[i]];
      assert slots[i] == slots[..][i];
      deleted := deleted + {slots[i].value};
    }
    assert s[..slots.Length] == s;
  }

  lemma SweepCount(live: set<nat>, expired: set<nat>, sel: set<nat>)
    requires live !! expired
    ensures live - (expired + sel) == live - sel
    ensures |sel * expired| == 0 <==> sel !! expired
  {
    if sel !! expired {
      assert sel * expired == {};
    } else {
      var x :| x in sel && x in expired;
      assert x in sel * expired;
    }
  }

  /** The first pass: deletes expired records and counts the others. */
  method DeleteExpired(ts: seq<Rec>) returns (deleted: set<nat>, numComplete: nat)
    ensures deleted == Where(ts, |ts|, true)
    ensures numComplete == |Where(ts, |ts|, false)|
  {
    deleted, numComplete := {}, 0;
    for i := 0 to |ts|
      invariant deleted == Where(ts, i, true)
      invariant numComplete == |Where(ts, i, false)|
    {
      WhereOneMore(ts, i);
      if ts[i].finished {
        if ts[i].expired {
          deleted := deleted + {i};
        } else {
          numComplete := numComplete + 1;
        }
      }
    }
  }

  lemma WhereFacts(ts: seq<Rec>)
    ensures Where(ts, |ts|, true) !! Where(ts, |ts|, false)
    ensures forall x :: x in Where(ts, |ts|, true) ==> x < |ts| && ts[x].finished
    ensures forall x: nat, e :: x in Where(ts, |ts|, e) <==> x < |ts| && ts[x].finished && ts[x].expired == e
  {
  }

  lemma WhereOneMore(ts: seq<Rec>, i: nat)
    requires i < |ts|
    ensures forall e :: Where(ts, i + 1, e) == Where(ts, i, e) + (if ts[i].finished && ts[i].expired == e then {i} else {})
    ensures forall e :: i !in Where(ts, i, e)
  {
  }
}
