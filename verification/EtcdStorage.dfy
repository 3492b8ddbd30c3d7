/** The store of transitions: one entry per record and one per page, with test-and-set
    on the record entry. */
module EtcdStorage {
  import opened TransitionModel
  import opened TransitionRecords
  import opened PagedStorage
  import RecordProtocol

  // ----- What is written --------------------------------------------------------------------

  function Truncated(cfg: Settings, size: Transition -> nat, t: Transition): Transition {
    if size(t) > cfg.maxObjectSize then t.(tasks := TruncateAll(cfg.maxMessageLen, t.tasks)) else t
  }

  predicate Halved(cfg: Settings, t: Transition) {
    |t.tasks| < cfg.pageSize && |Elems(t.location)| < cfg.pageSize
  }

  function PageSizeFor(cfg: Settings, t: Transition): nat {
    if Halved(cfg, t) then cfg.pageSize / 2 + 1 else cfg.pageSize
  }

  /** The record, possibly truncated, and its pages, if it has to be split. */
  function Prepare(cfg: Settings, size: Transition -> nat, t: Transition): (Transition, seq<Page>)
    requires ValidSettings(cfg)
  {
    if !cfg.sizeChecks || size(t) < cfg.maxObjectSize then (t, [])
    else
      var u := Truncated(cfg, size, t);
      if size(u) < cfg.maxObjectSize then (u, []) else Split(cfg, u, PageSizeFor(cfg, u))
  }

  predicate Paged(cfg: Settings, size: Transition -> nat, t: Transition) {
    cfg.sizeChecks && size(t) >= cfg.maxObjectSize && size(Truncated(cfg, size, t)) >= cfg.maxObjectSize
  }

  /** The record that a read is meant to return: truncated only if it did not fit. */
  function Expected(cfg: Settings, size: Transition -> nat, t: Transition): Transition {
    if !cfg.sizeChecks || size(t) < cfg.maxObjectSize then t else Truncated(cfg, size, t)
  }

  /** Tasks are dropped: the page size was halved although one half does not hold them. */
  predicate DropsTasks(cfg: Settings, size: Transition -> nat, t: Transition) {
    Paged(cfg, size, t) && Halved(cfg, t) && |t.tasks| > cfg.pageSize / 2 + 1
  }

  /** Storing and reading back returns the record, with truncated messages if it was too
      large, exactly when no tasks are dropped; dropped are all tasks past the first half page. */
  lemma StoreThenReadIff(cfg: Settings, size: Transition -> nat, t: Transition)
    requires ValidSettings(cfg)
    ensures var (first, pages) := Prepare(cfg, size, t);
            var u := Expected(cfg, size, t);
            && (Assemble(first, pages) == u <==> !DropsTasks(cfg, size, t))
            && (DropsTasks(cfg, size, t) ==> Assemble(first, pages) == u.(tasks := u.tasks[..cfg.pageSize / 2 + 1]))
            && u.location == t.location && u.taskIDs == t.taskIDs && |u.tasks| == |t.tasks|
            && Assemble(first, pages).tasks <= u.tasks
            && u == (if cfg.sizeChecks && size(t) > cfg.maxObjectSize then t.(tasks := TruncateAll(cfg.maxMessageLen, t.tasks)) else t)
            && (!cfg.sizeChecks || size(u) < cfg.maxObjectSize ==> first == u && pages == [])
            && (DropsTasks(cfg, size, t) <==>
                  && cfg.sizeChecks && size(u) >= cfg.maxObjectSize && |t.tasks| < cfg.pageSize
                  && |Elems(t.location)| < cfg.pageSize && |t.tasks| > cfg.pageSize / 2 + 1)
  {
    var (first, pages) := Prepare(cfg, size, t);
    var u := Expected(cfg, size, t);
    if Paged(cfg, size, t) {
      SplitThenAssemble(cfg, u, PageSizeFor(cfg, u));
      hide Split, Assemble;
    } else {
      assert pages == [];
      assert AllTasks(pages) == [] && AllLocations(pages) == [] && AllTaskIDs(pages) == [];
    }
  }

  // ----- The entries -------------------------------------------------------------------------------

  type PageMap = map<(nat, nat), Page>

  ghost predicate WellKeyed(pages: PageMap) {
    forall id: nat, k: nat :: (id, k) in pages ==> pages[(id, k)].id == id && pages[(id, k)].index == k
  }

  /** The pages of a transition in numeric order, each exactly once. */
  ghost predicate IsPageList(pages: PageMap, id: nat, l: seq<Page>) {
    && (forall i, j :: 0 <= i < j < |l| ==> l[i].index < l[j].index)
    && (forall i :: 0 <= i < |l| ==> (id, l[i].index) in pages && pages[(id, l[i].index)] == l[i])
    && (forall k: nat :: (id, k) in pages ==> pages[(id, k)] in l)
  }

  lemma {:induction false} PageListIsUnique(pages: PageMap, id: nat, l: seq<Page>, m: seq<Page>)
    requires WellKeyed(pages) && IsPageList(pages, id, l) && IsPageList(pages, id, m)
    ensures l == m
  {
    AscendingUnique(l, m);
  }

  lemma {:induction false} AscendingUnique(l: seq<Page>, m: seq<Page>)
    requires forall i, j :: 0 <= i < j < |l| ==> l[i].index < l[j].index
    requires forall i, j :: 0 <= i < j < |m| ==> m[i].index < m[j].index
    requires forall p :: p in l <==> p in m
    ensures l == m
    decreases |l|
  {
    EmptyOrMember(m);
    if l != [] {
      assert l[0] in m;
      var i :| 0 <= i < |m| && m[i] == l[0];
      assert m[0] in l;
      var j :| 0 <= j < |l| && l[j] == m[0];
      assert l[0] == m[0];
      var l1, m1 := l[1..], m[1..];
      forall p ensures p in l1 <==> p in m1 {
        assert p in l <==> p == l[0] || p in l1;
        assert p in m <==> p == m[0] || p in m1;
        if p in l1 {
          var n :| 0 <= n < |l1| && l1[n] == p;
          assert l[0].index < l[n + 1].index;
        }
        if p in m1 {
          var n :| 0 <= n < |m1| && m1[n] == p;
          assert m[0].index < m[n + 1].index;
        }
      }
      AscendingUnique(l1, m1);
    }
  }

  /** Writes the pages but for those whose write fails. */
  function WriteSome(pages: PageMap, ps: seq<Page>, failing: set<nat>): PageMap {
    if ps == [] then pages
    else
      var n := |ps| - 1;
      var before := WriteSome(pages, ps[..n], failing);
      if n in failing then before else before[(ps[n].id, ps[n].index) := ps[n]]
  }

  function WritePages(pages: PageMap, ps: seq<Page>): PageMap {
    WriteSome(pages, ps, {})
  }

  /** Pages numbered from zero, all of one transition. */
  ghost predicate Numbered(ps: seq<Page>, id: nat) {
    forall i :: 0 <= i < |ps| ==> ps[i].id == id && ps[i].index == i
  }

  lemma {:induction false} WrittenSome(pages: PageMap, ps: seq<Page>, id: nat, failing: set<nat>)
    requires Numbered(ps, id) && WellKeyed(pages)
    ensures var w := WriteSome(pages, ps, failing);
            && WellKeyed(w)
            && (forall i: nat, k: nat :: (i, k) in w <==> (i, k) in pages || (i == id && k < |ps| && k !in failing))
            && (forall i: nat, k: nat :: (i, k) in w ==>
                  w[(i, k)] == if i == id && k < |ps| && k !in failing then ps[k] else pages[(i, k)])
  {
    if ps != [] {
      var n := |ps| - 1;
      WrittenSome(pages, ps[..n], id, failing);
      if n !in failing {
        assert WriteSome(pages, ps, failing) == WriteSome(pages, ps[..n], failing)[(id, n) := ps[n]];
      }
    }
  }

  lemma WrittenPages(pages: PageMap, ps: seq<Page>, id: nat)
    requires Numbered(ps, id) && WellKeyed(pages)
    ensures WellKeyed(WritePages(pages, ps))
    ensures forall i: nat, k: nat :: (i, k) in WritePages(pages, ps) <==> (i, k) in pages || (i == id && k < |ps|)
    ensures forall i: nat, k: nat :: (i, k) in WritePages(pages, ps) ==>
              WritePages(pages, ps)[(i, k)] == if i == id && k < |ps| then ps[k] else pages[(i, k)]
  {
    WrittenSome(pages, ps, id, {});
    hide WriteSome;
  }

  /** The pages that would be written are there already. */
  ghost predicate AlreadyThere(pages: PageMap, ps: seq<Page>, id: nat, failing: set<nat>) {
    forall k: nat :: k < |ps| && k !in failing ==> (id, k) in pages && pages[(id, k)] == ps[k]
  }

  lemma WritingChangesIff(pages: PageMap, ps: seq<Page>, id: nat, failing: set<nat>)
    requires Numbered(ps, id) && WellKeyed(pages)
    ensures WriteSome(pages, ps, failing) == pages <==> AlreadyThere(pages, ps, id, failing)
  {
    WrittenSome(pages, ps, id, failing);
    hide WriteSome;
    var w := WriteSome(pages, ps, failing);
    if AlreadyThere(pages, ps, id, failing) {
      forall key | key in w ensures key in pages && w[key] == pages[key] {
        assert (key.0, key.1) == key;
      }
      forall key | key in pages ensures key in w {
        assert (key.0, key.1) == key;
      }
    } else {
      var k: nat :| k < |ps| && k !in failing && !((id, k) in pages && pages[(id, k)] == ps[k]);
      assert (id, k) in w && w[(id, k)] == ps[k];
    }
  }

  lemma PreparedIsNumbered(cfg: Settings, size: Transition -> nat, t: Transition)
    requires ValidSettings(cfg)
    ensures Numbered(Prepare(cfg, size, t).1, t.id) && Prepare(cfg, size, t).0.id == t.id
  {
  }

  /** After a store, the pages read are the ones written followed by those of an
      earlier, longer store that were left behind. */
  lemma PagesAfterStore(pages: PageMap, ps: seq<Page>, id: nat, l: seq<Page>)
    requires WellKeyed(pages) && Numbered(ps, id) && IsPageList(WritePages(pages, ps), id, l)
    ensures |ps| <= |l| && l[..|ps|] == ps
    ensures forall i :: |ps| <= i < |l| ==> l[i].index >= |ps| && (id, l[i].index) in pages
    ensures (forall k: nat :: (id, k) in pages ==> k < |ps|) ==> l == ps
  {
    WrittenPages(pages, ps, id);
    var w := WritePages(pages, ps);
    forall n | 0 <= n < |ps| ensures n < |l| && l[n] == ps[n] {
      FirstPages(w, ps, id, l, n);
    }
    assert l[..|ps|] == ps;
    forall i | |ps| <= i < |l| ensures l[i].index >= |ps| {
      if |ps| > 0 {
        assert l[|ps| - 1].index < l[i].index;
      }
    }
    if |l| > |ps| {
      assert (id, l[|ps|].index) in w && (id, l[|ps|].index) in pages;
    }
  }

  lemma {:induction false} FirstPages(w: PageMap, ps: seq<Page>, id: nat, l: seq<Page>, n: nat)
    requires n < |ps| && Numbered(ps, id) && IsPageList(w, id, l)
    requires forall k: nat :: k < |ps| ==> (id, k) in w && w[(id, k)] == ps[k]
    ensures n < |l| && l[n] == ps[n]
  {
    assert (id, n) in w && w[(id, n)] in l;
    var i :| 0 <= i < |l| && l[i] == ps[n];
    AscendingAtLeast(l, i);
    if n > 0 {
      FirstPages(w, ps, id, l, n - 1);
      OrderReflected(l, n - 1, i);
    }
  }

  lemma OrderReflected(l: seq<Page>, i: nat, j: nat)
    requires i < |l| && j < |l| && l[i].index < l[j].index
    requires forall i, j :: 0 <= i < j < |l| ==> l[i].index < l[j].index
    ensures i < j
  {
  }

  lemma {:induction false} AscendingAtLeast(l: seq<Page>, i: nat)
    requires i < |l| && forall i, j :: 0 <= i < j < |l| ==> l[i].index < l[j].index
    ensures l[i].index >= i
  {
    if i > 0 {
      AscendingAtLeast(l, i - 1);
    }
  }

  /** Pages left behind are read along with the new ones: the read is right exactly when
      they hold nothing. */
  lemma LeftoverPagesMatterIff(first: Transition, ps: seq<Page>, rest: seq<Page>)
    ensures Assemble(first, ps + rest) == Assemble(first, ps) <==>
            AllTasks(rest) == [] && AllLocations(rest) == [] && AllTaskIDs(rest) == []
  {
    AllOfSum(ps, rest);
    hide AllTasks, AllLocations, AllTaskIDs;
    assert |first.tasks + (AllTasks(ps) + AllTasks(rest))| == |first.tasks + AllTasks(ps)| + |AllTasks(rest)|;
    var l0, l1 := Extend(first.location, AllLocations(ps)), Extend(first.location, AllLocations(ps) + AllLocations(rest));
    assert |Elems(l1)| == |Elems(l0)| + |AllLocations(rest)|;
    var i0, i1 := Extend(first.taskIDs, AllTaskIDs(ps)), Extend(first.taskIDs, AllTaskIDs(ps) + AllTaskIDs(rest));
    assert |Elems(i1)| == |Elems(i0)| + |AllTaskIDs(rest)|;
  }

  lemma AllOfSum(ps: seq<Page>, rest: seq<Page>)
    ensures AllTasks(ps + rest) == AllTasks(ps) + AllTasks(rest)
    ensures AllLocations(ps + rest) == AllLocations(ps) + AllLocations(rest)
    ensures AllTaskIDs(ps + rest) == AllTaskIDs(ps) + AllTaskIDs(rest)
  {
    var all := ps + rest;
    var t0, t1 := seq(|ps|, i requires 0 <= i < |ps| => ps[i].tasks), seq(|rest|, i requires 0 <= i < |rest| => rest[i].tasks);
    assert seq(|all|, i requires 0 <= i < |all| => all[i].tasks) == t0 + t1;
    FlattenSum(t0, t1);
    var l0, l1 := seq(|ps|, i requires 0 <= i < |ps| => Elems(ps[i].location)), seq(|rest|, i requires 0 <= i < |rest| => Elems(rest[i].location));
    assert seq(|all|, i requires 0 <= i < |all| => Elems(all[i].location)) == l0 + l1;
    FlattenSum(l0, l1);
    var d0, d1 := seq(|ps|, i requires 0 <= i < |ps| => Elems(ps[i].taskIDs)), seq(|rest|, i requires 0 <= i < |rest| => Elems(rest[i].taskIDs));
    assert seq(|all|, i requires 0 <= i < |all| => Elems(all[i].taskIDs)) == d0 + d1;
    FlattenSum(d0, d1);
  }

  // ----- Test-and-set -----------------------------------------------------------------------------

  /** The copy handed out as the first page of a paged record: its lists are empty. */
  function CopyTransition(t: Transition): Transition {
    t.(tasks := [], location := Slice([]), taskIDs := Slice([]))
  }

  /** The value to test against that a read hands out. */
  function TestValue(read: Transition, hadPages: bool): Transition {
    if hadPages then CopyTransition(read) else read
  }

  predicate HoldsNothing(t: Transition) {
    t.tasks == [] && t.location == Slice([]) && t.taskIDs == Slice([])
  }

  /** The test of a paged record holds exactly on a record with empty lists that otherwise
      is the one read; so it never holds while the first page holds anything, and it does
      hold on a changed record whose lists became empty. */
  lemma TestHoldsIff(read: Transition, now: Transition)
    ensures now == TestValue(read, true) <==>
            HoldsNothing(now) && now.(tasks := read.tasks, location := read.location, taskIDs := read.taskIDs) == read
    ensures now == TestValue(read, true) && now == read <==> HoldsNothing(read) && now == read
  {
  }

  lemma AssembleOneMore(first: Transition, l: seq<Page>, p: Page)
    ensures var t := Assemble(first, l);
            Assemble(first, l + [p]) == t.(tasks := t.tasks + p.tasks,
                                           location := Extend(t.location, Elems(p.location)),
                                           taskIDs := Extend(t.taskIDs, Elems(p.taskIDs)))
  {
    AllOfSum(l, [p]);
    AllOfOne(p);
    hide AllTasks, AllLocations, AllTaskIDs;
    ExtendTwice(first.location, AllLocations(l), Elems(p.location));
    ExtendTwice(first.taskIDs, AllTaskIDs(l), Elems(p.taskIDs));
  }

  lemma ExtendTwice<T>(s: Slice<T>, a: seq<T>, b: seq<T>)
    ensures Extend(Extend(s, a), b) == Extend(s, a + b)
  {
    if a == [] {
      assert a + b == b;
    } else if b == [] {
      assert a + b == a;
    } else {
      assert Elems(s) + a + b == Elems(s) + (a + b);
    }
  }

  lemma FlattenOne<T>(s: seq<T>)
    ensures Flatten([s]) == s
  {
    assert [s][1..] == [];
  }

  lemma AllOfOne(p: Page)
    ensures AllTasks([p]) == p.tasks && AllLocations([p]) == Elems(p.location) && AllTaskIDs([p]) == Elems(p.taskIDs)
  {
    assert seq(|[p]|, i requires 0 <= i < |[p]| => [p][i].tasks) == [p.tasks];
    assert seq(|[p]|, i requires 0 <= i < |[p]| => Elems([p][i].location)) == [Elems(p.location)];
    assert seq(|[p]|, i requires 0 <= i < |[p]| => Elems([p][i].taskIDs)) == [Elems(p.taskIDs)];
    FlattenOne(p.tasks);
    FlattenOne(Elems(p.location));
    FlattenOne(Elems(p.taskIDs));
  }

  /** Inserts a page into a list that is in numeric order. */
  method InsertPage(sorted: seq<Page>, p: Page) returns (l: seq<Page>)
    requires forall i, j :: 0 <= i < j < |sorted| ==> sorted[i].index < sorted[j].index
    requires forall i :: 0 <= i < |sorted| ==> sorted[i].index != p.index
    ensures forall i, j :: 0 <= i < j < |l| ==> l[i].index < l[j].index
    ensures forall q :: q in l <==> q == p || q in sorted
  {
    var n := |sorted|;
    while n > 0 && p.index < sorted[n - 1].index
      invariant 0 <= n <= |sorted|
      invariant forall i :: n <= i < |sorted| ==> p.index < sorted[i].index
    {
      n := n - 1;
    }
    l := sorted[..n] + [p] + sorted[n..];
    InsertedInOrder(sorted, p, n);
  }

  lemma InsertedInOrder(sorted: seq<Page>, p: Page, n: nat)
    requires n <= |sorted|
    requires forall i, j :: 0 <= i < j < |sorted| ==> sorted[i].index < sorted[j].index
    requires forall i :: 0 <= i < |sorted| ==> if i < n then sorted[i].index < p.index else p.index < sorted[i].index
    ensures var l := sorted[..n] + [p] + sorted[n..];
            && (forall i, j :: 0 <= i < j < |l| ==> l[i].index < l[j].index)
            && (forall q :: q in l <==> q == p || q in sorted)
  {
    var l := sorted[..n] + [p] + sorted[n..];
    forall i | 0 <= i < |l| ensures l[i] == if i < n then sorted[i] else if i == n then p else sorted[i - 1] {
    }
    assert forall q :: q in sorted <==> q in sorted[..n] || q in sorted[n..];
  }

  class EtcdStore {
    const cfg: Settings
    const size: Transition -> nat
    var records: map<nat, Transition>
    var pages: PageMap

    ghost predicate Valid()
      reads this
    {
      ValidSettings(cfg) && WellKeyed(pages) && forall id :: id in records ==> records[id].id == id
    }

    /** Truncates the messages of every task in place. */
    method TruncateTaskMessages(t: Transition) returns (u: Transition)
      ensures u == t.(tasks := TruncateAll(cfg.maxMessageLen, t.tasks))
    {
      var tasks := t.tasks;
      for i := 0 to |tasks|
        invariant |tasks| == |t.tasks|
        invariant forall j :: 0 <= j < |tasks| ==>
                    tasks[j] == if j < i then TruncateTask(cfg.maxMessageLen, t.tasks[j]) else t.tasks[j]
      {
        var task := tasks[i];
        if |task.error| > cfg.maxMessageLen {
          task := task.(error := task.error[..cfg.maxMessageLen] + "...");
          if |task.desc| > 3 {
            task := task.(desc := "...");
          }
        } else {
          var remaining := cfg.maxMessageLen - |task.error|;
          if |task.desc| > remaining {
            task := task.(desc := task.desc[..remaining] + "...");
          }
        }
        tasks := tasks[i := task];
      }
      u := t.(tasks := tasks);
    }

    method TruncateAndPage(t: Transition) returns (first: Transition, ps: seq<Page>)
      requires Valid()
      ensures (first, ps) == Prepare(cfg, size, t)
    {
      hide Split, TruncateAll;
      first, ps := t, [];
      if !cfg.sizeChecks || size(t) < cfg.maxObjectSize {
        return;
      }
      if size(t) > cfg.maxObjectSize {
        first := TruncateTaskMessages(t);
      }
      if size(first) < cfg.maxObjectSize {
        return;
      }
      first, ps := BreakIntoPages(cfg, first, PageSizeFor(cfg, first));
    }

    method WriteAllPages(ps: seq<Page>, failing: set<nat>) returns (err: bool)
      modifies this`pages
      ensures pages == WriteSome(old(pages), ps, failing)
      ensures err <==> exists i :: 0 <= i < |ps| && i in failing
    {
      err := false;
      for i := 0 to |ps|
        invariant pages == WriteSome(old(pages), ps[..i], failing)
        invariant err <==> exists j :: 0 <= j < i && j in failing
      {
        assert ps[..i + 1][..i] == ps[..i];
        if i in failing {
          err := true;
        } else {
          pages := pages[(ps[i].id, ps[i].index) := ps[i]];
        }
      }
      assert ps[..|ps|] == ps;
    }

    /** Stores the record and then its pages; each write may fail by itself. */
    method StoreTransition(t: Transition, recordFails: bool, failing: set<nat>) returns (err: bool)
      requires Valid()
      modifies this
      ensures Valid()
      ensures records == if recordFails then old(records) else old(records)[t.id := Prepare(cfg, size, t).0]
      ensures pages == WriteSome(old(pages), Prepare(cfg, size, t).1, failing)
      ensures err <==> recordFails || exists i :: 0 <= i < |Prepare(cfg, size, t).1| && i in failing
    {
      var first, ps := TruncateAndPage(t);
      PreparedIsNumbered(cfg, size, t);
      WrittenSome(pages, ps, t.id, failing);
      hide Prepare, WriteSome;
      if !recordFails {
        records := records[first.id := first];
      }
      err := WriteAllPages(ps, failing);
      err := err || recordFails;
    }

    /** Lists the pages of a transition in numeric order, whatever order the store
        returns them in. */
    method GetTransitionPages(id: nat) returns (l: seq<Page>)
      requires Valid()
      ensures IsPageList(pages, id, l)
    {
      l := [];
      var todo := set key | key in pages && key.0 == id;
      while todo != {}
        invariant todo <= set key | key in pages && key.0 == id
        invariant forall i, j :: 0 <= i < j < |l| ==> l[i].index < l[j].index
        invariant forall i :: 0 <= i < |l| ==> (id, l[i].index) in pages && pages[(id, l[i].index)] == l[i] && (id, l[i].index) !in todo
        invariant forall k: nat :: (id, k) in pages && (id, k) !in todo ==> pages[(id, k)] in l
        decreases todo
      {
        var key :| key in todo;
        var l0 := l;
        l := InsertPage(l, pages[key]);
        todo := todo - {key};
        forall i | 0 <= i < |l|
          ensures (id, l[i].index) in pages && pages[(id, l[i].index)] == l[i] && (id, l[i].index) !in todo
        {
          assert l[i] in l;
        }
      }
    }

    /** Reads a transition back; the second result is meant for a later test-and-set.  When
        the pages cannot be read, the record is returned without them, and no error is. */
    method GetTransition(id: nat, unreadable: bool) returns (found: bool, t: Transition, firstPage: Transition, ghost l: seq<Page>)
      requires Valid()
      ensures found <==> id in records
      ensures IsPageList(pages, id, l)
      ensures found && (!cfg.sizeChecks || unreadable) ==> t == firstPage == records[id]
      ensures found && cfg.sizeChecks && !unreadable ==>
                t == Assemble(records[id], l) && firstPage == TestValue(records[id], l != [])
    {
      hide Assemble;
      var list := GetTransitionPages(id);
      l := list;
      found := id in records;
      t := Blank;
      firstPage := t;
      if found {
        t, firstPage := records[id], records[id];
        if cfg.sizeChecks && !unreadable {
          if |list| > 0 {
            firstPage := CopyTransition(t);
          }
          AssembleNothing(t);
          for i := 0 to |list|
            invariant t == Assemble(records[id], list[..i])
          {
            AssembleOneMore(records[id], list[..i], list[i]);
            assert list[..i + 1] == list[..i] + [list[i]];
            t := t.(tasks := t.tasks + list[i].tasks,
                    location := Extend(t.location, Elems(list[i].location)),
                    taskIDs := Extend(t.taskIDs, Elems(list[i].taskIDs)));
          }
          assert list[..|list|] == list;
        }
      }
    }

    /** Test-and-set on the record.  The pages are written whether or not the test held, but
        not when the test-and-set reports an error. */
    method TASTransition(t: Transition, testVal: Transition, report: Report, failing: set<nat>) returns (ok: bool, err: bool)
      requires Valid()
      modifies this
      ensures Valid()
      ensures var held := t.id in old(records) && old(records)[t.id] == testVal;
              && (ok <==> held && report == Reported)
              && records == (if held && report != Lost then old(records)[t.id := Prepare(cfg, size, t).0] else old(records))
      ensures pages == if report == Reported then WriteSome(old(pages), Prepare(cfg, size, t).1, failing) else old(pages)
      ensures err <==> report != Reported || exists i :: 0 <= i < |Prepare(cfg, size, t).1| && i in failing
    {
      var first, ps := TruncateAndPage(t);
      PreparedIsNumbered(cfg, size, t);
      WrittenSome(pages, ps, t.id, failing);
      hide Prepare, WriteSome;
      var held := t.id in records && records[t.id] == testVal;
      if held && report != Lost {
        records := records[t.id := first];
      }
      if report != Reported {
        return false, true;
      }
      ok := held;
      err := WriteAllPages(ps, failing);
    }

    /** Deletes the record and then its pages; each deletion may fail by itself, and none of
        the pages goes when they cannot be listed. */
    method DeleteTransition(id: nat, recordFails: bool, unreadable: bool, failing: set<nat>)
      requires Valid()
      modifies this
      ensures Valid()
      ensures records == if recordFails then old(records) else old(records) - {id}
      ensures pages == map key | key in old(pages) && !(cfg.sizeChecks && !unreadable && key.0 == id && key.1 !in failing)
                         :: old(pages)[key]
    {
      if !recordFails {
        records := records - {id};
      }
      if cfg.sizeChecks && !unreadable {
        var l := GetTransitionPages(id);
        ghost var pages0, gone := pages, {};
        for i := 0 to |l|
          invariant pages == pages0 - gone && records == if recordFails then old(records) else old(records) - {id}
          invariant forall key :: key in gone <==>
                      key.0 == id && key.1 !in failing && exists j :: 0 <= j < i && l[j].index == key.1
        {
          if l[i].index !in failing {
            pages := pages - {(id, l[i].index)};
            gone := gone + {(id, l[i].index)};
          }
        }
        forall key | key in pages0 ensures key in gone <==> key.0 == id && key.1 !in failing {
          if key.0 == id {
            assert (id, key.1) in pages0 && pages0[(id, key.1)] in l;
          }
        }
      }
    }

    /** A read, then any changes by others, then a test-and-set with what was read.  It is a
        compare-and-swap for a record without pages; for one with pages it succeeds exactly
        on the record read with its lists emptied.  A failed one leaves the records as they
        are, and the pages exactly when it has none to write that are not there already. */
    method GetThenTAS(t: Transition, others: map<nat, Transition>, othersPages: PageMap, report: Report, failing: set<nat>)
      returns (found: bool, ok: bool)
      requires Valid() && WellKeyed(othersPages) && forall id :: id in others ==> others[id].id == id
      modifies this
      ensures Valid()
      ensures found <==> t.id in old(records)
      ensures !found ==> !ok && records == others && pages == othersPages
      ensures found && !HasPages(cfg, old(pages), t.id) ==>
                (ok <==> report == Reported && t.id in others && others[t.id] == old(records)[t.id])
      ensures found && HasPages(cfg, old(pages), t.id) ==>
                (ok <==> report == Reported && t.id in others && others[t.id] == CopyTransition(old(records)[t.id]))
      ensures found && HasPages(cfg, old(pages), t.id) && t.id in others && !HoldsNothing(others[t.id]) ==> !ok && records == others
      ensures ok ==> records == others[t.id := Prepare(cfg, size, t).0]
      ensures found && !HasPages(cfg, old(pages), t.id) && report == Reported && Prepare(cfg, size, t).0 == t ==>
                StoredAt(records, t.id) == RecordProtocol.Tas(StoredAt(others, t.id), old(records)[t.id], t)
      ensures found && !ok && report != HiddenWrite ==>
                && records == others
                && (pages == othersPages <==> report == Lost || AlreadyThere(othersPages, Prepare(cfg, size, t).1, t.id, failing))
    {
      var read, firstPage; ghost var l;
      found, read, firstPage, l := GetTransition(t.id, false);
      PageListEmptyIff(cfg, pages, t.id, l);
      ok := false;
      records, pages := others, othersPages;
      if found {
        PreparedIsNumbered(cfg, size, t);
        WritingChangesIff(othersPages, Prepare(cfg, size, t).1, t.id, failing);
        hide Prepare, WriteSome, AlreadyThere, IsPageList, Assemble, HasPages;
        var err;
        ok, err := TASTransition(t, firstPage, report, failing);
      }
    }

    /** A store followed by a read: without pages left behind by an earlier, longer store
        the read returns the expected record exactly when no tasks are dropped. */
    method StoreThenGet(t: Transition) returns (read: Transition)
      requires Valid() && cfg.sizeChecks
      requires forall k: nat :: (t.id, k) in pages ==> k < |Prepare(cfg, size, t).1|
      modifies this
      ensures Valid()
      ensures read == Expected(cfg, size, t) <==> !DropsTasks(cfg, size, t)
      ensures read.location == t.location && read.taskIDs == t.taskIDs && read.tasks <= Expected(cfg, size, t).tasks
    {
      hide Prepare, Assemble, Expected, DropsTasks, IsPageList, WriteSome;
      var (first, ps) := Prepare(cfg, size, t);
      PreparedIsNumbered(cfg, size, t);
      StoreThenReadIff(cfg, size, t);
      ghost var pages0 := pages;
      var err := StoreTransition(t, false, {});
      var found, firstPage; ghost var l;
      found, read, firstPage, l := GetTransition(t.id, false);
      PagesAfterStore(pages0, ps, t.id, l);
    }
  }

  function StoredAt(records: map<nat, Transition>, id: nat): Option<Transition> {
    if id in records then Some(records[id]) else None
  }

  ghost predicate HasPages(cfg: Settings, pages: PageMap, id: nat) {
    cfg.sizeChecks && exists k: nat :: (id, k) in pages
  }

  lemma PageListEmptyIff(cfg: Settings, pages: PageMap, id: nat, l: seq<Page>)
    requires IsPageList(pages, id, l)
    ensures cfg.sizeChecks ==> (l != [] <==> HasPages(cfg, pages, id))
  {
    if l != [] {
      assert (id, l[0].index) in pages;
    }
  }

  lemma AssembleNothing(t: Transition)
    ensures Assemble(t, []) == t
  {
    assert AllTasks([]) == [] && AllLocations([]) == [] && AllTaskIDs([]) == [];
  }
}
