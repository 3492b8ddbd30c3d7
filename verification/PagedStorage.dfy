/** Storage of transition records that may not fit into one entry of the store: long
    messages are truncated, and long lists are split into pages. */
module PagedStorage {
  import opened TransitionModel
  import opened TransitionRecords

  function Extend<T>(s: Slice<T>, more: seq<T>): Slice<T> {
    if more == [] then s else Slice(Elems(s) + more)
  }

  datatype Page = Page(id: nat, index: nat, location: Slice<Location>, taskIDs: Slice<nat>, tasks: seq<TaskResp>)

  datatype Settings = Settings(sizeChecks: bool, pageSize: nat, maxMessageLen: nat, maxObjectSize: nat)

  predicate ValidSettings(cfg: Settings) {
    cfg.pageSize > 0 && cfg.maxMessageLen > 0 && cfg.maxObjectSize > 0
  }

  // ----- Truncation ---------------------------------------------------------------------

  function TruncateTask(maxLen: nat, t: TaskResp): TaskResp {
    if |t.error| > maxLen then
      t.(error := t.error[..maxLen] + "...", desc := if |t.desc| > 3 then "..." else t.desc)
    else
      var rest := maxLen - |t.error|;
      if |t.desc| > rest then t.(desc := t.desc[..rest] + "...") else t
  }

  function TruncateAll(maxLen: nat, tasks: seq<TaskResp>): seq<TaskResp> {
    seq(|tasks|, i requires 0 <= i < |tasks| => TruncateTask(maxLen, tasks[i]))
  }

  /** Truncation bounds the messages of a task, keeps what identifies it, and changes
      nothing when it is applied again. */
  lemma TruncationIsIdempotent(maxLen: nat, t: TaskResp)
    ensures var u := TruncateTask(maxLen, t);
            && |u.error| + |u.desc| <= maxLen + 6
            && u.xname == t.xname && u.status == t.status
            && TruncateTask(maxLen, u) == u
            && (|t.error| + |t.desc| <= maxLen ==> u == t)
            && (u.error == t.error || (|t.error| > maxLen && u.error == t.error[..maxLen] + "..."))
            && (|| u.desc == t.desc
                || (|t.error| > maxLen && |t.desc| > 3 && u.desc == "...")
                || (|t.error| <= maxLen < |t.error| + |t.desc| && u.desc == t.desc[..maxLen - |t.error|] + "..."))
  {
    var u := TruncateTask(maxLen, t);
    if |t.error| > maxLen {
      assert u.error[..maxLen] == t.error[..maxLen];
    } else if |t.desc| > maxLen - |t.error| {
      assert u.desc[..maxLen - |t.error|] == t.desc[..maxLen - |t.error|];
    }
  }

  // ----- Pages of one list -----------------------------------------------------------------

  function Min(a: nat, b: nat): nat { if a < b then a else b }

  /** Pieces that start every `step` elements and are at most `cut` long. */
  function Chunks<T>(s: seq<T>, step: nat, cut: nat): seq<seq<T>>
    requires step > 0
    decreases |s|
  {
    if s == [] then [] else [s[..Min(cut, |s|)]] + Chunks(s[Min(step, |s|)..], step, cut)
  }

  function Flatten<T>(pieces: seq<seq<T>>): seq<T> {
    if pieces == [] then [] else pieces[0] + Flatten(pieces[1..])
  }

  lemma {:induction false} ChunksFlatten<T>(s: seq<T>, n: nat)
    requires n > 0
    ensures Flatten(Chunks(s, n, n)) == s
    decreases |s|
  {
    if s != [] {
      ChunksFlatten(s[Min(n, |s|)..], n);
      assert Chunks(s, n, n)[1..] == Chunks(s[Min(n, |s|)..], n, n);
      assert s == s[..Min(n, |s|)] + s[Min(n, |s|)..];
    }
  }

  /** The loop that cuts a list into pages. */
  method PageList<T>(s: seq<T>, step: nat, cut: nat) returns (pages: seq<seq<T>>)
    requires step > 0 && cut > 0
    ensures pages == if |s| > cut then Chunks(s, step, cut) else [s]
  {
    pages := [];
    if |s| > cut {
      var i := 0;
      while i < |s|
        invariant 0 <= i
        invariant pages + Chunks(s[Min(i, |s|)..], step, cut) == Chunks(s, step, cut)
      {
        var end := i + cut;
        if end > |s| {
          end := |s|;
        }
        pages := pages + [s[i..end]];
        assert s[i..][..Min(cut, |s[i..]|)] == s[i..end];
        assert s[i..][Min(step, |s[i..]|)..] == s[Min(i + step, |s|)..];
        i := i + step;
      }
      assert s[Min(i, |s|)..] == [];
    } else {
      pages := [s];
    }
  }

  /** The pages of a list with step `step`, cut at `cut`: one page if it fits. */
  function PagesOf<T>(s: seq<T>, step: nat, cut: nat): seq<seq<T>>
    requires step > 0
  {
    if |s| > cut then Chunks(s, step, cut) else [s]
  }

  function PagesOfSlice<T>(s: Slice<T>, size: nat): seq<seq<T>>
    requires size > 0
  {
    if s.NilSlice? then [] else PagesOf(s.elems, size, size)
  }

  // ----- Splitting a transition ----------------------------------------------------------------

  function Piece<T>(pages: seq<seq<T>>, i: nat): seq<T> {
    if i < |pages| then pages[i] else []
  }

  function PieceSlice<T>(pages: seq<seq<T>>, i: nat): Slice<T> {
    if i < |pages| then Slice(pages[i]) else NilSlice
  }

  function Max3(a: nat, b: nat, c: nat): nat {
    if a >= b && a >= c then a else if b >= c then b else c
  }

  /** The record and its pages.  Task pages start every `cfg.pageSize` tasks although
      they are cut at `size`. */
  function Split(cfg: Settings, t: Transition, size: nat): (Transition, seq<Page>)
    requires cfg.pageSize > 0 && size > 0
  {
    if Fits(t, size) then (t, [])
    else
      var ts := PagesOf(t.tasks, cfg.pageSize, size);
      var ls := PagesOfSlice(t.location, size);
      var ids := PagesOfSlice(t.taskIDs, size);
      var n := Max3(|ts|, |ls|, |ids|);
      (t.(tasks := Piece(ts, 0),
          location := if t.location.NilSlice? then NilSlice else PieceSlice(ls, 0),
          taskIDs := if t.taskIDs.NilSlice? then NilSlice else PieceSlice(ids, 0)),
       seq(if n == 0 then 0 else n - 1,
           i requires 0 <= i => Page(t.id, i, PieceSlice(ls, i + 1), PieceSlice(ids, i + 1), Piece(ts, i + 1))))
  }

  /** The loops that build the pages and fill them in; every access is in range. */
  method FillPages(id: nat, ts: seq<seq<TaskResp>>, ls: seq<seq<Location>>, ids: seq<seq<nat>>) returns (pages: seq<Page>)
    requires ts != []
    ensures |pages| == Max3(|ts|, |ls|, |ids|) - 1
    ensures forall j :: 0 <= j < |pages| ==> pages[j] == Page(id, j, PieceSlice(ls, j + 1), PieceSlice(ids, j + 1), Piece(ts, j + 1))
  {
    var n := Max3(|ts|, |ls|, |ids|);
    pages := [];
    for i := 1 to n
      invariant |pages| == i - 1
      invariant forall j :: 0 <= j < |pages| ==> pages[j] == Page(id, j, NilSlice, NilSlice, [])
    {
      pages := pages + [Page(id, i - 1, NilSlice, NilSlice, [])];
    }
    for i := 1 to |ts|
      invariant |pages| == n - 1
      invariant forall j :: 0 <= j < n - 1 ==> pages[j] == Page(id, j, NilSlice, NilSlice, if j + 1 < i then ts[j + 1] else [])
    {
      pages := pages[i - 1 := pages[i - 1].(tasks := ts[i])];
    }
    var i := 1;
    while i < |ls|
      invariant 1 <= i && |pages| == n - 1
      invariant forall j :: 0 <= j < n - 1 ==>
                  pages[j] == Page(id, j, if j + 1 < i then PieceSlice(ls, j + 1) else NilSlice, NilSlice, Piece(ts, j + 1))
    {
      pages := pages[i - 1 := pages[i - 1].(location := Slice(ls[i]))];
      i := i + 1;
    }
    i := 1;
    while i < |ids|
      invariant 1 <= i && |pages| == n - 1
      invariant forall j :: 0 <= j < n - 1 ==>
                  pages[j] == Page(id, j, PieceSlice(ls, j + 1), if j + 1 < i then PieceSlice(ids, j + 1) else NilSlice, Piece(ts, j + 1))
    {
      pages := pages[i - 1 := pages[i - 1].(taskIDs := Slice(ids[i]))];
      i := i + 1;
    }
  }

  method BreakIntoPages(cfg: Settings, t: Transition, size: nat) returns (first: Transition, pages: seq<Page>)
    requires cfg.pageSize > 0 && size > 0
    ensures (first, pages) == Split(cfg, t, size)
  {
    first, pages := t, [];
    if Fits(t, size) {
      return;
    }
    var ts := PageList(t.tasks, cfg.pageSize, size);
    var ls := PageSlice(t.location, size);
    var ids := PageSlice(t.taskIDs, size);
    ChunksNonEmpty(t.tasks, cfg.pageSize, size);
    hide Chunks, PagesOf, PagesOfSlice;
    pages := FillPages(t.id, ts, ls, ids);
    first := first.(tasks := ts[0]);
    if |ls| > 0 {
      first := first.(location := Slice(ls[0]));
    }
    if |ids| > 0 {
      first := first.(taskIDs := Slice(ids[0]));
    }
    assert pages == Split(cfg, t, size).1;
  }

  method PageSlice<T>(s: Slice<T>, size: nat) returns (pages: seq<seq<T>>)
    requires size > 0
    ensures pages == PagesOfSlice(s, size)
    ensures pages == [] <==> s.NilSlice?
  {
    pages := [];
    if s.Slice? {
      ChunksNonEmpty(s.elems, size, size);
      pages := PageList(s.elems, size, size);
    }
  }

  lemma ChunksNonEmpty<T>(s: seq<T>, step: nat, cut: nat)
    requires step > 0
    ensures PagesOf(s, step, cut) != []
  {
  }

  // ----- Reading back ------------------------------------------------------------------------------

  function AllTasks(pages: seq<Page>): seq<TaskResp> {
    Flatten(seq(|pages|, i requires 0 <= i < |pages| => pages[i].tasks))
  }

  function AllLocations(pages: seq<Page>): seq<Location> {
    Flatten(seq(|pages|, i requires 0 <= i < |pages| => Elems(pages[i].location)))
  }

  function AllTaskIDs(pages: seq<Page>): seq<nat> {
    Flatten(seq(|pages|, i requires 0 <= i < |pages| => Elems(pages[i].taskIDs)))
  }

  /** The record with the contents of the pages appended in order. */
  function Assemble(first: Transition, pages: seq<Page>): Transition {
    first.(tasks := first.tasks + AllTasks(pages),
           location := Extend(first.location, AllLocations(pages)),
           taskIDs := Extend(first.taskIDs, AllTaskIDs(pages)))
  }

  lemma {:induction false} FlattenSum<T>(a: seq<seq<T>>, b: seq<seq<T>>)
    ensures Flatten(a + b) == Flatten(a) + Flatten(b)
  {
    if a == [] {
      assert a + b == b;
    } else {
      FlattenSum(a[1..], b);
      assert (a + b)[1..] == a[1..] + b;
    }
  }

  /** Empty pieces at the end do not matter. */
  lemma {:induction false} FlattenPadded<T>(pieces: seq<seq<T>>, padded: seq<seq<T>>)
    requires |pieces| <= |padded| && forall i :: 0 <= i < |padded| ==> padded[i] == Piece(pieces, i)
    ensures Flatten(padded) == Flatten(pieces)
    decreases |padded|
  {
    if padded != [] {
      var rest := if pieces == [] then [] else pieces[1..];
      assert forall i :: 0 <= i < |padded[1..]| ==> padded[1..][i] == padded[i + 1];
      FlattenPadded(rest, padded[1..]);
    }
  }

  /** What the pages after the first contribute, list by list. */
  lemma PageContents<T>(pieces: seq<seq<T>>, later: seq<seq<T>>)
    requires pieces == [] || |pieces| <= |later| + 1
    requires forall i :: 0 <= i < |later| ==> later[i] == Piece(pieces, i + 1)
    ensures Piece(pieces, 0) + Flatten(later) == Flatten(pieces)
  {
    var rest := if pieces == [] then [] else pieces[1..];
    FlattenPadded(rest, later);
  }

  lemma {:induction false} ShortChunks<T>(s: seq<T>, step: nat, cut: nat)
    requires step > 0 && |s| <= step
    ensures Flatten(Chunks(s, step, cut)) == s[..Min(cut, |s|)]
  {
    if s != [] {
      assert s[Min(step, |s|)..] == [];
      assert Chunks(s, step, cut) == [s[..Min(cut, |s|)]];
      assert Flatten(Chunks(s, step, cut)[1..]) == [];
    }
  }

  /** What is read back of the tasks: all of them when pages are cut where they start,
      and only the first page when a list shorter than `step` is cut earlier. */
  lemma PagesOfFlatten<T>(s: seq<T>, step: nat, cut: nat)
    requires step > 0 && (step == cut || |s| <= step)
    ensures Flatten(PagesOf(s, step, cut)) == if step != cut then s[..Min(cut, |s|)] else s
  {
    if |s| > cut {
      if step == cut {
        ChunksFlatten(s, step);
      } else {
        ShortChunks(s, step, cut);
      }
    } else {
      assert [s][1..] == [];
      assert Flatten([s]) == s + Flatten([s][1..]);
    }
  }

  lemma SliceFlatten<T>(s: Slice<T>, size: nat)
    requires size > 0
    ensures Flatten(PagesOfSlice(s, size)) == Elems(s)
  {
    if s.Slice? {
      PagesOfFlatten(s.elems, size, size);
    }
  }

  predicate Fits(t: Transition, size: nat) {
    |t.tasks| <= size && |Elems(t.location)| <= size && |Elems(t.taskIDs)| <= size
  }

  /** The first piece and the pages of a split transition make up each list. */
  lemma SplitContents(cfg: Settings, t: Transition, size: nat)
    requires cfg.pageSize > 0 && size > 0 && !Fits(t, size)
    ensures var pages := Split(cfg, t, size).1;
            && Piece(PagesOf(t.tasks, cfg.pageSize, size), 0) + AllTasks(pages) == Flatten(PagesOf(t.tasks, cfg.pageSize, size))
            && Piece(PagesOfSlice(t.location, size), 0) + AllLocations(pages) == Elems(t.location)
            && Piece(PagesOfSlice(t.taskIDs, size), 0) + AllTaskIDs(pages) == Elems(t.taskIDs)
  {
    var pages := Split(cfg, t, size).1;
    var ts := PagesOf(t.tasks, cfg.pageSize, size);
    var ls := PagesOfSlice(t.location, size);
    var ids := PagesOfSlice(t.taskIDs, size);
    ChunksNonEmpty(t.tasks, cfg.pageSize, size);
    assert |pages| + 1 == Max3(|ts|, |ls|, |ids|);
    hide Chunks, PagesOf, PagesOfSlice, Flatten;
    var laterTasks := seq(|pages|, i requires 0 <= i < |pages| => pages[i].tasks);
    var laterLocations := seq(|pages|, i requires 0 <= i < |pages| => Elems(pages[i].location));
    var laterIDs := seq(|pages|, i requires 0 <= i < |pages| => Elems(pages[i].taskIDs));
    forall i | 0 <= i < |pages|
      ensures laterTasks[i] == Piece(ts, i + 1) && laterLocations[i] == Piece(ls, i + 1) && laterIDs[i] == Piece(ids, i + 1)
    {
      assert pages[i] == Page(t.id, i, PieceSlice(ls, i + 1), PieceSlice(ids, i + 1), Piece(ts, i + 1));
    }
    PageContents(ts, laterTasks);
    PageContents(ls, laterLocations);
    PageContents(ids, laterIDs);
    SliceFlatten(t.location, size);
    SliceFlatten(t.taskIDs, size);
  }

  /** Splitting and reading back returns the lists unchanged, except that tasks beyond
      the first page are lost when pages are cut shorter than they are apart. */
  lemma SplitThenAssemble(cfg: Settings, t: Transition, size: nat)
    requires cfg.pageSize > 0 && size > 0 && (size == cfg.pageSize || |t.tasks| <= cfg.pageSize)
    ensures var (first, pages) := Split(cfg, t, size);
            Assemble(first, pages) ==
            if size == cfg.pageSize || Fits(t, size) then t else t.(tasks := t.tasks[..Min(size, |t.tasks|)])
  {
    var (first, pages) := Split(cfg, t, size);
    if Fits(t, size) {
      assert pages == [];
      assert AllTasks(pages) == [] && AllLocations(pages) == [] && AllTaskIDs(pages) == [];
    } else {
      SplitContents(cfg, t, size);
      PagesOfFlatten(t.tasks, cfg.pageSize, size);
      SliceFirst(t.location, size);
      SliceFirst(t.taskIDs, size);
      hide Chunks, PagesOf, PagesOfSlice, Flatten, AllTasks, AllLocations, AllTaskIDs;
      assert Extend(first.location, AllLocations(pages)) == t.location;
      assert Extend(first.taskIDs, AllTaskIDs(pages)) == t.taskIDs;
    }
  }

  lemma SliceFirst<T>(s: Slice<T>, size: nat)
    requires size > 0
    ensures s.Slice? ==> PieceSlice(PagesOfSlice(s, size), 0) == Slice(Piece(PagesOfSlice(s, size), 0))
    ensures s.NilSlice? ==> PagesOfSlice(s, size) == []
  {
    if s.Slice? {
      ChunksNonEmpty(s.elems, size, size);
    }
  }
}
