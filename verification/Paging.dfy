// The memory server as a value: page tables, frames, RAM, swap file and clock hand, and what
// each request does to them. Page entries are kept in one sequence, in (table, page) order.
module Paging {
  import opened Words
  import opened Clock

  datatype Mem = Mem(algorithm: Algorithm, pageSize: nat, sizes: seq<nat>, pages: seq<Page>,
                     used: seq<bool>, ram: seq<Byte>, swap: seq<Byte>, hand: nat)

  // A t_segment: its size in bytes and the page table that backs it.
  datatype Segment = Segment(size: nat, table: nat)

  // ---------- Layout ----------

  // Index of the first entry of table t.
  function Base(sizes: seq<nat>, t: nat): nat
    requires t <= |sizes|
  {
    if t == 0 then 0 else Base(sizes, t - 1) + sizes[t - 1]
  }

  lemma {:induction false} BaseMonotone(sizes: seq<nat>, s: nat, t: nat)
    requires s <= t <= |sizes|
    ensures Base(sizes, s) <= Base(sizes, t)
    decreases t
  {
    if s < t { BaseMonotone(sizes, s, t - 1); }
  }

  lemma {:induction false} BasePrefix(sizes: seq<nat>, more: seq<nat>, t: nat)
    requires t <= |sizes|
    ensures Base(sizes + more, t) == Base(sizes, t)
    decreases t
  {
    if t > 0 { BasePrefix(sizes, more, t - 1); }
  }

  ghost predicate Shape(m: Mem) {
    && m.pageSize > 0
    && |m.used| > 0
    && |m.used| * m.pageSize <= |m.ram|
    && Base(m.sizes, |m.sizes|) == |m.pages|
    && (m.hand == 0 || m.hand < |m.pages|)
  }

  lemma {:induction false} FrameFits(frames: nat, pageSize: nat, f: nat)
    requires f < frames
    ensures f * pageSize + pageSize <= frames * pageSize
    decreases frames
  {
    if f + 1 < frames { FrameFits(frames - 1, pageSize, f); }
  }

  // Physical address of the first byte of a frame.
  function FrameStart(m: Mem, f: nat): (a: nat)
    requires Shape(m) && f < |m.used|
    ensures a == f * m.pageSize && a + m.pageSize <= |m.ram|
  {
    FrameFits(|m.used|, m.pageSize, f);
    f * m.pageSize
  }

  function FrameBytes(m: Mem, f: nat): (bytes: seq<Byte>)
    requires Shape(m) && f < |m.used|
    ensures |bytes| == m.pageSize
  {
    m.ram[FrameStart(m, f)..FrameStart(m, f) + m.pageSize]
  }

  // memcpy of `bytes` over `buffer` at `at`.
  function Put(buffer: seq<Byte>, at: nat, bytes: seq<Byte>): (r: seq<Byte>)
    requires at + |bytes| <= |buffer|
    ensures |r| == |buffer|
  {
    buffer[..at] + bytes + buffer[at + |bytes|..]
  }

  lemma PutAt(buffer: seq<Byte>, at: nat, bytes: seq<Byte>)
    requires at + |bytes| <= |buffer|
    ensures forall i :: 0 <= i < |buffer| ==>
              Put(buffer, at, bytes)[i] == if at <= i < at + |bytes| then bytes[i - at] else buffer[i]
  {
  }

  // Index of a page of a segment.
  function PageIndex(m: Mem, segments: seq<Segment>, segment: nat, page: nat): (k: nat)
    requires Shape(m) && segment < |segments| && segments[segment].table < |m.sizes|
    requires page < m.sizes[segments[segment].table]
    ensures k < |m.pages|
  {
    BaseMonotone(m.sizes, segments[segment].table + 1, |m.sizes|);
    Base(m.sizes, segments[segment].table) + page
  }

  ghost predicate TablesExist(m: Mem, segments: seq<Segment>) {
    forall i :: 0 <= i < |segments| ==> segments[i].table < |m.sizes|
  }

  // Entry k belongs to one of the tables of this segment table.
  ghost predicate Within(m: Mem, segments: seq<Segment>, k: nat)
    requires TablesExist(m, segments)
  {
    exists i :: 0 <= i < |segments| && InTable(m, segments[i].table, k)
  }

  predicate InTable(m: Mem, t: nat, k: nat)
    requires t < |m.sizes|
  {
    Base(m.sizes, t) <= k < Base(m.sizes, t) + m.sizes[t]
  }

  // ---------- Invariants ----------

  ghost predicate Holds(m: Mem, k: nat, f: nat) {
    k < |m.pages| && m.pages[k].P && m.pages[k].frame == f
  }

  ghost predicate FramesDiffer(m: Mem, j: nat, k: nat) {
    j < k < |m.pages| && m.pages[j].P && m.pages[k].P ==> m.pages[j].frame != m.pages[k].frame
  }

  // A frame is marked used exactly when one and only one present page has it.
  ghost predicate Owned(m: Mem) {
    && (forall k :: 0 <= k < |m.pages| && m.pages[k].P ==>
          0 <= m.pages[k].frame < |m.used| && m.used[m.pages[k].frame])
    && (forall j: nat, k: nat :: FramesDiffer(m, j, k))
    && (forall f :: 0 <= f < |m.used| && m.used[f] ==> exists k: nat :: Holds(m, k, f))
  }

  // Saved images lie inside the swap file.
  ghost predicate ImagesSaved(m: Mem) {
    forall k :: 0 <= k < |m.pages| ==>
      m.pages[k].swapPos == -1 || 0 <= m.pages[k].swapPos <= |m.swap| - m.pageSize
  }

  // An absent page has U = 0, and M = 1 only with an image to come back from.
  ghost predicate FlagsSound(m: Mem) {
    forall k :: 0 <= k < |m.pages| && !m.pages[k].P ==>
      !m.pages[k].U && (m.pages[k].M ==> m.pages[k].swapPos != -1)
  }

  ghost predicate Inv(m: Mem) {
    Shape(m) && Owned(m) && ImagesSaved(m) && FlagsSound(m)
  }

  function Image(m: Mem, pos: int): (bytes: seq<Byte>)
    requires 0 <= pos <= |m.swap| - m.pageSize
    ensures |bytes| == m.pageSize
  {
    m.swap[pos..pos + m.pageSize]
  }

  // The contents of every page since it was first written; None before that.
  type Latest = seq<Option<seq<Byte>>>

  // What P, M and the swap position say about where the contents of entry k are.
  ghost predicate Kept(m: Mem, k: nat, contents: Option<seq<Byte>>)
    requires Inv(m) && k < |m.pages|
  {
    var p := m.pages[k];
    && (contents.Some? <==> p.M || p.swapPos != -1)
    && (contents.Some? && p.P ==> FrameBytes(m, p.frame) == contents.value)
    && (contents.Some? && p.P && !p.M ==> Image(m, p.swapPos) == contents.value)
    && (contents.Some? && !p.P ==> Image(m, p.swapPos) == contents.value)
  }

  ghost predicate Sound(m: Mem, t: Latest) {
    Inv(m) && |t| == |m.pages| && forall k :: 0 <= k < |t| ==> Kept(m, k, t[k])
  }

  lemma VictimExists(m: Mem)
    requires Inv(m) && forall f :: 0 <= f < |m.used| ==> m.used[f]
    ensures Has(Resident, m.pages)
  {
    assert m.used[0];
    var k: nat :| Holds(m, k, 0);
    assert Wants(Resident, m.pages[k]);
  }

  // ---------- find_free_frame ----------

  function FirstFree(used: seq<bool>, from: nat): (f: nat)
    requires from <= |used|
    ensures from <= f <= |used|
    ensures forall i :: from <= i < f ==> used[i]
    ensures f < |used| ==> !used[f]
    decreases |used| - from
  {
    if from == |used| || !used[from] then from else FirstFree(used, from + 1)
  }

  // write_page_to_swap: append the frame of entry k and remember where the image starts.
  function SwapOut(m: Mem, k: nat): Mem
    requires Shape(m) && k < |m.pages| && 0 <= m.pages[k].frame < |m.used|
  {
    m.(swap := m.swap + FrameBytes(m, m.pages[k].frame),
       pages := m.pages[k := m.pages[k].(swapPos := |m.swap|)])
  }

  // The victim leaves its frame, saved first if it was written.
  function Drop(m: Mem, v: nat): Mem
    requires Shape(m) && v < |m.pages| && 0 <= m.pages[v].frame < |m.used|
  {
    var m1 := if m.pages[v].M then SwapOut(m, v) else m;
    m1.(pages := m1.pages[v := m1.pages[v].(P := false)])
  }

  // The frame handed out, and the memory once its former page is gone.
  function FindFreeFrame(m: Mem): (r: (Mem, nat))
    requires Inv(m)
    ensures r.1 < |m.used|
  {
    var f := FirstFree(m.used, 0);
    if f < |m.used| then (m.(used := m.used[f := true]), f)
    else
      VictimExists(m);
      ChoiceEffect(m.algorithm, m.pages, m.hand);
      var choice := FindVictim(m.algorithm, m.pages, m.hand);
      (Drop(m.(pages := choice.pages, hand := choice.victim), choice.victim), choice.pages[choice.victim].frame)
  }

  // ---------- resolve_page_fault ----------

  // Entry k takes frame f; a page that comes from disk also gets its image back.
  function Installed(m: Mem, k: nat, f: nat, image: Option<seq<Byte>>): Mem
    requires Shape(m) && k < |m.pages| && f < |m.used| && (image.Some? ==> |image.value| == m.pageSize)
  {
    if image.None? then m.(pages := m.pages[k := m.pages[k].(frame := f, P := true)])
    else m.(pages := m.pages[k := m.pages[k].(frame := f, P := true, M := false, U := false)],
            ram := Put(m.ram, FrameStart(m, f), image.value))
  }

  function ResolveFault(m: Mem, k: nat): (r: (Mem, nat))
    requires Inv(m) && k < |m.pages| && !m.pages[k].P
    ensures r.1 < |m.used|
  {
    FreeFrameShape(m);
    var (m1, f) := FindFreeFrame(m);
    var image := if m.pages[k].swapPos == -1 then None else Some(Image(m, m.pages[k].swapPos));
    (Installed(m1, k, f, image), f)
  }

  lemma FreeFrameShape(m: Mem)
    requires Inv(m)
    ensures var (m1, f) := FindFreeFrame(m);
            && Shape(m1) && m1.ram == m.ram && |m1.used| == |m.used| && m1.pageSize == m.pageSize
            && m1.sizes == m.sizes && |m1.pages| == |m.pages| && m.swap <= m1.swap
  {
    if FirstFree(m.used, 0) == |m.used| {
      VictimExists(m);
      ChoiceEffect(m.algorithm, m.pages, m.hand);
    }
  }

  // ---------- Frames and images are separate ----------

  lemma FramesApart(m: Mem, f: nat, g: nat)
    requires Shape(m) && f < |m.used| && g < |m.used| && f != g
    ensures f < g ==> FrameStart(m, f) + m.pageSize <= FrameStart(m, g)
    ensures g < f ==> FrameStart(m, g) + m.pageSize <= FrameStart(m, f)
  {
    if f < g { FrameFits(g, m.pageSize, f); } else { FrameFits(f, m.pageSize, g); }
  }

  // Writing inside frame f leaves every other frame alone.
  lemma PutInFrame(m: Mem, m': Mem, f: nat, offset: nat, bytes: seq<Byte>)
    requires Shape(m) && f < |m.used| && offset + |bytes| <= m.pageSize
    requires Shape(m') && m'.pageSize == m.pageSize && |m'.used| == |m.used|
    requires m'.ram == Put(m.ram, FrameStart(m, f) + offset, bytes)
    ensures FrameBytes(m', f) == Put(FrameBytes(m, f), offset, bytes)
    ensures forall g :: 0 <= g < |m.used| && g != f ==> FrameBytes(m', g) == FrameBytes(m, g)
  {
    PutAt(m.ram, FrameStart(m, f) + offset, bytes);
    PutAt(FrameBytes(m, f), offset, bytes);
    forall g | 0 <= g < |m.used| && g != f
      ensures FrameBytes(m', g) == FrameBytes(m, g)
    {
      FramesApart(m, f, g);
    }
  }

  // ---------- Each step of a page fault keeps the memory sound ----------

  // Ownership survives when pages only leave, and leave with their frames.
  lemma OwnedShrinks(m: Mem, m': Mem)
    requires Owned(m) && |m'.used| == |m.used| && |m.pages| <= |m'.pages|
    requires forall k :: 0 <= k < |m'.pages| && m'.pages[k].P ==>
               && k < |m.pages| && m.pages[k].P && m'.pages[k].frame == m.pages[k].frame
               && m'.used[m.pages[k].frame]
    requires forall k :: 0 <= k < |m.pages| && m.pages[k].P && !m'.pages[k].P ==> !m'.used[m.pages[k].frame]
    requires forall f :: 0 <= f < |m.used| && m'.used[f] ==> m.used[f]
    ensures Owned(m')
  {
    forall j: nat, k: nat ensures FramesDiffer(m', j, k) {
      assert FramesDiffer(m, j, k);
    }
    forall f | 0 <= f < |m'.used| && m'.used[f]
      ensures exists k: nat :: Holds(m', k, f)
    {
      var k: nat :| Holds(m, k, f);
      assert Holds(m', k, f);
    }
  }

  // Ownership survives a page taking a frame that was free.
  lemma OwnedGrows(m: Mem, m': Mem, p: nat, g: nat)
    requires Owned(m) && |m'.pages| == |m.pages| && p < |m.pages| && !m.pages[p].P
    requires g < |m.used| && !m.used[g] && m'.used == m.used[g := true]
    requires Holds(m', p, g)
    requires forall k :: 0 <= k < |m.pages| && k != p ==> m'.pages[k] == m.pages[k]
    ensures Owned(m')
  {
    forall j: nat, k: nat ensures FramesDiffer(m', j, k) {
      assert FramesDiffer(m, j, k);
    }
    forall f | 0 <= f < |m'.used| && m'.used[f]
      ensures exists k: nat :: Holds(m', k, f)
    {
      if f != g {
        var k: nat :| Holds(m, k, f);
        assert Holds(m', k, f);
      }
    }
  }

  lemma FrameOfOne(m: Mem, p: nat)
    requires Owned(m) && p < |m.pages| && m.pages[p].P
    ensures forall k :: 0 <= k < |m.pages| && k != p && m.pages[k].P ==> m.pages[k].frame != m.pages[p].frame
  {
    forall k | 0 <= k < |m.pages| && k != p && m.pages[k].P
      ensures m.pages[k].frame != m.pages[p].frame
    {
      assert FramesDiffer(m, p, k) && FramesDiffer(m, k, p);
    }
  }

  lemma HeldByOne(m: Mem, j: nat, k: nat)
    requires Owned(m) && j < |m.pages| && k < |m.pages| && m.pages[j].P && m.pages[k].P
    requires m.pages[j].frame == m.pages[k].frame
    ensures j == k
  {
    assert FramesDiffer(m, j, k) && FramesDiffer(m, k, j);
  }

  lemma ClearingSound(m: Mem, t: Latest, pages: seq<Page>, hand: nat)
    requires Sound(m, t) && |pages| == |m.pages| && hand < |pages|
    requires forall k :: 0 <= k < |pages| ==> pages[k] == m.pages[k] || pages[k] == ClearU(m.pages[k])
    ensures Sound(m.(pages := pages, hand := hand), t)
  {
    var m' := m.(pages := pages, hand := hand);
    assert forall k :: 0 <= k < |pages| ==> m.pages[k] == pages[k] || m.pages[k].(U := false) == pages[k];
    OwnedShrinks(m, m');
    forall k | 0 <= k < |t| ensures Kept(m', k, t[k]) {
      assert Kept(m, k, t[k]);
    }
  }

  lemma SwapOutSound(m: Mem, t: Latest, v: nat)
    requires Sound(m, t) && v < |m.pages| && m.pages[v].P && m.pages[v].M
    ensures Sound(SwapOut(m, v), t)
    ensures Image(SwapOut(m, v), SwapOut(m, v).pages[v].swapPos) == t[v].value
  {
    var m' := SwapOut(m, v);
    assert Kept(m, v, t[v]);
    OwnedShrinks(m, m');
    assert Inv(m');
    assert Image(m', |m.swap|) == FrameBytes(m, m.pages[v].frame);
    forall k | 0 <= k < |t| ensures Kept(m', k, t[k]) {
      assert Kept(m, k, t[k]);
      var pos := m.pages[k].swapPos;
      if pos != -1 { assert Image(m', pos) == Image(m, pos); }
    }
  }

  // Taking the frame from a page whose contents, if any, are saved loses nothing.
  lemma DropSound(m: Mem, t: Latest, v: nat)
    requires Sound(m, t) && v < |m.pages| && m.pages[v].P && !m.pages[v].U
    requires m.pages[v].M ==> m.pages[v].swapPos != -1 && Image(m, m.pages[v].swapPos) == t[v].value
    ensures Sound(m.(pages := m.pages[v := m.pages[v].(P := false)], used := m.used[m.pages[v].frame := false]), t)
  {
    var m' := m.(pages := m.pages[v := m.pages[v].(P := false)], used := m.used[m.pages[v].frame := false]);
    FrameOfOne(m, v);
    OwnedShrinks(m, m');
    assert Inv(m');
    forall k | 0 <= k < |t| ensures Kept(m', k, t[k]) {
      assert Kept(m, k, t[k]);
    }
  }

  lemma AbsentStay(m: Mem)
    requires Inv(m)
    ensures forall k :: 0 <= k < |m.pages| && !m.pages[k].P ==> FindFreeFrame(m).0.pages[k] == m.pages[k]
  {
    if FirstFree(m.used, 0) == |m.used| {
      VictimExists(m);
      ChoiceEffect(m.algorithm, m.pages, m.hand);
    }
  }

  // After find_free_frame only the frame handed out is owed a page.
  lemma FreeFrameSound(m: Mem, t: Latest)
    requires Sound(m, t)
    ensures var (m1, f) := FindFreeFrame(m);
            && |m1.used| == |m.used| && m1.used[f]
            && Sound(m1.(used := m1.used[f := false]), t)
            && forall k :: 0 <= k < |m.pages| && !m.pages[k].P ==> m1.pages[k] == m.pages[k]
  {
    AbsentStay(m);
    var (m1, f) := FindFreeFrame(m);
    if FirstFree(m.used, 0) < |m.used| {
      assert m1.(used := m1.used[f := false]) == m;
    } else {
      VictimExists(m);
      ChoiceEffect(m.algorithm, m.pages, m.hand);
      var choice := FindVictim(m.algorithm, m.pages, m.hand);
      var v := choice.victim;
      ClearingSound(m, t, choice.pages, v);
      var m2 := m.(pages := choice.pages, hand := v);
      assert Kept(m2, v, t[v]);
      if m2.pages[v].M { SwapOutSound(m2, t, v); }
      var m3 := if m2.pages[v].M then SwapOut(m2, v) else m2;
      DropSound(m3, t, v);
      assert m1.(used := m1.used[f := false])
          == m3.(pages := m3.pages[v := m3.pages[v].(P := false)], used := m3.used[m3.pages[v].frame := false]);
    }
  }

  // A page that was never written takes a frame as it is.
  lemma InstallEmptySound(m: Mem, t: Latest, k: nat, f: nat)
    requires Sound(m, t) && k < |m.pages| && !m.pages[k].P && m.pages[k].swapPos == -1
    requires f < |m.used| && !m.used[f]
    ensures Sound(m.(used := m.used[f := true], pages := m.pages[k := m.pages[k].(frame := f, P := true)]), t)
  {
    var m' := m.(used := m.used[f := true], pages := m.pages[k := m.pages[k].(frame := f, P := true)]);
    assert Kept(m, k, t[k]);
    assert Holds(m', k, f);
    OwnedGrows(m, m', k, f);
    assert Inv(m');
    forall j | 0 <= j < |t| ensures Kept(m', j, t[j]) {
      assert Kept(m, j, t[j]);
    }
  }

  // A page with an image gets it back into its new frame.
  lemma InstallImageSound(m: Mem, t: Latest, k: nat, f: nat)
    requires Sound(m, t) && k < |m.pages| && !m.pages[k].P && m.pages[k].swapPos != -1
    requires f < |m.used| && !m.used[f]
    ensures Sound(m.(used := m.used[f := true],
                     pages := m.pages[k := m.pages[k].(frame := f, P := true, M := false, U := false)],
                     ram := Put(m.ram, FrameStart(m, f), Image(m, m.pages[k].swapPos))), t)
  {
    var image := Image(m, m.pages[k].swapPos);
    var m' := m.(used := m.used[f := true],
                 pages := m.pages[k := m.pages[k].(frame := f, P := true, M := false, U := false)],
                 ram := Put(m.ram, FrameStart(m, f), image));
    assert Kept(m, k, t[k]);
    PutInFrame(m, m', f, 0, image);
    assert Put(FrameBytes(m, f), 0, image) == image;
    assert Holds(m', k, f);
    OwnedGrows(m, m', k, f);
    assert Inv(m');
    forall j | 0 <= j < |t| ensures Kept(m', j, t[j]) {
      assert Kept(m, j, t[j]);
    }
  }

  // Resolving a fault moves pages between frames and swap and changes the contents of none of them.
  lemma ResolveFaultSound(m: Mem, t: Latest, k: nat)
    requires Sound(m, t) && k < |m.pages| && !m.pages[k].P
    ensures var (m', f) := ResolveFault(m, k);
            && Sound(m', t) && Holds(m', k, f) && !m'.pages[k].U && !m'.pages[k].M
            && m.swap <= m'.swap
  {
    FreeFrameShape(m);
    FreeFrameSound(m, t);
    var (m1, f) := FindFreeFrame(m);
    var free := m1.(used := m1.used[f := false]);
    assert Kept(m, k, t[k]);
    assert free.used[f := true] == m1.used;
    if m.pages[k].swapPos == -1 {
      InstallEmptySound(free, t, k, f);
    } else {
      InstallImageSound(free, t, k, f);
      assert Image(free, m.pages[k].swapPos) == Image(m, m.pages[k].swapPos);
      assert FrameStart(free, f) == FrameStart(m1, f);
    }
  }

  // Of the other pages, only the one that had frame f loses its place.
  lemma ResolveFaultEffect(m: Mem, k: nat, j: nat)
    requires Inv(m) && k < |m.pages| && !m.pages[k].P && j < |m.pages| && j != k
    ensures var (m', f) := ResolveFault(m, k);
            && |m'.pages| == |m.pages|
            && (m'.pages[j].P <==> m.pages[j].P && m.pages[j].frame != f)
            && m'.pages[j].frame == m.pages[j].frame
  {
    var (m1, f) := FindFreeFrame(m);
    FreeFrameShape(m);
    if FirstFree(m.used, 0) == |m.used| {
      VictimExists(m);
      ChoiceEffect(m.algorithm, m.pages, m.hand);
      var choice := FindVictim(m.algorithm, m.pages, m.hand);
      var v := choice.victim;
      assert m.pages[v].P && m.pages[v].frame == f;
      assert choice.pages[j] == m.pages[j] || choice.pages[j] == ClearU(m.pages[j]);
      assert choice.pages[k] == m.pages[k] || choice.pages[k] == ClearU(m.pages[k]);
      if m.pages[j].P && j != choice.victim { FrameOfOne(m, choice.victim); }
      assert choice.pages[choice.victim].frame == m.pages[choice.victim].frame;
    }
  }

  // ---------- process_started ----------

  function PagesFor(size: nat, pageSize: nat): nat
    requires pageSize > 0
  {
    (size + pageSize - 1) / pageSize
  }

  function FreshPages(n: nat): (r: seq<Page>)
    ensures |r| == n && forall k :: 0 <= k < n ==> r[k] == FRESH_PAGE
  {
    seq(n, k => FRESH_PAGE)
  }

  // A new table of n absent pages.
  function AddTable(m: Mem, n: nat): Mem {
    m.(sizes := m.sizes + [n], pages := m.pages + FreshPages(n))
  }

  function StartProcess(m: Mem, sizes: seq<nat>): (r: (Mem, seq<Segment>))
    requires m.pageSize > 0
    ensures r.0.pageSize == m.pageSize && |r.1| == |sizes|
    ensures |r.0.sizes| == |m.sizes| + |sizes|
  {
    if sizes == [] then (m, [])
    else
      var (m1, segments) := StartProcess(m, sizes[..|sizes| - 1]);
      var size := sizes[|sizes| - 1];
      (AddTable(m1, PagesFor(size, m.pageSize)), segments + [Segment(size, |m1.sizes|)])
  }

  function Grown(t: Latest, n: nat): (r: Latest)
    requires |t| <= n
    ensures |r| == n && t <= r && forall k :: |t| <= k < n ==> r[k] == None
  {
    t + seq(n - |t|, k => None)
  }

  lemma AddTableSound(m: Mem, t: Latest, n: nat)
    requires Sound(m, t)
    ensures Sound(AddTable(m, n), Grown(t, |AddTable(m, n).pages|))
  {
    var m' := AddTable(m, n);
    var t' := Grown(t, |m'.pages|);
    BasePrefix(m.sizes, [n], |m.sizes|);
    OwnedShrinks(m, m');
    assert Inv(m');
    forall k | 0 <= k < |t'| ensures Kept(m', k, t'[k]) {
      if k < |t| { assert Kept(m, k, t[k]); assert m'.pages[k] == m.pages[k]; }
    }
  }

  // Starting a process only appends tables of absent pages; segment i is backed by a new table
  // with room for its size.
  lemma {:induction false} StartProcessSound(m: Mem, t: Latest, sizes: seq<nat>)
    requires Sound(m, t)
    ensures var (m', segments) := StartProcess(m, sizes);
            && m.pages <= m'.pages && Sound(m', Grown(t, |m'.pages|)) && m.sizes <= m'.sizes
            && m'.swap == m.swap && m'.ram == m.ram && m'.used == m.used
            && (forall k :: |m.pages| <= k < |m'.pages| ==> m'.pages[k] == FRESH_PAGE)
            && forall i :: 0 <= i < |sizes| ==>
                 && segments[i] == Segment(sizes[i], |m.sizes| + i)
                 && m'.sizes[segments[i].table] == PagesFor(sizes[i], m.pageSize)
    decreases |sizes|
  {
    if sizes == [] {
      assert Grown(t, |m.pages|) == t;
    } else {
      var front := sizes[..|sizes| - 1];
      StartProcessSound(m, t, front);
      var (m1, _) := StartProcess(m, front);
      AddTableSound(m1, Grown(t, |m1.pages|), PagesFor(sizes[|sizes| - 1], m.pageSize));
      var (m', _) := StartProcess(m, sizes);
      assert Grown(Grown(t, |m1.pages|), |m'.pages|) == Grown(t, |m'.pages|);
    }
  }

  // ---------- process_finished ----------

  function FreePage(m: Mem, k: nat): Mem
    requires k < |m.pages|
  {
    var p := m.pages[k];
    m.(used := if p.P && 0 <= p.frame < |m.used| then m.used[p.frame := false] else m.used,
       pages := m.pages[k := FRESH_PAGE])
  }

  function FreePages(m: Mem, lo: nat, hi: nat): (r: Mem)
    requires lo <= hi <= |m.pages|
    ensures |r.pages| == |m.pages| && r.sizes == m.sizes && r.pageSize == m.pageSize && |r.used| == |m.used|
    ensures r.ram == m.ram && r.swap == m.swap && r.hand == m.hand && r.algorithm == m.algorithm
    decreases hi
  {
    if lo == hi then m else FreePage(FreePages(m, lo, hi - 1), hi - 1)
  }

  function FinishProcess(m: Mem, segments: seq<Segment>): (r: Mem)
    requires Shape(m) && forall i :: 0 <= i < |segments| ==> segments[i].table < |m.sizes|
    ensures |r.pages| == |m.pages| && r.sizes == m.sizes && r.pageSize == m.pageSize && |r.used| == |m.used|
    ensures r.ram == m.ram && r.swap == m.swap && r.hand == m.hand && r.algorithm == m.algorithm
    decreases |segments|
  {
    if segments == [] then m
    else
      var t := segments[|segments| - 1].table;
      BaseMonotone(m.sizes, t + 1, |m.sizes|);
      FreePages(FinishProcess(m, segments[..|segments| - 1]), Base(m.sizes, t), Base(m.sizes, t) + m.sizes[t])
  }

  // The contents of entries [lo, hi) are nobody's any more.
  function ForgetRange(t: Latest, lo: nat, hi: nat): (r: Latest)
    requires lo <= hi <= |t|
    ensures |r| == |t|
    decreases hi
  {
    if lo == hi then t else ForgetRange(t, lo, hi - 1)[hi - 1 := None]
  }

  function Forget(m: Mem, segments: seq<Segment>, t: Latest): (r: Latest)
    requires Shape(m) && (forall i :: 0 <= i < |segments| ==> segments[i].table < |m.sizes|) && |t| == |m.pages|
    ensures |r| == |t|
    decreases |segments|
  {
    if segments == [] then t
    else
      var table := segments[|segments| - 1].table;
      BaseMonotone(m.sizes, table + 1, |m.sizes|);
      ForgetRange(Forget(m, segments[..|segments| - 1], t), Base(m.sizes, table), Base(m.sizes, table) + m.sizes[table])
  }

  lemma FreePageSound(m: Mem, t: Latest, k: nat)
    requires Sound(m, t) && k < |m.pages|
    ensures Sound(FreePage(m, k), t[k := None])
  {
    var m' := FreePage(m, k);
    if m.pages[k].P { FrameOfOne(m, k); }
    OwnedShrinks(m, m');
    assert Inv(m');
    var t' := t[k := None];
    forall j | 0 <= j < |t'| ensures Kept(m', j, t'[j]) {
      assert Kept(m, j, t[j]);
    }
  }

  lemma {:induction false} FreePagesSound(m: Mem, t: Latest, lo: nat, hi: nat)
    requires Sound(m, t) && lo <= hi <= |m.pages|
    ensures Sound(FreePages(m, lo, hi), ForgetRange(t, lo, hi))
    decreases hi
  {
    if lo < hi {
      FreePagesSound(m, t, lo, hi - 1);
      FreePageSound(FreePages(m, lo, hi - 1), ForgetRange(t, lo, hi - 1), hi - 1);
    }
  }

  // Finishing a process gives its frames back and leaves the memory sound.
  lemma {:induction false} FinishProcessSound(m: Mem, t: Latest, segments: seq<Segment>)
    requires Sound(m, t) && TablesExist(m, segments)
    ensures Sound(FinishProcess(m, segments), Forget(m, segments, t))
    decreases |segments|
  {
    if segments != [] {
      var front, table := segments[..|segments| - 1], segments[|segments| - 1].table;
      FinishProcessSound(m, t, front);
      BaseMonotone(m.sizes, table + 1, |m.sizes|);
      FreePagesSound(FinishProcess(m, front), Forget(m, front, t),
                     Base(m.sizes, table), Base(m.sizes, table) + m.sizes[table]);
    }
  }

  lemma {:induction false} FreePagesAt(m: Mem, t: Latest, lo: nat, hi: nat, k: nat)
    requires lo <= hi <= |m.pages| && k < |m.pages| && |t| == |m.pages|
    ensures FreePages(m, lo, hi).pages[k] == if lo <= k < hi then FRESH_PAGE else m.pages[k]
    ensures ForgetRange(t, lo, hi)[k] == if lo <= k < hi then None else t[k]
    decreases hi
  {
    if lo < hi { FreePagesAt(m, t, lo, hi - 1, k); }
  }

  // It resets the pages of the process, forgets their contents, and touches no page of anybody else.
  lemma {:induction false} FinishProcessAt(m: Mem, t: Latest, segments: seq<Segment>, k: nat)
    requires Shape(m) && TablesExist(m, segments) && k < |m.pages| && |t| == |m.pages|
    ensures FinishProcess(m, segments).pages[k] == if Within(m, segments, k) then FRESH_PAGE else m.pages[k]
    ensures Forget(m, segments, t)[k] == if Within(m, segments, k) then None else t[k]
    decreases |segments|
  {
    if segments != [] {
      var front, table := segments[..|segments| - 1], segments[|segments| - 1].table;
      FinishProcessAt(m, t, front, k);
      BaseMonotone(m.sizes, table + 1, |m.sizes|);
      FreePagesAt(FinishProcess(m, front), Forget(m, front, t),
                  Base(m.sizes, table), Base(m.sizes, table) + m.sizes[table], k);
      WithinLast(m, segments, k);
    }
  }

  lemma WithinLast(m: Mem, segments: seq<Segment>, k: nat)
    requires TablesExist(m, segments) && segments != []
    ensures Within(m, segments, k) <==>
            Within(m, segments[..|segments| - 1], k) || InTable(m, segments[|segments| - 1].table, k)
  {
    var front := segments[..|segments| - 1];
    if Within(m, front, k) {
      var i :| 0 <= i < |front| && InTable(m, front[i].table, k);
      assert InTable(m, segments[i].table, k);
    }
    if Within(m, segments, k) {
      var i :| 0 <= i < |segments| && InTable(m, segments[i].table, k);
      if i < |front| { assert InTable(m, front[i].table, k); }
    }
  }

  // ---------- Requests of the CPU ----------

  // The first page of [lo, hi) present in this frame.
  function FindInFrame(pages: seq<Page>, frame: nat, lo: nat, hi: nat): (r: Option<nat>)
    requires lo <= hi <= |pages|
    ensures r.Some? ==> lo <= r.value < hi && pages[r.value].P && pages[r.value].frame == frame
    decreases hi - lo
  {
    if lo == hi then None
    else if pages[lo].P && pages[lo].frame == frame then Some(lo)
    else FindInFrame(pages, frame, lo + 1, hi)
  }

  // get_page_reverse: search the tables of the process; None where the source runs off the end.
  function GetPageReverse(m: Mem, segments: seq<Segment>, frame: nat, from: nat := 0): (r: Option<nat>)
    requires Shape(m) && from <= |segments| && forall i :: 0 <= i < |segments| ==> segments[i].table < |m.sizes|
    ensures r.Some? ==> Holds(m, r.value, frame)
    decreases |segments| - from
  {
    if from == |segments| then None
    else
      var t := segments[from].table;
      BaseMonotone(m.sizes, t + 1, |m.sizes|);
      var here := FindInFrame(m.pages, frame, Base(m.sizes, t), Base(m.sizes, t) + m.sizes[t]);
      if here.Some? then here else GetPageReverse(m, segments, frame, from + 1)
  }

  lemma {:induction false} FindInFrameFinds(pages: seq<Page>, frame: nat, lo: nat, hi: nat, k: nat)
    requires lo <= k < hi <= |pages| && pages[k].P && pages[k].frame == frame
    ensures FindInFrame(pages, frame, lo, hi).Some?
    decreases k - lo
  {
    if lo < k { FindInFrameFinds(pages, frame, lo + 1, hi, k); }
  }

  lemma {:induction false} ReverseFinds(m: Mem, segments: seq<Segment>, k: nat, frame: nat, from: nat, i: nat)
    requires Shape(m) && TablesExist(m, segments) && Holds(m, k, frame)
    requires from <= i < |segments| && InTable(m, segments[i].table, k)
    ensures GetPageReverse(m, segments, frame, from).Some?
    decreases i - from
  {
    var t := segments[from].table;
    BaseMonotone(m.sizes, t + 1, |m.sizes|);
    if i == from {
      FindInFrameFinds(m.pages, frame, Base(m.sizes, t), Base(m.sizes, t) + m.sizes[t], k);
    } else {
      ReverseFinds(m, segments, k, frame, from + 1, i);
    }
  }

  // The frame names the page: looking a present page up by its frame gives that page back.
  lemma ReverseIsInverse(m: Mem, segments: seq<Segment>, k: nat)
    requires Inv(m) && TablesExist(m, segments)
    requires Within(m, segments, k) && k < |m.pages| && m.pages[k].P
    ensures GetPageReverse(m, segments, m.pages[k].frame) == Some(k)
  {
    var i :| 0 <= i < |segments| && InTable(m, segments[i].table, k);
    ReverseFinds(m, segments, k, m.pages[k].frame, 0, i);
    HeldByOne(m, k, GetPageReverse(m, segments, m.pages[k].frame).value);
  }

  function Touch(m: Mem, k: nat, dirty: bool): Mem
    requires k < |m.pages|
  {
    m.(pages := m.pages[k := m.pages[k].(U := true, M := m.pages[k].M || dirty)])
  }

  function RamRead(m: Mem, k: nat, address: nat): (r: (Mem, Word))
    requires k < |m.pages| && address + 4 <= |m.ram|
  {
    (Touch(m, k, false), FromLe32(m.ram[address..address + 4]))
  }

  function RamWrite(m: Mem, k: nat, address: nat, value: Word): (r: Mem)
    requires k < |m.pages| && address + 4 <= |m.ram|
  {
    Touch(m, k, true).(ram := Put(m.ram, address, Le32(value)))
  }

  // A U bit says nothing about who holds what.
  lemma TouchSound(m: Mem, t: Latest, k: nat)
    requires Sound(m, t) && k < |m.pages| && m.pages[k].P
    ensures Sound(Touch(m, k, false), t)
  {
    var m' := Touch(m, k, false);
    OwnedShrinks(m, m');
    assert Inv(m');
    forall j | 0 <= j < |t| ensures Kept(m', j, t[j]) {
      assert Kept(m, j, t[j]);
    }
  }

  lemma SliceOfSlice(s: seq<Byte>, start: nat, end: nat, offset: nat)
    requires start + offset + 4 <= end <= |s|
    ensures s[start + offset..start + offset + 4] == s[start..end][offset..offset + 4]
  {
    var frame, at := s[start..end], start + offset;
    var a, b := s[at..at + 4], frame[offset..offset + 4];
    assert forall i :: 0 <= i < 4 ==> a[i] == b[i];
  }

  lemma RamReadSound(m: Mem, t: Latest, k: nat, offset: nat)
    requires Sound(m, t) && k < |m.pages| && m.pages[k].P && offset + 4 <= m.pageSize
    ensures var address := FrameStart(m, m.pages[k].frame) + offset;
            && Sound(RamRead(m, k, address).0, t)
            && (t[k].Some? ==> RamRead(m, k, address).1 == FromLe32(t[k].value[offset..offset + 4]))
  {
    TouchSound(m, t, k);
    assert Kept(m, k, t[k]);
    var start := FrameStart(m, m.pages[k].frame);
    SliceOfSlice(m.ram, start, start + m.pageSize, offset);
  }

  // A write becomes the latest contents of its page and of no other.
  lemma RamWriteSound(m: Mem, t: Latest, k: nat, offset: nat, value: Word)
    requires Sound(m, t) && k < |m.pages| && m.pages[k].P && offset + 4 <= m.pageSize
    ensures var m' := RamWrite(m, k, FrameStart(m, m.pages[k].frame) + offset, value);
            && Shape(m')
            && FrameBytes(m', m.pages[k].frame) == Put(FrameBytes(m, m.pages[k].frame), offset, Le32(value))
            && Sound(m', t[k := Some(FrameBytes(m', m.pages[k].frame))])
  {
    var frame := m.pages[k].frame;
    var m' := RamWrite(m, k, FrameStart(m, frame) + offset, value);
    FrameOfOne(m, k);
    PutInFrame(m, m', frame, offset, Le32(value));
    OwnedShrinks(m, m');
    assert Inv(m');
    var t' := t[k := Some(FrameBytes(m', frame))];
    forall j | 0 <= j < |t| ensures Kept(m', j, t'[j]) {
      assert Kept(m, j, t[j]);
    }
  }
}
