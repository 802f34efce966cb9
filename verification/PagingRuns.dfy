// What holds of the memory server after any sequence of requests from the kernel and the CPU.
module PagingRuns {
  import opened Words
  import opened Clock
  import opened Paging

  datatype Request =
    | Started(sizes: seq<nat>)
    | Finished(segments: seq<Segment>)
    | PageFault(segments: seq<Segment>, segment: nat, page: nat)
    | FrameAccess(segments: seq<Segment>, segment: nat, page: nat)
    | Read(segments: seq<Segment>, frame: nat, offset: nat)
    | Write(segments: seq<Segment>, frame: nat, offset: nat, value: Word)

  // initialize_memory_structures: every frame free, no tables, an empty swap file, the hand at the start.
  function Initial(algorithm: Algorithm, pageSize: nat, frames: nat, ram: seq<Byte>): Mem {
    Mem(algorithm, pageSize, [], [], seq(frames, i => false), ram, [], 0)
  }

  ghost predicate PageExists(m: Mem, segments: seq<Segment>, segment: nat, page: nat) {
    && TablesExist(m, segments) && segment < |segments| && page < m.sizes[segments[segment].table]
  }

  // The requests the kernel and the CPU make: tables and pages that exist, faults on absent pages,
  // words inside the page of a frame that is one of the caller's.
  ghost predicate Accepts(m: Mem, r: Request)
    requires Inv(m)
  {
    match r
    case Started(_) => true
    case Finished(segments) => TablesExist(m, segments)
    case PageFault(segments, segment, page) =>
      PageExists(m, segments, segment, page) && !m.pages[PageIndex(m, segments, segment, page)].P
    case FrameAccess(segments, segment, page) => PageExists(m, segments, segment, page)
    case Read(segments, frame, offset) =>
      && TablesExist(m, segments) && GetPageReverse(m, segments, frame).Some?
      && frame < |m.used| && offset + 4 <= m.pageSize
    case Write(segments, frame, offset, _) =>
      && TablesExist(m, segments) && GetPageReverse(m, segments, frame).Some?
      && frame < |m.used| && offset + 4 <= m.pageSize
  }

  ghost function Apply(m: Mem, t: Latest, r: Request): (Mem, Latest)
    requires Sound(m, t) && Accepts(m, r)
  {
    match r
    case Started(sizes) =>
      StartProcessSound(m, t, sizes);
      var m' := StartProcess(m, sizes).0;
      (m', Grown(t, |m'.pages|))
    case Finished(segments) => (FinishProcess(m, segments), Forget(m, segments, t))
    case PageFault(segments, segment, page) => (ResolveFault(m, PageIndex(m, segments, segment, page)).0, t)
    case FrameAccess(_, _, _) => (m, t)
    case Read(segments, frame, offset) =>
      (RamRead(m, GetPageReverse(m, segments, frame).value, FrameStart(m, frame) + offset).0, t)
    case Write(segments, frame, offset, value) =>
      var k := GetPageReverse(m, segments, frame).value;
      RamWriteSound(m, t, k, offset, value);
      var m' := RamWrite(m, k, FrameStart(m, frame) + offset, value);
      (m', t[k := Some(FrameBytes(m', frame))])
  }

  lemma ApplySound(m: Mem, t: Latest, r: Request)
    requires Sound(m, t) && Accepts(m, r)
    ensures Sound(Apply(m, t, r).0, Apply(m, t, r).1)
    ensures m.swap <= Apply(m, t, r).0.swap
  {
    match r
    case Started(sizes) =>
      StartProcessSound(m, t, sizes);
      var m' := StartProcess(m, sizes).0;
      assert Apply(m, t, r) == (m', Grown(t, |m'.pages|));
    case Finished(segments) =>
      FinishProcessSound(m, t, segments);
      assert Apply(m, t, r) == (FinishProcess(m, segments), Forget(m, segments, t));
    case PageFault(segments, segment, page) =>
      var k := PageIndex(m, segments, segment, page);
      ResolveFaultSound(m, t, k);
      assert Apply(m, t, r) == (ResolveFault(m, k).0, t);
    case FrameAccess(_, _, _) =>
      assert Apply(m, t, r) == (m, t);
    case Read(segments, frame, offset) =>
      var k := GetPageReverse(m, segments, frame).value;
      RamReadSound(m, t, k, offset);
      assert Apply(m, t, r) == (RamRead(m, k, FrameStart(m, frame) + offset).0, t);
    case Write(segments, frame, offset, value) =>
      var k := GetPageReverse(m, segments, frame).value;
      RamWriteSound(m, t, k, offset, value);
      var m' := RamWrite(m, k, FrameStart(m, frame) + offset, value);
      assert Apply(m, t, r) == (m', t[k := Some(FrameBytes(m', frame))]);
  }

  // Every request of the sequence is accepted when its turn comes.
  ghost predicate Runs(m: Mem, t: Latest, requests: seq<Request>)
    requires Sound(m, t)
    decreases |requests|
  {
    requests == [] ||
    (Accepts(m, requests[0]) &&
     (ApplySound(m, t, requests[0]);
      Runs(Apply(m, t, requests[0]).0, Apply(m, t, requests[0]).1, requests[1..])))
  }

  ghost function After(m: Mem, t: Latest, requests: seq<Request>): (Mem, Latest)
    requires Sound(m, t) && Runs(m, t, requests)
    decreases |requests|
  {
    if requests == [] then (m, t)
    else
      ApplySound(m, t, requests[0]);
      After(Apply(m, t, requests[0]).0, Apply(m, t, requests[0]).1, requests[1..])
  }

  // Whatever is asked in whatever order: frames stay owned by exactly one present page, flags mean
  // what they should, every page's contents are where its entry says, and no saved image changes.
  lemma {:induction false} RunSound(m: Mem, t: Latest, requests: seq<Request>)
    requires Sound(m, t) && Runs(m, t, requests)
    ensures Sound(After(m, t, requests).0, After(m, t, requests).1)
    ensures m.swap <= After(m, t, requests).0.swap
    decreases |requests|
  {
    if requests != [] {
      ApplySound(m, t, requests[0]);
      RunSound(Apply(m, t, requests[0]).0, Apply(m, t, requests[0]).1, requests[1..]);
    }
  }

  // A run and one more request.
  lemma {:induction false} OneMore(m: Mem, t: Latest, requests: seq<Request>, r: Request)
    requires Sound(m, t) && Runs(m, t, requests)
    ensures var (m1, t1) := After(m, t, requests);
            && Sound(m1, t1)
            && (Accepts(m1, r) ==> Runs(m, t, requests + [r]) && After(m, t, requests + [r]) == Apply(m1, t1, r))
    decreases |requests|
  {
    RunSound(m, t, requests);
    if requests == [] {
      assert [] + [r] == [r] && [r][1..] == [];
      var (m1, t1) := After(m, t, requests);
      if Accepts(m1, r) { ApplySound(m, t, r); }
    } else {
      ApplySound(m, t, requests[0]);
      OneMore(Apply(m, t, requests[0]).0, Apply(m, t, requests[0]).1, requests[1..], r);
      assert (requests + [r])[1..] == requests[1..] + [r];
    }
  }

  lemma InitialSound(algorithm: Algorithm, pageSize: nat, frames: nat, ram: seq<Byte>)
    requires pageSize > 0 && frames > 0 && frames * pageSize <= |ram|
    ensures Sound(Initial(algorithm, pageSize, frames, ram), [])
  {
  }

  // ---------- Counting frames ----------

  ghost function UsedFrames(m: Mem): set<nat> {
    set f: nat | f < |m.used| && m.used[f]
  }

  ghost function PresentPages(m: Mem): set<nat> {
    set k: nat | k < |m.pages| && m.pages[k].P
  }

  lemma {:induction false} SameSize(m: Mem, pages: set<nat>, frames: set<nat>)
    requires Owned(m) && pages <= PresentPages(m)
    requires forall f :: f in frames <==> exists k :: k in pages && m.pages[k].frame == f
    ensures |pages| == |frames|
    decreases pages
  {
    if pages == {} {
      assert frames == {};
    } else {
      var k :| k in pages;
      var f: nat := m.pages[k].frame;
      FrameOfOne(m, k);
      forall g | g in frames - {f} ensures exists j :: j in pages - {k} && m.pages[j].frame == g {
        var j :| j in pages && m.pages[j].frame == g;
        assert j in pages - {k};
      }
      SameSize(m, pages - {k}, frames - {f});
      assert |pages| == |pages - {k}| + 1 && |frames| == |frames - {f}| + 1;
    }
  }

  // As many frames are used as pages are present.
  lemma UsedEqualsPresent(m: Mem)
    requires Inv(m)
    ensures |UsedFrames(m)| == |PresentPages(m)|
  {
    forall f | f in UsedFrames(m) ensures exists k :: k in PresentPages(m) && m.pages[k].frame == f {
      var k: nat :| Holds(m, k, f);
      assert k in PresentPages(m);
    }
    SameSize(m, PresentPages(m), UsedFrames(m));
  }

  // ---------- What the U bit is for ----------

  // There is a page the algorithm would rather take: with U = 0, and under CLOCK-M also written, or
  // not before the hand.
  ghost predicate BetterVictim(m: Mem)
    requires Shape(m)
  {
    if m.algorithm.Clock? then Has(Unused, m.pages)
    else First(UnusedWith(false), m.pages, m.hand) < |m.pages| || Has(UnusedWith(true), m.pages)
  }

  // Then a page with U = 1 does not go.
  lemma UnusedGoes(m: Mem)
    requires Shape(m) && BetterVictim(m)
    ensures var v := FindVictim(m.algorithm, m.pages, m.hand).victim; v < |m.pages| && m.pages[v].P && !m.pages[v].U
  {
    if m.algorithm.Clock? { SecondChance(m.pages, m.hand); }
  }

  // A fault on page j leaves page k where it is.
  ghost predicate StaysThrough(m: Mem, j: nat, k: nat)
    requires Inv(m) && j < |m.pages| && !m.pages[j].P && k < |m.pages|
  {
    var m' := ResolveFault(m, j).0;
    k < |m'.pages| && m'.pages[k].P && m'.pages[k].frame == m.pages[k].frame
  }

  // The frame found for the new page is not that of a used one.
  lemma OtherFrame(m: Mem, k: nat)
    requires Inv(m) && BetterVictim(m) && k < |m.pages| && m.pages[k].P && m.pages[k].U
    ensures FindFreeFrame(m).1 != m.pages[k].frame
  {
    if FirstFree(m.used, 0) == |m.used| {
      UnusedGoes(m);
      VictimExists(m);
      FrameOfOne(m, FindVictim(m.algorithm, m.pages, m.hand).victim);
    } else {
      assert !m.used[FirstFree(m.used, 0)];
    }
  }

  lemma UsedPageStays(m: Mem, k: nat, j: nat)
    requires Inv(m) && BetterVictim(m) && k < |m.pages| && m.pages[k].P && m.pages[k].U
    requires j < |m.pages| && !m.pages[j].P
    ensures StaysThrough(m, j, k)
  {
    OtherFrame(m, k);
    ResolveFaultEffect(m, j, k);
  }

  // The memory after a word of entry k was read, or written.
  function Accessed(m: Mem, k: nat, offset: nat, write: Option<Word>): (m': Mem)
    requires Shape(m) && k < |m.pages| && 0 <= m.pages[k].frame < |m.used| && offset + 4 <= m.pageSize
    ensures m'.pages == m.pages[k := m.pages[k].(U := true, M := m.pages[k].M || write.Some?)]
  {
    var address := FrameStart(m, m.pages[k].frame) + offset;
    if write.Some? then RamWrite(m, k, address, write.value) else RamRead(m, k, address).0
  }

  // A page just read or written survives the next fault if there is a better victim.
  lemma AccessedPageStays(m: Mem, t: Latest, k: nat, offset: nat, write: Option<Word>, j: nat, m1: Mem)
    requires Sound(m, t) && k < |m.pages| && m.pages[k].P && offset + 4 <= m.pageSize
    requires j < |m.pages| && !m.pages[j].P && m1 == Accessed(m, k, offset, write)
    ensures Inv(m1) && m1.pages[k].U && (write.Some? ==> m1.pages[k].M)
    ensures BetterVictim(m1) ==> StaysThrough(m1, j, k)
  {
    if write.Some? { RamWriteSound(m, t, k, offset, write.value); } else { RamReadSound(m, t, k, offset); }
    if BetterVictim(m1) { UsedPageStays(m1, k, j); }
  }

  // ---------- Isolation ----------

  // No table backs two segments, neither of one process nor of two.
  ghost predicate OwnTables(a: seq<Segment>) {
    forall i, j :: 0 <= i < j < |a| ==> a[i].table != a[j].table
  }

  ghost predicate ApartTables(a: seq<Segment>, b: seq<Segment>) {
    forall i, j :: 0 <= i < |a| && 0 <= j < |b| ==> a[i].table != b[j].table
  }

  lemma PageIndexInjective(m: Mem, a: seq<Segment>, segmentA: nat, pageA: nat, b: seq<Segment>, segmentB: nat,
                           pageB: nat)
    requires Shape(m) && PageExists(m, a, segmentA, pageA) && PageExists(m, b, segmentB, pageB)
    ensures PageIndex(m, a, segmentA, pageA) == PageIndex(m, b, segmentB, pageB) <==>
            a[segmentA].table == b[segmentB].table && pageA == pageB
  {
    var t, u := a[segmentA].table, b[segmentB].table;
    if t < u { BaseMonotone(m.sizes, t + 1, u); }
    if u < t { BaseMonotone(m.sizes, u + 1, t); }
  }

  predicate InWord(x: nat, address: nat) {
    address <= x < address + 4
  }

  ghost predicate Overlap(a: nat, b: nat) {
    exists x: nat :: InWord(x, a) && InWord(x, b)
  }

  lemma OverlapIff(a: nat, b: nat)
    ensures Overlap(a, b) <==> a < b + 4 && b < a + 4
  {
    if a < b + 4 && b < a + 4 {
      var x := if a < b then b else a;
      assert InWord(x, a) && InWord(x, b);
    }
  }

  // Words of resident pages share a byte only when they are overlapping words of one page of one process.
  lemma Isolation(m: Mem, samePid: bool, a: seq<Segment>, segmentA: nat, pageA: nat, offsetA: nat,
                  b: seq<Segment>, segmentB: nat, pageB: nat, offsetB: nat)
    requires Inv(m) && PageExists(m, a, segmentA, pageA) && PageExists(m, b, segmentB, pageB)
    requires if samePid then a == b && OwnTables(a) else ApartTables(a, b)
    requires offsetA + 4 <= m.pageSize && offsetB + 4 <= m.pageSize
    requires m.pages[PageIndex(m, a, segmentA, pageA)].P && m.pages[PageIndex(m, b, segmentB, pageB)].P
    ensures var pa := FrameStart(m, m.pages[PageIndex(m, a, segmentA, pageA)].frame) + offsetA;
            var pb := FrameStart(m, m.pages[PageIndex(m, b, segmentB, pageB)].frame) + offsetB;
            Overlap(pa, pb) <==>
            samePid && segmentA == segmentB && pageA == pageB && offsetA < offsetB + 4 && offsetB < offsetA + 4
  {
    PageIndexInjective(m, a, segmentA, pageA, b, segmentB, pageB);
    var i, j := PageIndex(m, a, segmentA, pageA), PageIndex(m, b, segmentB, pageB);
    var pa := FrameStart(m, m.pages[i].frame) + offsetA;
    var pb := FrameStart(m, m.pages[j].frame) + offsetB;
    if i == j {
      OverlapIff(pa, pb);
    } else {
      FrameOfOne(m, i);
      FramesApart(m, m.pages[i].frame, m.pages[j].frame);
    }
  }

  // A word leaves its frame exactly when it starts within three bytes of the page's end.
  lemma StaysInFrame(m: Mem, f: nat, offset: nat)
    requires Shape(m) && f < |m.used| && offset < m.pageSize
    ensures (forall x :: FrameStart(m, f) + offset <= x < FrameStart(m, f) + offset + 4 ==> x / m.pageSize == f)
            <==> offset + 4 <= m.pageSize
  {
    forall x | FrameStart(m, f) + offset <= x < FrameStart(m, f) + offset + 4
      ensures x / m.pageSize == f <==> x < FrameStart(m, f) + m.pageSize
    {
      QuotientOf(x, f, m.pageSize);
    }
    if offset + 4 > m.pageSize {
      var x := FrameStart(m, f) + m.pageSize;
      QuotientOf(x, f, m.pageSize);
    }
  }

  lemma QuotientOf(x: nat, f: nat, d: nat)
    requires d > 0 && f * d <= x
    ensures x / d == f <==> x < f * d + d
  {
    var q, r := x / d, x % d;
    assert x == q * d + r;
    if q < f { FrameFits(f, d, q); }
    if q > f { FrameFits(q, d, f); }
  }
}
