// The swap file exactly as the code writes and reads it, where that differs from the paging model:
// the position is taken after the image was appended, and an image is page_size ints, not bytes. And
// what the memory server then does to a page.
module ShippedSwap {
  import opened Words
  import opened Clock
  import opened Paging
  import opened PagingRuns

  // write_page_to_swap: the position recorded is the end of the file after the append.
  function WriteOut(swap: seq<Byte>, image: seq<Byte>): (seq<Byte>, nat) {
    (swap + image, |swap| + |image|)
  }

  // read_page_from_swap: fread fills the buffer with what the file has from the position on, and leaves
  // the rest of it as malloc gave it.
  function ReadBack(swap: seq<Byte>, position: nat, buffer: seq<Byte>): (read: seq<Byte>)
    ensures |read| == |buffer|
    ensures forall i :: 0 <= i < |read| ==> read[i] == if position + i < |swap| then swap[position + i] else buffer[i]
  {
    seq(|buffer|, i requires 0 <= i < |buffer| => if position + i < |swap| then swap[position + i] else buffer[i])
  }

  // What comes back for a page is not its image but whatever was appended next, and past the end of the
  // file whatever the buffer held. So the contents survive exactly when these bytes happen to be the same.
  lemma ShippedRoundTrip(swap: seq<Byte>, image: seq<Byte>, later: seq<Byte>, buffer: seq<Byte>)
    requires |buffer| == |image|
    ensures var (saved, position) := WriteOut(swap, image);
            ReadBack(saved + later, position, buffer) == image <==>
            forall i :: 0 <= i < |image| ==> image[i] == if i < |later| then later[i] else buffer[i]
  {
    var (saved, position) := WriteOut(swap, image);
    var read := ReadBack(saved + later, position, buffer);
    assert forall i :: 0 <= i < |later| ==> (saved + later)[position + i] == later[i];
    if read == image {
      forall i | 0 <= i < |image| ensures image[i] == if i < |later| then later[i] else buffer[i] {
        assert image[i] == read[i];
      }
    }
  }

  // With the start recorded instead, the image always comes back, whatever the buffer held.
  lemma CorrectedRoundTrip(swap: seq<Byte>, image: seq<Byte>, later: seq<Byte>, buffer: seq<Byte>)
    requires |buffer| == |image|
    ensures ReadBack(swap + image + later, |swap|, buffer) == image
  {
    var file := swap + image + later;
    assert forall i :: 0 <= i < |image| ==> file[|swap| + i] == image[i];
  }

  // memcpy of page_size ints into frame f: the frames after it keep their bytes exactly when the
  // tail of the image happens to equal them.
  lemma ShippedUnitOverruns(m: Mem, f: nat, image: seq<Byte>)
    requires Shape(m) && f < |m.used| && |image| == 4 * m.pageSize && FrameStart(m, f) + |image| <= |m.ram|
    ensures var next := FrameStart(m, f) + m.pageSize;
            Put(m.ram, FrameStart(m, f), image)[next..] == m.ram[next..] <==>
            image[m.pageSize..] == m.ram[next..FrameStart(m, f) + |image|]
  {
    var start, unit := FrameStart(m, f), m.pageSize;
    var after := Put(m.ram, start, image);
    PutAt(m.ram, start, image);
    assert after[start + unit..start + |image|] == image[unit..];
    assert after[start + unit..][..|image| - unit] == after[start + unit..start + |image|];
    assert m.ram[start + unit..][..|image| - unit] == m.ram[start + unit..start + |image|];
    assert after[start + |image|..] == m.ram[start + |image|..];
    assert after[start + unit..] == after[start + unit..start + |image|] + after[start + |image|..];
    assert m.ram[start + unit..] == m.ram[start + unit..start + |image|] + m.ram[start + |image|..];
  }

  // ---------- The memory server with this swap code ----------

  // Behind the last frame, and so behind every frame, there is RAM for page_size ints.
  ghost predicate Roomy(m: Mem)
    requires Shape(m)
  {
    FrameStart(m, |m.used| - 1) + 4 * m.pageSize <= |m.ram|
  }

  lemma RoomBehind(m: Mem, f: nat)
    requires Shape(m) && Roomy(m) && f < |m.used|
    ensures FrameStart(m, f) + 4 * m.pageSize <= |m.ram|
  {
    if f < |m.used| - 1 { FramesApart(m, f, |m.used| - 1); }
  }

  ghost predicate CanFault(m: Mem, k: nat) {
    Shape(m) && Owned(m) && Roomy(m) && k < |m.pages| && !m.pages[k].P && m.pages[k].swapPos >= -1
  }

  lemma SomePresent(m: Mem)
    requires Shape(m) && Owned(m) && FirstFree(m.used, 0) == |m.used|
    ensures Has(Resident, m.pages)
  {
    assert m.used[0];
    var k: nat :| Holds(m, k, 0);
    assert Wants(Resident, m.pages[k]);
  }

  // The victim leaves its frame, page_size ints from it saved first if it was written.
  function Dropped(m: Mem, v: nat, start: nat): Mem
    requires v < |m.pages| && start + 4 * m.pageSize <= |m.ram|
  {
    var (swap, position) := WriteOut(m.swap, m.ram[start..start + 4 * m.pageSize]);
    if m.pages[v].M then m.(swap := swap, pages := m.pages[v := m.pages[v].(P := false, swapPos := position)])
    else m.(pages := m.pages[v := m.pages[v].(P := false)])
  }

  // find_free_frame
  ghost function FrameFound(m: Mem): (r: (Mem, nat))
    requires Shape(m) && Owned(m) && Roomy(m)
    ensures r.1 < |m.used| && r.0.ram == m.ram && |r.0.pages| == |m.pages| && r.0.pageSize == m.pageSize
    ensures |r.0.used| == |m.used|
  {
    var f := FirstFree(m.used, 0);
    if f < |m.used| then (m.(used := m.used[f := true]), f)
    else
      SomePresent(m);
      ChoiceEffect(m.algorithm, m.pages, m.hand);
      var choice := FindVictim(m.algorithm, m.pages, m.hand);
      var frame := m.pages[choice.victim].frame;
      RoomBehind(m, frame);
      (Dropped(m.(pages := choice.pages, hand := choice.victim), choice.victim, FrameStart(m, frame)), frame)
  }

  // resolve_page_fault: the image is read first, into what malloc gave, and all of it copied.
  ghost function Resolved(m: Mem, k: nat, buffer: seq<Byte>): Mem
    requires CanFault(m, k) && |buffer| == 4 * m.pageSize
  {
    var (m1, f) := FrameFound(m);
    RoomBehind(m, f);
    var p := m1.pages[k].(frame := f, P := true);
    if m.pages[k].swapPos == -1 then m1.(pages := m1.pages[k := p])
    else m1.(pages := m1.pages[k := p.(M := false, U := false)],
             ram := Put(m.ram, FrameStart(m, f), ReadBack(m.swap, m.pages[k].swapPos, buffer)))
  }

  // The frames go round as they do with the correct code.
  ghost predicate SameFrames(m: Mem, m1: Mem) {
    && m1.used == m.used && |m1.pages| == |m.pages| && m1.pageSize == m.pageSize && |m1.ram| == |m.ram|
    && m1.sizes == m.sizes && m1.hand == m.hand
    && forall j :: 0 <= j < |m1.pages| ==>
         m1.pages[j].P == m.pages[j].P && m1.pages[j].frame == m.pages[j].frame
  }

  lemma FoundAlike(m: Mem, t: Latest)
    requires Sound(m, t) && Roomy(m)
    ensures FrameFound(m).1 == FindFreeFrame(m).1 && SameFrames(FindFreeFrame(m).0, FrameFound(m).0)
  {
    if FirstFree(m.used, 0) == |m.used| {
      SomePresent(m);
      ChoiceEffect(m.algorithm, m.pages, m.hand);
    }
  }

  lemma LikeLaidOut(m: Mem, m1: Mem)
    requires Shape(m) && Owned(m) && SameFrames(m, m1)
    ensures Shape(m1) && Owned(m1)
  {
    OwnedShrinks(m, m1);
  }

  // After a fault on a page never saved.
  lemma NextFault(m: Mem, t: Latest, k: nat, buffer: seq<Byte>)
    requires Sound(m, t) && CanFault(m, k) && m.pages[k].swapPos == -1 && |buffer| == 4 * m.pageSize
    ensures var m1 := Resolved(m, k, buffer);
            && Shape(m1) && Owned(m1) && Roomy(m1) && |m1.used| == |m.used| && m1.pageSize == m.pageSize
  {
    FoundAlike(m, t);
    FreeFrameShape(m);
    ResolveFaultSound(m, t, k);
    LikeLaidOut(ResolveFault(m, k).0, Resolved(m, k, buffer));
  }

  // The fault that evicts a written page leaves it absent, its position at the end of the file.
  lemma VictimSaved(m: Mem, k: nat, v: nat, buffer: seq<Byte>)
    requires CanFault(m, k) && m.pages[k].swapPos == -1 && FirstFree(m.used, 0) == |m.used|
    requires |buffer| == 4 * m.pageSize
    requires v == FindVictim(m.algorithm, m.pages, m.hand).victim && v < |m.pages| && m.pages[v].M
    ensures var m1 := Resolved(m, k, buffer);
            v < |m1.pages| && !m1.pages[v].P && m1.pages[v].swapPos == |m1.swap|
  {
    SomePresent(m);
    ChoiceEffect(m.algorithm, m.pages, m.hand);
  }

  // A page read back from the end of the file takes its frame with what malloc gave.
  lemma BufferInstalled(m: Mem, v: nat, buffer: seq<Byte>)
    requires CanFault(m, v) && m.pages[v].swapPos == |m.swap| && |buffer| == 4 * m.pageSize
    ensures var m' := Resolved(m, v, buffer);
            && Shape(m') && |m'.used| == |m.used| && m'.pages[v].P && 0 <= m'.pages[v].frame < |m.used|
            && FrameBytes(m', m'.pages[v].frame) == buffer[..m.pageSize]
  {
    var f, m' := FrameFound(m).1, Resolved(m, v, buffer);
    var start := FrameStart(m, f);
    assert ReadBack(m.swap, m.pages[v].swapPos, buffer) == buffer;
    RoomBehind(m, f);
    PutAt(m.ram, start, buffer);
    assert m'.ram[start..start + m.pageSize] == buffer[..m.pageSize];
  }

  // A written page that is evicted by one fault and asked for by the next comes back as what malloc
  // gave: nothing of what was stored in it is left, unless that happened to be there.
  lemma ShippedLosesPage(m: Mem, t: Latest, k: nat, v: nat, spare: seq<Byte>, buffer: seq<Byte>)
    requires Sound(m, t) && CanFault(m, k) && m.pages[k].swapPos == -1 && FirstFree(m.used, 0) == |m.used|
    requires |spare| == 4 * m.pageSize && |buffer| == 4 * m.pageSize
    requires v == FindVictim(m.algorithm, m.pages, m.hand).victim && v < |m.pages| && m.pages[v].M
    ensures CanFault(Resolved(m, k, spare), v)
    ensures var m2 := Resolved(Resolved(m, k, spare), v, buffer);
            && Shape(m2) && |m2.used| == |m.used| && m2.pages[v].P && 0 <= m2.pages[v].frame < |m.used|
            && FrameBytes(m2, m2.pages[v].frame) == buffer[..m.pageSize]
  {
    NextFault(m, t, k, spare);
    VictimSaved(m, k, v, spare);
    BufferInstalled(Resolved(m, k, spare), v, buffer);
  }

  // ---------- A stored word that is lost ----------

  // One frame of four bytes, RAM for sixteen, and one process with one segment of two pages, A and B.
  const SEGMENTS := [Segment(8, 0)]

  const STORED := [Request.Started([8]), PageFault(SEGMENTS, 0, 0), Write(SEGMENTS, 0, 0, 7)]

  ghost function Start(ram: seq<Byte>): Mem {
    Initial(Algorithm.Clock, 4, 1, ram)
  }

  lemma TwoPages(ram: seq<Byte>) returns (m: Mem, t: Latest)
    requires |ram| == 16
    ensures Sound(Start(ram), []) && Runs(Start(ram), [], STORED[..1])
    ensures After(Start(ram), [], STORED[..1]) == (m, t) && Sound(m, t)
    ensures m == Start(ram).(sizes := [2], pages := [FRESH_PAGE, FRESH_PAGE])
  {
    var m0 := Start(ram);
    InitialSound(Algorithm.Clock, 4, 1, ram);
    OneMore(m0, [], [], STORED[0]);
    ApplySound(m0, [], STORED[0]);
    assert [] + [STORED[0]] == STORED[..1];
    m, t := Apply(m0, [], STORED[0]).0, Apply(m0, [], STORED[0]).1;
    assert [8][..0] == [] && PagesFor(8, 4) == 2;
    assert StartProcess(m0, []) == (m0, []) && m == AddTable(m0, 2);
    assert m.pages == [FRESH_PAGE, FRESH_PAGE];
  }

  lemma WordStored(ram: seq<Byte>) returns (m: Mem, t: Latest)
    requires |ram| == 16
    ensures Sound(Start(ram), []) && Runs(Start(ram), [], STORED) && After(Start(ram), [], STORED) == (m, t)
    ensures Sound(m, t) && m.algorithm == Algorithm.Clock && m.pageSize == 4 && m.hand == 0 && |m.ram| == 16
    ensures m.used == [true] && m.pages == [Page(0, true, true, true, -1), FRESH_PAGE]
    ensures |t| == 2 && t[0] == Some(Le32(7))
  {
    var m1, t1 := TwoPages(ram);
    assert Base([2], 0) == 0 && PageIndex(m1, SEGMENTS, 0, 0) == 0;
    OneMore(Start(ram), [], STORED[..1], STORED[1]);
    assert STORED[..1] + [STORED[1]] == STORED[..2];
    ApplySound(m1, t1, STORED[1]);
    var m2, t2 := Apply(m1, t1, STORED[1]).0, Apply(m1, t1, STORED[1]).1;
    assert m2 == m1.(used := [true], pages := [Page(0, true, false, false, -1), FRESH_PAGE]);
    assert InTable(m2, SEGMENTS[0].table, 0);
    ReverseIsInverse(m2, SEGMENTS, 0);
    OneMore(Start(ram), [], STORED[..2], STORED[2]);
    assert STORED[..2] + [STORED[2]] == STORED;
    ApplySound(m2, t2, STORED[2]);
    m, t := Apply(m2, t2, STORED[2]).0, Apply(m2, t2, STORED[2]).1;
    RamWriteSound(m2, t2, 0, 0, 7);
  }

  // The word 7 is stored in A; B is asked for, then A again. What stands there is what malloc gave.
  lemma ShippedStoreLost(ram: seq<Byte>, spare: seq<Byte>, buffer: seq<Byte>) returns (m: Mem, t: Latest)
    requires |ram| == 16 && |spare| == 16 && |buffer| == 16
    ensures Sound(Start(ram), []) && Runs(Start(ram), [], STORED) && After(Start(ram), [], STORED) == (m, t)
    ensures Sound(m, t) && |t| == 2 && t[0] == Some(Le32(7))
    ensures CanFault(m, 1) && |spare| == 4 * m.pageSize && CanFault(Resolved(m, 1, spare), 0)
    ensures var m2 := Resolved(Resolved(m, 1, spare), 0, buffer);
            && Shape(m2) && m2.pages[0].P && m2.pages[0].frame == 0 && FrameBytes(m2, 0) == buffer[..4]
            && (FrameBytes(m2, 0) == Le32(7) <==> buffer[..4] == Le32(7))
  {
    m, t := WordStored(ram);
    assert First(Unused, m.pages, 0) == 2;
    assert FindVictim(m.algorithm, m.pages, m.hand).victim == 0;
    assert FirstFree(m.used, 0) == 1;
    ShippedLosesPage(m, t, 1, 0, spare, buffer);
  }
}
