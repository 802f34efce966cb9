// What a page fault does to the swap file, the page entries and the frames, entry by entry.
module Eviction {
  import opened Words
  import opened Clock
  import opened Paging

  // The page that goes when no frame is free.
  function Victim(m: Mem): (v: nat)
    requires m.hand <= |m.pages|
  {
    FindVictim(m.algorithm, m.pages, m.hand).victim
  }

  predicate AllUsed(m: Mem) {
    forall f :: 0 <= f < |m.used| ==> m.used[f]
  }

  lemma VictimThere(m: Mem)
    requires Inv(m) && AllUsed(m)
    ensures Victim(m) < |m.pages| && m.pages[Victim(m)].P && 0 <= m.pages[Victim(m)].frame < |m.used|
  {
    VictimExists(m);
    ChoiceEffect(m.algorithm, m.pages, m.hand);
  }

  // A frame is free: the first such frame is taken, no page moves and nothing is written.
  lemma FreeFrameTaken(m: Mem)
    requires Inv(m) && !AllUsed(m)
    ensures var (m', f) := FindFreeFrame(m);
            && !m.used[f] && (forall g :: 0 <= g < f ==> m.used[g])
            && m' == m.(used := m.used[f := true])
  {
    assert FirstFree(m.used, 0) < |m.used|;
  }

  // No frame is free: the victim's frame is handed over, the hand stays on the victim, and the victim is
  // written to the end of the swap file if M = 1; else neither the file nor any position changes.
  lemma FrameHandedOver(m: Mem)
    requires Inv(m) && AllUsed(m)
    ensures Victim(m) < |m.pages| && 0 <= m.pages[Victim(m)].frame < |m.used|
    ensures var (m', f), v := FindFreeFrame(m), Victim(m);
            && f == m.pages[v].frame && m'.used == m.used && m'.ram == m.ram && m'.hand == v
            && m'.swap == m.swap + (if m.pages[v].M then FrameBytes(m, f) else [])
            && |m'.pages| == |m.pages| == |FindVictim(m.algorithm, m.pages, m.hand).pages|
            && !m'.pages[v].P && m'.pages[v].M == m.pages[v].M
            && m'.pages[v].swapPos == (if m.pages[v].M then |m.swap| else m.pages[v].swapPos)
            && forall j :: 0 <= j < |m.pages| && j != v ==>
                 && m'.pages[j] == FindVictim(m.algorithm, m.pages, m.hand).pages[j]
                 && m'.pages[j].swapPos == m.pages[j].swapPos
  {
    VictimThere(m);
    ChoiceEffect(m.algorithm, m.pages, m.hand);
    assert FirstFree(m.used, 0) == |m.used|;
  }

  // A fault writes the swap file only to save a victim that was written, and then appends its frame; of
  // all positions only the victim's changes, to the start of what was appended.
  lemma FaultWrites(m: Mem, k: nat)
    requires Inv(m) && k < |m.pages| && !m.pages[k].P
    ensures var m' := ResolveFault(m, k).0;
            && |m'.pages| == |m.pages|
            && (!AllUsed(m) || !m.pages[Victim(m)].M ==>
                  m'.swap == m.swap && forall j :: 0 <= j < |m.pages| ==> m'.pages[j].swapPos == m.pages[j].swapPos)
            && (AllUsed(m) && m.pages[Victim(m)].M ==>
                  && 0 <= m.pages[Victim(m)].frame < |m.used|
                  && m'.swap == m.swap + FrameBytes(m, m.pages[Victim(m)].frame)
                  && forall j :: 0 <= j < |m.pages| ==>
                       m'.pages[j].swapPos == if j == Victim(m) then |m.swap| else m.pages[j].swapPos)
  {
    if AllUsed(m) { FrameHandedOver(m); VictimThere(m); } else { FreeFrameTaken(m); }
  }

  // The page asked for is brought into the frame handed out, from its image if it has one, and into no
  // other frame.
  lemma FaultReads(m: Mem, k: nat)
    requires Inv(m) && k < |m.pages| && !m.pages[k].P
    ensures var (m', f) := ResolveFault(m, k);
            && Shape(m') && |m'.used| == |m.used| && |m'.pages| == |m.pages|
            && f == (if AllUsed(m) then m.pages[Victim(m)].frame else FirstFree(m.used, 0))
            && m'.used == m.used[f := true]
            && m'.pages[k].P && m'.pages[k].frame == f && !m'.pages[k].U && !m'.pages[k].M
            && (m.pages[k].swapPos == -1 ==> m'.ram == m.ram)
            && (m.pages[k].swapPos != -1 ==> FrameBytes(m', f) == Image(m, m.pages[k].swapPos))
            && forall g :: 0 <= g < |m.used| && g != f ==> FrameBytes(m', g) == FrameBytes(m, g)
  {
    FreeFrameShape(m);
    AbsentStay(m);
    var (m', f) := ResolveFault(m, k);
    if AllUsed(m) { FrameHandedOver(m); VictimThere(m); } else { FreeFrameTaken(m); }
    assert m'.used == m.used[f := true];
    if m.pages[k].swapPos != -1 { ImageInFrame(m, m', f, Image(m, m.pages[k].swapPos)); }
  }

  lemma ImageInFrame(m: Mem, m': Mem, f: nat, image: seq<Byte>)
    requires Shape(m) && Shape(m') && f < |m.used| == |m'.used| && m'.pageSize == m.pageSize == |image|
    requires m'.ram == Put(m.ram, FrameStart(m, f), image)
    ensures FrameBytes(m', f) == image
    ensures forall g :: 0 <= g < |m.used| && g != f ==> FrameBytes(m', g) == FrameBytes(m, g)
  {
    PutInFrame(m, m', f, 0, image);
    assert Put(FrameBytes(m, f), 0, image) == image;
  }
}
