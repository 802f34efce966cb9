// A run of the memory server in which CLOCK-M passes over an unused clean page.
module ClockRuns {
  import opened Words
  import opened Clock
  import opened Paging
  import opened PagingRuns

  // Two frames of four bytes, and one process with one segment of three pages.
  const SEGMENTS := [Segment(12, 0)]

  ghost function Start(ram: seq<Byte>): Mem {
    Initial(ClockM, 4, 2, ram)
  }

  // The memory m is where these requests lead, and looks like this.
  ghost predicate Reached(ram: seq<Byte>, requests: seq<Request>, m: Mem, t: Latest, pages: seq<Page>,
                          used: seq<bool>, hand: nat)
    requires |ram| == 8
  {
    InitialSound(ClockM, 4, 2, ram);
    && Runs(Start(ram), [], requests) && After(Start(ram), [], requests) == (m, t) && Sound(m, t)
    && m.algorithm == ClockM && m.pageSize == 4 && m.sizes == [3]
    && m.pages == pages && m.used == used && m.hand == hand
  }

  lemma Step(ram: seq<Byte>, requests: seq<Request>, m: Mem, t: Latest, pages: seq<Page>, used: seq<bool>,
             hand: nat, r: Request)
    returns (m': Mem, t': Latest)
    requires |ram| == 8 && Reached(ram, requests, m, t, pages, used, hand) && Accepts(m, r)
    ensures (m', t') == Apply(m, t, r) && Sound(m', t')
    ensures Runs(Start(ram), [], requests + [r]) && After(Start(ram), [], requests + [r]) == (m', t')
  {
    InitialSound(ClockM, 4, 2, ram);
    OneMore(Start(ram), [], requests, r);
    ApplySound(m, t, r);
    m', t' := Apply(m, t, r).0, Apply(m, t, r).1;
  }

  const GONE := FRESH_PAGE

  function At(frame: int, U: bool, M: bool): Page {
    Page(frame, true, U, M, -1)
  }

  lemma Entry(m: Mem, page: nat)
    requires Shape(m) && m.sizes == [3] && page < 3
    ensures PageExists(m, SEGMENTS, 0, page) && PageIndex(m, SEGMENTS, 0, page) == page
  {
    assert Base([3], 0) == 0;
  }

  // Tables A, B, C of absent pages.
  lemma Started(ram: seq<Byte>) returns (m: Mem, t: Latest)
    requires |ram| == 8
    ensures Reached(ram, [Request.Started([12])], m, t, [GONE, GONE, GONE], [false, false], 0)
  {
    InitialSound(ClockM, 4, 2, ram);
    var m0 := Start(ram);
    assert m0.used == [false, false];
    OneMore(m0, [], [], Request.Started([12]));
    assert [] + [Request.Started([12])] == [Request.Started([12])];
    m, t := Apply(m0, [], Request.Started([12])).0, Apply(m0, [], Request.Started([12])).1;
    ApplySound(m0, [], Request.Started([12]));
    assert [12][..0] == [] && PagesFor(12, 4) == 3;
    assert StartProcess(m0, []) == (m0, []);
    assert m == AddTable(m0, 3);
    assert m.pages == [GONE, GONE, GONE] && m.sizes == [3];
  }

  function Fault(page: nat): Request {
    PageFault(SEGMENTS, 0, page)
  }

  // A fault while frame f is the first one free.
  lemma FaultFree(ram: seq<Byte>, requests: seq<Request>, m: Mem, t: Latest, pages: seq<Page>, used: seq<bool>,
                  page: nat, f: nat) returns (m': Mem, t': Latest)
    requires |ram| == 8 && Reached(ram, requests, m, t, pages, used, 0) && page < |pages| == 3
    requires pages[page] == GONE && FirstFree(used, 0) == f < |used|
    ensures Reached(ram, requests + [Fault(page)], m', t', pages[page := At(f, false, false)], used[f := true], 0)
  {
    Entry(m, page);
    m', t' := Step(ram, requests, m, t, pages, used, 0, Fault(page));
    FreeFrameShape(m);
    assert FindFreeFrame(m) == (m.(used := m.used[f := true]), f);
  }

  // An access to the page in frame f.
  lemma Access(ram: seq<Byte>, requests: seq<Request>, m: Mem, t: Latest, pages: seq<Page>, used: seq<bool>,
               page: nat, f: nat, write: bool) returns (m': Mem, t': Latest)
    requires |ram| == 8 && Reached(ram, requests, m, t, pages, used, 0) && page < |pages| == 3
    requires pages[page] == At(f, false, false) && f < |used|
    ensures Reached(ram, requests + [if write then Write(SEGMENTS, f, 0, 7) else Read(SEGMENTS, f, 0)],
                    m', t', pages[page := At(f, true, write)], used, 0)
  {
    Entry(m, page);
    assert InTable(m, SEGMENTS[0].table, page);
    ReverseIsInverse(m, SEGMENTS, page);
    m', t' := Step(ram, requests, m, t, pages, used, 0,
                   if write then Write(SEGMENTS, f, 0, 7) else Read(SEGMENTS, f, 0));
  }

  // B and C are brought in, B is read and C written.
  lemma BothUsed(ram: seq<Byte>) returns (m: Mem, t: Latest)
    requires |ram| == 8
    ensures Reached(ram, [Request.Started([12]), Fault(1), Fault(2), Read(SEGMENTS, 0, 0), Write(SEGMENTS, 1, 0, 7)],
                    m, t, [GONE, At(0, true, false), At(1, true, true)], [true, true], 0)
  {
    var requests := [Request.Started([12])];
    m, t := Started(ram);
    m, t := FaultFree(ram, requests, m, t, [GONE, GONE, GONE], [false, false], 1, 0);
    requests := requests + [Fault(1)];
    m, t := FaultFree(ram, requests, m, t, [GONE, At(0, false, false), GONE], [true, false], 2, 1);
    requests := requests + [Fault(2)];
    m, t := Access(ram, requests, m, t, [GONE, At(0, false, false), At(1, false, false)], [true, true], 1, 0, false);
    requests := requests + [Read(SEGMENTS, 0, 0)];
    m, t := Access(ram, requests, m, t, [GONE, At(0, true, false), At(1, false, false)], [true, true], 2, 1, true);
    assert requests + [Write(SEGMENTS, 1, 0, 7)]
        == [Request.Started([12]), Fault(1), Fault(2), Read(SEGMENTS, 0, 0), Write(SEGMENTS, 1, 0, 7)];
  }

  // Bringing A in: all pages are (1,_), so the U bits go and the first clean page does, B; the hand
  // stays on it.
  lemma FirstReplaced(pages: seq<Page>)
    requires pages == [GONE, At(0, true, false), At(1, true, true)]
    ensures FindVictim(ClockM, pages, 0) == Choice(1, [GONE, At(0, false, false), At(1, false, true)])
  {
    assert First(UnusedWith(false), pages, 0) == 3 && First(UnusedWith(true), pages, 0) == 3;
    assert First(Clean, pages, 0) == 1;
    assert ClearRange(pages, 0, 3) == [GONE, At(0, false, false), At(1, false, true)];
  }

  lemma SecondReplaced(pages: seq<Page>)
    requires pages == [At(0, false, false), Page(0, false, false, false, -1), At(1, false, true)]
    ensures FindVictim(ClockM, pages, 1).victim == 2
  {
    assert !Wants(UnusedWith(true), pages[0]) && !Wants(UnusedWith(true), pages[1]);
    assert Wants(UnusedWith(true), pages[2]);
    assert First(UnusedWith(false), pages, 1) == 3;
    assert First(UnusedWith(true), pages, 0) == 2;
  }

  // Then B is asked for again. A is (0,0), C is (0,1), every frame is used, and the hand is past A: the
  // page that goes is C.
  lemma UnusedCleanPassedOver(ram: seq<Byte>) returns (m: Mem, t: Latest)
    requires |ram| == 8
    ensures Reached(ram, [Request.Started([12]), Fault(1), Fault(2),
                          Read(SEGMENTS, 0, 0), Write(SEGMENTS, 1, 0, 7), Fault(0)],
                    m, t, [At(0, false, false), Page(0, false, false, false, -1), At(1, false, true)], [true, true], 1)
    ensures Accepts(m, Fault(1)) && FirstFree(m.used, 0) == |m.used|
    ensures Wants(UnusedWith(false), m.pages[0])
    ensures FindVictim(m.algorithm, m.pages, m.hand).victim == 2 && Wants(UnusedWith(true), m.pages[2])
  {
    var pages := [GONE, At(0, true, false), At(1, true, true)];
    var requests := [Request.Started([12]), Fault(1), Fault(2), Read(SEGMENTS, 0, 0), Write(SEGMENTS, 1, 0, 7)];
    var m5, t5 := BothUsed(ram);
    Entry(m5, 0);
    m, t := Step(ram, requests, m5, t5, pages, [true, true], 0, Fault(0));
    FirstReplaced(pages);
    assert FirstFree([true, true], 0) == 2;
    FreeFrameShape(m5);
    assert m.pages == [At(0, false, false), Page(0, false, false, false, -1), At(1, false, true)];
    Entry(m, 1);
    SecondReplaced(m.pages);
    assert requests + [Fault(0)]
        == [Request.Started([12]), Fault(1), Fault(2), Read(SEGMENTS, 0, 0), Write(SEGMENTS, 1, 0, 7), Fault(0)];
  }
}
