// Page replacement of memoria: the per-page test is_victim, and what the two-pointer
// search find_victim does to the page entries taken in (table, page) order.
module Clock {
  import opened Words

  datatype Algorithm = Clock | ClockM

  // One t_page_table_data; frame and swapPos are -1 when unset.
  datatype Page = Page(frame: int, P: bool, U: bool, M: bool, swapPos: int)

  const FRESH_PAGE := Page(-1, false, false, false, -1)

  // What a search looks for.
  datatype Wanted = Resident | Unused | Clean | UnusedWith(m: bool)

  predicate Wants(w: Wanted, p: Page) {
    p.P && match w
           case Resident => true
           case Unused => !p.U
           case Clean => !p.M
           case UnusedWith(m) => !p.U && p.M == m
  }

  ghost predicate Has(w: Wanted, pages: seq<Page>) {
    exists k :: 0 <= k < |pages| && Wants(w, pages[k])
  }

  // The first wanted page at or after lo; |pages| when there is none.
  function First(w: Wanted, pages: seq<Page>, lo: nat): (k: nat)
    requires lo <= |pages|
    ensures lo <= k <= |pages|
    ensures forall i :: lo <= i < k ==> !Wants(w, pages[i])
    ensures k < |pages| ==> Wants(w, pages[k])
    decreases |pages| - lo
  {
    if lo == |pages| || Wants(w, pages[lo]) then lo else First(w, pages, lo + 1)
  }

  function ClearU(p: Page): Page {
    if p.P then p.(U := false) else p
  }

  // The entries after the U bit of every present page in [lo, hi) was taken away.
  function ClearRange(pages: seq<Page>, lo: nat, hi: nat): (r: seq<Page>)
    requires lo <= hi <= |pages|
    ensures |r| == |pages|
    ensures forall k :: 0 <= k < |r| ==> r[k] == if lo <= k < hi then ClearU(pages[k]) else pages[k]
  {
    seq(|pages|, k requires 0 <= k < |pages| => if lo <= k < hi then ClearU(pages[k]) else pages[k])
  }

  datatype Choice = Choice(victim: nat, pages: seq<Page>)

  // CLOCK-M: which page goes, and which U bits are gone by then.
  function ClockMChoice(pages: seq<Page>, hand: nat): Choice
    requires hand <= |pages|
  {
    var n := |pages|;
    var a := First(UnusedWith(false), pages, hand);
    if a < n then Choice(a, pages)
    else
      var b := First(UnusedWith(true), pages, 0);
      if b < n then Choice(b, ClearRange(pages, 0, b))
      else
        var c := First(Clean, pages, 0);
        Choice(if c < n then c else First(Resident, pages, 0), ClearRange(pages, 0, n))
  }

  // CLOCK: the first present page without U from the hand round; failing that, the first
  // present page from the hand round, every U bit having been taken away.
  function ClockChoice(pages: seq<Page>, hand: nat): Choice
    requires hand <= |pages|
  {
    var n := |pages|;
    var a := First(Unused, pages, hand);
    if a < n then Choice(a, ClearRange(pages, hand, a))
    else
      var b := First(Unused, pages, 0);
      if b < n then Choice(b, ClearRange(ClearRange(pages, hand, n), 0, b))
      else
        var c := First(Resident, pages, hand);
        Choice(if c < n then c else First(Resident, pages, 0), ClearRange(pages, 0, n))
  }

  function FindVictim(algorithm: Algorithm, pages: seq<Page>, hand: nat): Choice
    requires hand <= |pages|
  {
    if algorithm.ClockM? then ClockMChoice(pages, hand) else ClockChoice(pages, hand)
  }

  // is_victim: does this page go in this round, and what is left of it when it does not.
  predicate IsVictim(algorithm: Algorithm, p: Page, round: nat) {
    p.P && !p.U && (algorithm.ClockM? ==> p.M == (round % 2 == 1))
  }

  function Passed(algorithm: Algorithm, p: Page, round: nat): Page {
    if algorithm.Clock? || round % 2 == 1 then ClearU(p) else p
  }

  // What is known when the search stands before entry k in the given round: `pages` are the
  // entries as they are by now, `start` the entries when the search began at `hand`.
  ghost predicate Searching(algorithm: Algorithm, start: seq<Page>, hand: nat, round: nat, k: nat, pages: seq<Page>) {
    var n := |start|;
    hand <= n && k <= n &&
    match algorithm
    case ClockM => SearchingM(start, hand, round, k, pages)
    case Clock =>
      match round
      case 0 => hand <= k && pages == ClearRange(start, hand, k) && First(Unused, start, hand) >= k
      case 1 => && pages == ClearRange(ClearRange(start, hand, n), 0, k)
                && First(Unused, start, hand) == n && (k <= hand ==> First(Unused, start, 0) >= k)
                && (k > hand ==> First(Unused, start, 0) == n && First(Resident, start, hand) >= k)
      case 2 => && pages == ClearRange(start, 0, n) && First(Unused, start, 0) == n
                && First(Resident, start, hand) == n && First(Resident, start, 0) >= k
      case _ => !Has(Resident, start)
  }

  ghost predicate SearchingM(start: seq<Page>, hand: nat, round: nat, k: nat, pages: seq<Page>)
    requires hand <= |start| && k <= |start|
  {
    var n := |start|;
    match round
    case 0 => hand <= k && pages == start && First(UnusedWith(false), start, hand) >= k
    case 1 => && pages == ClearRange(start, 0, k) && First(UnusedWith(false), start, hand) == n
              && First(UnusedWith(true), start, 0) >= k
    case 2 => && pages == ClearRange(start, 0, n) && First(UnusedWith(false), start, hand) == n
              && First(UnusedWith(true), start, 0) == n && First(Clean, start, 0) >= k
    case 3 => && pages == ClearRange(start, 0, n) && First(UnusedWith(false), start, hand) == n
              && First(UnusedWith(true), start, 0) == n && First(Clean, start, 0) == n
              && First(Resident, start, 0) >= k
    case _ => !Has(Resident, start)
  }

  lemma ClearOneMore(pages: seq<Page>, lo: nat, k: nat)
    requires lo <= k < |pages|
    ensures ClearRange(pages, lo, k)[k := ClearU(pages[k])] == ClearRange(pages, lo, k + 1)
  {
  }

  lemma StepM(start: seq<Page>, hand: nat, round: nat, k: nat, pages: seq<Page>)
    requires hand <= |start| && k < |start| && SearchingM(start, hand, round, k, pages) && Has(Resident, start)
    ensures |pages| == |start|
    ensures IsVictim(ClockM, pages[k], round) ==> ClockMChoice(start, hand) == Choice(k, pages)
    ensures !IsVictim(ClockM, pages[k], round) ==>
              SearchingM(start, hand, round, k + 1, pages[k := Passed(ClockM, pages[k], round)])
  {
    if round == 0 {
      assert pages[k := pages[k]] == pages;
    } else if round == 1 {
      ClearOneMore(start, 0, k);
    } else if round == 2 {
      if Wants(UnusedWith(true), start[k]) { assert false; }
      assert pages[k := pages[k]] == pages;
    } else {
      assert Wants(Clean, start[k]) ==> false;
      assert pages[k := ClearU(pages[k])] == pages;
    }
  }

  lemma StepClock(start: seq<Page>, hand: nat, round: nat, k: nat, pages: seq<Page>)
    requires Searching(Clock, start, hand, round, k, pages) && k < |start| && Has(Resident, start)
    ensures |pages| == |start|
    ensures IsVictim(Clock, pages[k], round) ==> ClockChoice(start, hand) == Choice(k, pages)
    ensures !IsVictim(Clock, pages[k], round) ==>
              Searching(Clock, start, hand, round, k + 1, pages[k := Passed(Clock, pages[k], round)])
  {
    if round == 0 {
      ClearOneMore(start, hand, k);
    } else if round == 1 {
      StepClockRound1(start, hand, k, pages);
    } else {
      assert pages[k := ClearU(pages[k])] == pages;
    }
  }

  lemma StepClockRound1(start: seq<Page>, hand: nat, k: nat, pages: seq<Page>)
    requires Searching(Clock, start, hand, 1, k, pages) && k < |start| && Has(Resident, start)
    ensures |pages| == |start|
    ensures IsVictim(Clock, pages[k], 1) ==> ClockChoice(start, hand) == Choice(k, pages)
    ensures !IsVictim(Clock, pages[k], 1) ==> Searching(Clock, start, hand, 1, k + 1, pages[k := ClearU(pages[k])])
  {
    ClearOneMore(ClearRange(start, hand, |start|), 0, k);
    if k >= hand {
      assert ClearRange(ClearRange(start, hand, |start|), 0, k) == ClearRange(start, 0, |start|);
    }
  }

  // One inspection: it either settles the victim or carries the search one entry further.
  lemma SearchStep(algorithm: Algorithm, start: seq<Page>, hand: nat, round: nat, k: nat, pages: seq<Page>)
    requires Has(Resident, start)
    requires Searching(algorithm, start, hand, round, k, pages) && k < |start|
    ensures |pages| == |start|
    ensures IsVictim(algorithm, pages[k], round) ==> FindVictim(algorithm, start, hand) == Choice(k, pages)
    ensures !IsVictim(algorithm, pages[k], round) ==>
              Searching(algorithm, start, hand, round, k + 1, pages[k := Passed(algorithm, pages[k], round)])
  {
    if algorithm.Clock? { StepClock(start, hand, round, k, pages); } else { StepM(start, hand, round, k, pages); }
  }

  lemma SearchWrap(algorithm: Algorithm, start: seq<Page>, hand: nat, round: nat, pages: seq<Page>)
    requires Has(Resident, start)
    requires Searching(algorithm, start, hand, round, |start|, pages)
    ensures Searching(algorithm, start, hand, round + 1, 0, pages)
  {
    if round == 0 {
      assert ClearRange(start, 0, 0) == start;
      assert ClearRange(ClearRange(start, hand, |start|), 0, 0) == ClearRange(start, hand, |start|);
    } else if round == 1 {
      assert ClearRange(ClearRange(start, hand, |start|), 0, |start|) == ClearRange(start, 0, |start|);
    }
  }

  // How many entries were inspected before entry k of the given round.
  function Inspected(n: nat, hand: nat, round: nat, k: nat): int {
    k - hand + match round case 0 => 0 case 1 => n case 2 => 2 * n case 3 => 3 * n case _ => 4 * n
  }

  // The unbounded loop is bounded: 4 rounds and 4N inspections for CLOCK-M, 2N for CLOCK.
  lemma SearchBound(algorithm: Algorithm, start: seq<Page>, hand: nat, round: nat, k: nat, pages: seq<Page>)
    requires Has(Resident, start)
    requires Searching(algorithm, start, hand, round, k, pages)
    ensures round <= 3
    ensures Inspected(|start|, hand, round, k) <= (if algorithm.ClockM? then 4 else 2) * |start|
    ensures k < |start| ==> Inspected(|start|, hand, round, k) < (if algorithm.ClockM? then 4 else 2) * |start|
  {
    if round >= 1 { assert round == 1 || round == 2 || round == 3; }
  }

  // find_victim as the code runs it: round after round over the entries, the first one from the
  // hand. None when the budget of inspections is spent without a victim.
  function Scan(algorithm: Algorithm, pages: seq<Page>, round: nat, k: nat, budget: nat): Option<Choice>
    decreases budget, if k >= |pages| then 1 else 0
  {
    if pages == [] then None
    else if k >= |pages| then Scan(algorithm, pages, round + 1, 0, budget)
    else if budget == 0 then None
    else if IsVictim(algorithm, pages[k], round) then Some(Choice(k, pages))
    else Scan(algorithm, pages[k := Passed(algorithm, pages[k], round)], round, k + 1, budget - 1)
  }

  // The scan that stands before entry k, with this budget, ends with this choice.
  predicate ScanEnds(algorithm: Algorithm, pages: seq<Page>, round: nat, k: nat, budget: nat, choice: Choice) {
    Scan(algorithm, pages, round, k, budget) == Some(choice)
  }

  function ScanLimit(algorithm: Algorithm, n: nat): nat {
    if algorithm.ClockM? then 4 * n else 2 * n
  }

  lemma {:induction false} ScanFrom(algorithm: Algorithm, start: seq<Page>, hand: nat, round: nat, k: nat,
                                    pages: seq<Page>, budget: nat)
    requires Has(Resident, start)
    requires Searching(algorithm, start, hand, round, k, pages)
    requires budget >= ScanLimit(algorithm, |start|) - Inspected(|start|, hand, round, k)
    ensures |pages| == |start|
    ensures Scan(algorithm, pages, round, k, budget) == Some(FindVictim(algorithm, start, hand))
    decreases budget, if k == |start| then 1 else 0
  {
    SearchBound(algorithm, start, hand, round, k, pages);
    if k == |start| {
      SearchWrap(algorithm, start, hand, round, pages);
      SearchBound(algorithm, start, hand, round + 1, 0, pages);
      ScanFrom(algorithm, start, hand, round + 1, 0, pages, budget);
    } else {
      SearchStep(algorithm, start, hand, round, k, pages);
      if !IsVictim(algorithm, pages[k], round) {
        ScanFrom(algorithm, start, hand, round, k + 1, pages[k := Passed(algorithm, pages[k], round)], budget - 1);
      }
    }
  }

  // With a present page the search always ends, within 4N inspections for CLOCK-M and 2N for
  // CLOCK, and takes exactly the page the closed forms name.
  lemma ScanFindsVictim(algorithm: Algorithm, pages: seq<Page>, hand: nat)
    requires Has(Resident, pages) && hand <= |pages|
    ensures Scan(algorithm, pages, 0, hand, ScanLimit(algorithm, |pages|)) == Some(FindVictim(algorithm, pages, hand))
  {
    assert ClearRange(pages, hand, hand) == pages;
    ScanFrom(algorithm, pages, hand, 0, hand, pages, ScanLimit(algorithm, |pages|));
  }

  // A victim is a present page with U = 0 by then; nothing but U bits of present pages changes.
  lemma ChoiceEffect(algorithm: Algorithm, pages: seq<Page>, hand: nat)
    requires hand <= |pages| && Has(Resident, pages)
    ensures var c := FindVictim(algorithm, pages, hand);
            && |c.pages| == |pages| && c.victim < |pages|
            && c.pages[c.victim].P && !c.pages[c.victim].U
            && forall k :: 0 <= k < |pages| ==> c.pages[k] == pages[k] || c.pages[k] == ClearU(pages[k])
  {
  }

  // CLOCK gives a second chance: a recently used page goes only when every present page is recently used.
  lemma SecondChance(pages: seq<Page>, hand: nat)
    requires hand <= |pages| && Has(Resident, pages)
    ensures pages[ClockChoice(pages, hand).victim].U <==> !Has(Unused, pages)
  {
    ChoiceEffect(Clock, pages, hand);
  }

  // CLOCK read as one hand going round: stop at the first unused present page, else take its U
  // bit away and move on, wrapping at the end.
  function CircularScan(pages: seq<Page>, k: nat, budget: nat): Choice
    requires k < |pages|
    decreases budget
  {
    if Wants(Unused, pages[k]) || budget == 0 then Choice(k, pages)
    else CircularScan(pages[k := ClearU(pages[k])], if k + 1 == |pages| then 0 else k + 1, budget - 1)
  }

  // The hand that stands on entry k, with this budget, ends with this choice.
  predicate CircularEnds(pages: seq<Page>, k: nat, budget: nat, choice: Choice)
    requires k < |pages|
  {
    CircularScan(pages, k, budget) == choice
  }

  lemma CircularStep(pages: seq<Page>, k: nat, budget: nat, choice: Choice)
    requires k < |pages| && !Wants(Unused, pages[k]) && budget > 0
    requires CircularEnds(pages[k := ClearU(pages[k])], if k + 1 == |pages| then 0 else k + 1, budget - 1, choice)
    ensures CircularEnds(pages, k, budget, choice)
  {
  }

  lemma {:induction false} CircularFrom(start: seq<Page>, hand: nat, round: nat, k: nat, pages: seq<Page>, budget: nat)
    requires Has(Resident, start) && hand < |start| && k < |start|
    requires Searching(Clock, start, hand, round, k, pages)
    requires budget >= 2 * |start| - Inspected(|start|, hand, round, k)
    ensures |pages| == |start| && CircularEnds(pages, k, budget, ClockChoice(start, hand))
    decreases budget
  {
    SearchBound(Clock, start, hand, round, k, pages);
    SearchStep(Clock, start, hand, round, k, pages);
    if !IsVictim(Clock, pages[k], round) {
      var next := pages[k := ClearU(pages[k])];
      if k + 1 < |start| {
        CircularFrom(start, hand, round, k + 1, next, budget - 1);
      } else {
        SearchWrap(Clock, start, hand, round, next);
        SearchBound(Clock, start, hand, round + 1, 0, next);
        CircularFrom(start, hand, round + 1, 0, next, budget - 1);
      }
      CircularStep(pages, k, budget, ClockChoice(start, hand));
    }
  }

  // The two nested loops with wrapping pointers are that single hand, within two turns.
  lemma ClockIsCircular(pages: seq<Page>, hand: nat)
    requires Has(Resident, pages) && hand < |pages|
    ensures CircularScan(pages, hand, 2 * |pages|) == ClockChoice(pages, hand)
  {
    assert ClearRange(pages, hand, hand) == pages;
    CircularFrom(pages, hand, 0, hand, pages, 2 * |pages|);
  }

  // CLOCK-M is meant to prefer a (U,M) = (0,0) page. It does so exactly when one lies at or after
  // the hand, or when no (0,1) page exists and no (1,0) page comes before the first (0,0).
  lemma PrefersUnusedClean(pages: seq<Page>, hand: nat)
    requires hand <= |pages| && Has(UnusedWith(false), pages)
    ensures Wants(UnusedWith(false), pages[ClockMChoice(pages, hand).victim]) <==>
            || First(UnusedWith(false), pages, hand) < |pages|
            || (&& !Has(UnusedWith(true), pages)
                && forall k :: 0 <= k < First(UnusedWith(false), pages, 0) ==> !Wants(Clean, pages[k]))
  {
    var z := First(UnusedWith(false), pages, 0);
    if First(UnusedWith(false), pages, hand) == |pages| && !Has(UnusedWith(true), pages) {
      var c := First(Clean, pages, 0);
      assert Wants(Clean, pages[z]) && c <= z;
      assert ClockMChoice(pages, hand).victim == c;
    }
  }

  // A page with (U,M) = (1,1) goes exactly when every present page is (1,1).
  lemma LastResort(pages: seq<Page>, hand: nat)
    requires hand <= |pages| && Has(Resident, pages)
    ensures var v := ClockMChoice(pages, hand).victim;
            v < |pages| && (pages[v].U && pages[v].M <==> !Has(Unused, pages) && !Has(Clean, pages))
  {
    ChoiceEffect(ClockM, pages, hand);
    var v := ClockMChoice(pages, hand).victim;
    if pages[v].U && pages[v].M {
      forall k | 0 <= k < |pages| && pages[k].P ensures pages[k].U && pages[k].M {
        assert !Wants(Clean, pages[k]) && !Wants(UnusedWith(true), pages[k]);
      }
    } else {
      assert Wants(Unused, pages[v]) || Wants(Clean, pages[v]);
    }
  }
}
