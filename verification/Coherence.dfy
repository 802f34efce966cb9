// The TLB against page tables that change under it: memoria's kernel thread moves pages and sends
// one invalidation per frame; the CPU's consistency thread reads and applies them when it gets the
// TLB lock; the CPU holds that lock from looking a page up to the end of the access.
module Coherence {
  import opened Words
  import opened TlbQueue
  import opened Clock
  import opened Paging

  // Where memoria's kernel thread is in resolve_page_fault.
  datatype Resolving = Idle | Claimed(frame: nat) | Installed(frame: nat)

  // Where the CPU is in mov_execute. Leaked: past a MOV whose lock was never released.
  datatype Phase = Free | Asking(key: Key) | Answered(reply: Cached)
                 | Accessing(used: Cached) | Hit(used: Cached) | Leaked

  datatype System = System(
    resident: map<Key, nat>,     // the present pages and their frames
    resolving: Resolving,
    queue: seq<nat>,             // invalidations sent and not read yet
    received: Option<nat>,       // read by the consistency thread, not applied yet
    tlb: seq<Cached>,
    cpu: Phase,
    alive: set<int>,             // processes started and not past EXIT
    lru: bool,
    capacity: nat,
    unlocksOnHit: bool)          // false in the code as shipped

  datatype Step =
    | Claim(frame: nat) | Install(key: Key) | Send
    | Receive | ApplyInvalidation
    | Look(key: Key) | Answer | Fill | Done
    | Start(pid: int) | Exit(pid: int) | FinishPages(pid: int)

  predicate LockHeld(s: System) {
    !s.cpu.Free?
  }

  // An invalidation of this frame has still to be applied.
  ghost predicate Pending(s: System, frame: nat) {
    || (!s.resolving.Idle? && s.resolving.frame == frame)
    || frame in s.queue
    || s.received == Some(frame)
  }

  ghost predicate Enabled(s: System, step: Step) {
    match step
    case Claim(_) => s.resolving.Idle?
    case Install(key) => s.resolving.Claimed? && key !in s.resident && key.pid in s.alive
    case Send => s.resolving.Installed?
    case Receive => s.received.None? && s.queue != []
    case ApplyInvalidation => s.received.Some? && !LockHeld(s)
    case Look(key) => s.cpu.Free? && key.pid in s.alive
    case Answer => s.cpu.Asking?
    case Fill => s.cpu.Answered?
    case Done => s.cpu.Accessing? || s.cpu.Hit?
    case Start(pid) => pid !in s.alive && (forall key :: key in s.resident ==> key.pid != pid)
    case Exit(pid) => (s.cpu.Free? || s.cpu.Leaked?) && pid in s.alive
    case FinishPages(pid) => s.resolving.Idle? && pid !in s.alive
  }

  ghost function Do(s: System, step: Step): System
    requires Enabled(s, step)
  {
    match step
    // find_free_frame: the frame is free, or its page loses it.
    case Claim(frame) =>
      s.(resident := map key | key in s.resident && s.resident[key] != frame :: s.resident[key],
         resolving := Claimed(frame))
    case Install(key) => s.(resident := s.resident[key := s.resolving.frame], resolving := Installed(s.resolving.frame))
    case Send => s.(queue := s.queue + [s.resolving.frame], resolving := Idle)
    case Receive => s.(queue := s.queue[1..], received := Some(s.queue[0]))
    case ApplyInvalidation => s.(tlb := Purge(s.tlb, OfFrame(s.received.value)), received := None)
    case Look(key) =>
      var (tlb, hit) := Lookup(s.tlb, s.lru, key);
      s.(tlb := tlb, cpu := if hit.Some? then Hit(hit.value) else Asking(key))
    // frame_access: a frame, or a page fault and the lock is released.
    case Answer =>
      var key := s.cpu.key;
      s.(cpu := if key in s.resident then Answered(Cached(key, s.resident[key])) else Free)
    case Fill => s.(tlb := Insert(s.tlb, s.capacity, s.cpu.reply), cpu := Accessing(s.cpu.reply))
    case Done => s.(cpu := if s.cpu.Hit? && !s.unlocksOnHit then Leaked else Free)
    case Start(pid) => s.(alive := s.alive + {pid})
    case Exit(pid) => s.(tlb := Purge(s.tlb, OfPid(pid)), alive := s.alive - {pid})
    case FinishPages(pid) => s.(resident := map key | key in s.resident && key.pid != pid :: s.resident[key])
  }

  // A translation is good, or the invalidation that will take it out is on its way.
  ghost predicate Backed(s: System, c: Cached) {
    (c.key in s.resident && s.resident[c.key] == c.frame) || Pending(s, c.frame)
  }

  ghost predicate FramesUnique(resident: map<Key, nat>) {
    forall a, b :: a in resident && b in resident && a != b ==> resident[a] != resident[b]
  }

  ghost predicate Inv(s: System) {
    && FramesUnique(s.resident)
    && (s.resolving.Claimed? ==> forall key :: key in s.resident ==> s.resident[key] != s.resolving.frame)
    && KeysUnique(s.tlb) && |s.tlb| <= s.capacity
    && (forall c :: c in s.tlb ==> Backed(s, c) && c.key.pid in s.alive)
    && (s.cpu.Asking? ==> Find(s.tlb, s.cpu.key).None? && s.cpu.key.pid in s.alive)
    && (s.cpu.Answered? ==>
          && Find(s.tlb, s.cpu.reply.key).None? && s.cpu.reply.key.pid in s.alive
          && Backed(s, s.cpu.reply))
    && (s.cpu.Accessing? || s.cpu.Hit? ==> s.cpu.used.key.pid in s.alive && Backed(s, s.cpu.used))
  }

  // Moving a frame: whoever relied on its old page now has its invalidation on the way.
  lemma KeepsBacked(s: System, s': System)
    requires forall c: Cached :: Backed(s, c) && c.key.pid in s.alive ==> Backed(s', c)
    requires s'.tlb == s.tlb && s'.cpu == s.cpu && s'.alive == s.alive && s'.capacity == s.capacity
    requires FramesUnique(s'.resident)
    requires s'.resolving.Claimed? ==> forall key :: key in s'.resident ==> s'.resident[key] != s'.resolving.frame
    requires Inv(s)
    ensures Inv(s')
  {
  }

  lemma StepKeepsInv(s: System, step: Step)
    requires Inv(s) && Enabled(s, step)
    ensures Inv(Do(s, step))
  {
    var s' := Do(s, step);
    match step
    case Claim(frame) => KeepsBacked(s, s');
    case Install(key) => KeepsBacked(s, s');
    case Send => KeepsBacked(s, s');
    case Receive =>
      assert s.queue == [s.queue[0]] + s.queue[1..];
      KeepsBacked(s, s');
    case ApplyInvalidation =>
      PurgeUnique(s.tlb, OfFrame(s.received.value));
      PurgeIn(s.tlb, OfFrame(s.received.value));
    case Look(key) =>
      FindIn(s.tlb, key);
      LookKeeps(s, key);
    case Answer =>
    case Fill =>
      FindIn(s.tlb, s.cpu.reply.key);
      FillKeeps(s);
    case Done =>
    case Start(pid) =>
    case Exit(pid) =>
      PurgeUnique(s.tlb, OfPid(pid));
      PurgeIn(s.tlb, OfPid(pid));
    case FinishPages(pid) => KeepsBacked(s, s');
  }

  lemma LookKeeps(s: System, key: Key)
    requires Inv(s) && Enabled(s, Look(key))
    ensures Inv(Do(s, Look(key)))
  {
    FindIn(s.tlb, key);
    var hit := Find(s.tlb, key);
    if hit.Some? {
      AccessKeeps(s.tlb, s.lru, s.capacity, hit.value);
    }
  }

  lemma FillKeeps(s: System)
    requires Inv(s) && Enabled(s, Fill)
    ensures Inv(Do(s, Fill))
  {
    var c := s.cpu.reply;
    FindIn(s.tlb, c.key);
    AccessKeeps(s.tlb, false, s.capacity, c);
    assert Access(s.tlb, false, s.capacity, c) == Insert(s.tlb, s.capacity, c);
  }

  // Step i leads from state i to the next.
  ghost predicate Next(states: seq<System>, steps: seq<Step>, i: nat)
    requires |states| == |steps| + 1 && i < |steps|
  {
    Enabled(states[i], steps[i]) && states[i + 1] == Do(states[i], steps[i])
  }

  ghost predicate Run(states: seq<System>, steps: seq<Step>) {
    && |states| == |steps| + 1
    && forall i: nat {:trigger Next(states, steps, i)} :: i < |steps| ==> Next(states, steps, i)
  }

  ghost predicate Initial(s: System) {
    s.resident == map[] && s.resolving.Idle? && s.queue == [] && s.received.None? && s.tlb == [] && s.cpu.Free?
  }

  // However the threads interleave, every TLB entry and every frame the CPU holds is right, or an
  // invalidation of that frame is still pending.
  lemma {:induction false} CoherentAlways(states: seq<System>, steps: seq<Step>, i: nat)
    requires Run(states, steps) && Initial(states[0]) && i < |states|
    ensures Inv(states[i])
    decreases i
  {
    if i > 0 {
      CoherentAlways(states, steps, i - 1);
      assert Next(states, steps, i - 1);
      StepKeepsInv(states[i - 1], steps[i - 1]);
    }
  }

  // The frames whose invalidation was sent, and those whose invalidation was applied, in that order.
  function SentFrames(states: seq<System>, steps: seq<Step>, n: nat): seq<nat>
    requires n <= |steps| && n <= |states|
  {
    if n == 0 then []
    else
      SentFrames(states, steps, n - 1)
      + if steps[n - 1].Send? && states[n - 1].resolving.Installed? then [states[n - 1].resolving.frame] else []
  }

  function AppliedFrames(states: seq<System>, steps: seq<Step>, n: nat): seq<nat>
    requires n <= |steps| && n <= |states|
  {
    if n == 0 then []
    else
      AppliedFrames(states, steps, n - 1)
      + if steps[n - 1].ApplyInvalidation? && states[n - 1].received.Some? then [states[n - 1].received.value] else []
  }

  function OnTheWay(s: System): seq<nat> {
    (if s.received.Some? then [s.received.value] else []) + s.queue
  }

  // Every invalidation sent is applied once, in the order sent, or is still on its way.
  lemma {:induction false} InvalidationsInOrder(states: seq<System>, steps: seq<Step>, n: nat)
    requires Run(states, steps) && Initial(states[0]) && n < |states|
    ensures SentFrames(states, steps, n) == AppliedFrames(states, steps, n) + OnTheWay(states[n])
    decreases n
  {
    if n != 0 {
      InvalidationsInOrder(states, steps, n - 1);
      assert Next(states, steps, n - 1);
      OneMoreSent(states[n - 1], steps[n - 1], states[n]);
    }
  }

  lemma OneMoreSent(s: System, step: Step, s': System)
    requires Enabled(s, step) && s' == Do(s, step)
    ensures (if step.ApplyInvalidation? then [s.received.value] else []) + OnTheWay(s')
         == OnTheWay(s) + if step.Send? then [s.resolving.frame] else []
  {
    if step.Receive? { assert s.queue == [s.queue[0]] + s.queue[1..]; }
  }

  // An invalidation takes out of the TLB exactly the entries of its frame, and the end of a process exactly
  // its own.
  lemma TakenOut(s: System, step: Step)
    requires Enabled(s, step)
    ensures step == ApplyInvalidation ==>
              forall c :: c in Do(s, step).tlb <==> c in s.tlb && c.frame != s.received.value
    ensures step.Exit? ==> forall c :: c in Do(s, step).tlb <==> c in s.tlb && c.key.pid != step.pid
  {
    if step == ApplyInvalidation { PurgeIn(s.tlb, OfFrame(s.received.value)); }
    if step.Exit? { PurgeIn(s.tlb, OfPid(step.pid)); }
  }

  // Once nothing is pending the TLB is a one-to-one part of the page tables.
  lemma QuietIsCoherent(s: System)
    requires Inv(s) && s.resolving.Idle? && s.queue == [] && s.received.None?
    ensures forall c :: c in s.tlb ==> c.key in s.resident && s.resident[c.key] == c.frame
    ensures forall i, j :: 0 <= i < j < |s.tlb| ==> s.tlb[i].key != s.tlb[j].key && s.tlb[i].frame != s.tlb[j].frame
  {
    forall i, j | 0 <= i < j < |s.tlb|
      ensures s.tlb[i].key != s.tlb[j].key && s.tlb[i].frame != s.tlb[j].frame
    {
      assert s.tlb[i] in s.tlb && s.tlb[j] in s.tlb;
    }
  }

  // A step and a run after it.
  lemma Before(s: System, step: Step, states: seq<System>, steps: seq<Step>)
    returns (states': seq<System>, steps': seq<Step>)
    requires Enabled(s, step) && Run(states, steps) && states[0] == Do(s, step)
    ensures Run(states', steps') && states' == [s] + states && steps' == [step] + steps
  {
    states', steps' := [s] + states, [step] + steps;
    forall i: nat | i < |steps'| ensures Next(states', steps', i) {
      if i > 0 { assert Next(states, steps, i - 1); }
    }
  }

  // With the lock left alone, the consistency thread gets there: it alone can empty what is pending.
  lemma {:induction false} DrainsToQuiet(s: System) returns (states: seq<System>, steps: seq<Step>)
    requires Inv(s) && s.cpu.Free? && s.resolving.Idle?
    ensures Run(states, steps) && states[0] == s
    ensures forall i :: 0 <= i < |steps| ==> steps[i].Receive? || steps[i].ApplyInvalidation?
    ensures var last := states[|states| - 1];
            last.queue == [] && last.received.None? && last.resident == s.resident && last.resolving.Idle?
    decreases |s.queue|, if s.received.Some? then 1 else 0
  {
    states, steps := [s], [];
    if s.received.Some? || s.queue != [] {
      var step := if s.received.Some? then ApplyInvalidation else Receive;
      StepKeepsInv(s, step);
      var mid := if s.received.Some? then Do(s, step) else Do(Do(s, step), ApplyInvalidation);
      if s.received.None? { StepKeepsInv(Do(s, step), ApplyInvalidation); }
      var restStates, restSteps := DrainsToQuiet(mid);
      states, steps := restStates, restSteps;
      if s.received.None? {
        states, steps := Before(Do(s, step), ApplyInvalidation, states, steps);
      }
      states, steps := Before(s, step, states, steps);
    }
  }

  // As shipped: the lock is taken for good.
  predicate LockStuck(s: System) {
    !s.unlocksOnHit && (s.cpu.Hit? || s.cpu.Leaked?)
  }

  lemma StuckStep(s: System, step: Step)
    requires LockStuck(s) && Enabled(s, step)
    ensures LockStuck(Do(s, step)) && !step.Look? && !step.ApplyInvalidation?
  {
  }

  // As shipped, one TLB hit is the last translation: the lock stays taken, so no page is looked up
  // and no invalidation applied ever again.
  lemma {:induction false} ShippedHitIsLast(states: seq<System>, steps: seq<Step>, i: nat, j: nat)
    requires Run(states, steps) && i <= j < |steps|
    requires LockStuck(states[i])
    ensures LockStuck(states[j]) && !steps[j].Look? && !steps[j].ApplyInvalidation?
    decreases j
  {
    if i != j {
      ShippedHitIsLast(states, steps, i, j - 1);
      assert Next(states, steps, j - 1);
      StuckStep(states[j - 1], steps[j - 1]);
    }
    assert Next(states, steps, j);
    StuckStep(states[j], steps[j]);
  }

  // The guard of the branch that does not unlock: a page looked up and found.
  ghost predicate FoundAt(states: seq<System>, steps: seq<Step>, i: nat)
    requires i < |steps| && i < |states|
  {
    steps[i].Look? && Find(states[i].tlb, steps[i].key).Some?
  }

  // As shipped, the lock is stuck exactly when some page looked up so far was in the TLB.
  lemma {:induction false} ShippedStuckIff(states: seq<System>, steps: seq<Step>, n: nat)
    requires Run(states, steps) && Initial(states[0]) && !states[0].unlocksOnHit && n < |states|
    ensures !states[n].unlocksOnHit
    ensures LockStuck(states[n]) <==> exists i: nat :: i < n && FoundAt(states, steps, i)
    decreases n
  {
    if n > 0 {
      ShippedStuckIff(states, steps, n - 1);
      assert Next(states, steps, n - 1);
      var s := states[n - 1];
      if s.cpu.Hit? || s.cpu.Leaked? {
        var i: nat :| i < n - 1 && FoundAt(states, steps, i);
        assert i < n;
      } else if FoundAt(states, steps, n - 1) {
        assert states[n].cpu.Hit?;
      }
    }
  }

  // ---------- Concrete runs ----------

  ghost function Last(states: seq<System>): System
    requires states != []
  {
    states[|states| - 1]
  }

  // A run and one more step.
  lemma Then(states: seq<System>, steps: seq<Step>, step: Step, after: System)
    returns (states': seq<System>, steps': seq<Step>)
    requires Run(states, steps) && Enabled(Last(states), step) && after == Do(Last(states), step)
    ensures Run(states', steps') && states' == states + [after] && steps' == steps + [step]
  {
    states', steps' := states + [after], steps + [step];
    forall i: nat | i < |steps'| ensures Next(states', steps', i) {
      if i < |steps| { assert Next(states, steps, i); }
    }
  }

  const K := Key(1, 0, 0)

  // One process, one page, one TLB entry; nothing has happened yet.
  const START := System(map[], Idle, [], None, [], Free, {}, true, 1, false)

  // The process starts, faults on its page and gets it in frame 0, the invalidation applied; its MOV
  // then misses the TLB and stands at `cpu` with `tlb` behind it.
  ghost function Brought(cpu: Phase, tlb: seq<Cached>): System {
    START.(alive := {1}, resident := map[K := 0], cpu := cpu, tlb := tlb)
  }

  lemma PageInstalled() returns (states: seq<System>, steps: seq<Step>)
    ensures Run(states, steps) && states[0] == START
    ensures Last(states) == Brought(Free, []).(resolving := Installed(0))
    ensures steps == [Start(1), Claim(0), Install(K)]
  {
    states, steps := [START], [];
    var s := START.(alive := {1});
    states, steps := Then(states, steps, Start(1), s);
    s := s.(resolving := Claimed(0));
    states, steps := Then(states, steps, Claim(0), s);
    s := s.(resident := map[K := 0], resolving := Installed(0));
    states, steps := Then(states, steps, Install(K), s);
  }

  lemma PageBrought() returns (states: seq<System>, steps: seq<Step>)
    ensures Run(states, steps) && states[0] == START && Last(states) == Brought(Free, [])
    ensures steps == [Start(1), Claim(0), Install(K), Send, Receive, ApplyInvalidation]
  {
    states, steps := PageInstalled();
    var s := Brought(Free, []);
    states, steps := Then(states, steps, Send, s.(queue := [0]));
    states, steps := Then(states, steps, Receive, s.(received := Some(0)));
    states, steps := Then(states, steps, ApplyInvalidation, s);
  }

  const C := Cached(K, 0)

  // A MOV on that page misses the TLB: it asks, and puts the frame in.
  lemma MissFilled(states: seq<System>, steps: seq<Step>) returns (states': seq<System>, steps': seq<Step>)
    requires Run(states, steps) && Last(states) == Brought(Free, [])
    ensures Run(states', steps') && states' != [] && states'[0] == states[0]
    ensures Last(states') == Brought(Accessing(C), [C]) && steps' == steps + [Look(K), Answer, Fill]
  {
    states', steps' := Then(states, steps, Look(K), Brought(Asking(K), []));
    states', steps' := Then(states', steps', Answer, Brought(Answered(C), []));
    assert Insert([], 1, C) == [C];
    states', steps' := Then(states', steps', Fill, Brought(Accessing(C), [C]));
  }

  // The MOV ends, and the next one on that page finds it.
  lemma HitNext(states: seq<System>, steps: seq<Step>) returns (states': seq<System>, steps': seq<Step>)
    requires Run(states, steps) && Last(states) == Brought(Accessing(C), [C])
    ensures Run(states', steps') && states' != [] && states'[0] == states[0]
    ensures Last(states').cpu == Hit(C) && steps' == steps + [Done, Look(K)]
  {
    states', steps' := Then(states, steps, Done, Brought(Free, [C]));
    OneEntry(C, K, OfKey(K));
    states', steps' := Then(states', steps', Look(K), Brought(Hit(C), [C]));
  }

  // Two MOVs on one page: with the code as shipped the second one finds it in the TLB and takes the
  // lock for good.
  lemma ShippedGetsStuck() returns (states: seq<System>, steps: seq<Step>)
    ensures Run(states, steps) && Initial(states[0]) && !states[0].unlocksOnHit
    ensures steps == [Start(1), Claim(0), Install(K), Send, Receive, ApplyInvalidation, Look(K), Answer, Fill, Done,
                      Look(K)]
    ensures Last(states).cpu == Hit(C)
  {
    states, steps := PageBrought();
    states, steps := MissFilled(states, steps);
    states, steps := HitNext(states, steps);
  }

  // ---------- A MOV split by a fault resolution ----------

  // The translation the CPU is using.
  ghost predicate Using(s: System, c: Cached) {
    s.cpu == Answered(c) || s.cpu == Accessing(c) || s.cpu == Hit(c)
  }

  ghost predicate Mapped(s: System, c: Cached) {
    c.key in s.resident && s.resident[c.key] == c.frame
  }

  // Until the access is over one step makes its translation wrong: handing the frame out.
  lemma AccessStep(s: System, step: Step, c: Cached)
    requires Inv(s) && Enabled(s, step) && Using(s, c) && step != Done
    ensures Using(Do(s, step), c)
    ensures Mapped(s, c) ==> (Mapped(Do(s, step), c) <==> step != Claim(c.frame))
  {
  }

  ghost predicate MappedAt(states: seq<System>, k: nat, c: Cached)
    requires k < |states|
  {
    Mapped(states[k], c)
  }

  ghost predicate ClaimsAt(steps: seq<Step>, k: nat, frame: nat)
    requires k < |steps|
  {
    steps[k] == Claim(frame)
  }

  // While the CPU is at one access, from state i to state j.
  ghost predicate SameAccess(states: seq<System>, steps: seq<Step>, i: nat, j: nat, c: Cached) {
    && Run(states, steps) && Initial(states[0]) && i <= j < |states|
    && Using(states[i], c) && forall k :: i <= k < j ==> steps[k] != Done
  }

  lemma {:induction false} StillUsing(states: seq<System>, steps: seq<Step>, i: nat, j: nat, c: Cached)
    requires SameAccess(states, steps, i, j, c)
    ensures Inv(states[j]) && Using(states[j], c)
    decreases j
  {
    CoherentAlways(states, steps, j);
    if i < j {
      StillUsing(states, steps, i, j - 1, c);
      assert Next(states, steps, j - 1);
      AccessStep(states[j - 1], steps[j - 1], c);
    }
  }

  lemma {:induction false} StillMapped(states: seq<System>, steps: seq<Step>, i: nat, j: nat, c: Cached)
    requires SameAccess(states, steps, i, j, c) && !Pending(states[i], c.frame)
    requires forall k: nat :: i <= k < j ==> !ClaimsAt(steps, k, c.frame)
    ensures MappedAt(states, j, c)
    decreases j
  {
    if i < j {
      StillMapped(states, steps, i, j - 1, c);
      StillUsing(states, steps, i, j - 1, c);
      assert Next(states, steps, j - 1) && !ClaimsAt(steps, j - 1, c.frame) && MappedAt(states, j - 1, c);
      AccessStep(states[j - 1], steps[j - 1], c);
    } else {
      CoherentAlways(states, steps, i);
      assert Backed(states[i], c);
    }
  }

  // A translation with nothing pending for its frame when the CPU got it is right all through the
  // access exactly when memoria does not hand that frame out in between.
  lemma AccessUndisturbed(states: seq<System>, steps: seq<Step>, i: nat, j: nat, c: Cached)
    requires SameAccess(states, steps, i, j, c) && !Pending(states[i], c.frame)
    ensures (forall k: nat :: i <= k <= j ==> MappedAt(states, k, c)) <==>
            (forall k: nat :: i <= k < j ==> !ClaimsAt(steps, k, c.frame))
  {
    if forall k: nat :: i <= k < j ==> !ClaimsAt(steps, k, c.frame) {
      forall k: nat | i <= k <= j ensures MappedAt(states, k, c) { StillMapped(states, steps, i, k, c); }
    } else {
      var k: nat :| i <= k < j && ClaimsAt(steps, k, c.frame);
      StillUsing(states, steps, i, k, c);
      assert Next(states, steps, k);
      AccessStep(states[k], steps[k], c);
      assert MappedAt(states, k, c) ==> !MappedAt(states, k + 1, c);
    }
  }

  // If it does hand it out, the word moves in a frame that is no longer the page's.
  lemma AccessDisturbed() returns (states: seq<System>, steps: seq<Step>)
    ensures Run(states, steps) && Initial(states[0])
    ensures steps == [Start(1), Claim(0), Install(K), Send, Receive, ApplyInvalidation, Look(K), Answer, Fill, Claim(0)]
    ensures Using(Last(states), C) && !Mapped(Last(states), C)
  {
    states, steps := PageBrought();
    states, steps := MissFilled(states, steps);
    var s := Brought(Accessing(C), [C]).(resident := map[], resolving := Claimed(0));
    states, steps := Then(states, steps, Claim(0), s);
  }

  // ---------- The memory server really moves pages this way ----------

  // `names` are the names the CPU knows the page entries by; the present ones are those in `resident`.
  ghost predicate Describes(resident: map<Key, nat>, m: Mem, names: seq<Key>) {
    && |names| == |m.pages|
    && (forall j, k :: 0 <= j < k < |names| ==> names[j] != names[k])
    && (forall key :: key in resident ==> key in names)
    && (forall k :: 0 <= k < |names| ==>
          && (names[k] in resident <==> m.pages[k].P)
          && (m.pages[k].P ==> resident[names[k]] == m.pages[k].frame))
  }

  // resolve_page_fault is a Claim of the frame it hands out and an Install of the page it was asked for.
  lemma FaultIsClaimInstall(s: System, m: Mem, t: Latest, names: seq<Key>, k: nat)
    requires Sound(m, t) && Describes(s.resident, m, names)
    requires k < |m.pages| && !m.pages[k].P && s.resolving.Idle? && names[k].pid in s.alive
    ensures var (m', f) := ResolveFault(m, k);
            && Enabled(s, Claim(f)) && Enabled(Do(s, Claim(f)), Install(names[k]))
            && Describes(Do(Do(s, Claim(f)), Install(names[k])).resident, m', names)
  {
    var (m', f) := ResolveFault(m, k);
    ResolveFaultSound(m, t, k);
    var resident := Do(Do(s, Claim(f)), Install(names[k])).resident;
    forall j | 0 <= j < |names|
      ensures names[j] in resident <==> m'.pages[j].P
      ensures m'.pages[j].P ==> resident[names[j]] == m'.pages[j].frame
    {
      if j != k { ResolveFaultEffect(m, k, j); }
    }
  }

  // process_finished is a FinishPages of the process whose pages its segment table lists.
  lemma FinishIsFinishPages(s: System, m: Mem, t: Latest, names: seq<Key>, segments: seq<Segment>, pid: int)
    requires Sound(m, t) && Describes(s.resident, m, names) && TablesExist(m, segments)
    requires forall k :: 0 <= k < |names| ==> (names[k].pid == pid <==> Within(m, segments, k))
    requires Enabled(s, FinishPages(pid))
    ensures Describes(Do(s, FinishPages(pid)).resident, FinishProcess(m, segments), names)
  {
    forall k | 0 <= k < |names|
      ensures FinishProcess(m, segments).pages[k] == if names[k].pid == pid then FRESH_PAGE else m.pages[k]
    {
      FinishProcessAt(m, t, segments, k);
    }
  }
}
