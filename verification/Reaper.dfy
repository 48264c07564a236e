/** The retire queue of the churn modes in repro-c.c: a ring of 128 slots between the thread
    that retires mappings and the reaper thread that unmaps them. */
module Reaper {
  import opened Text

  /** A retired mapping: address and length. */
  datatype Mapping = Mapping(ptr: int, len: nat)

  const SLOTS: nat := 128

  // The critical sections on an abstract queue.

  predicate Full(q: seq<Mapping>) { |q| == SLOTS - 1 }

  // The ring itself.

  function Index(tail: nat, i: nat): (k: nat)
    ensures k < SLOTS
  {
    (tail + i) % SLOTS
  }

  /** The n slots from tail on, wrapping around. */
  function Window(slots: seq<Mapping>, tail: nat, n: nat): (q: seq<Mapping>)
    requires |slots| == SLOTS
    ensures |q| == n && forall i :: 0 <= i < n ==> q[i] == slots[Index(tail, i)]
  {
    seq(n, i requires 0 <= i < n => slots[Index(tail, i)])
  }

  lemma IndicesDiffer(tail: nat, i: nat, j: nat)
    requires i < j < SLOTS
    ensures Index(tail, i) != Index(tail, j)
  {
  }

  /** A push writes the one slot behind the occupied ones. */
  lemma WindowGrows(slots: seq<Mapping>, tail: nat, n: nat, m: Mapping)
    requires |slots| == SLOTS && n + 1 < SLOTS
    ensures forall i :: 0 <= i < n ==> Index(tail, i) != Index(tail, n)
    ensures Window(slots[Index(tail, n) := m], tail, n + 1) == Window(slots, tail, n) + [m]
  {
    forall i | 0 <= i < n ensures Index(tail, i) != Index(tail, n) { IndicesDiffer(tail, i, n); }
  }

  lemma WindowShrinks(slots: seq<Mapping>, tail: nat, n: nat)
    requires |slots| == SLOTS && 0 < n < SLOTS && tail < SLOTS
    ensures Window(slots, tail, n) == [slots[tail]] + Window(slots, Index(tail, 1), n - 1)
  {
    assert Index(tail, 0) == tail;
    forall i | 0 <= i < n - 1 ensures Index(Index(tail, 1), i) == Index(tail, i + 1) { }
  }

  /** How many slots are occupied. */
  function Occupied(head: nat, tail: nat): nat
    requires head < SLOTS && tail < SLOTS
  {
    if tail <= head then head - tail else head + SLOTS - tail
  }

  lemma OccupiedMoves(head: nat, tail: nat)
    requires head < SLOTS && tail < SLOTS
    ensures Occupied(head, tail) < SLOTS && Index(tail, Occupied(head, tail)) == head
    ensures (Index(head, 1) == tail) <==> Occupied(head, tail) == SLOTS - 1
    ensures Index(head, 1) != tail ==> Occupied(Index(head, 1), tail) == Occupied(head, tail) + 1
    ensures head != tail ==> Occupied(head, Index(tail, 1)) == Occupied(head, tail) - 1
  {
  }

  /** retire_q with retire_head and retire_tail. */
  class RetireRing {
    const slots: array<Mapping>
    var head: nat
    var tail: nat

    ghost predicate Valid()
      reads this
    {
      slots.Length == SLOTS && head < SLOTS && tail < SLOTS
    }

    /** The occupied slots, oldest first. */
    ghost function Contents(): (q: seq<Mapping>)
      requires Valid()
      reads this, slots
    {
      Window(slots[..], tail, Occupied(head, tail))
    }

    constructor ()
      ensures Valid() && Contents() == [] && fresh(slots)
    {
      slots := new Mapping[SLOTS](i => Mapping(0, 0));
      head, tail := 0, 0;
    }

    /** retire_push under the lock: refused when full; otherwise the slot written is not an
        occupied one. */
    method Push(m: Mapping) returns (pushed: bool)
      requires Valid()
      modifies this`head, slots
      ensures Valid() && pushed == !Full(old(Contents()))
      ensures Contents() == if pushed then old(Contents()) + [m] else old(Contents())
      ensures slots[..] == if pushed then old(slots[..])[old(head) := m] else old(slots[..])
      ensures pushed ==> forall i :: 0 <= i < |old(Contents())| ==> Index(tail, i) != old(head)
    {
      OccupiedMoves(head, tail);
      var next := (head + 1) % SLOTS;
      assert next == Index(head, 1);
      if next == tail { return false; }
      WindowGrows(slots[..], tail, Occupied(head, tail), m);
      ghost var was := slots[..];
      slots[head] := m;
      assert slots[..] == was[head := m];
      head := next;
      return true;
    }

    /** The reaper's critical section when the ring is not empty. */
    method Take() returns (m: Option<Mapping>)
      requires Valid()
      modifies this`tail
      ensures Valid() && m.None? == (old(Contents()) == [])
      ensures m.Some? ==> old(Contents()) == [m.value] + Contents()
      ensures m.None? ==> Contents() == old(Contents())
    {
      OccupiedMoves(head, tail);
      if head == tail { return None; }
      WindowShrinks(slots[..], tail, Occupied(head, tail));
      m := Some(slots[tail]);
      tail := (tail + 1) % SLOTS;
    }
  }

  // The two threads.

  /** InlineReap: the ring was full; the lock is released and the mapping not yet unmapped. */
  datatype Producer = Idle | Retiring(m: Mapping) | InlineReap(m: Mapping) | Finished | Joined

  /** Holding: taken from the ring, lock released, not yet unmapped. */
  datatype ReaperThread = Looking | Holding(m: Mapping) | Returned

  datatype State = State(queue: seq<Mapping>, finished: bool, producer: Producer, reaper: ReaperThread,
                         retired: seq<Mapping>, unmapped: seq<Mapping>)

  const START: State := State([], false, Idle, Looking, [], [])

  datatype Step = Retire(m: Mapping) | PushOne | UnmapInline | Finish | TakeOne | Unmap | Join

  /** Each step is one critical section or one action outside the lock; a step that cannot
      happen leaves everything as it is. */
  function Next(s: State, step: Step): State {
    match step
    case Retire(m) =>
      if s.producer.Idle? then s.(producer := Retiring(m), retired := s.retired + [m]) else s
    case PushOne =>
      (match s.producer
       case Retiring(m) =>
         if Full(s.queue) then s.(producer := InlineReap(m)) else s.(queue := s.queue + [m], producer := Idle)
       case _ => s)
    case UnmapInline =>
      (match s.producer
       case InlineReap(m) => s.(producer := Idle, unmapped := s.unmapped + [m])
       case _ => s)
    case Finish => if s.producer.Idle? then s.(producer := Finished, finished := true) else s
    case TakeOne =>
      if !s.reaper.Looking? then s
      else if s.queue != [] then s.(queue := s.queue[1..], reaper := Holding(s.queue[0]))
      else if s.finished then s.(reaper := Returned) else s
    case Unmap =>
      (match s.reaper
       case Holding(m) => s.(reaper := Looking, unmapped := s.unmapped + [m])
       case _ => s)
    case Join => if s.producer.Finished? && s.reaper.Returned? then s.(producer := Joined) else s
  }

  function After(steps: seq<Step>): State
    decreases |steps|
  {
    if steps == [] then START else Next(After(steps[..|steps| - 1]), steps[|steps| - 1])
  }

  // Counting: how often one mapping appears.

  function Times(q: seq<Mapping>, m: Mapping): nat { multiset(q)[m] }

  lemma TimesGrows(q: seq<Mapping>, x: Mapping, m: Mapping)
    ensures Times(q + [x], m) == Times(q, m) + if x == m then 1 else 0
  {
  }

  lemma TimesShrinks(q: seq<Mapping>, m: Mapping)
    requires q != []
    ensures Times(q, m) == Times(q[1..], m) + if q[0] == m then 1 else 0
  {
    assert q == [q[0]] + q[1..];
  }

  /** What each thread holds outside the ring. */
  function InProducer(p: Producer, m: Mapping): nat {
    match p
    case Retiring(held) => if held == m then 1 else 0
    case InlineReap(held) => if held == m then 1 else 0
    case _ => 0
  }

  function InReaper(r: ReaperThread, m: Mapping): nat {
    match r case Holding(held) => if held == m then 1 else 0 case _ => 0
  }

  /** Every retirement of a mapping is in the ring, in a thread's hand or unmapped. */
  predicate Conserved(s: State, m: Mapping) {
    Times(s.retired, m) == Times(s.queue, m) + InProducer(s.producer, m) + InReaper(s.reaper, m) + Times(s.unmapped, m)
  }

  predicate Ordered(s: State) {
    && (s.finished <==> s.producer.Finished? || s.producer.Joined?)
    && (s.reaper.Returned? ==> s.finished && s.queue == [])
    && (s.producer.Joined? ==> s.reaper.Returned?)
    && |s.queue| < SLOTS
  }

  lemma StepOrders(s: State, step: Step)
    requires Ordered(s)
    ensures Ordered(Next(s, step))
  {
  }

  lemma StepConserves(s: State, step: Step, m: Mapping)
    requires Conserved(s, m)
    ensures Conserved(Next(s, step), m)
  {
    hide Times, Full;
    match step
    case Retire(x) => TimesGrows(s.retired, x, m);
    case PushOne => if s.producer.Retiring? { TimesGrows(s.queue, s.producer.m, m); }
    case UnmapInline => if s.producer.InlineReap? { TimesGrows(s.unmapped, s.producer.m, m); }
    case TakeOne => if s.queue != [] { TimesShrinks(s.queue, m); }
    case Unmap => if s.reaper.Holding? { TimesGrows(s.unmapped, s.reaper.m, m); }
    case Finish =>
    case Join =>
  }

  lemma {:induction false} RunConserves(steps: seq<Step>, m: Mapping)
    ensures Conserved(After(steps), m) && Ordered(After(steps))
    decreases |steps|
  {
    hide Conserved, Ordered, Next;
    if steps == [] {
      assert Conserved(START, m) && Ordered(START) by { StartConserves(m); }
    } else {
      var front := steps[..|steps| - 1];
      RunConserves(front, m);
      StepConserves(After(front), steps[|steps| - 1], m);
      StepOrders(After(front), steps[|steps| - 1]);
    }
  }

  lemma StartConserves(m: Mapping)
    ensures Conserved(START, m) && Ordered(START)
  {
  }

  /** In every interleaving each retired mapping is unmapped at most once, and when the join
      returns it has been unmapped exactly once. */
  lemma EveryMappingIsUnmappedOnce(steps: seq<Step>)
    ensures multiset(After(steps).unmapped) <= multiset(After(steps).retired)
    ensures After(steps).producer.Joined? ==> multiset(After(steps).unmapped) == multiset(After(steps).retired)
  {
    var s := After(steps);
    forall m: Mapping
      ensures multiset(s.unmapped)[m] <= multiset(s.retired)[m]
      ensures s.producer.Joined? ==> multiset(s.unmapped)[m] == multiset(s.retired)[m]
    {
      RunConserves(steps, m);
    }
  }

  /** The same interleaving carried out on the ring. */
  method Execute(steps: seq<Step>) returns (ring: RetireRing, ghost s: State)
    ensures fresh(ring) && ring.Valid() && s == After(steps) && ring.Contents() == s.queue
  {
    ring := new RetireRing();
    s := START;
    var producer, reaper, finished := Idle, Looking, false;
    for k := 0 to |steps|
      invariant ring.Valid() && fresh(ring) && fresh(ring.slots)
      invariant s == After(steps[..k]) && ring.Contents() == s.queue
      invariant producer == s.producer && reaper == s.reaper && finished == s.finished
    {
      assert steps[..k + 1][..k] == steps[..k];
      s := Next(s, steps[k]);
      match steps[k] {
        case Retire(m) => if producer.Idle? { producer := Retiring(m); }
        case PushOne =>
          if producer.Retiring? {
            var pushed := ring.Push(producer.m);
            producer := if pushed then Idle else InlineReap(producer.m);
          }
        case UnmapInline => if producer.InlineReap? { producer := Idle; }
        case Finish => if producer.Idle? { producer, finished := Finished, true; }
        case TakeOne =>
          if reaper.Looking? {
            var m := ring.Take();
            if m.Some? { reaper := Holding(m.value); } else if finished { reaper := Returned; }
          }
        case Unmap => if reaper.Holding? { reaper := Looking; }
        case Join => if producer.Finished? && reaper.Returned? { producer := Joined; }
      }
    }
    assert steps[..|steps|] == steps;
  }
}
