/** Vector clocks: the operations, the order they induce, and the events of whole runs. */
module VectorClock {
  import opened Common

  type Clock = map<string, nat>

  // ---- clocks as values ----

  ghost predicate Leq(a: Clock, b: Clock) {
    forall n: string :: Get(a, n) <= Get(b, n)
  }

  function Incremented(a: Clock, node: string): Clock {
    a[node := Get(a, node) + 1]
  }

  /** Each node's larger value; a value of zero adds no key. */
  function Merged(a: Clock, b: Clock): Clock {
    a + map n | n in b && b[n] > Get(a, n) :: b[n]
  }

  lemma MergedAt(a: Clock, b: Clock, n: string)
    ensures Get(Merged(a, b), n) == if Get(b, n) > Get(a, n) then Get(b, n) else Get(a, n)
  {
  }

  /** Merging is the least upper bound. */
  lemma MergeIsLub(a: Clock, b: Clock, c: Clock)
    ensures Leq(a, Merged(a, b)) && Leq(b, Merged(a, b))
    ensures Leq(Merged(a, b), c) <==> Leq(a, c) && Leq(b, c)
  {
    forall n: string
      ensures Get(a, n) <= Get(Merged(a, b), n) && Get(b, n) <= Get(Merged(a, b), n)
      ensures Get(Merged(a, b), n) <= Get(c, n) <==> Get(a, n) <= Get(c, n) && Get(b, n) <= Get(c, n)
    {
      MergedAt(a, b, n);
    }
  }

  /** What merging has done to clock `a` once only the nodes of `rest` are left to visit. */
  ghost predicate PartlyMerged(a: Clock, b: Clock, rest: set<string>, m: Clock) {
    && (forall n :: n in m <==> n in a || (n in b && n !in rest && b[n] > Get(a, n)))
    && (forall n :: n in m ==> m[n] == if n in b && n !in rest && b[n] > Get(a, n) then b[n] else a[n])
  }

  lemma FullyMerged(a: Clock, b: Clock, m: Clock)
    requires PartlyMerged(a, b, {}, m)
    ensures m == Merged(a, b)
  {
  }

  /** A clock object. */
  class VectorClock {
    var clocks: Clock

    constructor ()
      ensures clocks == map[]
    {
      clocks := map[];
    }

    method Increment(node: string)
      modifies this
      ensures clocks == Incremented(old(clocks), node)
    {
      clocks := clocks[node := Get(clocks, node) + 1];
    }

    method Merge(other: VectorClock)
      requires other != this
      modifies this
      ensures clocks == Merged(old(clocks), other.clocks)
    {
      var rest := other.clocks.Keys;
      while rest != {}
        invariant rest <= other.clocks.Keys
        invariant PartlyMerged(old(clocks), other.clocks, rest, clocks)
        decreases rest
      {
        var n :| n in rest;
        if other.clocks[n] > Get(clocks, n) {
          clocks := clocks[n := other.clocks[n]];
        }
        rest := rest - {n};
      }
      FullyMerged(old(clocks), other.clocks, clocks);
    }

    /** -1 when strictly below, 1 when strictly above, 2 when equal, 0 when neither is below the other. */
    method Compare(other: VectorClock) returns (r: int)
      ensures r == -1 <==> Leq(clocks, other.clocks) && !Leq(other.clocks, clocks)
      ensures r == 1 <==> Leq(other.clocks, clocks) && !Leq(clocks, other.clocks)
      ensures r == 2 <==> Leq(clocks, other.clocks) && Leq(other.clocks, clocks)
      ensures r == 0 <==> !Leq(clocks, other.clocks) && !Leq(other.clocks, clocks)
    {
      var less, greater := false, false;
      var all := clocks.Keys + other.clocks.Keys;
      var rest := all;
      while rest != {}
        invariant rest <= all
        invariant less <==> exists n :: n in all - rest && Get(clocks, n) < Get(other.clocks, n)
        invariant greater <==> exists n :: n in all - rest && Get(clocks, n) > Get(other.clocks, n)
        decreases rest
      {
        var n :| n in rest;
        var v1, v2 := Get(clocks, n), Get(other.clocks, n);
        if v1 < v2 {
          less := true;
        } else if v1 > v2 {
          greater := true;
        }
        rest := rest - {n};
      }
      assert less <==> !Leq(other.clocks, clocks);
      assert greater <==> !Leq(clocks, other.clocks);
      return if less && greater then 0 else if less then -1 else if greater then 1 else 2;
    }

    method Clone() returns (copy: VectorClock)
      ensures fresh(copy) && copy.clocks == clocks
    {
      copy := new VectorClock();
      copy.clocks := clocks;
    }
  }
}

/** Causality: what comparing the clocks of two events of a run says about them. */
module Causality {
  import opened Common
  import opened VectorClock

  /**
   An event of a process: the process's event before it, the last event of the
   sender before the message it receives, if any, and the clock after it.
   */
  datatype Event = Event(proc: string, prev: Option<nat>, from: Option<nat>, clock: Clock)

  /** A message carries a copy of the sender's clock, taken after some event of the sender. */
  datatype Message = Message(clock: Clock, sent: Option<nat>)

  datatype World = World(events: seq<Event>, last: map<string, nat>, clocks: map<string, Clock>, messages: seq<Message>)

  datatype Step = Local(proc: string) | Send(proc: string) | Receive(proc: string, message: nat)

  function ClockOf(w: World, p: string): Clock {
    if p in w.clocks then w.clocks[p] else map[]
  }

  function LastOf(w: World, p: string): Option<nat> {
    if p in w.last then Some(w.last[p]) else None
  }

  function WithEvent(w: World, p: string, from: Option<nat>, clock: Clock): World {
    w.(events := w.events + [Event(p, LastOf(w, p), from, clock)],
       last := w.last[p := |w.events|],
       clocks := w.clocks[p := clock])
  }

  predicate Enabled(w: World, step: Step) {
    step.Receive? ==> step.message < |w.messages|
  }

  /** A local event increments, a send copies the clock, a receipt merges the copy and increments. */
  function Next(w: World, step: Step): World
    requires Enabled(w, step)
  {
    match step
    case Local(p) => WithEvent(w, p, None, Incremented(ClockOf(w, p), p))
    case Send(p) => w.(messages := w.messages + [Message(ClockOf(w, p), LastOf(w, p))])
    case Receive(p, m) =>
      WithEvent(w, p, w.messages[m].sent, Incremented(Merged(ClockOf(w, p), w.messages[m].clock), p))
  }

  function ClockAt(events: seq<Event>, i: Option<nat>): Clock
    requires i.Some? ==> i.value < |events|
  {
    if i.Some? then events[i.value].clock else map[]
  }

  predicate PrevIs(events: seq<Event>, i: nat, p: string, prev: Option<nat>)
    requires i <= |events|
  {
    && (prev.Some? ==> prev.value < i && events[prev.value].proc == p)
    && forall j :: 0 <= j < i && events[j].proc == p ==> prev.Some? && j <= prev.value
  }

  ghost predicate EventOk(events: seq<Event>, i: nat)
    requires i < |events|
  {
    var e := events[i];
    && PrevIs(events, i, e.proc, e.prev) && (e.from.Some? ==> e.from.value < i)
    && e.clock == Incremented(Merged(ClockAt(events, e.prev), ClockAt(events, e.from)), e.proc)
  }

  ghost predicate History(events: seq<Event>) {
    forall i :: 0 <= i < |events| ==> EventOk(events, i)
  }

  /** The events that happened before event f, and f itself. */
  ghost function Past(events: seq<Event>, f: nat): set<nat>
    requires History(events) && f < |events|
  {
    assert EventOk(events, f);
    {f} + (if events[f].prev.Some? then Past(events, events[f].prev.value) else {})
        + (if events[f].from.Some? then Past(events, events[f].from.value) else {})
  }

  ghost predicate HappenedBefore(events: seq<Event>, e: nat, f: nat)
    requires History(events) && f < |events|
  {
    e != f && e in Past(events, f)
  }

  lemma {:induction false} PastIsEarlier(events: seq<Event>, e: nat, f: nat)
    requires History(events) && f < |events| && e in Past(events, f)
    ensures e <= f
  {
    assert EventOk(events, f);
    if events[f].prev.Some? && e in Past(events, events[f].prev.value) {
      PastIsEarlier(events, e, events[f].prev.value);
    } else if events[f].from.Some? && e in Past(events, events[f].from.value) {
      PastIsEarlier(events, e, events[f].from.value);
    }
  }

  lemma {:induction false} PastOfPast(events: seq<Event>, e: nat, f: nat, g: nat)
    requires History(events) && f < |events| && g < |events| && e in Past(events, f) && f in Past(events, g)
    ensures e in Past(events, g)
  {
    assert EventOk(events, g);
    if f != g {
      if events[g].prev.Some? && f in Past(events, events[g].prev.value) {
        PastOfPast(events, e, f, events[g].prev.value);
      } else {
        PastOfPast(events, e, f, events[g].from.value);
      }
    }
  }

  lemma IncrementedAt(a: Clock, p: string, n: string)
    ensures Get(Incremented(a, p), n) == Get(a, n) + if n == p then 1 else 0
  {
  }

  /** A clock is the larger of the two clocks before it, plus one for its own process. */
  lemma ClockFrom(events: seq<Event>, f: nat, n: string)
    requires History(events) && f < |events|
    ensures EventOk(events, f)
    ensures var (a, b) := (Get(ClockAt(events, events[f].prev), n), Get(ClockAt(events, events[f].from), n));
            Get(events[f].clock, n) == (if b > a then b else a) + if n == events[f].proc then 1 else 0
  {
    assert EventOk(events, f);
    var a, b := ClockAt(events, events[f].prev), ClockAt(events, events[f].from);
    MergedAt(a, b, n);
    IncrementedAt(Merged(a, b), events[f].proc, n);
  }

  /** Clocks only grow along happened-before. */
  lemma {:induction false} ClocksGrow(events: seq<Event>, e: nat, f: nat, n: string)
    requires History(events) && f < |events| && e < |events| && e in Past(events, f)
    ensures Get(events[e].clock, n) <= Get(events[f].clock, n)
  {
    ClockFrom(events, f, n);
    if e != f {
      if events[f].prev.Some? && e in Past(events, events[f].prev.value) {
        ClocksGrow(events, e, events[f].prev.value, n);
      } else {
        ClocksGrow(events, e, events[f].from.value, n);
      }
    }
  }

  /** The events of one process are in one line, and its own entry counts them. */
  lemma {:induction false} OneLine(events: seq<Event>, e: nat, f: nat)
    requires History(events) && e < f < |events| && events[e].proc == events[f].proc
    ensures e in Past(events, f)
    ensures Get(events[e].clock, events[e].proc) < Get(events[f].clock, events[e].proc)
    decreases f
  {
    ClockFrom(events, f, events[f].proc);
    var g := events[f].prev.value;
    if e < g {
      OneLine(events, e, g);
    }
  }

  /** Every entry of a clock comes from an event of that process in the past. */
  lemma {:induction false} Origin(events: seq<Event>, f: nat, p: string) returns (e: nat)
    requires History(events) && f < |events| && Get(events[f].clock, p) > 0
    ensures e < |events| && e in Past(events, f) && events[e].proc == p
    ensures Get(events[e].clock, p) == Get(events[f].clock, p)
    decreases f
  {
    ClockFrom(events, f, p);
    if events[f].proc == p {
      e := f;
    } else if Get(ClockAt(events, events[f].from), p) > Get(ClockAt(events, events[f].prev), p) {
      e := Origin(events, events[f].from.value, p);
    } else {
      e := Origin(events, events[f].prev.value, p);
    }
  }

  /** Event e is in the past of f exactly when f's clock has counted it. */
  lemma PastIsCounted(events: seq<Event>, e: nat, f: nat)
    requires History(events) && e < |events| && f < |events|
    ensures e in Past(events, f) <==> Get(events[e].clock, events[e].proc) <= Get(events[f].clock, events[e].proc)
  {
    var p := events[e].proc;
    ClockFrom(events, e, p);
    if e in Past(events, f) {
      ClocksGrow(events, e, f, p);
    } else if Get(events[e].clock, p) <= Get(events[f].clock, p) {
      var o := Origin(events, f, p);
      if e < o {
        OneLine(events, e, o);
        PastOfPast(events, e, o, f);
      } else if o < e {
        OneLine(events, o, e);
      }
    }
  }

  lemma BeforeIsLeq(events: seq<Event>, e: nat, f: nat)
    requires History(events) && e < |events| && f < |events|
    ensures e in Past(events, f) <==> Leq(events[e].clock, events[f].clock)
  {
    PastIsCounted(events, e, f);
    if e in Past(events, f) {
      forall n: string
        ensures Get(events[e].clock, n) <= Get(events[f].clock, n)
      {
        ClocksGrow(events, e, f, n);
      }
    }
  }

  /** Comparing the clocks of two events decides happened-before both ways, and concurrency. */
  lemma ClocksDecide(events: seq<Event>, e: nat, f: nat)
    requires History(events) && e < |events| && f < |events| && e != f
    ensures HappenedBefore(events, e, f) <==>
            Leq(events[e].clock, events[f].clock) && !Leq(events[f].clock, events[e].clock)
    ensures HappenedBefore(events, f, e) <==>
            Leq(events[f].clock, events[e].clock) && !Leq(events[e].clock, events[f].clock)
    ensures !HappenedBefore(events, e, f) && !HappenedBefore(events, f, e) <==>
            !Leq(events[e].clock, events[f].clock) && !Leq(events[f].clock, events[e].clock)
  {
    BeforeIsLeq(events, e, f);
    BeforeIsLeq(events, f, e);
    if e in Past(events, f) && f in Past(events, e) {
      PastIsEarlier(events, e, f);
      PastIsEarlier(events, f, e);
    }
  }

  // ---- whole runs ----

  ghost predicate Inv(w: World) {
    && History(w.events)
    && (forall p :: p in w.clocks ==> p in w.last)
    && (forall p :: LastOk(w, p))
    && (forall m :: 0 <= m < |w.messages| ==> MessageOk(w.events, w.messages[m]))
  }

  ghost predicate LastOk(w: World, p: string) {
    && PrevIs(w.events, |w.events|, p, LastOf(w, p))
    && ClockOf(w, p) == ClockAt(w.events, LastOf(w, p))
  }

  ghost predicate MessageOk(events: seq<Event>, m: Message) {
    (m.sent.Some? ==> m.sent.value < |events|) && m.clock == ClockAt(events, m.sent)
  }

  lemma HistoryGrows(events: seq<Event>, e: Event)
    requires History(events) && PrevIs(events, |events|, e.proc, e.prev) && (e.from.Some? ==> e.from.value < |events|)
    requires e.clock == Incremented(Merged(ClockAt(events, e.prev), ClockAt(events, e.from)), e.proc)
    ensures History(events + [e])
  {
    var longer := events + [e];
    forall i | 0 <= i < |longer|
      ensures EventOk(longer, i)
    {
      if i < |events| {
        assert EventOk(events, i);
      }
    }
  }

  lemma EventKeeps(w: World, p: string, from: Option<nat>, incoming: Clock)
    requires Inv(w) && (from.Some? ==> from.value < |w.events|) && incoming == ClockAt(w.events, from)
    ensures Inv(WithEvent(w, p, from, Incremented(Merged(ClockOf(w, p), incoming), p)))
  {
    var w' := WithEvent(w, p, from, Incremented(Merged(ClockOf(w, p), incoming), p));
    assert LastOk(w, p);
    HistoryGrows(w.events, w'.events[|w.events|]);
    forall q
      ensures LastOk(w', q)
    {
      assert LastOk(w, q);
    }
    forall m | 0 <= m < |w.messages|
      ensures MessageOk(w'.events, w.messages[m])
    {
      assert MessageOk(w.events, w.messages[m]);
    }
  }

  lemma StepKeeps(w: World, step: Step)
    requires Inv(w) && Enabled(w, step)
    ensures Inv(Next(w, step))
  {
    match step
    case Local(p) =>
      assert Merged(ClockOf(w, p), map[]) == ClockOf(w, p);
      EventKeeps(w, p, None, map[]);
    case Send(p) =>
      assert LastOk(w, p);
      forall q
        ensures LastOk(Next(w, step), q)
      {
        assert LastOk(w, q);
      }
    case Receive(p, m) =>
      assert MessageOk(w.events, w.messages[m]);
      EventKeeps(w, p, w.messages[m].sent, w.messages[m].clock);
  }

  ghost predicate Possible(w: World, steps: seq<Step>)
    decreases |steps|
  {
    steps != [] ==> Enabled(w, steps[0]) && Possible(Next(w, steps[0]), steps[1..])
  }

  function After(w: World, steps: seq<Step>): World
    requires Possible(w, steps)
    decreases |steps|
  {
    if steps == [] then w else After(Next(w, steps[0]), steps[1..])
  }

  function Start(): World {
    World([], map[], map[], [])
  }

  lemma {:induction false} RunKeeps(w: World, steps: seq<Step>)
    requires Inv(w) && Possible(w, steps)
    ensures Inv(After(w, steps))
    decreases |steps|
  {
    if steps != [] {
      StepKeeps(w, steps[0]);
      RunKeeps(Next(w, steps[0]), steps[1..]);
    }
  }

  /** In every run, comparing two events' clocks says exactly how the events are related. */
  lemma CompareIsCausality(steps: seq<Step>, e: nat, f: nat)
    requires Possible(Start(), steps)
    requires e < |After(Start(), steps).events| && f < |After(Start(), steps).events| && e != f
    ensures var events := After(Start(), steps).events;
            && History(events)
            && (HappenedBefore(events, e, f) <==>
                  Leq(events[e].clock, events[f].clock) && !Leq(events[f].clock, events[e].clock))
            && (!HappenedBefore(events, e, f) && !HappenedBefore(events, f, e) <==>
                  !Leq(events[e].clock, events[f].clock) && !Leq(events[f].clock, events[e].clock))
  {
    RunKeeps(Start(), steps);
    ClocksDecide(After(Start(), steps).events, e, f);
  }
}
