/**
 The list of running animations in the standalone adapter and the one interval that drives it.

 What an animation does is given by a finite script: what each call of its step function returns,
 and which further animations the callbacks start during that call. Every script is allowed.

 A condition that is bound to a name, as in `var ok := P(); ok`, means P(). The verifier takes it as one fact
 instead of splitting it into its parts.
 */
module Animation {

  datatype Animation = Animation(script: seq<Reaction>)

  /** One call of a step function. After its script an animation has ended and returns false. */
  datatype Reaction = Reaction(alive: bool, starts: seq<Animation>)

  const ENDED := Reaction(false, [])

  function Head(script: seq<Reaction>): Reaction {
    if script == [] then ENDED else script[0]
  }

  function Rest(script: seq<Reaction>): seq<Reaction> {
    if script == [] then [] else script[1..]
  }

  /** An entry of the list: a step function with what it will still do. */
  datatype Stepper = Stepper(script: seq<Reaction>)

  function Next(t: Stepper): Reaction {
    Head(t.script)
  }

  // ---------- What is listed ----------

  /** What a new animation puts on the list: what its first call starts, then itself if it goes on. */
  function Pushed(a: Animation): seq<Stepper>
    decreases a, 0
  {
    if a.script == [] then []
    else
      var pushed := PushedAll(a.script[0].starts);
      if a.script[0].alive then pushed + [Stepper(a.script[1..])] else pushed
  }

  function PushedAll(starts: seq<Animation>): seq<Stepper>
    decreases starts, 1
  {
    if starts == [] then [] else Pushed(starts[0]) + PushedAll(starts[1..])
  }

  /** What the calls of these steppers put on the list. */
  function PushedBy(visits: seq<Stepper>): seq<Stepper> {
    if visits == [] then []
    else PushedBy(visits[..|visits| - 1]) + PushedAll(Next(visits[|visits| - 1]).starts)
  }

  /** The steppers that go on after one call each, in the same order. */
  function KeepAlive(visits: seq<Stepper>): seq<Stepper> {
    if visits == [] then []
    else
      var t := visits[|visits| - 1];
      var kept := KeepAlive(visits[..|visits| - 1]);
      if Next(t).alive then kept + [Stepper(Rest(t.script))] else kept
  }

  /** Starting animations one after the other lists what each puts there, in that order. */
  lemma {:induction false} PushedConcat(a: seq<Animation>, b: seq<Animation>)
    ensures PushedAll(a + b) == PushedAll(a) + PushedAll(b)
  {
    if a == [] {
      assert a + b == b;
    } else {
      assert (a + b)[1..] == a[1..] + b;
      PushedConcat(a[1..], b);
    }
  }

  /**
   An animation whose first call starts others is listed behind all that they put there, if it goes on, with the
   rest of its script.
   */
  lemma {:induction false} PushedOne(starts: seq<Animation>, alive: bool, rest: seq<Reaction>)
    ensures PushedAll([Animation([Reaction(alive, starts)] + rest)])
            == PushedAll(starts) + if alive then [Stepper(rest)] else []
    ensures PushedAll([Animation([])]) == []
  {
    var a := Animation([Reaction(alive, starts)] + rest);
    assert a.script[0] == Reaction(alive, starts) && a.script[1..] == rest;
    assert [a][1..] == [] && [Animation([])][1..] == [];
  }

  lemma {:induction false} CallsConcat(a: seq<Stepper>, b: seq<Stepper>)
    ensures PushedBy(a + b) == PushedBy(a) + PushedBy(b)
  {
    if b == [] {
      assert a + b == a;
    } else {
      assert (a + b)[..|a + b| - 1] == a + b[..|b| - 1];
      CallsConcat(a, b[..|b| - 1]);
    }
  }

  lemma {:induction false} KeptConcat(a: seq<Stepper>, b: seq<Stepper>)
    ensures KeepAlive(a + b) == KeepAlive(a) + KeepAlive(b)
  {
    if b == [] {
      assert a + b == a;
    } else {
      assert (a + b)[..|a + b| - 1] == a + b[..|b| - 1];
      KeptConcat(a, b[..|b| - 1]);
    }
  }

  /** In a tick each stepper adds what its call starts, and stays with the rest of its script if it goes on. */
  lemma {:induction false} CallsOne(r: Reaction, rest: seq<Reaction>)
    ensures PushedBy([Stepper([r] + rest)]) == PushedAll(r.starts)
    ensures KeepAlive([Stepper([r] + rest)]) == if r.alive then [Stepper(rest)] else []
    ensures PushedBy([Stepper([])]) == [] && KeepAlive([Stepper([])]) == []
  {
    var one, ended := [Stepper([r] + rest)], [Stepper([])];
    assert one[..0] == [] && ended[..0] == [] && ([r] + rest)[1..] == rest;
  }

  // ---------- Termination ----------

  function Size(a: Animation): nat
    decreases a, 0
  {
    1 + SizeOfScript(a.script)
  }

  function SizeOfScript(script: seq<Reaction>): nat
    decreases script, 1
  {
    if script == [] then 0 else 1 + SizeOfAll(script[0].starts) + SizeOfScript(script[1..])
  }

  function SizeOfAll(starts: seq<Animation>): nat
    decreases starts, 1
  {
    if starts == [] then 0 else Size(starts[0]) + SizeOfAll(starts[1..])
  }

  function Weight(timers: seq<Stepper>): nat {
    if timers == [] then 0 else 1 + SizeOfScript(timers[0].script) + Weight(timers[1..])
  }

  lemma {:induction false} WeightConcat(a: seq<Stepper>, b: seq<Stepper>)
    ensures Weight(a + b) == Weight(a) + Weight(b)
  {
    if a == [] {
      assert a + b == b;
    } else {
      assert (a + b)[1..] == a[1..] + b;
      WeightConcat(a[1..], b);
    }
  }

  lemma {:induction false} PushedWeight(a: Animation)
    ensures Weight(Pushed(a)) <= Size(a)
    decreases a, 0
  {
    if a.script != [] {
      PushedAllWeight(a.script[0].starts);
      WeightConcat(PushedAll(a.script[0].starts), [Stepper(a.script[1..])]);
    }
  }

  lemma {:induction false} PushedAllWeight(starts: seq<Animation>)
    ensures Weight(PushedAll(starts)) <= SizeOfAll(starts)
    decreases starts, 1
  {
    if starts != [] {
      PushedWeight(starts[0]);
      PushedAllWeight(starts[1..]);
      WeightConcat(Pushed(starts[0]), PushedAll(starts[1..]));
    }
  }

  // ---------- The scheduler ----------

  class Scheduler {
    var timers: seq<Stepper>
    var timerId: nat
    var live: set<nat>     // the handles of the intervals that are running
    var lastHandle: nat
    ghost var calls: seq<Stepper>  // the calls made from the list

    constructor ()
      ensures Armed() && timers == [] && calls == []
    {
      timers, timerId, live, lastHandle, calls := [], 0, {}, 0, [];
    }

    /** One interval is running when there is something to drive, and none otherwise. */
    ghost predicate Armed()
      reads this
    {
      live == if timers == [] then {} else {timerId}
    }

    /** `custom`: the step function is called once, then listed if it goes on. */
    method Custom(a: Animation)
      requires Armed()
      modifies this`timers, this`timerId, this`live, this`lastHandle
      ensures Armed() && timers == old(timers) + Pushed(a)
      ensures old(timers) != [] ==> timerId == old(timerId) && live == old(live)
      decreases a, 0
    {
      if a.script != [] {
        StartAll(a.script[0].starts);
        if a.script[0].alive {
          timers := timers + [Stepper(a.script[1..])];
          if |timers| == 1 {
            lastHandle := lastHandle + 1;
            timerId := lastHandle;
            live := live + {timerId};
          }
        }
      }
    }

    /** The callbacks of one call start further animations. */
    method StartAll(starts: seq<Animation>)
      requires Armed()
      modifies this`timers, this`timerId, this`live, this`lastHandle
      ensures Armed() && timers == old(timers) + PushedAll(starts)
      ensures old(timers) != [] ==> timerId == old(timerId) && live == old(live)
      decreases starts, 1
    {
      if starts != [] {
        Custom(starts[0]);
        StartAll(starts[1..]);
      }
    }

    /** `if (!timers[i]()) timers.splice(i--, 1);` */
    method CallTimer(i: nat) returns (alive: bool)
      requires Armed() && i < |timers|
      modifies this
      ensures timers == AfterCall(old(timers), i) && alive == Next(old(timers[i])).alive
      ensures timerId == old(timerId) && live == old(live) && calls == old(calls) + [old(timers[i])]
    {
      var t := timers[i];
      calls := calls + [t];
      StartAll(Next(t).starts);
      alive := Next(t).alive;
      if alive {
        timers := timers[i := Stepper(Rest(t.script))];
      } else {
        timers := timers[..i] + timers[i + 1..];
      }
    }

    /** One iteration of the loop: stepper i is called, and the next one is at i or behind it. */
    method Visit(i: nat, ghost listed: seq<Stepper>, ghost start: seq<Stepper>, ghost visits: seq<Stepper>)
      returns (next: nat)
      requires i < |timers| && live == {timerId}
      requires Ticking(listed, start, visits, timers, calls, i)
      modifies this
      ensures live == {timerId} && next <= |timers|
      ensures Ticking(listed, start, visits + [old(timers[i])], timers, calls, next)
      ensures Weight(timers[next..]) < old(Weight(timers[i..]))
    {
      TickStep(timers, i);
      CallsLeftStep(listed, visits, timers, i);
      VisitStep(listed, visits, timers, i);
      var alive := CallTimer(i);
      next := if alive then i + 1 else i;
    }

    /**
     One run of the interval function. Each stepper that is on the list, or gets there during the
     tick, is called exactly once, in the order of the list; those that go on stay in that order.
     */
    method Tick() returns (ghost visits: seq<Stepper>)
      requires Armed() && live != {}
      modifies this
      ensures Armed()
      ensures visits == old(timers) + PushedBy(visits) && calls == old(calls) + visits
      ensures visits == Visits(old(timers)) && timers == KeepAlive(visits)
    {
      ghost var listed, start := timers, calls;
      var i := 0;
      visits := [];
      while i < |timers|
        invariant live == {timerId} && 0 <= i <= |timers|
        invariant Ticking(listed, start, visits, timers, calls, i)
        decreases Weight(timers[i..])
      {
        ghost var t := timers[i];
        i := Visit(i, listed, start, visits);
        visits := visits + [t];
      }
      TickEnds(listed, start, visits, timers, calls);
      if timers == [] {
        live := live - {timerId};
      }
    }
  }

  /** The list after the call of stepper i. */
  function AfterCall(timers: seq<Stepper>, i: nat): seq<Stepper>
    requires i < |timers|
  {
    var t := timers[i];
    var list := timers + PushedAll(Next(t).starts);
    if Next(t).alive then list[i := Stepper(Rest(t.script))] else list[..i] + list[i + 1..]
  }

  /** What is still to be called after the call of stepper i: the ones behind it and what it started. */
  lemma {:induction false} AfterCallRest(timers: seq<Stepper>, i: nat)
    requires i < |timers|
    ensures var j := if Next(timers[i]).alive then i + 1 else i;
            && j <= |AfterCall(timers, i)|
            && AfterCall(timers, i)[j..] == timers[i + 1..] + PushedAll(Next(timers[i]).starts)
  {
  }

  /** A call uses up its reaction, whatever it starts. */
  lemma {:induction false} CallUses(todo: seq<Stepper>)
    requires todo != []
    ensures Weight(todo[1..] + PushedAll(Next(todo[0]).starts)) < Weight(todo)
  {
    PushedAllWeight(Next(todo[0]).starts);
    WeightConcat(todo[1..], PushedAll(Next(todo[0]).starts));
  }

  /** The calls of one tick, with `todo` still to be called: a call may add to what is to be called. */
  function Visits(todo: seq<Stepper>): seq<Stepper>
    decreases Weight(todo)
  {
    if todo == [] then []
    else
      CallUses(todo);
      [todo[0]] + Visits(todo[1..] + PushedAll(Next(todo[0]).starts))
  }

  lemma {:induction false} TickStep(timers: seq<Stepper>, i: nat)
    requires i < |timers|
    ensures var j := if Next(timers[i]).alive then i + 1 else i;
            j <= |AfterCall(timers, i)| && Weight(AfterCall(timers, i)[j..]) < Weight(timers[i..])
  {
    AfterCallRest(timers, i);
    CallUses(timers[i..]);
    assert timers[i..][1..] == timers[i + 1..];
  }

  /** The calls that were made and those of the rest are the calls of the whole tick. */
  ghost predicate CallsLeft(listed: seq<Stepper>, visits: seq<Stepper>, todo: seq<Stepper>) {
    var left := Visits(listed) == visits + Visits(todo);
    left
  }

  lemma {:induction false} CallsLeftStep(listed: seq<Stepper>, visits: seq<Stepper>, timers: seq<Stepper>, i: nat)
    requires i < |timers| && CallsLeft(listed, visits, timers[i..])
    ensures var j := if Next(timers[i]).alive then i + 1 else i;
            j <= |AfterCall(timers, i)| && CallsLeft(listed, visits + [timers[i]], AfterCall(timers, i)[j..])
  {
    AfterCallRest(timers, i);
    assert timers[i..][1..] == timers[i + 1..];
  }

  /** During a tick: visited steppers that went on come first, then all that are still to be visited. */
  ghost predicate InTick(listed: seq<Stepper>, visits: seq<Stepper>, timers: seq<Stepper>, i: nat) {
    var all := listed + PushedBy(visits);
    var inTick :=
      && i == |KeepAlive(visits)|
      && visits <= all
      && timers == KeepAlive(visits) + all[|visits|..];
    inTick
  }

  /** All that holds while a tick is at stepper i and has made the calls `visits`. */
  ghost predicate Ticking(listed: seq<Stepper>, start: seq<Stepper>, visits: seq<Stepper>, timers: seq<Stepper>,
                          calls: seq<Stepper>, i: nat)
    requires i <= |timers|
  {
    var ticking :=
      InTick(listed, visits, timers, i) && CallsLeft(listed, visits, timers[i..]) && calls == start + visits;
    ticking
  }

  lemma {:induction false} TickEnds(listed: seq<Stepper>, start: seq<Stepper>, visits: seq<Stepper>,
                                    timers: seq<Stepper>, calls: seq<Stepper>)
    requires Ticking(listed, start, visits, timers, calls, |timers|)
    ensures visits == listed + PushedBy(visits) == Visits(listed)
    ensures timers == KeepAlive(visits) && calls == start + visits
  {
  }

  lemma {:induction false} VisitStep(listed: seq<Stepper>, visits: seq<Stepper>, timers: seq<Stepper>, i: nat)
    requires InTick(listed, visits, timers, i) && i < |timers|
    ensures InTick(listed, visits + [timers[i]], AfterCall(timers, i), if Next(timers[i]).alive then i + 1 else i)
  {
    var t, all := timers[i], listed + PushedBy(visits);
    var todo := all[|visits|..];
    assert t == all[|visits|];
    assert todo == [t] + todo[1..];
    CallInMiddle(KeepAlive(visits), t, todo[1..]);
    assert timers == KeepAlive(visits) + [t] + todo[1..];
    OneMoreVisit(listed, visits, t);
  }

  /** The call of a stepper between those that have been called and those that have not. */
  lemma {:induction false} CallInMiddle(kept: seq<Stepper>, t: Stepper, behind: seq<Stepper>)
    ensures AfterCall(kept + [t] + behind, |kept|)
            == kept + (if Next(t).alive then [Stepper(Rest(t.script))] else []) + (behind + PushedAll(Next(t).starts))
  {
    assert (kept + [t] + behind)[|kept|] == t;
  }

  lemma {:induction false} OneMoreVisit(listed: seq<Stepper>, visits: seq<Stepper>, t: Stepper)
    requires var all := listed + PushedBy(visits); visits <= all && |visits| < |all| && all[|visits|] == t
    ensures var all, more := listed + PushedBy(visits), listed + PushedBy(visits + [t]);
            && visits + [t] <= more
            && more[|visits| + 1..] == all[|visits|..][1..] + PushedAll(Next(t).starts)
    ensures KeepAlive(visits + [t]) == KeepAlive(visits) + if Next(t).alive then [Stepper(Rest(t.script))] else []
  {
    assert (visits + [t])[..|visits|] == visits;
    var all := listed + PushedBy(visits);
    assert listed + PushedBy(visits + [t]) == all + PushedAll(Next(t).starts);
  }

  datatype Event = Start(a: Animation) | Interval

  /** The list after any run of starts from outside and ticks of a running interval. */
  function Listed(events: seq<Event>): seq<Stepper> {
    if events == [] then []
    else
      var before := Listed(events[..|events| - 1]);
      match events[|events| - 1]
      case Start(a) => before + Pushed(a)
      case Interval => KeepAlive(Visits(before))
  }

  function Ticks(n: nat): seq<Event> {
    if n == 0 then [] else Ticks(n - 1) + [Interval]
  }

  lemma {:induction false} ListedTick(events: seq<Event>)
    ensures Listed(events + [Interval]) == KeepAlive(Visits(Listed(events)))
  {
    assert (events + [Interval])[..|events|] == events;
  }

  lemma {:induction false} ListedStart(a: Animation)
    ensures Listed([Start(a)]) == Pushed(a)
  {
    assert [Start(a)][..0] == [];
  }

  predicate Quiet(script: seq<Reaction>) {
    forall k :: 0 <= k < |script| ==> script[k] == Reaction(true, [])
  }

  /** What is left of a script after n + 1 calls. */
  function Remaining(script: seq<Reaction>, n: nat): seq<Stepper> {
    if n < |script| then [Stepper(script[n + 1..])] else []
  }

  lemma {:induction false} OneTick(script: seq<Reaction>, n: nat)
    requires Quiet(script)
    ensures KeepAlive(Visits(Remaining(script, n))) == Remaining(script, n + 1)
  {
    if n < |script| {
      var t := Stepper(script[n + 1..]);
      CallUses([t]);
      assert Next(t).starts == [] && [t][1..] + PushedAll([]) == [];
      assert Visits([t]) == [t] && [t][..0] == [];
    }
  }

  /** An animation that goes on and starts nothing is called once when it starts and once a tick, to its end. */
  lemma {:induction false} AloneToItsEnd(a: Animation, n: nat)
    requires a.script != [] && Quiet(a.script)
    ensures Listed([Start(a)] + Ticks(n)) == Remaining(a.script, n)
  {
    if n == 0 {
      assert [Start(a)] + Ticks(0) == [Start(a)];
      ListedStart(a);
    } else {
      AloneToItsEnd(a, n - 1);
      assert [Start(a)] + Ticks(n) == [Start(a)] + Ticks(n - 1) + [Interval];
      ListedTick([Start(a)] + Ticks(n - 1));
      OneTick(a.script, n - 1);
    }
  }

  /** Any run: animations are started from outside, and the browser fires the interval if one is running. */
  method Run(events: seq<Event>) returns (s: Scheduler)
    ensures s.Armed() && |s.live| <= 1
    ensures s.timers == Listed(events)
  {
    s := new Scheduler();
    for k := 0 to |events|
      invariant fresh(s) && s.Armed() && s.timers == Listed(events[..k])
    {
      assert events[..k + 1][..k] == events[..k];
      match events[k] {
        case Start(a) => s.Custom(a);
        case Interval =>
          if s.live != {} {
            var _ := s.Tick();
          }
      }
    }
    assert events[..|events|] == events;
  }
}
