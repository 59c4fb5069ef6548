/**
 The paging of a square KPI zone: a window of `top` ranks from `begin` on, moved by clicks, while
 replies that arrive at any time set how many ranks are known.
 */
module SquareZone {

  /** The private variables `_begin`, `_top` and `_max`. */
  datatype Paging = Paging(begin: int, top: int, max: int) {

    predicate Valid() {
      begin >= 1 && top >= 1
    }

    predicate Shows(rank: int) {
      begin <= rank < begin + top
    }
  }

  function Min(a: int, b: int): int {
    if a < b then a else b
  }

  function Max(a: int, b: int): int {
    if a < b then b else a
  }

  // What each event amounts to.

  function Previous(p: Paging): Paging {
    if p.begin + p.top < p.max then p.(begin := Min(p.begin + p.top, p.max - p.top)) else p
  }

  function Next(p: Paging): Paging {
    if p.begin > 1 then p.(begin := Max(1, p.begin - p.top))
    else if p.begin == 1 then p
    else p.(begin := p.begin - p.top)
  }

  function Reply(p: Paging, rows: nat): Paging {
    p.(max := p.begin + rows)
  }

  class SquareZone {
    var begin: int
    var top: int
    var max: int

    ghost function State(): Paging
      reads this
    {
      Paging(begin, top, max)
    }

    constructor (begin: int, top: int, max: int)
      ensures State() == Paging(begin, top, max)
    {
      this.begin, this.top, this.max := begin, top, max;
    }

    /** The handler of the arrow `.previous`; `sent` tells whether rows were asked for. */
    method ClickPrevious() returns (sent: bool)
      modifies this
      ensures State() == Previous(old(State()))
      ensures old(State()).Valid() ==> (sent <==> begin != old(begin))
    {
      sent := false;
      if begin + 2 * top - 1 >= max && begin + top < max {
        begin := max - top;
        sent := true;
      } else if begin + top < max {
        begin := begin + top;
        sent := true;
      }
    }

    /** The handler of the arrow `.next`. */
    method ClickNext() returns (sent: bool)
      modifies this
      ensures State() == Next(old(State()))
      ensures old(State()).Valid() ==> (sent <==> begin != old(begin))
    {
      sent := false;
      if begin - top < 1 && begin > 1 {
        begin := 1;
        sent := true;
      } else if begin != 1 {
        begin := begin - top;
        sent := true;
      }
    }

    /** The callback of a request: known ranks are counted anew from wherever the window is by then. */
    method FillSquareKPI(rows: nat)
      modifies this
      ensures State() == Reply(old(State()), rows)
    {
      max := begin;
      for i := 0 to rows
        invariant State() == old(State()).(max := begin + i)
      {
        max := max + 1;
      }
    }
  }

  // ---------- One click ----------

  /** `.previous` moves exactly when more ranks are known, never past them, and skips no rank. */
  lemma {:induction false} PreviousStep(p: Paging)
    requires p.Valid()
    ensures var q := Previous(p);
            && (q != p <==> p.begin + p.top < p.max)
            && (q != p ==> p.begin < q.begin <= p.begin + p.top && q.begin + q.top <= q.max)
  {
  }

  /** A click on `.previous` and one on `.next` lead back exactly when the step was full or the window started at 1. */
  lemma {:induction false} PreviousThenNext(p: Paging)
    requires p.Valid()
    ensures Next(Previous(p)) == p <==> p.begin == 1 || p.begin + 2 * p.top <= p.max
  {
  }

  /** Ranks 4 to 6 of 8: back and forth leads to 3. */
  lemma {:induction false} ShortStep()
    ensures Next(Previous(Paging(4, 3, 9))) == Paging(3, 3, 9)
  {
    assert Previous(Paging(4, 3, 9)) == Paging(6, 3, 9);
  }

  // ---------- Clicking on, without replies ----------

  function PreviousTimes(p: Paging, n: nat): Paging
    decreases n
  {
    if n == 0 then p else PreviousTimes(Previous(p), n - 1)
  }

  function NextTimes(p: Paging, n: nat): Paging
    decreases n
  {
    if n == 0 then p else NextTimes(Next(p), n - 1)
  }

  /** Where n clicks on `.previous` lead. */
  lemma {:induction false} PreviousReaches(p: Paging, n: nat)
    requires p.Valid()
    ensures PreviousTimes(p, n) ==
            if p.begin + p.top < p.max then p.(begin := Min(p.begin + n * p.top, p.max - p.top)) else p
    decreases n
  {
    if n > 0 {
      var q := Previous(p);
      PreviousReaches(q, n - 1);
      Steps(n, p.top);
      Growing(n - 1, p.top);
    }
  }

  lemma {:induction false} Steps(n: nat, top: int)
    requires n > 0
    ensures n * top == (n - 1) * top + top
  {
  }

  lemma {:induction false} Growing(n: nat, top: int)
    requires top >= 1
    ensures n * top >= n
  {
    assert n * top - n == n * (top - 1);
  }

  /** Where n clicks on `.next` lead. */
  lemma {:induction false} NextReaches(p: Paging, n: nat)
    requires p.Valid()
    ensures NextTimes(p, n) == p.(begin := Max(1, p.begin - n * p.top))
    decreases n
  {
    if n > 0 {
      NextReaches(Next(p), n - 1);
      Steps(n, p.top);
      Growing(n - 1, p.top);
    }
  }

  /** Every known rank from the window on comes into view. */
  lemma {:induction false} PreviousShowsAll(p: Paging, rank: int) returns (n: nat)
    requires p.Valid() && p.begin <= rank < p.max
    ensures PreviousTimes(p, n).Shows(rank)
    decreases rank - p.begin
  {
    if p.Shows(rank) {
      n := 0;
    } else {
      n := PreviousShowsAll(Previous(p), rank);
      n := n + 1;
    }
  }

  /** Every rank before the window comes into view. */
  lemma {:induction false} NextShowsAll(p: Paging, rank: int) returns (n: nat)
    requires p.Valid() && 1 <= rank < p.begin + p.top
    ensures NextTimes(p, n).Shows(rank)
    decreases p.begin
  {
    if p.Shows(rank) {
      n := 0;
    } else {
      n := NextShowsAll(Next(p), rank);
      n := n + 1;
    }
  }

  /** Enough clicks end at the last full window if the window moved at all, or at the first one. */
  lemma {:induction false} ClicksEnd(p: Paging, n: nat)
    requires p.Valid() && n >= p.begin && n >= p.max
    ensures PreviousTimes(p, n).begin == if p.begin + p.top < p.max then p.max - p.top else p.begin
    ensures NextTimes(p, n).begin == 1
  {
    PreviousReaches(p, n);
    NextReaches(p, n);
    Growing(n, p.top);
  }

  // ---------- Every interleaving ----------

  datatype Event = PreviousClicked | NextClicked | Replied(rows: nat)

  function Step(p: Paging, e: Event): Paging {
    match e
    case PreviousClicked => Previous(p)
    case NextClicked => Next(p)
    case Replied(rows) => Reply(p, rows)
  }

  function Run(p: Paging, events: seq<Event>): Paging {
    if events == [] then p else Step(Run(p, events[..|events| - 1]), events[|events| - 1])
  }

  lemma {:induction false} StaysValid(p: Paging, events: seq<Event>)
    requires p.Valid()
    ensures Run(p, events).Valid() && Run(p, events).top == p.top
  {
    if events != [] {
      StaysValid(p, events[..|events| - 1]);
    }
  }

  /** By how many rows replies are longer than the window, all together. */
  function Excess(events: seq<Event>, top: int): int {
    if events == [] then 0
    else
      var e := events[|events| - 1];
      Excess(events[..|events| - 1], top) + if e.Replied? && e.rows > top then e.rows - top else 0
  }

  /** Replies of at most a window: all a request asks for. */
  predicate Paged(events: seq<Event>, top: int) {
    forall i :: 0 <= i < |events| && events[i].Replied? ==> events[i].rows <= top
  }

  lemma {:induction false} PagedHasNoExcess(events: seq<Event>, top: int)
    ensures Excess(events, top) >= 0 && (Excess(events, top) == 0 <==> Paged(events, top))
  {
    if events != [] {
      var n := |events| - 1;
      PagedHasNoExcess(events[..n], top);
      assert forall i :: 0 <= i < n ==> events[..n][i] == events[i];
      assert Paged(events, top) <==> Paged(events[..n], top) && (events[n].Replied? ==> events[n].rows <= top);
    }
  }

  /** No run shows a rank beyond the ranks known at the start and the first window, but for what replies exceed. */
  lemma {:induction false} NeverBeyond(p: Paging, events: seq<Event>, bound: int)
    requires p.Valid() && p.begin + p.top <= bound && p.max <= bound
    ensures Run(p, events).begin + p.top <= bound + Excess(events, p.top)
    ensures Run(p, events).max <= bound + Excess(events, p.top)
  {
    if events != [] {
      var n := |events| - 1;
      StaysValid(p, events[..n]);
      NeverBeyond(p, events[..n], bound);
    }
  }

  /** Right after a reply `.previous` moves exactly when the reply held more rows than the window. */
  lemma {:induction false} PreviousAfterReply(p: Paging, events: seq<Event>, rows: nat)
    requires p.Valid()
    ensures var q := Run(p, events + [Replied(rows)]);
            Previous(q) != q <==> rows > p.top
  {
    StaysValid(p, events);
    assert (events + [Replied(rows)])[..|events|] == events;
  }

  /**
   Once a reply of at most a window has arrived, the window moves beyond where it was then by no more than what
   later replies exceed the window by; with replies of at most a window it never does.
   */
  lemma {:induction false} ReplyPins(p: Paging, rows: nat, events: seq<Event>)
    requires p.Valid() && rows <= p.top
    ensures Run(Reply(p, rows), events).begin <= p.begin + Excess(events, p.top)
    ensures Paged(events, p.top) ==> Run(Reply(p, rows), events).begin <= p.begin
  {
    NeverBeyond(Reply(p, rows), events, p.begin + p.top);
    PagedHasNoExcess(events, p.top);
  }

  /** The bound is reached: after a later reply that is longer, clicks on `.previous` use up all of its excess. */
  lemma {:induction false} ExcessReached(p: Paging, rows: nat, later: nat, n: nat)
    requires p.Valid() && rows <= p.top < later && n >= later
    ensures PreviousTimes(Run(Reply(p, rows), [Replied(later)]), n).begin
            == p.begin + Excess([Replied(later)], p.top)
  {
    var events := [Replied(later)];
    var q := Run(Reply(p, rows), events);
    assert events[..0] == [] && Excess(events[..0], p.top) == 0;
    assert q == Step(Run(Reply(p, rows), events[..0]), events[0]);
    PreviousReaches(q, n);
    Growing(n, p.top);
  }
}
