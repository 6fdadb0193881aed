/** Two ceilings on what runs at once: a semaphore whose callers wait in line, and upload
    slots whose callers are refused. */
module Slots {
  import opened Collections

  type Call = int

  datatype Event = Arrive(call: Call) | Leave(call: Call)

  /** Who holds a place, who waits, and every call that ever came. */
  datatype Places = Places(holders: set<Call>, waiting: seq<Call>, seen: set<Call>)

  function Step(p: Places, limit: nat, e: Event): Places {
    match e
    case Arrive(call) =>
      if |p.holders| < limit then Places(p.holders + {call}, p.waiting, p.seen + {call})
      else Places(p.holders, p.waiting + [call], p.seen + {call})
    case Leave(call) =>
      if p.waiting == [] then p.(holders := p.holders - {call})
      else p.(holders := p.holders - {call} + {p.waiting[0]}, waiting := p.waiting[1..])
  }

  predicate Possible(p: Places, e: Event) {
    match e
    case Arrive(call) => call !in p.seen
    case Leave(call) => call in p.holders
  }

  /** Never more holders than places, and a line only while every place is taken. */
  ghost predicate Consistent(p: Places, limit: nat) {
    |p.holders| <= limit &&
    (p.waiting != [] ==> |p.holders| == limit) &&
    p.holders <= p.seen &&
    (forall i :: 0 <= i < |p.waiting| ==> p.waiting[i] in p.seen && p.waiting[i] !in p.holders) &&
    (forall i, j :: 0 <= i < j < |p.waiting| ==> p.waiting[i] != p.waiting[j])
  }

  lemma StepKeepsConsistent(p: Places, limit: nat, e: Event)
    requires Consistent(p, limit) && Possible(p, e)
    ensures Consistent(Step(p, limit, e), limit)
  {
    match e {
      case Arrive(call) => ArrivalKeepsConsistent(p, limit, call);
      case Leave(call) =>
        if p.waiting != [] {
          PlacePassedOn(p, limit, call, p.waiting[0]);
        }
    }
  }

  lemma ArrivalKeepsConsistent(p: Places, limit: nat, call: Call)
    requires Consistent(p, limit) && call !in p.seen
    ensures Consistent(Step(p, limit, Arrive(call)), limit)
  {
    if |p.holders| < limit {
      assert p.waiting == [] && |p.holders + {call}| == |p.holders| + 1;
    }
  }

  lemma PlacePassedOn(p: Places, limit: nat, call: Call, next: Call)
    requires Consistent(p, limit) && call in p.holders && p.waiting != [] && next == p.waiting[0]
    ensures Consistent(Step(p, limit, Leave(call)), limit)
  {
    var left, rest := p.holders - {call}, p.waiting[1..];
    assert |left + {next}| == |left| + 1 == |p.holders|;
    forall i | 0 <= i < |rest| ensures rest[i] in p.seen && rest[i] !in left + {next} {
      assert rest[i] == p.waiting[i + 1] && p.waiting[0] != p.waiting[i + 1];
    }
  }

  predicate ValidHistory(p: Places, limit: nat, events: seq<Event>)
    decreases |events|
  {
    events == [] || (Possible(p, events[0]) && ValidHistory(Step(p, limit, events[0]), limit, events[1..]))
  }

  function After(p: Places, limit: nat, events: seq<Event>): Places
    decreases |events|
  {
    if events == [] then p else After(Step(p, limit, events[0]), limit, events[1..])
  }

  function Leaves(events: seq<Event>): nat {
    if events == [] then 0 else (if events[0].Leave? then 1 else 0) + Leaves(events[1..])
  }

  /** Over any history the ceiling holds. */
  lemma {:induction false} CeilingHolds(p: Places, limit: nat, events: seq<Event>)
    requires Consistent(p, limit) && ValidHistory(p, limit, events)
    ensures Consistent(After(p, limit, events), limit)
    decreases |events|
  {
    if events != [] {
      StepKeepsConsistent(p, limit, events[0]);
      CeilingHolds(Step(p, limit, events[0]), limit, events[1..]);
    }
  }

  /** Wake-ups are first come, first served, and exact: a waiter stands one place nearer after
      every release, whoever arrives meanwhile, and holds a place right after its own turn. */
  lemma {:induction false} ServedInTurn(p: Places, limit: nat, events: seq<Event>, last: Event, i: nat)
    requires Consistent(p, limit) && ValidHistory(p, limit, events) && i < |p.waiting| && Leaves(events) <= i
    ensures var q, k := After(p, limit, events), i - Leaves(events);
      k < |q.waiting| && q.waiting[k] == p.waiting[i] &&
      (k == 0 && last.Leave? && Possible(q, last) ==> p.waiting[i] in Step(q, limit, last).holders)
    decreases |events|
  {
    if events != [] {
      StepKeepsConsistent(p, limit, events[0]);
      var after := Step(p, limit, events[0]);
      ServedInTurn(after, limit, events[1..], last, if events[0].Leave? then i - 1 else i);
    }
  }

  /** A caller that finds every place taken joins the end of the line and holds a place right
      after as many releases as stood before it plus one. */
  lemma ArrivalIsServed(p: Places, limit: nat, events: seq<Event>, call: Call, last: Event)
    requires Consistent(p, limit) && |p.holders| == limit && call !in p.seen
    requires ValidHistory(Step(p, limit, Arrive(call)), limit, events) && Leaves(events) == |p.waiting|
    requires last.Leave? && Possible(After(Step(p, limit, Arrive(call)), limit, events), last)
    ensures var joined := Step(p, limit, Arrive(call));
      joined.waiting == p.waiting + [call] && joined.holders == p.holders &&
      call in Step(After(joined, limit, events), limit, last).holders
  {
    StepKeepsConsistent(p, limit, Arrive(call));
    ServedInTurn(Step(p, limit, Arrive(call)), limit, events, last, |p.waiting|);
  }

  /** A caller that finds a place takes it. */
  lemma FreePlaceIsTaken(p: Places, limit: nat, call: Call)
    requires Consistent(p, limit) && |p.holders| < limit && call !in p.seen
    ensures var after := Step(p, limit, Arrive(call)); after.holders == p.holders + {call} && after.waiting == []
  {
  }

  // ------------------------------------------------------------ semaphore

  class Semaphore {
    const limit: nat
    var active: int
    var waiting: seq<Call>
    ghost var holders: set<Call>
    ghost var seen: set<Call>

    constructor (limit: nat)
      requires limit >= 1
      ensures this.limit == limit && Valid() && Now() == Places({}, [], {})
    {
      this.limit := limit;
      active, waiting, holders, seen := 0, [], {}, {};
    }

    ghost function Now(): Places
      reads this
    {
      Places(holders, waiting, seen)
    }

    ghost predicate Valid()
      reads this
    {
      limit >= 1 && active == |holders| && Consistent(Now(), limit)
    }

    method Acquire(call: Call) returns (granted: bool)
      requires Valid() && call !in seen
      modifies this
      ensures Valid() && Now() == Step(old(Now()), limit, Arrive(call))
      ensures granted <==> |old(holders)| < limit
      ensures granted ==> holders == old(holders) + {call} && waiting == old(waiting)
      ensures !granted ==> holders == old(holders) && waiting == old(waiting) + [call]
    {
      StepKeepsConsistent(Now(), limit, Arrive(call));
      seen := seen + {call};
      if active < limit {
        active := active + 1;
        holders := holders + {call};
        return true;
      }
      waiting := waiting + [call];
      return false;
    }

    /** The place goes down and, if someone waits, straight up again for the first of them. */
    method Release(call: Call) returns (woken: Option<Call>)
      requires Valid() && call in holders
      modifies this
      ensures Valid() && Now() == Step(old(Now()), limit, Leave(call))
      ensures woken == if old(waiting) == [] then None else Some(old(waiting)[0])
    {
      StepKeepsConsistent(Now(), limit, Leave(call));
      active := active - 1;
      holders := holders - {call};
      if waiting == [] {
        return None;
      }
      var next := waiting[0];
      waiting := waiting[1..];
      active := active + 1;
      holders := holders + {next};
      return Some(next);
    }
  }

  /** A limit below one is an error. */
  method NewSemaphore(limit: int) returns (s: Semaphore?)
    ensures s == null <==> limit < 1
    ensures s != null ==> fresh(s) && s.limit == limit && s.Valid()
  {
    if limit < 1 {
      return null;
    }
    s := new Semaphore(limit);
  }

  // --------------------------------------------------------- upload slots

  /** The release closure of one acquired slot, with its captured flag. */
  class SlotHandle {
    var released: bool

    constructor ()
      ensures !released
    {
      released := false;
    }
  }

  class UploadSlots {
    const limit: nat
    var active: int
    ghost var held: set<SlotHandle>
    ghost var issued: set<SlotHandle>

    constructor (limit: nat)
      requires limit >= 1
      ensures this.limit == limit && Valid() && held == {} && issued == {}
    {
      this.limit := limit;
      active, held, issued := 0, {}, {};
    }

    /** The counter is the number of slots taken and not given back. */
    ghost predicate Valid()
      reads this, issued
    {
      held <= issued && active == |held| <= limit &&
      forall h :: h in issued ==> (h in held <==> !h.released)
    }

    method TryAcquire() returns (handle: SlotHandle?)
      requires Valid()
      modifies this
      ensures Valid()
      ensures handle == null <==> |old(held)| == limit
      ensures handle == null ==> held == old(held) && issued == old(issued)
      ensures handle != null ==> fresh(handle) && held == old(held) + {handle} && issued == old(issued) + {handle}
    {
      if active >= limit {
        return null;
      }
      active := active + 1;
      handle := new SlotHandle();
      held, issued := held + {handle}, issued + {handle};
    }

    /** Calling it again changes nothing: the handle is no longer held. */
    method Release(handle: SlotHandle)
      requires Valid() && handle in issued
      modifies this`active, this`held, handle
      ensures Valid() && handle.released
      ensures held == old(held) - {handle}
      ensures old(handle.released) ==> active == old(active) && held == old(held)
    {
      if handle.released {
        return;
      }
      handle.released := true;
      active := active - 1;
      held := held - {handle};
    }
  }

  method NewUploadSlots(limit: int) returns (s: UploadSlots?)
    ensures s == null <==> limit < 1
    ensures s != null ==> fresh(s) && s.limit == limit && s.Valid()
  {
    if limit < 1 {
      return null;
    }
    s := new UploadSlots(limit);
  }
}
