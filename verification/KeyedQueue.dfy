/** Tasks by key: one runs per key, the rest wait in a bounded line with a time limit.
    `Step` is the behaviour of one event; the class is proved to follow it, and the promises
    over whole histories are proved about it. */
module KeyedQueue {
  import opened Collections

  type Key = int
  type Call = int

  /** What has become of a call of `run`. */
  datatype Outcome = Waiting(key: Key) | Running(key: Key) | Finished | RejectedFull | RejectedTimeout

  datatype Event =
    | Arrive(key: Key, call: Call)
    | Leave(key: Key)
    | Expire(call: Call)

  /** `lanes` is the original's map; `running` and `calls` record who holds and what became of whom. */
  datatype Queue = Queue(lanes: map<Key, seq<Call>>, running: map<Key, Call>, calls: map<Call, Outcome>)

  function Removed(s: seq<Call>, call: Call): (r: seq<Call>)
    ensures |r| <= |s|
    ensures forall x :: x in r ==> x in s
  {
    if s == [] then []
    else if s[0] == call then s[1..]
    else [s[0]] + Removed(s[1..], call)
  }

  function Step(q: Queue, maxWaiting: nat, e: Event): Queue {
    match e
    case Arrive(key, call) =>
      if key !in q.lanes then
        Queue(q.lanes[key := []], q.running[key := call], q.calls[call := Running(key)])
      else if |q.lanes[key]| >= maxWaiting then
        q.(calls := q.calls[call := RejectedFull])
      else
        q.(lanes := q.lanes[key := q.lanes[key] + [call]], calls := q.calls[call := Waiting(key)])
    case Leave(key) =>
      if key !in q.lanes || key !in q.running then q
      else if q.lanes[key] == [] then
        Queue(q.lanes - {key}, q.running - {key}, q.calls[q.running[key] := Finished])
      else
        var next := q.lanes[key][0];
        Queue(q.lanes[key := q.lanes[key][1..]], q.running[key := next],
              q.calls[q.running[key] := Finished][next := Running(key)])
    case Expire(call) =>
      if call in q.calls && q.calls[call].Waiting? && q.calls[call].key in q.lanes then
        var key := q.calls[call].key;
        q.(lanes := q.lanes[key := Removed(q.lanes[key], call)], calls := q.calls[call := RejectedTimeout])
      else q
  }

  predicate Possible(q: Queue, e: Event) {
    e.Arrive? ==> e.call !in q.calls
  }

  ghost predicate Distinct(s: seq<Call>) {
    forall i, j :: 0 <= i < j < |s| ==> s[i] != s[j]
  }

  /** The line holds exactly the waiting calls, each once and at its key. */
  ghost predicate LinesHoldWaiters(lanes: map<Key, seq<Call>>, calls: map<Call, Outcome>) {
    (forall key :: key in lanes ==> Distinct(lanes[key])) &&
    (forall key, call :: key in lanes && call in lanes[key] ==> call in calls && calls[call] == Waiting(key)) &&
    (forall call :: call in calls && calls[call].Waiting? ==>
      calls[call].key in lanes && call in lanes[calls[call].key])
  }

  /** One running call per held key. */
  ghost predicate OneHolderEach(running: map<Key, Call>, calls: map<Call, Outcome>) {
    (forall key :: key in running ==> running[key] in calls && calls[running[key]] == Running(key)) &&
    (forall call :: call in calls && calls[call].Running? ==>
      calls[call].key in running && running[calls[call].key] == call)
  }

  /** A lane exists exactly while its key is held, and its line is bounded. */
  ghost predicate Consistent(q: Queue, maxWaiting: nat) {
    q.lanes.Keys == q.running.Keys &&
    (forall key :: key in q.lanes ==> |q.lanes[key]| <= maxWaiting) &&
    LinesHoldWaiters(q.lanes, q.calls) &&
    OneHolderEach(q.running, q.calls)
  }

  // ---------------------------------------------------- removing a waiter

  /** Removing keeps the others in place, moved up by one behind the removed one. */
  lemma {:induction false} RemovedMoves(s: seq<Call>, call: Call, i: nat)
    requires Distinct(s) && i < |s| && s[i] != call
    ensures var r := Removed(s, call);
      var k := if call in s[..i] then i - 1 else i;
      0 <= k < |r| && r[k] == s[i]
  {
    if s[0] == call {
      assert i > 0 && s[..i][0] == call;
    } else if i > 0 {
      RemovedMoves(s[1..], call, i - 1);
      assert s[..i] == [s[0]] + s[1..][..i - 1];
    } else {
      assert call !in s[..0];
    }
  }

  lemma {:induction false} RemovedIsDistinct(s: seq<Call>, call: Call)
    requires Distinct(s)
    ensures Distinct(Removed(s, call)) && call !in Removed(s, call)
    ensures forall x :: x in s && x != call ==> x in Removed(s, call)
  {
    if s != [] && s[0] != call {
      RemovedIsDistinct(s[1..], call);
      assert s == [s[0]] + s[1..];
      assert s[0] !in s[1..];
    } else if s != [] {
      assert s == [call] + s[1..];
    }
  }

  lemma StepKeepsConsistent(q: Queue, maxWaiting: nat, e: Event)
    requires Consistent(q, maxWaiting) && Possible(q, e)
    ensures Consistent(Step(q, maxWaiting, e), maxWaiting)
  {
    match e {
      case Arrive(key, call) => ArrivalKeepsConsistent(q, maxWaiting, key, call);
      case Leave(key) => LeaveKeepsConsistent(q, maxWaiting, key);
      case Expire(call) => ExpiryKeepsConsistent(q, maxWaiting, call);
    }
  }

  lemma ArrivalKeepsConsistent(q: Queue, maxWaiting: nat, key: Key, call: Call)
    requires Consistent(q, maxWaiting) && call !in q.calls
    ensures Consistent(Step(q, maxWaiting, Arrive(key, call)), maxWaiting)
  {
    var after := Step(q, maxWaiting, Arrive(key, call));
    ArrivalKeepsLines(q, maxWaiting, key, call);
    ArrivalKeepsHolders(q, maxWaiting, key, call);
  }

  lemma ArrivalKeepsLines(q: Queue, maxWaiting: nat, key: Key, call: Call)
    requires LinesHoldWaiters(q.lanes, q.calls) && call !in q.calls
    ensures var after := Step(q, maxWaiting, Arrive(key, call)); LinesHoldWaiters(after.lanes, after.calls)
  {
  }

  lemma ArrivalKeepsHolders(q: Queue, maxWaiting: nat, key: Key, call: Call)
    requires q.lanes.Keys == q.running.Keys && OneHolderEach(q.running, q.calls) && call !in q.calls
    ensures var after := Step(q, maxWaiting, Arrive(key, call)); OneHolderEach(after.running, after.calls)
  {
  }

  lemma ExpiryKeepsConsistent(q: Queue, maxWaiting: nat, call: Call)
    requires Consistent(q, maxWaiting)
    ensures Consistent(Step(q, maxWaiting, Expire(call)), maxWaiting)
  {
    if call in q.calls && q.calls[call].Waiting? {
      var key := q.calls[call].key;
      RemovedIsDistinct(q.lanes[key], call);
      var after := Step(q, maxWaiting, Expire(call));
      assert LinesHoldWaiters(after.lanes, after.calls);
      assert OneHolderEach(after.running, after.calls);
    }
  }

  lemma LeaveKeepsConsistent(q: Queue, maxWaiting: nat, key: Key)
    requires Consistent(q, maxWaiting)
    ensures Consistent(Step(q, maxWaiting, Leave(key)), maxWaiting)
  {
    if key in q.lanes {
      assert q.calls[q.running[key]] == Running(key);
      if q.lanes[key] == [] {
        FreedKey(q, key);
      } else {
        assert q.lanes[key][0] in q.lanes[key];
        KeyHandedOver(q, key, q.lanes[key][0], q.lanes[key][1..]);
      }
    }
  }

  /** Nobody waits: the lane goes with its holder. */
  lemma FreedKey(q: Queue, key: Key)
    requires LinesHoldWaiters(q.lanes, q.calls) && OneHolderEach(q.running, q.calls)
    requires key in q.lanes && q.lanes[key] == [] && key in q.running
    ensures var calls := q.calls[q.running[key] := Finished];
      LinesHoldWaiters(q.lanes - {key}, calls) && OneHolderEach(q.running - {key}, calls)
  {
    var holder := q.running[key];
    assert q.calls[holder] == Running(key);
    forall call | call in q.calls && q.calls[call].Waiting? ensures q.calls[call].key != key {
      assert call in q.lanes[q.calls[call].key];
    }
    forall k, call | k in q.lanes && call in q.lanes[k] ensures call != holder {
      assert q.calls[call] == Waiting(k);
    }
  }

  /** The first waiter takes over; the rest of the line moves up. */
  lemma KeyHandedOver(q: Queue, key: Key, next: Call, rest: seq<Call>)
    requires LinesHoldWaiters(q.lanes, q.calls) && OneHolderEach(q.running, q.calls)
    requires key in q.lanes && key in q.running && q.lanes[key] == [next] + rest
    ensures var calls := q.calls[q.running[key] := Finished][next := Running(key)];
      LinesHoldWaiters(q.lanes[key := rest], calls) && OneHolderEach(q.running[key := next], calls)
  {
    assert q.lanes[key][0] == next && next in q.lanes[key];
    assert q.calls[q.running[key]] == Running(key);
    LineMovesUp(q.lanes, q.calls, key, q.running[key], next, rest);
    HolderChanges(q.running, q.calls, key, next);
  }

  lemma HolderChanges(running: map<Key, Call>, calls: map<Call, Outcome>, key: Key, next: Call)
    requires OneHolderEach(running, calls) && key in running && next in calls && calls[next] == Waiting(key)
    ensures OneHolderEach(running[key := next], calls[running[key] := Finished][next := Running(key)])
  {
  }

  lemma LineMovesUp(lanes: map<Key, seq<Call>>, calls: map<Call, Outcome>, key: Key, holder: Call, next: Call, rest: seq<Call>)
    requires LinesHoldWaiters(lanes, calls) && key in lanes && lanes[key] == [next] + rest
    requires holder in calls && calls[holder] == Running(key) && next in calls && calls[next] == Waiting(key)
    ensures LinesHoldWaiters(lanes[key := rest], calls[holder := Finished][next := Running(key)])
  {
    RestIsDistinct(next, rest);
    assert forall x :: x in lanes[key] <==> x == next || x in rest;
    var after := lanes[key := rest];
    forall k, call | k in after && call in after[k] ensures call != next && call in calls && calls[call] == Waiting(k) {
      assert call in lanes[k];
    }
  }

  lemma RestIsDistinct(next: Call, rest: seq<Call>)
    requires Distinct([next] + rest)
    ensures Distinct(rest) && next !in rest
  {
    var all := [next] + rest;
    forall i | 0 <= i < |rest| ensures rest[i] == all[i + 1] && rest[i] != next {
      assert all[0] != all[i + 1];
    }
  }

  // ------------------------------------------------------------ histories

  predicate ValidHistory(q: Queue, maxWaiting: nat, events: seq<Event>)
    decreases |events|
  {
    events == [] ||
    (Possible(q, events[0]) && ValidHistory(Step(q, maxWaiting, events[0]), maxWaiting, events[1..]))
  }

  function After(q: Queue, maxWaiting: nat, events: seq<Event>): Queue
    decreases |events|
  {
    if events == [] then q else After(Step(q, maxWaiting, events[0]), maxWaiting, events[1..])
  }

  function Leaves(events: seq<Event>, key: Key): nat {
    if events == [] then 0
    else (if events[0] == Leave(key) then 1 else 0) + Leaves(events[1..], key)
  }

  lemma {:induction false} HistoryKeepsConsistent(q: Queue, maxWaiting: nat, events: seq<Event>)
    requires Consistent(q, maxWaiting) && ValidHistory(q, maxWaiting, events)
    ensures Consistent(After(q, maxWaiting, events), maxWaiting)
    decreases |events|
  {
    if events != [] {
      StepKeepsConsistent(q, maxWaiting, events[0]);
      HistoryKeepsConsistent(Step(q, maxWaiting, events[0]), maxWaiting, events[1..]);
    }
  }

  /** The only ways an outcome can change. */
  predicate OutcomeFollows(before: Outcome, after: Outcome) {
    after == before ||
    (before.Waiting? && (after == Running(before.key) || after.Finished? || after.RejectedTimeout?)) ||
    (before.Running? && after.Finished?)
  }

  /** Every call ends once: a refusal or an end is final, and a refused call has never run. */
  lemma {:induction false} OutcomesAreFinal(q: Queue, maxWaiting: nat, events: seq<Event>, call: Call)
    requires Consistent(q, maxWaiting) && ValidHistory(q, maxWaiting, events) && call in q.calls
    ensures call in After(q, maxWaiting, events).calls
    ensures OutcomeFollows(q.calls[call], After(q, maxWaiting, events).calls[call])
    decreases |events|
  {
    if events != [] {
      StepKeepsConsistent(q, maxWaiting, events[0]);
      OutcomesAreFinal(Step(q, maxWaiting, events[0]), maxWaiting, events[1..], call);
    }
  }

  /** Where a waiter stands after one event, unless that event is its own timeout. */
  lemma WaiterMoves(q: Queue, maxWaiting: nat, e: Event, key: Key, i: nat) returns (k: int)
    requires Consistent(q, maxWaiting) && Possible(q, e)
    requires key in q.lanes && i < |q.lanes[key]| && e != Expire(q.lanes[key][i])
    ensures var call, after := q.lanes[key][i], Step(q, maxWaiting, e);
      if e == Leave(key) && i == 0 then after.calls[call] == Running(key)
      else
        key in after.lanes && 0 <= k < |after.lanes[key]| && after.lanes[key][k] == call &&
        k <= i - (if e == Leave(key) then 1 else 0)
  {
    k := i;
    var call := q.lanes[key][i];
    if e == Leave(key) {
      k := i - 1;
    } else if e.Expire? && e.call in q.lanes[key] {
      RemovedMoves(q.lanes[key], e.call, i);
      k := if e.call in q.lanes[key][..i] then i - 1 else i;
    }
  }

  /** A waiter with `i` calls before it has the key within `i + 1` releases, unless it times out. */
  lemma {:induction false} WaitIsBounded(q: Queue, maxWaiting: nat, events: seq<Event>, key: Key, i: nat)
    requires Consistent(q, maxWaiting) && ValidHistory(q, maxWaiting, events)
    requires key in q.lanes && i < |q.lanes[key]| && Expire(q.lanes[key][i]) !in events
    requires Leaves(events, key) > i
    ensures var call, end := q.lanes[key][i], After(q, maxWaiting, events);
      call in end.calls && (end.calls[call] == Running(key) || end.calls[call].Finished?)
    decreases |events|
  {
    var call := q.lanes[key][i];
    var after := Step(q, maxWaiting, events[0]);
    StepKeepsConsistent(q, maxWaiting, events[0]);
    var k := WaiterMoves(q, maxWaiting, events[0], key, i);
    if events[0] == Leave(key) && i == 0 {
      OutcomesAreFinal(after, maxWaiting, events[1..], call);
    } else {
      WaitIsBounded(after, maxWaiting, events[1..], key, k);
    }
  }

  /** Arrival order is kept: while an earlier waiter still waits, a later one has not run. */
  lemma {:induction false} ServedInOrder(q: Queue, maxWaiting: nat, events: seq<Event>, key: Key, i: nat, j: nat)
    requires Consistent(q, maxWaiting) && ValidHistory(q, maxWaiting, events)
    requires key in q.lanes && i < j < |q.lanes[key]|
    ensures var a, b, end := q.lanes[key][i], q.lanes[key][j], After(q, maxWaiting, events);
      a in end.calls && b in end.calls &&
      (end.calls[a] == Waiting(key) ==> end.calls[b] == Waiting(key) || end.calls[b].RejectedTimeout?)
    decreases |events|
  {
    var a, b := q.lanes[key][i], q.lanes[key][j];
    OutcomesAreFinal(q, maxWaiting, events, a);
    OutcomesAreFinal(q, maxWaiting, events, b);
    if events != [] {
      var e, after := events[0], Step(q, maxWaiting, events[0]);
      StepKeepsConsistent(q, maxWaiting, e);
      if e == Expire(a) || (e == Leave(key) && i == 0) {
        OutcomesAreFinal(after, maxWaiting, events[1..], a);
      } else if e == Expire(b) {
        OutcomesAreFinal(after, maxWaiting, events[1..], b);
      } else {
        var k, l := PairMoves(q, maxWaiting, e, key, i, j);
        ServedInOrder(after, maxWaiting, events[1..], key, k, l);
      }
    }
  }

  /** An arrival that finds the key free runs at once. */
  lemma FreeKeyIsTaken(q: Queue, maxWaiting: nat, key: Key, call: Call)
    requires Consistent(q, maxWaiting) && call !in q.calls && key !in q.lanes
    ensures var after := Step(q, maxWaiting, Arrive(key, call));
      after.running == q.running[key := call] && after.calls == q.calls[call := Running(key)]
  {
  }

  /** An arrival that finds the line full is refused and disturbs nobody. */
  lemma FullLineRefuses(q: Queue, maxWaiting: nat, key: Key, call: Call)
    requires Consistent(q, maxWaiting) && call !in q.calls && key in q.lanes && |q.lanes[key]| >= maxWaiting
    ensures var after := Step(q, maxWaiting, Arrive(key, call));
      after.calls == q.calls[call := RejectedFull] && after.lanes == q.lanes && after.running == q.running
  {
  }

  /** An arrival into a line with room waits at its end, and has the key after at most as many
      releases as stood before it plus one, unless it times out. */
  lemma ArrivalIsServed(q: Queue, maxWaiting: nat, events: seq<Event>, key: Key, call: Call)
    requires Consistent(q, maxWaiting) && call !in q.calls && key in q.lanes && |q.lanes[key]| < maxWaiting
    requires ValidHistory(Step(q, maxWaiting, Arrive(key, call)), maxWaiting, events)
    requires Expire(call) !in events && Leaves(events, key) > |q.lanes[key]|
    ensures var joined := Step(q, maxWaiting, Arrive(key, call));
      joined.lanes[key] == q.lanes[key] + [call] && joined.calls[call] == Waiting(key) &&
      var end := After(joined, maxWaiting, events);
      call in end.calls && (end.calls[call] == Running(key) || end.calls[call].Finished?)
  {
    StepKeepsConsistent(q, maxWaiting, Arrive(key, call));
    WaitIsBounded(Step(q, maxWaiting, Arrive(key, call)), maxWaiting, events, key, |q.lanes[key]|);
  }

  lemma PairMoves(q: Queue, maxWaiting: nat, e: Event, key: Key, i: nat, j: nat) returns (k: nat, l: nat)
    requires Consistent(q, maxWaiting) && Possible(q, e) && key in q.lanes && i < j < |q.lanes[key]|
    requires e != Expire(q.lanes[key][i]) && e != Expire(q.lanes[key][j]) && !(e == Leave(key) && i == 0)
    ensures var after := Step(q, maxWaiting, e);
      key in after.lanes && k < l < |after.lanes[key]| &&
      after.lanes[key][k] == q.lanes[key][i] && after.lanes[key][l] == q.lanes[key][j]
  {
    k, l := i, j;
    if e == Leave(key) {
      k, l := i - 1, j - 1;
    } else if e.Expire? && e.call in q.lanes[key] {
      var lane := q.lanes[key];
      RemovedMoves(lane, e.call, i);
      RemovedMoves(lane, e.call, j);
      k := if e.call in lane[..i] then i - 1 else i;
      l := if e.call in lane[..j] then j - 1 else j;
      if e.call in lane[..j] && e.call !in lane[..i] {
        assert lane[i] != e.call;
        var m :| 0 <= m < j && lane[..j][m] == e.call;
        assert m > i;
        if m == i + 1 && j == i + 1 {
          assert false;
        }
      }
    }
  }

  // ---------------------------------------------------------------- class

  class KeyedQueue {
    const maxWaiting: nat
    var lanes: map<Key, seq<Call>>
    ghost var running: map<Key, Call>
    ghost var calls: map<Call, Outcome>

    constructor (maxWaiting: nat)
      ensures this.maxWaiting == maxWaiting && Now() == Queue(map[], map[], map[]) && Valid()
    {
      this.maxWaiting := maxWaiting;
      lanes, running, calls := map[], map[], map[];
    }

    ghost function Now(): Queue
      reads this
    {
      Queue(lanes, running, calls)
    }

    ghost predicate Valid()
      reads this
    {
      Consistent(Now(), maxWaiting)
    }

    /** The call runs at once when the key is free, is refused when the line is full, and
        otherwise stands at the end of the line. */
    method Acquire(key: Key, call: Call) returns (granted: bool, refused: bool)
      requires Valid() && call !in calls
      modifies this
      ensures Valid() && Now() == Step(old(Now()), maxWaiting, Arrive(key, call))
      ensures granted <==> key !in old(lanes)
      ensures refused <==> key in old(lanes) && |old(lanes)[key]| >= maxWaiting
      ensures granted ==> lanes == old(lanes)[key := []] && running == old(running)[key := call]
      ensures refused ==> lanes == old(lanes) && running == old(running) && calls[call].RejectedFull?
      ensures !granted && !refused ==>
        lanes == old(lanes)[key := old(lanes)[key] + [call]] && running == old(running) && calls[call] == Waiting(key)
    {
      StepKeepsConsistent(Now(), maxWaiting, Arrive(key, call));
      if key !in lanes {
        lanes := lanes[key := []];
        running, calls := running[key := call], calls[call := Running(key)];
        return true, false;
      }
      if |lanes[key]| >= maxWaiting {
        calls := calls[call := RejectedFull];
        return false, true;
      }
      lanes := lanes[key := lanes[key] + [call]];
      calls := calls[call := Waiting(key)];
      return false, false;
    }

    /** Hand the key to the first waiter, or free it. */
    method Release(key: Key) returns (next: Option<Call>)
      requires Valid()
      modifies this
      ensures Valid() && Now() == Step(old(Now()), maxWaiting, Leave(key))
      ensures next.Some? ==> key in running && running[key] == next.value && key in old(lanes) &&
                             old(lanes)[key] != [] && next.value == old(lanes)[key][0]
      ensures next.None? ==> key !in running && key !in lanes
      ensures key in old(lanes) && old(lanes)[key] != [] ==>
        next.Some? && lanes == old(lanes)[key := old(lanes)[key][1..]] && running == old(running)[key := old(lanes)[key][0]]
      ensures key in old(lanes) && old(lanes)[key] == [] ==> lanes == old(lanes) - {key} && running == old(running) - {key}
    {
      StepKeepsConsistent(Now(), maxWaiting, Leave(key));
      if key !in lanes {
        return None;
      }
      var waiting := lanes[key];
      calls := calls[running[key] := Finished];
      if waiting != [] {
        lanes := lanes[key := waiting[1..]];
        running, calls := running[key := waiting[0]], calls[waiting[0] := Running(key)];
        return Some(waiting[0]);
      }
      lanes := lanes - {key};
      running := running - {key};
      return None;
    }

    /** The timer of a call that still waits: find it in its lane and splice it out. */
    method Timeout(key: Key, call: Call)
      requires Valid() && call in calls && calls[call] == Waiting(key)
      modifies this
      ensures Valid() && Now() == Step(old(Now()), maxWaiting, Expire(call))
    {
      StepKeepsConsistent(Now(), maxWaiting, Expire(call));
      var waiting := lanes[key];
      var index := IndexOf(waiting, call);
      lanes := lanes[key := waiting[..index] + waiting[index + 1..]];
      calls := calls[call := RejectedTimeout];
    }
  }

  method IndexOf(waiting: seq<Call>, call: Call) returns (index: nat)
    requires call in waiting
    ensures index < |waiting| && waiting[index] == call
    ensures waiting[..index] + waiting[index + 1..] == Removed(waiting, call)
  {
    index := 0;
    while waiting[index] != call
      invariant index < |waiting| && call !in waiting[..index]
      decreases |waiting| - index
    {
      assert waiting == waiting[..index + 1] + waiting[index + 1..];
      index := index + 1;
    }
    RemovedAt(waiting, call, index);
  }

  lemma {:induction false} RemovedAt(s: seq<Call>, call: Call, i: nat)
    requires i < |s| && s[i] == call && call !in s[..i]
    ensures Removed(s, call) == s[..i] + s[i + 1..]
  {
    if i > 0 {
      assert s[..i][0] == s[0] && s[..i] == [s[0]] + s[1..][..i - 1];
      RemovedAt(s[1..], call, i - 1);
      assert s[1..][i..] == s[i + 1..];
    }
  }
}
