/** `streamPatchEvents`: a callback stream turned into an iterator through a queue and one promise.
    The producer's callbacks and the consumer's pulls interleave at every suspension point. */
module PatchEventQueue {
  datatype Event = Progress(text: string) | Done

  /** Where the generator is suspended: at its promise, woken but not yet running, at a yield, or over. */
  datatype Consumer = Blocked | Woken | Holding(event: Event) | Returned

  datatype State = State(
    pushed: seq<Event>,    // everything the stream has delivered so far
    events: seq<Event>,    // the queue
    armed: bool,           // notify is set
    streamDone: bool,
    yielded: seq<Event>,
    consumer: Consumer)

  datatype Action =
    | Push(event: Event)
    | EndStream
    | Pull                 // the generator runs, if it can, to its next suspension

  /** The first pull starts the stream and finds nothing yet. */
  function Started(): State {
    State([], [], true, false, [], Blocked)
  }

  function Wake(s: State): State {
    s.(armed := false, consumer := if s.armed && s.consumer.Blocked? then Woken else s.consumer)
  }

  /** The outer loop from its inner drain on. */
  function Drain(s: State): State {
    if s.events != [] then
      s.(events := s.events[1..], yielded := s.yielded + [s.events[0]], consumer := Holding(s.events[0]))
    else if s.streamDone then s.(consumer := Returned)
    else s.(armed := true, consumer := Blocked)
  }

  function Step(s: State, action: Action): State {
    match action
    case Push(event) =>
      if s.streamDone then s else Wake(s.(pushed := s.pushed + [event], events := s.events + [event]))
    case EndStream => Wake(s.(streamDone := true))
    case Pull =>
      match s.consumer
      case Blocked => s
      case Woken => Drain(s)
      case Holding(event) => if event == Done then s.(consumer := Returned) else Drain(s)
      case Returned => s
  }

  function After(s: State, actions: seq<Action>): State {
    if actions == [] then s else Step(After(s, actions[..|actions| - 1]), actions[|actions| - 1])
  }

  /** The events through the first `Done`. */
  function ThroughDone(events: seq<Event>): seq<Event> {
    if events == [] then [] else if events[0] == Done then [Done] else [events[0]] + ThroughDone(events[1..])
  }

  ghost predicate NoneDone(events: seq<Event>) {
    Done !in events
  }

  ghost predicate Inv(s: State) {
    && s.yielded + s.events == s.pushed
    && (s.armed <==> s.consumer == Blocked)
    && (s.consumer == Blocked ==> s.events == [] && !s.streamDone && NoneDone(s.yielded))
    && (s.consumer == Woken ==> NoneDone(s.yielded))
    && (s.consumer.Holding? ==> s.yielded != [] && s.yielded[|s.yielded| - 1] == s.consumer.event
                                && NoneDone(s.yielded[..|s.yielded| - 1]))
    && (s.consumer == Returned ==>
          || (s.events == [] && s.streamDone && NoneDone(s.yielded))
          || (s.yielded != [] && s.yielded[|s.yielded| - 1] == Done && NoneDone(s.yielded[..|s.yielded| - 1])))
  }

  lemma StepKeeps(s: State, action: Action)
    requires Inv(s)
    ensures Inv(Step(s, action))
  {
    var t := Step(s, action);
    if action == Pull && s.events != [] {
      assert s.yielded + [s.events[0]] + s.events[1..] == s.pushed;
      assert (s.yielded + [s.events[0]])[..|s.yielded|] == s.yielded;
      if s.consumer.Holding? && s.consumer.event != Done {
        assert s.yielded == s.yielded[..|s.yielded| - 1] + [s.consumer.event];
      }
    } else if action == Pull && s.consumer.Holding? {
      assert s.yielded == s.yielded[..|s.yielded| - 1] + [s.consumer.event];
    } else if action.Push? && !s.streamDone {
      assert s.yielded + (s.events + [action.event]) == s.pushed + [action.event];
    }
  }

  lemma {:induction false} RunsKeepInv(actions: seq<Action>)
    ensures Inv(After(Started(), actions))
  {
    if actions != [] {
      RunsKeepInv(actions[..|actions| - 1]);
      StepKeeps(After(Started(), actions[..|actions| - 1]), actions[|actions| - 1]);
    }
  }

  lemma {:induction false} ThroughFirstDone(before: seq<Event>, rest: seq<Event>)
    requires NoneDone(before)
    ensures ThroughDone(before) == before && ThroughDone(before + [Done] + rest) == before + [Done]
  {
    if before != [] {
      ThroughFirstDone(before[1..], rest);
      assert (before + [Done] + rest)[1..] == before[1..] + [Done] + rest;
    }
  }

  lemma {:induction false} ThroughPrefix(a: seq<Event>, b: seq<Event>)
    ensures ThroughDone(a) <= ThroughDone(a + b)
  {
    if a != [] {
      ThroughPrefix(a[1..], b);
      assert (a + b)[1..] == a[1..] + b;
    }
  }

  ghost predicate EndsInDone(events: seq<Event>) {
    events != [] && events[|events| - 1] == Done && NoneDone(events[..|events| - 1])
  }

  lemma DoneEnds(yielded: seq<Event>, rest: seq<Event>)
    requires EndsInDone(yielded)
    ensures ThroughDone(yielded + rest) == yielded
  {
    var n := |yielded| - 1;
    assert yielded == yielded[..n] + [Done];
    ThroughFirstDone(yielded[..n], rest);
  }

  lemma NotYetDone(s: State)
    requires Inv(s) && !EndsInDone(s.yielded)
    ensures NoneDone(s.yielded) && s.yielded <= ThroughDone(s.pushed)
  {
    if s.consumer.Holding? {
      var n := |s.yielded| - 1;
      assert s.yielded == s.yielded[..n] + [s.consumer.event];
    }
    ThroughFirstDone(s.yielded, []);
    ThroughPrefix(s.yielded, s.events);
  }

  lemma ReturnedIsComplete(s: State)
    requires Inv(s) && s.consumer == Returned
    ensures s.yielded == ThroughDone(s.pushed) && (s.streamDone || Done in s.pushed)
  {
    if EndsInDone(s.yielded) {
      DoneEnds(s.yielded, s.events);
      assert s.pushed[|s.yielded| - 1] == Done;
    } else {
      ThroughFirstDone(s.yielded, []);
      assert s.yielded + [] == s.yielded;
    }
  }

  /** What the stream's callbacks report before its end, in order. */
  function Delivered(actions: seq<Action>): seq<Event> {
    if actions == [] then []
    else
      var n := |actions| - 1;
      Delivered(actions[..n]) + if actions[n].Push? && EndStream !in actions[..n] then [actions[n].event] else []
  }

  lemma {:induction false} PushedIsDelivered(actions: seq<Action>)
    ensures After(Started(), actions).pushed == Delivered(actions)
    ensures After(Started(), actions).streamDone <==> EndStream in actions
  {
    if actions != [] {
      PushedIsDelivered(actions[..|actions| - 1]);
      assert actions == actions[..|actions| - 1] + [actions[|actions| - 1]];
    }
  }

  /** In every interleaving: what was yielded is in order and complete as far as it goes, a blocked
      consumer has missed nothing and will be woken, and a return means nothing is owed. */
  lemma YieldsInOrder(actions: seq<Action>)
    ensures
      var s := After(Started(), actions);
      && s.pushed == Delivered(actions) && (s.streamDone <==> EndStream in actions)
      && s.yielded <= ThroughDone(s.pushed)
      && (s.consumer == Blocked ==> s.events == [] && !s.streamDone && s.armed && s.yielded == s.pushed)
      && (s.consumer == Returned ==> s.yielded == ThroughDone(s.pushed) && (s.streamDone || Done in s.pushed))
  {
    RunsKeepInv(actions);
    PushedIsDelivered(actions);
    var s := After(Started(), actions);
    if EndsInDone(s.yielded) {
      DoneEnds(s.yielded, s.events);
    } else {
      NotYetDone(s);
    }
    if s.consumer == Returned {
      ReturnedIsComplete(s);
    } else if s.consumer == Blocked {
      assert s.yielded + [] == s.yielded;
    }
  }

  function Pulls(s: State, n: nat): State
    decreases n
  {
    if n == 0 then s else Pulls(Step(s, Pull), n - 1)
  }

  /** Once the stream has ended, as many pulls as are queued, and one more, finish the iteration with
      every event through the first `Done` yielded. */
  lemma {:induction false} DrainsToTheEnd(s: State)
    requires Inv(s) && s.streamDone
    ensures var t := Pulls(s, |s.events| + 1);
            t.consumer == Returned && t.pushed == s.pushed && t.yielded == ThroughDone(s.pushed)
    decreases |s.events|
  {
    if s.events == [] || s.consumer == Returned || s.consumer == Holding(Done) {
      var t := Step(s, Pull);
      StepKeeps(s, Pull);
      assert t.consumer == Returned && t.pushed == s.pushed;
      StaysReturned(t, |s.events|);
      ReturnedIsComplete(t);
    } else {
      StepKeeps(s, Pull);
      assert Step(s, Pull) == Drain(s);
      DrainsToTheEnd(Drain(s));
    }
  }

  lemma {:induction false} StaysReturned(s: State, n: nat)
    requires s.consumer == Returned
    ensures Pulls(s, n) == s
  {
    if n > 0 {
      StaysReturned(s, n - 1);
    }
  }
}
