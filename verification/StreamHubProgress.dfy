/**
The hub waits for the reply of a transceiver whenever it subscribes: the reply comes, and the loops of a transceiver that
has ended may stop.
 */
module StreamHubProgress {
  import opened Bytesio
  import opened StreamHub
  import opened StreamHubProofs

  // ---------- The reply the hub waits for ----------

  /** The transceiver that owes the reply. */
  function Owing(s: State): nat
    requires s.awaited < |s.channels|
  {
    s.channels[s.awaited].owner
  }

  predicate Asks(e: Event, chan: Chan) {
    e.Subscribe? && e.chan == chan
  }

  /** How many turns of its event loop a transceiver is away from the reply: none when it owes nothing. */
  function TurnsTo(x: Transceiver, chan: Chan): nat {
    if x.phase.Inserting? && x.phase.chan == chan then 1 else Place(x.events, chan)
  }

  function Place(events: seq<Event>, chan: Chan): nat
    decreases |events|
  {
    if events == [] then 0
    else if Asks(events[0], chan) then 2
    else
      var later := Place(events[1..], chan);
      if later == 0 then 0 else later + 1
  }

  /** While the hub waits, the transceiver that owes the reply is running and has the subscription. */
  predicate Answerable(s: State) {
    s.waiting ==>
      && s.awaited < |s.channels| && Owing(s) < |s.transceivers|
      && var x := s.transceivers[Owing(s)]; x.alive && TurnsTo(x, s.awaited) > 0
  }

  /** The data loops of a transceiver are told to stop exactly when its event loop has ended. */
  predicate Exits(s: State) {
    forall t :: 0 <= t < |s.transceivers| ==> s.transceivers[t].exit == !s.transceivers[t].alive
  }

  lemma {:induction false} PlaceAppends(events: seq<Event>, e: Event, chan: Chan)
    ensures Place(events + [e], chan)
         == if Place(events, chan) > 0 then Place(events, chan) else if Asks(e, chan) then |events| + 2 else 0
    decreases |events|
  {
    if events == [] {
      assert events + [e] == [e];
    } else {
      assert (events + [e])[1..] == events[1..] + [e];
      PlaceAppends(events[1..], e, chan);
    }
  }

  lemma {:induction false} PlaceOf(events: seq<Event>, chan: Chan, i: nat)
    requires i < |events| && Asks(events[i], chan)
    ensures Place(events, chan) > 0
    decreases i
  {
    if i > 0 {
      assert events[1..][i - 1] == events[i];
      PlaceOf(events[1..], chan, i - 1);
    }
  }

  // ---------- Every step ----------

  lemma PostAnswers(s: State, t: nat, e: Event)
    requires t < |s.transceivers| && Answerable(s)
    ensures Answerable(Posted(s, t, e))
  {
    PlaceAppends(s.transceivers[t].events, e, s.awaited);
    hide Place;
  }

  lemma SubscribeAnswers(s: State, id: StreamId, uuid: Uuid, lane: Lane)
    requires !s.waiting && Answerable(s)
    ensures Answerable(SubscribeStep(s, id, uuid, lane))
  {
    if Reachable(s, id) {
      PlaceAppends(s.transceivers[s.streams[id]].events, Subscribe(uuid, |s.channels|, lane), |s.channels|);
    }
    hide Place;
  }

  // The transceiver that owes the reply is past its subscription, or has others in front of it.
  lemma OwingGives(s: State)
    requires Sound(s) && Answerable(s) && s.waiting
    ensures var x := s.transceivers[Owing(s)]; x.phase.Inserting? ==> x.phase.chan == s.awaited
  {
    hide PendingSound, ChannelsSound, LoopsSound, StreamsSound;
    var t := Owing(s);
    assert EventsSound(s, t);
    if s.transceivers[t].phase.Inserting? {
      PendingIs(s, t, s.transceivers[t].phase.chan, s.transceivers[t].phase.lane);
    }
  }

  lemma PendingIs(s: State, t: nat, chan: Chan, lane: Lane)
    requires t < |s.transceivers| && PendingSound(s, t, chan, lane)
    ensures s.waiting && chan == s.awaited < |s.channels| && s.channels[chan].owner == t
  {
    hide Registered;
  }

  /** A turn of the event loop that owes the reply gives it, or is one turn nearer to it. */
  lemma TurnAnswers(s: State, prior: seq<Data>, ok: bool)
    requires Sound(s) && Answerable(s) && s.waiting && HasEvent(s, Owing(s))
    ensures var t := Owing(s);
            var r := HandleStep(s, t, prior, ok);
            Answerable(r)
            && (r.waiting ==> r.awaited == s.awaited && Owing(r) == t
                              && TurnsTo(r.transceivers[t], s.awaited) == TurnsTo(s.transceivers[t], s.awaited) - 1)
  {
    var t := Owing(s);
    FirstSubscription(s, t);
    hide Sound;
  }

  lemma FirstSubscription(s: State, t: nat)
    requires Sound(s) && HasEvent(s, t)
    ensures s.transceivers[t].events[0].Subscribe? ==>
              s.waiting && s.transceivers[t].events[0].chan == s.awaited < |s.channels| && s.channels[s.awaited].owner == t
  {
    hide PendingSound, ChannelsSound, LoopsSound, StreamsSound;
    assert EventsSound(s, t);
    if s.transceivers[t].events[0].Subscribe? {
      PendingIs(s, t, s.transceivers[t].events[0].chan, s.transceivers[t].events[0].lane);
    }
  }

  lemma OtherTurn(s: State, t: nat, prior: seq<Data>, ok: bool)
    requires Sound(s) && Answerable(s) && HasEvent(s, t) && !(s.waiting && Owing(s) == t)
    ensures var r := HandleStep(s, t, prior, ok); Answerable(r) && Unmoved(s, r)
  {
    FirstSubscription(s, t);
    hide Sound, Place;
  }

  /** The hub waits as before, and the reply is as many turns away. */
  predicate Unmoved(s: State, r: State) {
    r.waiting == s.waiting && r.awaited == s.awaited
    && (s.waiting && s.awaited < |s.channels| && Owing(s) < |s.transceivers| ==>
          && s.awaited < |r.channels| && Owing(r) == Owing(s) && Owing(s) < |r.transceivers|
          && TurnsTo(r.transceivers[Owing(s)], s.awaited) == TurnsTo(s.transceivers[Owing(s)], s.awaited))
  }

  lemma TakeUnmoved(s: State, t: nat, lane: Lane)
    requires CanTake(s, t, lane) && Answerable(s)
    ensures var r := TakeStep(s, t, lane); Answerable(r) && Unmoved(s, r)
  {
    hide Place, Entries, Repeat, Dropped;
  }

  // The step is a turn of the event loop that owes the reply.
  predicate IsTurn(s: State, step: Step)
    requires Enabled(s, step)
  {
    s.waiting && s.awaited < |s.channels| && ((step.HandleEvent? && step.t == Owing(s)) || step == Insert(Owing(s)))
  }

  lemma StepAnswers(s: State, step: Step)
    requires Sound(s) && Answerable(s) && Enabled(s, step)
    ensures Answerable(Next(s, step))
    ensures s.waiting && !IsTurn(s, step) ==> Unmoved(s, Next(s, step))
    ensures IsTurn(s, step) && Next(s, step).waiting ==>
              var r := Next(s, step);
              r.awaited == s.awaited && Owing(r) == Owing(s)
              && TurnsTo(r.transceivers[Owing(s)], s.awaited) == TurnsTo(s.transceivers[Owing(s)], s.awaited) - 1
  {
    match step
    case RequestUnPublish(id) =>
      if Reachable(s, id) {
        PostAnswers(s, s.streams[id], UnPublish);
      }
    case RequestSubscribe(id, uuid, lane) => SubscribeAnswers(s, id, uuid, lane);
    case RequestUnSubscribe(id, uuid, pullsPackets) =>
      if Reachable(s, id) {
        PostAnswers(s, s.streams[id], UnSubscribe(uuid, pullsPackets));
      }
    case HandleEvent(t, prior, ok) =>
      if s.waiting && Owing(s) == t {
        TurnAnswers(s, prior, ok);
      } else {
        OtherTurn(s, t, prior, ok);
      }
    case Insert(t) =>
      InsertAnswers(s, t);
    case TakeData(t, lane) => TakeUnmoved(s, t, lane);
    case _ =>
      hide Sound, Place;
  }

  lemma InsertAnswers(s: State, t: nat)
    requires Sound(s) && Answerable(s) && IsInserting(s, t)
    ensures s.waiting && Owing(s) == t && !InsertStep(s, t).waiting
  {
    hide PendingSound, ChannelsSound, LoopsSound, StreamsSound;
    assert EventsSound(s, t);
    PendingIs(s, t, s.transceivers[t].phase.chan, s.transceivers[t].phase.lane);
  }

  lemma StepExits(s: State, step: Step)
    requires Enabled(s, step) && Exits(s)
    ensures Exits(Next(s, step))
  {
    hide Entries, Repeat, Dropped, FannedOut, Marked;
  }

  // ---------- Over every run ----------

  lemma {:induction false} RunAnswers(s: State, steps: seq<Step>)
    requires Sound(s) && Answerable(s) && Exits(s) && IsRun(s, steps)
    ensures Sound(After(s, steps)) && Answerable(After(s, steps)) && Exits(After(s, steps))
    decreases |steps|
  {
    hide Sound, Answerable, Exits, Next, Enabled;
    if steps != [] {
      NextKeeps(s, steps[0]);
      StepAnswers(s, steps[0]);
      StepExits(s, steps[0]);
      RunAnswers(Next(s, steps[0]), steps[1..]);
    }
  }

  /** In every state a run can reach, a hub that waits can be answered: the event loop that owes the reply has a turn to take. */
  lemma NeverStuck(steps: seq<Step>)
    requires IsRun(Initial(), steps)
    ensures var s := After(Initial(), steps);
            s.waiting ==>
              s.awaited < |s.channels|
              && (Enabled(s, Insert(Owing(s))) || forall prior, ok :: Enabled(s, HandleEvent(Owing(s), prior, ok)))
  {
    InitiallySound();
    RunAnswers(Initial(), steps);
    var s := After(Initial(), steps);
    hide Sound, After, IsRun;
  }

  /** The hub waits from before the first step until after the last. */
  predicate WaitsThroughout(s: State, steps: seq<Step>)
    requires IsRun(s, steps)
    decreases |steps|
  {
    s.waiting && (steps != [] ==> WaitsThroughout(Next(s, steps[0]), steps[1..]))
  }

  /** The turns of event loop `t`. */
  function Turns(steps: seq<Step>, t: nat): nat {
    if steps == [] then 0
    else (if (steps[0].HandleEvent? && steps[0].t == t) || steps[0] == Insert(t) then 1 else 0) + Turns(steps[1..], t)
  }

  lemma {:induction false} WaitIsShort(s: State, steps: seq<Step>)
    requires Sound(s) && Answerable(s) && IsRun(s, steps) && WaitsThroughout(s, steps)
    ensures Turns(steps, Owing(s)) < TurnsTo(s.transceivers[Owing(s)], s.awaited)
    decreases |steps|
  {
    hide Sound, Next, TurnsTo, Enabled;
    if steps != [] {
      NextKeeps(s, steps[0]);
      StepAnswers(s, steps[0]);
      WaitIsShort(Next(s, steps[0]), steps[1..]);
    }
  }

  /**
  The wait is bounded: however the loops are interleaved, the hub goes on before the event loop that owes the reply has taken
  as many turns as there are events in its mailbox and one more, and it can always take its next one.
   */
  lemma AnswerComes(steps: seq<Step>, more: seq<Step>)
    requires IsRun(Initial(), steps) && IsRun(After(Initial(), steps), more) && WaitsThroughout(After(Initial(), steps), more)
    ensures var s := After(Initial(), steps);
            s.awaited < |s.channels| && Owing(s) < |s.transceivers|
            && Turns(more, Owing(s)) <= |s.transceivers[Owing(s)].events|
  {
    InitiallySound();
    RunAnswers(Initial(), steps);
    var s := After(Initial(), steps);
    hide Sound, After, Next;
    WaitIsShort(s, more);
    PlaceWithin(s.transceivers[Owing(s)].events, s.awaited);
  }

  lemma {:induction false} PlaceWithin(events: seq<Event>, chan: Chan)
    ensures Place(events, chan) <= |events| + 1
    decreases |events|
  {
    if events != [] {
      PlaceWithin(events[1..], chan);
    }
  }

  /** In every state a run can reach, the data loops of a transceiver may stop if and only if its event loop has ended. */
  lemma EndedMayStop(steps: seq<Step>, t: nat, lane: Lane)
    requires IsRun(Initial(), steps) && t < |After(Initial(), steps).transceivers|
    ensures var s := After(Initial(), steps); Enabled(s, StopLoop(t, lane)) <==> !s.transceivers[t].alive
  {
    InitiallySound();
    RunAnswers(Initial(), steps);
    hide Sound, After, IsRun;
  }

  /** The data loop takes nothing and is sent nothing. */
  predicate Rests(steps: seq<Step>, t: nat, lane: Lane) {
    forall i :: 0 <= i < |steps| ==> steps[i] != TakeData(t, lane) && !(steps[i].Send? && steps[i].t == t && steps[i].lane == lane)
  }

  lemma StaysStopped(s: State, step: Step, t: nat, lane: Lane)
    requires Enabled(s, step) && t < |s.transceivers| && !s.transceivers[t].Of(lane).running
    ensures t < |Next(s, step).transceivers| && !Next(s, step).transceivers[t].Of(lane).running
    ensures step != TakeData(t, lane) && !(step.Send? && step.t == t && step.lane == lane)
  {
    hide Entries, Repeat, Dropped, FannedOut, Marked;
    match step
    case HandleEvent(u, prior, ok) => HandleStarts(s, u, prior, ok, t, lane);
    case TakeData(u, other) => TakeStarts(s, u, other, t, lane);
    case _ =>
  }

  lemma HandleStarts(s: State, u: nat, prior: seq<Data>, ok: bool, t: nat, lane: Lane)
    requires HasEvent(s, u) && t < |s.transceivers|
    ensures var r := HandleStep(s, u, prior, ok);
            t < |r.transceivers| && r.transceivers[t].Of(lane).running == s.transceivers[t].Of(lane).running
  {
  }

  lemma TakeStarts(s: State, u: nat, other: Lane, t: nat, lane: Lane)
    requires CanTake(s, u, other) && t < |s.transceivers|
    ensures var r := TakeStep(s, u, other);
            t < |r.transceivers| && r.transceivers[t].Of(lane).running == s.transceivers[t].Of(lane).running
  {
    hide Entries, Repeat, Dropped, FannedOut, Marked;
  }

  lemma {:induction false} StoppedRests(s: State, steps: seq<Step>, t: nat, lane: Lane)
    requires IsRun(s, steps) && t < |s.transceivers| && !s.transceivers[t].Of(lane).running
    ensures Rests(steps, t, lane)
    decreases |steps|
  {
    hide Next, Enabled;
    if steps != [] {
      StaysStopped(s, steps[0], t, lane);
      StoppedRests(Next(s, steps[0]), steps[1..], t, lane);
      assert steps == [steps[0]] + steps[1..];
    }
  }

  /** A data loop that has stopped takes nothing any more and is sent nothing, in any continuation. */
  lemma StopsForGood(s: State, t: nat, lane: Lane, more: seq<Step>)
    requires Enabled(s, StopLoop(t, lane)) && IsRun(Next(s, StopLoop(t, lane)), more)
    ensures Rests(more, t, lane)
  {
    StoppedRests(Next(s, StopLoop(t, lane)), more, t, lane);
  }
}
