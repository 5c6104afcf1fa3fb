/**
Which names can be freed by unpublishing, and whom a name leads to.
 */
module StreamHubNames {
  import opened StreamHub
  import opened StreamHubProofs

  /** Every name leads to a running event loop that has not been asked to end, a different one for each. */
  predicate Live(s: State) {
    && (forall id :: id in s.streams ==>
          Reachable(s, id) && UnPublish !in s.transceivers[s.streams[id]].events)
    && (forall i, j :: i in s.streams && j in s.streams && s.streams[i] == s.streams[j] ==> i == j)
  }

  /** The name is taken, and its event loop has ended. */
  predicate Stuck(s: State, id: StreamId, t: nat) {
    id in s.streams && s.streams[id] == t < |s.transceivers| && !s.transceivers[t].alive
  }

  /** The two ways an event loop ends unasked: the prior data cannot be sent, or the count of subscribers underflows. */
  predicate EndsEarly(s: State, step: Step)
    requires Enabled(s, step)
  {
    step.HandleEvent?
    && var x := s.transceivers[step.t];
       (x.events[0].Subscribe? && !step.ok) || (x.events[0].UnSubscribe? && x.subscribers == 0)
  }

  /** The step ends an event loop early that some name leads to. */
  predicate StrandsName(s: State, step: Step)
    requires Enabled(s, step)
  {
    EndsEarly(s, step) && exists id :: id in s.streams && s.streams[id] == step.t
  }

  predicate NoneStrandsName(s: State, steps: seq<Step>)
    requires IsRun(s, steps)
    decreases |steps|
  {
    steps == [] || (!StrandsName(s, steps[0]) && NoneStrandsName(Next(s, steps[0]), steps[1..]))
  }

  lemma LiveStays(s: State, step: Step)
    requires Live(s) && Enabled(s, step) && !StrandsName(s, step)
    ensures Live(Next(s, step))
  {
    hide HandleStep, InsertStep, TakeStep;
    match step
    case HandleEvent(t, prior, ok) => LiveHandled(s, t, prior, ok);
    case Insert(t) => LiveInserted(s, t);
    case TakeData(t, lane) => TakeEffect(s, t, lane);
    case _ =>
  }

  lemma LiveHandled(s: State, t: nat, prior: seq<Data>, ok: bool)
    requires Live(s) && HasEvent(s, t) && !StrandsName(s, HandleEvent(t, prior, ok))
    ensures Live(HandleStep(s, t, prior, ok))
  {
    HandledOnly(s, t, prior, ok);
    hide HandleStep;
  }

  /** Handling an event touches no name and no other transceiver, and of its own mailbox takes the first event. */
  lemma HandledOnly(s: State, t: nat, prior: seq<Data>, ok: bool)
    requires HasEvent(s, t)
    ensures var r, x := HandleStep(s, t, prior, ok), s.transceivers[t];
            r.streams == s.streams && |r.transceivers| == |s.transceivers|
            && (forall u :: 0 <= u < |s.transceivers| && u != t ==> r.transceivers[u] == s.transceivers[u])
            && (!x.events[0].UnPublish? && !EndsEarly(s, HandleEvent(t, prior, ok)) ==>
                  r.transceivers[t].alive && (r == s || r.transceivers[t].events == x.events[1..]))
  {
  }

  lemma LiveInserted(s: State, t: nat)
    requires Live(s) && IsInserting(s, t)
    ensures Live(InsertStep(s, t))
  {
  }

  lemma StuckIsNotLive(s: State, id: StreamId, t: nat)
    requires Stuck(s, id, t)
    ensures !Live(s)
  {
  }

  /**
  The exact condition: after a run every name taken still leads to a running event loop, so that it can be freed by
  unpublishing it, if and only if no step of the run ended the event loop behind a name early.
   */
  lemma {:induction false} LiveExactly(s: State, steps: seq<Step>)
    requires Sound(s) && Live(s) && IsRun(s, steps)
    ensures Live(After(s, steps)) <==> NoneStrandsName(s, steps)
    decreases |steps|
  {
    hide Sound, Live, Next, Enabled, Stuck;
    if steps != [] {
      var r := Next(s, steps[0]);
      if StrandsName(s, steps[0]) {
        var id :| id in s.streams && s.streams[id] == steps[0].t;
        EndSticks(s, steps[0], id);
        StuckForever(r, steps[1..], id, steps[0].t);
        StuckIsNotLive(After(s, steps), id, steps[0].t);
      } else {
        NextKeeps(s, steps[0]);
        LiveStays(s, steps[0]);
        LiveExactly(r, steps[1..]);
      }
    }
  }

  /** The same from the start, where there are no names. */
  lemma NamesLiveExactly(steps: seq<Step>)
    requires IsRun(Initial(), steps)
    ensures Live(After(Initial(), steps)) <==> NoneStrandsName(Initial(), steps)
  {
    InitiallySound();
    LiveExactly(Initial(), steps);
  }

  /** Once its event loop has ended unasked, the name can never again be freed, published or subscribed to. */
  lemma EndSticks(s: State, step: Step, id: StreamId)
    requires Sound(s) && Enabled(s, step) && EndsEarly(s, step) && id in s.streams && s.streams[id] == step.t
    ensures Stuck(Next(s, step), id, step.t)
  {
    PendingIsNew(s, step.t);
    hide Sound;
  }

  lemma {:induction false} StuckForever(s: State, steps: seq<Step>, id: StreamId, t: nat)
    requires Stuck(s, id, t) && IsRun(s, steps)
    ensures Stuck(After(s, steps), id, t)
    decreases |steps|
  {
    hide Stuck, Next, Enabled;
    if steps != [] {
      StuckStays(s, steps[0], id, t);
      StuckForever(Next(s, steps[0]), steps[1..], id, t);
    }
  }

  lemma StuckStays(s: State, step: Step, id: StreamId, t: nat)
    requires Stuck(s, id, t) && Enabled(s, step)
    ensures Stuck(Next(s, step), id, t)
    ensures step == RequestUnPublish(id) || (step.Publish? && step.id == id) || (step.RequestSubscribe? && step.id == id) ==>
              Next(s, step) == s
  {
  }

  lemma NameStays(s: State, step: Step, id: StreamId)
    requires Enabled(s, step) && id in s.streams && step != RequestUnPublish(id)
    ensures var r := Next(s, step); id in r.streams && r.streams[id] == s.streams[id]
  {
    hide FannedOut, Marked, InsertStep, SendStep, StopStep;
    match step
    case Insert(t) => SameStreams(s, step);
    case Send(_, _, _) => SameStreams(s, step);
    case StopLoop(_, _) => SameStreams(s, step);
    case _ =>
  }

  lemma SameStreams(s: State, step: Step)
    requires Enabled(s, step) && (step.Insert? || step.Send? || step.StopLoop?)
    ensures Next(s, step).streams == s.streams
  {
  }

  /** A name leads to the publisher that took it until it is unpublished, whatever else happens and whoever else tries. */
  lemma {:induction false} NameKept(s: State, steps: seq<Step>, id: StreamId)
    requires IsRun(s, steps) && id in s.streams && RequestUnPublish(id) !in steps
    ensures var r := After(s, steps); id in r.streams && r.streams[id] == s.streams[id]
    decreases |steps|
  {
    hide Next, Enabled;
    if steps != [] {
      NameStays(s, steps[0], id);
      NameKept(Next(s, steps[0]), steps[1..], id);
    }
  }
}
