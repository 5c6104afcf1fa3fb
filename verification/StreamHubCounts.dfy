/**
The count of subscribers of a transceiver, told by the steps of the run, and what that means for the names.
 */
module StreamHubCounts {
  import opened StreamHub
  import opened StreamHubProofs
  import opened StreamHubNames

  // ---------- What the count is ----------

  /** The next event in the mailbox is an unsubscription. */
  predicate TakesLeave(s: State, step: Step, t: nat)
    requires Enabled(s, step)
  {
    step.HandleEvent? && step.t == t && s.transceivers[t].events[0].UnSubscribe?
  }

  /** How many subscribers the run adds to transceiver `t`. */
  function Joins(s: State, steps: seq<Step>, t: nat): nat
    requires IsRun(s, steps)
    decreases |steps|
  {
    if steps == [] then 0
    else (if steps[0] == Insert(t) then 1 else 0) + Joins(Next(s, steps[0]), steps[1..], t)
  }

  /** How many unsubscriptions the run takes from the mailbox of transceiver `t`. */
  function Leaves(s: State, steps: seq<Step>, t: nat): nat
    requires IsRun(s, steps)
    decreases |steps|
  {
    if steps == [] then 0
    else (if TakesLeave(s, steps[0], t) then 1 else 0) + Leaves(Next(s, steps[0]), steps[1..], t)
  }

  /**
  `n` subscribers more have been added than have left; one leaver too many ends the event loop, and there is no more.
   */
  predicate Counted(s: State, t: nat, n: int) {
    if t >= |s.transceivers| then n == 0
    else
      var x := s.transceivers[t];
      n >= -1 && x.subscribers == (if n < 0 then 0 else n) && (n < 0 ==> !x.alive && x.phase.Idle?)
  }

  lemma StepCounts(s: State, step: Step, t: nat, n: int)
    requires Sound(s) && Enabled(s, step) && Counted(s, t, n)
    ensures Counted(Next(s, step), t, n + (if step == Insert(t) then 1 else 0) - (if TakesLeave(s, step, t) then 1 else 0))
  {
    hide HandleStep, InsertStep, FannedOut, Marked;
    match step
    case HandleEvent(u, prior, ok) =>
      hide Sound;
      HandleCounts(s, u, prior, ok, t, n);
    case Insert(u) =>
      PendingIsNew(s, u);
      hide Sound;
      InsertCounts(s, u, t, n);
    case TakeData(u, lane) =>
      TakeEffect(s, u, lane);
      hide Sound, TakeStep, Visible;
    case _ =>
      hide Sound;
  }

  lemma InsertCounts(s: State, u: nat, t: nat, n: int)
    requires IsInserting(s, u) && s.transceivers[u].phase.chan < |s.channels| && Counted(s, t, n)
    ensures Counted(InsertStep(s, u), t, n + (if u == t then 1 else 0))
  {
  }

  lemma HandleCounts(s: State, u: nat, prior: seq<Data>, ok: bool, t: nat, n: int)
    requires HasEvent(s, u) && Counted(s, t, n)
    ensures Counted(HandleStep(s, u, prior, ok), t, n - (if u == t && s.transceivers[u].events[0].UnSubscribe? then 1 else 0))
  {
  }

  lemma {:induction false} RunCounts(s: State, steps: seq<Step>, t: nat, n: int)
    requires Sound(s) && IsRun(s, steps) && Counted(s, t, n)
    ensures Counted(After(s, steps), t, n + Joins(s, steps, t) - Leaves(s, steps, t))
    decreases |steps|
  {
    hide Sound, Counted, Next, Enabled, TakesLeave;
    if steps != [] {
      NextKeeps(s, steps[0]);
      StepCounts(s, steps[0], t, n);
      RunCounts(Next(s, steps[0]), steps[1..], t,
                n + (if steps[0] == Insert(t) then 1 else 0) - (if TakesLeave(s, steps[0], t) then 1 else 0));
    }
  }

  /**
  Over every run the count of a running transceiver is the number of subscribers added to it less the number of
  unsubscriptions it has taken; one too many of these ends it.
   */
  lemma SubscribersCounted(steps: seq<Step>, t: nat)
    requires IsRun(Initial(), steps) && t < |After(Initial(), steps).transceivers|
    ensures var x := After(Initial(), steps).transceivers[t];
            var joined, left := Joins(Initial(), steps, t), Leaves(Initial(), steps, t);
            && left <= joined + 1
            && (left <= joined ==> x.subscribers == joined - left)
            && (left > joined ==> x.subscribers == 0 && !x.alive)
  {
    InitiallySound();
    RunCounts(Initial(), steps, t, 0);
    hide Joins, Leaves, Next, Sound;
  }

  // ---------- Names, by the steps alone ----------

  lemma {:induction false} RunTo(s: State, steps: seq<Step>, i: nat)
    requires IsRun(s, steps) && i <= |steps|
    ensures IsRun(s, steps[..i])
    ensures i < |steps| ==> Enabled(After(s, steps[..i]), steps[i])
    decreases i
  {
    hide Enabled, Next;
    if i > 0 {
      RunTo(Next(s, steps[0]), steps[1..], i - 1);
      assert steps[..i][1..] == steps[1..][..i - 1];
    }
  }

  /**
  Step `i` of the run ends an event loop that some name leads to: a subscriber cannot be sent its prior data, or as many
  have left by then as were added and another one leaves.
   */
  predicate Strands(steps: seq<Step>, i: nat)
    requires IsRun(Initial(), steps) && i < |steps|
  {
    RunTo(Initial(), steps, i);
    var s, step := After(Initial(), steps[..i]), steps[i];
    step.HandleEvent?
    && (exists id :: id in s.streams && s.streams[id] == step.t)
    && match s.transceivers[step.t].events[0]
       case Subscribe(_, _, _) => !step.ok
       case UnSubscribe(_, _) => Leaves(Initial(), steps[..i], step.t) >= Joins(Initial(), steps[..i], step.t)
       case UnPublish => false
  }

  lemma StrandsIs(steps: seq<Step>, i: nat)
    requires IsRun(Initial(), steps) && i < |steps|
    ensures IsRun(Initial(), steps[..i]) && Enabled(After(Initial(), steps[..i]), steps[i])
    ensures Strands(steps, i) <==> StrandsName(After(Initial(), steps[..i]), steps[i])
  {
    RunTo(Initial(), steps, i);
    var step := steps[i];
    if step.HandleEvent? {
      SubscribersCounted(steps[..i], step.t);
    }
    hide IsRun, After, Joins, Leaves;
  }

  predicate StrandsAt(s: State, steps: seq<Step>, i: nat)
    requires IsRun(s, steps) && i < |steps|
  {
    RunTo(s, steps, i);
    StrandsName(After(s, steps[..i]), steps[i])
  }

  lemma StrandsLater(s: State, steps: seq<Step>, i: nat)
    requires IsRun(s, steps) && i < |steps|
    ensures StrandsAt(s, steps, i) <==> if i == 0 then StrandsName(s, steps[0]) else StrandsAt(Next(s, steps[0]), steps[1..], i - 1)
  {
    hide StrandsName, Next, Enabled;
    RunTo(s, steps, i);
    if i > 0 {
      RunTo(Next(s, steps[0]), steps[1..], i - 1);
      assert steps[..i][1..] == steps[1..][..i - 1];
    }
  }

  lemma {:induction false} NoneStrandsExactly(s: State, steps: seq<Step>)
    requires IsRun(s, steps)
    ensures NoneStrandsName(s, steps) <==> forall i | 0 <= i < |steps| :: !StrandsAt(s, steps, i)
    decreases |steps|
  {
    hide StrandsAt, StrandsName, Next, Enabled;
    if steps != [] {
      StrandsLater(s, steps, 0);
      if !StrandsName(s, steps[0]) {
        var next, rest := Next(s, steps[0]), steps[1..];
        NoneStrandsExactly(next, rest);
        forall i | 0 < i < |steps| ensures StrandsAt(s, steps, i) <==> StrandsAt(next, rest, i - 1) {
          StrandsLater(s, steps, i);
        }
        forall i | 0 <= i < |rest| ensures StrandsAt(s, steps, i + 1) <==> StrandsAt(next, rest, i) {
          StrandsLater(s, steps, i + 1);
        }
      }
    }
  }

  /**
  The exact condition, by the steps of the run: every name taken can be freed by unpublishing it if and only if no step
  ends the event loop behind a name because prior data could not be sent or because more have left than were added.
   */
  lemma LiveByCounts(steps: seq<Step>)
    requires IsRun(Initial(), steps)
    ensures Live(After(Initial(), steps)) <==> forall i | 0 <= i < |steps| :: !Strands(steps, i)
  {
    hide Live, Strands, StrandsAt, NoneStrandsName, Next;
    NamesLiveExactly(steps);
    NoneStrandsExactly(Initial(), steps);
    forall i | 0 <= i < |steps| ensures Strands(steps, i) <==> StrandsAt(Initial(), steps, i) {
      StrandsIs(steps, i);
      StrandsAtIs(steps, i);
    }
  }

  lemma StrandsAtIs(steps: seq<Step>, i: nat)
    requires IsRun(Initial(), steps) && i < |steps|
    ensures IsRun(Initial(), steps[..i]) && Enabled(After(Initial(), steps[..i]), steps[i])
    ensures StrandsAt(Initial(), steps, i) <==> StrandsName(After(Initial(), steps[..i]), steps[i])
  {
    hide StrandsName, Enabled;
    RunTo(Initial(), steps, i);
  }
}
