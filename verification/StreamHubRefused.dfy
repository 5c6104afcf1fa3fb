/**
What becomes of publishers that are refused.
 */
module StreamHubRefused {
  import opened StreamHub
  import opened StreamHubProofs

  /** A publisher that was not given a channel has sent nothing. */
  predicate OnlyGrantedSend(s: State) {
    forall t :: 0 <= t < |s.transceivers| ==>
      (!s.transceivers[t].frames.granted ==> s.transceivers[t].frames.sent == [])
      && (!s.transceivers[t].packets.granted ==> s.transceivers[t].packets.sent == [])
  }

  lemma GrantedStays(s: State, step: Step)
    requires OnlyGrantedSend(s) && Enabled(s, step)
    ensures OnlyGrantedSend(Next(s, step))
  {
    hide HandleStep, InsertStep, TakeStep;
    match step
    case HandleEvent(t, prior, ok) => GrantedHandled(s, t, prior, ok);
    case Insert(t) => GrantedInserted(s, t);
    case TakeData(t, lane) => TakeEffect(s, t, lane);
    case _ =>
  }

  lemma GrantedHandled(s: State, t: nat, prior: seq<Data>, ok: bool)
    requires OnlyGrantedSend(s) && HasEvent(s, t)
    ensures OnlyGrantedSend(HandleStep(s, t, prior, ok))
  {
  }

  lemma GrantedInserted(s: State, t: nat)
    requires OnlyGrantedSend(s) && IsInserting(s, t)
    ensures OnlyGrantedSend(InsertStep(s, t))
  {
  }

  lemma {:induction false} GrantedInRuns(s: State, steps: seq<Step>)
    requires OnlyGrantedSend(s) && IsRun(s, steps)
    ensures OnlyGrantedSend(After(s, steps))
    decreases |steps|
  {
    hide OnlyGrantedSend, Next, Enabled;
    if steps != [] {
      GrantedStays(s, steps[0]);
      GrantedInRuns(Next(s, steps[0]), steps[1..]);
    }
  }

  /** A publisher refused because the name is taken leaves no trace, wherever in a run it tries. */
  lemma RefusedLeavesNoTrace(s: State, before: seq<Step>, publish: Step, after: seq<Step>)
    requires IsRun(s, before) && IsRun(After(s, before), after)
    requires publish.Publish? && publish.id in After(s, before).streams && !After(s, before).waiting
    ensures IsRun(s, before + after) && IsRun(s, before + ([publish] + after))
    ensures After(s, before + ([publish] + after)) == After(s, before + after)
  {
    var q := After(s, before);
    assert Enabled(q, publish) && Next(q, publish) == q;
    hide Enabled, Next;
    assert ([publish] + after)[1..] == after;
    RunsOn(s, before, after);
    RunsOn(s, before, [publish] + after);
  }

  /** One refused because its announcement failed is never heard: a subscriber to it has its prior data and nothing else. */
  lemma RefusedIsSilent(steps: seq<Step>, c: Chan)
    requires IsRun(Initial(), steps) && c < |After(Initial(), steps).channels|
    ensures var s := After(Initial(), steps);
            var ch := s.channels[c];
            ch.owner < |s.transceivers| && !s.transceivers[ch.owner].Of(ch.lane).granted ==> ch.received == ch.prior
  {
    GrantedInRuns(Initial(), steps);
    FanOut(steps, c);
    var s := After(Initial(), steps);
    var ch := s.channels[c];
    var l := s.transceivers[ch.owner].Of(ch.lane);
    if !l.granted {
      assert l.sent[ch.start..ch.stop] == [];
    }
  }
}
