/**
When an unsubscription lets a subscriber's channel go, and that a channel let go receives nothing.
 */
module StreamHubLeaving {
  import opened StreamHub
  import opened StreamHubProofs

  /** It was among the senders of its publisher and is no longer. */
  predicate LetGo(s: State, c: Chan) {
    && c < |s.channels| && s.channels[c].owner < |s.transceivers| && s.channels[c].joined
    && !Registered(s.transceivers[s.channels[c].owner].Of(s.channels[c].lane), c)
  }

  lemma LetGoStays(s: State, step: Step, c: Chan)
    requires Sound(s) && Enabled(s, step) && LetGo(s, c)
    ensures var r := Next(s, step); LetGo(r, c) && r.channels[c].received == s.channels[c].received
  {
    match step
    case HandleEvent(t, prior, ok) => LetGoHandled(s, t, prior, ok, c);
    case Insert(t) => LetGoInserted(s, t, c);
    case TakeData(t, lane) => LetGoTaken(s, t, lane, c);
    case _ =>
      hide Sound, ChannelSound, LoopSound, EventsSound, HandleStep, InsertStep, TakeStep;
  }

  lemma LetGoHandled(s: State, t: nat, prior: seq<Data>, ok: bool, c: Chan)
    requires Sound(s) && HasEvent(s, t) && LetGo(s, c)
    ensures var r := HandleStep(s, t, prior, ok); LetGo(r, c) && r.channels[c].received == s.channels[c].received
  {
    hide Sound;
    match s.transceivers[t].events[0]
    case Subscribe(_, chan, _) => PendingIsNew(s, t);
    case UnSubscribe(uuid, pullsPackets) =>
      FewerRegistered(s.transceivers[t].Of(if pullsPackets then Packets else Frames), uuid, c);
      hide Registered;
    case UnPublish =>
  }

  lemma FewerRegistered(l: DataLoop, uuid: Uuid, c: Chan)
    ensures Registered(l.(senders := l.senders - {uuid}), c) ==> Registered(l, c)
  {
    var m := l.(senders := l.senders - {uuid});
    if Registered(m, c) {
      var u :| u in m.senders && m.senders[u] == c;
      assert u in l.senders && l.senders[u] == c;
    }
  }

  lemma LetGoInserted(s: State, t: nat, c: Chan)
    requires Sound(s) && IsInserting(s, t) && LetGo(s, c)
    ensures var r := InsertStep(s, t); LetGo(r, c) && r.channels[c].received == s.channels[c].received
  {
    PendingIsNew(s, t);
    hide Sound;
    var p := s.transceivers[t].phase;
    OneMoreRegistered(s.transceivers[t].Of(p.lane), p.uuid, p.chan, c);
    hide Registered;
  }

  lemma OneMoreRegistered(l: DataLoop, uuid: Uuid, chan: Chan, c: Chan)
    requires c != chan
    ensures Registered(l.(senders := l.senders[uuid := chan]), c) ==> Registered(l, c)
  {
    var m := l.(senders := l.senders[uuid := chan]);
    if Registered(m, c) {
      var u :| u in m.senders && m.senders[u] == c;
      assert u in l.senders && l.senders[u] == c;
    }
  }

  lemma LetGoTaken(s: State, t: nat, lane: Lane, c: Chan)
    requires Sound(s) && CanTake(s, t, lane) && LetGo(s, c)
    ensures var r := TakeStep(s, t, lane); LetGo(r, c) && r.channels[c].received == s.channels[c].received
  {
    TakenBy(s, t, lane, c);
    TakeEffect(s, t, lane);
    hide ChannelSound, LoopSound, EventsSound, TakeStep;
  }

  /** A channel no longer among the senders never receives anything again. */
  lemma {:induction false} SilentForever(s: State, steps: seq<Step>, c: Chan)
    requires Sound(s) && IsRun(s, steps) && LetGo(s, c)
    ensures var r := After(s, steps); c < |r.channels| && r.channels[c].received == s.channels[c].received
    decreases |steps|
  {
    hide Sound, Next, Enabled;
    if steps != [] {
      NextKeeps(s, steps[0]);
      LetGoStays(s, steps[0], c);
      SilentForever(Next(s, steps[0]), steps[1..], c);
    }
  }

  /** An unsubscription lets the channel go exactly when the kind of subscription agrees with the kind of data. */
  lemma UnSubscribeExactly(s: State, t: nat, lane: Lane, uuid: Uuid, prior: seq<Data>, ok: bool)
    requires Sound(s) && HasEvent(s, t) && s.transceivers[t].events[0].UnSubscribe? && s.transceivers[t].events[0].uuid == uuid
    requires uuid in s.transceivers[t].Of(lane).senders
    ensures var chan := s.transceivers[t].Of(lane).senders[uuid];
            LetGo(HandleStep(s, t, prior, ok), chan) <==> s.transceivers[t].events[0].pullsPackets == lane.Packets?
  {
    hide HandleStep, ChannelSound, EventsSound;
    HandledSenders(s, t, lane, prior, ok);
    var l, r := s.transceivers[t].Of(lane), HandleStep(s, t, prior, ok);
    var m := r.transceivers[t].Of(lane);
    var chan := l.senders[uuid];
    assert LoopSound(s.channels, t, lane, l);
    assert chan < |s.channels| && s.channels[chan].owner == t && s.channels[chan].lane == lane && s.channels[chan].joined;
    if m.senders == l.senders {
      assert uuid in m.senders && Registered(m, chan);
    }
  }

  lemma HandledSenders(s: State, t: nat, lane: Lane, prior: seq<Data>, ok: bool)
    requires HasEvent(s, t) && s.transceivers[t].events[0].UnSubscribe?
    ensures var e, r := s.transceivers[t].events[0], HandleStep(s, t, prior, ok);
            t < |r.transceivers| && r.channels == s.channels
            && r.transceivers[t].Of(lane).senders ==
               if e.pullsPackets == lane.Packets? then s.transceivers[t].Of(lane).senders - {e.uuid}
               else s.transceivers[t].Of(lane).senders
  {
  }
}
