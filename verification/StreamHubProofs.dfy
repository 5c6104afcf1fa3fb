/**
What every interleaving of the loops of the stream hub keeps: a subscriber is sent its prior data and
then one contiguous block of its publisher's data.
 */
module StreamHubProofs {
  import opened Bytesio
  import opened StreamHub

  /** The data that is passed on: on the lane of frames metadata is not. */
  function Visible(lane: Lane, ds: seq<Data>): seq<Data> {
    if ds == [] then []
    else Visible(lane, ds[..|ds| - 1]) + (if lane == Frames && ds[|ds| - 1].meta then [] else [ds[|ds| - 1]])
  }

  // ---------- The invariant ----------

  /** What arrived on a channel is the prior data and a contiguous block of what its publisher sent. */
  predicate ChannelSound(transceivers: seq<Transceiver>, ch: Channel) {
    && ch.owner < |transceivers|
    && var l := transceivers[ch.owner].Of(ch.lane);
       ch.start <= ch.stop <= l.taken <= |l.sent|
       && ch.received == ch.prior + Visible(ch.lane, l.sent[ch.start..ch.stop])
  }

  predicate Registered(l: DataLoop, chan: Chan) {
    exists uuid :: uuid in l.senders && l.senders[uuid] == chan
  }

  /** The senders are channels of this transceiver and lane, each under one name, and open ones miss nothing. */
  predicate LoopSound(channels: seq<Channel>, t: nat, lane: Lane, l: DataLoop) {
    && l.taken <= |l.sent|
    && (forall uuid :: uuid in l.senders ==>
          l.senders[uuid] < |channels|
          && var ch := channels[l.senders[uuid]];
             ch.owner == t && ch.lane == lane && ch.joined && (ch.open ==> ch.stop == l.taken))
    && (forall u, v :: u in l.senders && v in l.senders && l.senders[u] == l.senders[v] ==> u == v)
  }

  /** The channel of a subscription under way: the hub waits for it and nothing has been passed on to it. */
  predicate PendingSound(s: State, t: nat, chan: Chan, lane: Lane)
    requires t < |s.transceivers|
  {
    && s.waiting && s.awaited == chan < |s.channels|
    && var ch := s.channels[chan];
       ch.owner == t && ch.lane == lane && !ch.joined && ch.start == ch.stop == 0 && ch.received == ch.prior
       && !Registered(s.transceivers[t].Of(lane), chan)
  }

  predicate EventsSound(s: State, t: nat)
    requires t < |s.transceivers|
  {
    var x := s.transceivers[t];
    && (forall i :: 0 <= i < |x.events| && x.events[i].Subscribe? ==> PendingSound(s, t, x.events[i].chan, x.events[i].lane))
    && (forall i, j :: 0 <= i < j < |x.events| ==> !(x.events[i].Subscribe? && x.events[j].Subscribe?))
    && (x.phase.Inserting? ==>
          PendingSound(s, t, x.phase.chan, x.phase.lane) && forall i :: 0 <= i < |x.events| ==> !x.events[i].Subscribe?)
  }

  predicate ChannelsSound(s: State) {
    forall c :: 0 <= c < |s.channels| ==> ChannelSound(s.transceivers, s.channels[c])
  }

  predicate LoopsSound(s: State) {
    forall t :: 0 <= t < |s.transceivers| ==>
      LoopSound(s.channels, t, Frames, s.transceivers[t].frames) && LoopSound(s.channels, t, Packets, s.transceivers[t].packets)
  }

  predicate MailSound(s: State) {
    forall t :: 0 <= t < |s.transceivers| ==> EventsSound(s, t)
  }

  predicate StreamsSound(s: State) {
    forall id :: id in s.streams ==> s.streams[id] < |s.transceivers|
  }

  predicate Sound(s: State) {
    ChannelsSound(s) && LoopsSound(s) && MailSound(s) && StreamsSound(s)
  }

  // ---------- What a step need not touch ----------

  /** The data of `l` is still there in `m`, and no less of it taken. */
  predicate Extends(l: DataLoop, m: DataLoop) {
    l.sent <= m.sent && l.taken <= m.taken <= |m.sent|
  }

  lemma ChannelStays(before: seq<Transceiver>, after: seq<Transceiver>, ch: Channel)
    requires ChannelSound(before, ch) && ch.owner < |after| && Extends(before[ch.owner].Of(ch.lane), after[ch.owner].Of(ch.lane))
    ensures ChannelSound(after, ch)
  {
    hide Visible;
    var l, m := before[ch.owner].Of(ch.lane), after[ch.owner].Of(ch.lane);
    assert m.sent[ch.start..ch.stop] == l.sent[ch.start..ch.stop];
  }

  /** The mailbox and the senders of a transceiver are as they were. */
  predicate SameMail(s: State, r: State, t: nat) {
    && t < |s.transceivers| && t < |r.transceivers|
    && r.transceivers[t].events == s.transceivers[t].events && r.transceivers[t].phase == s.transceivers[t].phase
    && r.transceivers[t].frames.senders == s.transceivers[t].frames.senders
    && r.transceivers[t].packets.senders == s.transceivers[t].packets.senders
  }

  /** The hub still waits, and for an unchanged channel. */
  predicate SameAwaited(s: State, r: State, chan: Chan) {
    r.waiting && r.awaited == chan && chan < |s.channels| && chan < |r.channels| && r.channels[chan] == s.channels[chan]
  }

  lemma MailStays(s: State, r: State, t: nat)
    requires SameMail(s, r, t) && EventsSound(s, t)
    requires forall chan, lane :: PendingSound(s, t, chan, lane) ==> SameAwaited(s, r, chan)
    ensures EventsSound(r, t)
  {
    forall chan, lane | PendingSound(s, t, chan, lane) ensures PendingSound(r, t, chan, lane) {
      PendingStays(s, r, t, chan, lane);
    }
    hide PendingSound;
  }

  lemma PendingStays(s: State, r: State, t: nat, chan: Chan, lane: Lane)
    requires SameMail(s, r, t) && PendingSound(s, t, chan, lane) && SameAwaited(s, r, chan)
    ensures PendingSound(r, t, chan, lane)
  {
  }

  // ---------- Steps of the hub ----------

  lemma PublishKeeps(s: State, id: StreamId, frames: bool, packets: bool, announced: bool)
    requires Sound(s)
    ensures Sound(PublishStep(s, id, frames, packets, announced))
  {
    hide Visible, ChannelSound, EventsSound;
    var r := PublishStep(s, id, frames, packets, announced);
    if id !in s.streams {
      forall c | 0 <= c < |r.channels| ensures ChannelSound(r.transceivers, r.channels[c]) {
        OwnerKnown(s, c);
        ChannelStays(s.transceivers, r.transceivers, s.channels[c]);
      }
      forall t | 0 <= t < |r.transceivers| ensures EventsSound(r, t) {
        if t < |s.transceivers| {
          MailStays(s, r, t);
        } else {
          NoMail(r, t);
        }
      }
    }
  }

  lemma OwnerKnown(s: State, c: Chan)
    requires ChannelsSound(s) && LoopsSound(s) && c < |s.channels|
    ensures ChannelSound(s.transceivers, s.channels[c]) && s.channels[c].owner < |s.transceivers|
    ensures var l := s.transceivers[s.channels[c].owner].Of(s.channels[c].lane); Extends(l, l)
  {
    hide Visible;
    assert ChannelSound(s.transceivers, s.channels[c]);
  }

  lemma NoMail(s: State, t: nat)
    requires t < |s.transceivers| && s.transceivers[t].events == [] && s.transceivers[t].phase.Idle?
    ensures EventsSound(s, t)
  {
  }

  lemma PostedKeeps(s: State, t: nat, e: Event)
    requires Sound(s) && t < |s.transceivers| && !e.Subscribe?
    ensures Sound(Posted(s, t, e))
  {
    hide Visible, ChannelSound, EventsSound;
    var r := Posted(s, t, e);
    forall c | 0 <= c < |r.channels| ensures ChannelSound(r.transceivers, r.channels[c]) {
      OwnerKnown(s, c);
      ChannelStays(s.transceivers, r.transceivers, s.channels[c]);
    }
    forall u | 0 <= u < |r.transceivers| ensures EventsSound(r, u) {
      assert EventsSound(s, u);
      if u == t {
        PostedMail(s, t, e);
      } else {
        MailStays(s, r, u);
      }
    }
  }

  lemma PostedMail(s: State, t: nat, e: Event)
    requires t < |s.transceivers| && EventsSound(s, t) && !e.Subscribe?
    ensures EventsSound(Posted(s, t, e), t)
  {
    var r := Posted(s, t, e);
    forall chan, lane | PendingSound(s, t, chan, lane) ensures PendingSound(r, t, chan, lane) {
    }
    hide PendingSound;
  }

  lemma SubscribeKeeps(s: State, id: StreamId, uuid: Uuid, lane: Lane)
    requires Sound(s) && !s.waiting
    ensures Sound(SubscribeStep(s, id, uuid, lane))
  {
    hide Visible, ChannelSound, EventsSound, LoopSound;
    var r := SubscribeStep(s, id, uuid, lane);
    if Reachable(s, id) {
      var t := s.streams[id];
      TakenInRange(s, t, lane);
      forall c | 0 <= c < |r.channels| ensures ChannelSound(r.transceivers, r.channels[c]) {
        if c < |s.channels| {
          OwnerKnown(s, c);
          ChannelStays(s.transceivers, r.transceivers, s.channels[c]);
        } else {
          FreshChannel(r.transceivers, t, lane);
        }
      }
      forall u | 0 <= u < |r.transceivers|
        ensures EventsSound(r, u)
        ensures LoopSound(r.channels, u, Frames, r.transceivers[u].frames) && LoopSound(r.channels, u, Packets, r.transceivers[u].packets)
      {
        MoreChannels(s.channels, NewChannel(t, lane), u, Frames, s.transceivers[u].frames);
        MoreChannels(s.channels, NewChannel(t, lane), u, Packets, s.transceivers[u].packets);
        NothingPending(s, u);
        if u == t {
          FreshIsUnregistered(s, t, lane);
          SubscribedMail(s, t, uuid, lane);
        } else {
          StillNothing(s, r, u);
        }
      }
    }
  }

  lemma TakenInRange(s: State, t: nat, lane: Lane)
    requires LoopsSound(s) && t < |s.transceivers|
    ensures s.transceivers[t].Of(lane).taken <= |s.transceivers[t].Of(lane).sent|
  {
    assert LoopSound(s.channels, t, lane, s.transceivers[t].Of(lane));
  }

  lemma MoreChannels(channels: seq<Channel>, ch: Channel, t: nat, lane: Lane, l: DataLoop)
    requires LoopSound(channels, t, lane, l)
    ensures LoopSound(channels + [ch], t, lane, l)
  {
  }

  lemma FreshChannel(transceivers: seq<Transceiver>, t: nat, lane: Lane)
    requires t < |transceivers| && transceivers[t].Of(lane).taken <= |transceivers[t].Of(lane).sent|
    ensures ChannelSound(transceivers, NewChannel(t, lane))
  {
    assert transceivers[t].Of(lane).sent[0..0] == [];
  }

  lemma FreshIsUnregistered(s: State, t: nat, lane: Lane)
    requires LoopsSound(s) && t < |s.transceivers|
    ensures !Registered(s.transceivers[t].Of(lane), |s.channels|)
  {
    assert LoopSound(s.channels, t, lane, s.transceivers[t].Of(lane));
  }

  lemma NothingPending(s: State, t: nat)
    requires t < |s.transceivers| && EventsSound(s, t) && !s.waiting
    ensures s.transceivers[t].phase.Idle? && forall i :: 0 <= i < |s.transceivers[t].events| ==> !s.transceivers[t].events[i].Subscribe?
  {
  }

  lemma StillNothing(s: State, r: State, t: nat)
    requires t < |s.transceivers| && t < |r.transceivers| && r.transceivers[t] == s.transceivers[t]
    requires s.transceivers[t].phase.Idle? && forall i :: 0 <= i < |s.transceivers[t].events| ==> !s.transceivers[t].events[i].Subscribe?
    ensures EventsSound(r, t)
  {
  }

  lemma SubscribedMail(s: State, t: nat, uuid: Uuid, lane: Lane)
    requires t < |s.transceivers| && !Registered(s.transceivers[t].Of(lane), |s.channels|)
    requires s.transceivers[t].phase.Idle? && forall i :: 0 <= i < |s.transceivers[t].events| ==> !s.transceivers[t].events[i].Subscribe?
    ensures var chan := |s.channels|;
            EventsSound(Posted(s, t, Subscribe(uuid, chan, lane))
                          .(channels := s.channels + [NewChannel(t, lane)], waiting := true, awaited := chan), t)
  {
  }

  // ---------- Steps of the data loops ----------

  lemma SendKeeps(s: State, t: nat, lane: Lane, data: Data)
    requires Sound(s) && CanSend(s, t, lane)
    ensures Sound(SendStep(s, t, lane, data))
  {
    hide Visible, ChannelSound, EventsSound;
    var r := SendStep(s, t, lane, data);
    forall c | 0 <= c < |r.channels| ensures ChannelSound(r.transceivers, r.channels[c]) {
      OwnerKnown(s, c);
      ChannelStays(s.transceivers, r.transceivers, s.channels[c]);
    }
    forall u | 0 <= u < |r.transceivers| ensures EventsSound(r, u) {
      MailStays(s, r, u);
    }
  }

  lemma StopKeeps(s: State, t: nat, lane: Lane)
    requires Sound(s) && t < |s.transceivers|
    ensures Sound(StopStep(s, t, lane))
  {
    hide Visible, ChannelSound, EventsSound;
    var r := StopStep(s, t, lane);
    StopLoops(s, t, lane);
    hide LoopsSound;
    forall c | 0 <= c < |r.channels| ensures ChannelSound(r.transceivers, r.channels[c]) {
      OwnerKnown(s, c);
      ChannelStays(s.transceivers, r.transceivers, s.channels[c]);
    }
    forall u | 0 <= u < |r.transceivers| ensures EventsSound(r, u) {
      MailStays(s, r, u);
    }
  }

  lemma StopLoops(s: State, t: nat, lane: Lane)
    requires LoopsSound(s) && t < |s.transceivers|
    ensures LoopsSound(StopStep(s, t, lane))
  {
  }

  lemma CloseKeeps(s: State, chan: Chan)
    requires Sound(s) && Enabled(s, CloseReceiver(chan))
    ensures Sound(Next(s, CloseReceiver(chan)))
  {
    hide Visible, EventsSound, LoopSound;
    var r := s.(channels := s.channels[chan := s.channels[chan].(open := false)]);
    forall c | 0 <= c < |r.channels| ensures ChannelSound(r.transceivers, r.channels[c]) {
      assert ChannelSound(s.transceivers, s.channels[c]);
    }
    forall u | 0 <= u < |r.transceivers|
      ensures EventsSound(r, u)
      ensures LoopSound(r.channels, u, Frames, r.transceivers[u].frames) && LoopSound(r.channels, u, Packets, r.transceivers[u].packets)
    {
      MailStays(s, r, u);
      ClosedLoop(s.channels, chan, u, Frames, r.transceivers[u].frames);
      ClosedLoop(s.channels, chan, u, Packets, r.transceivers[u].packets);
    }
  }

  lemma ClosedLoop(channels: seq<Channel>, chan: Chan, t: nat, lane: Lane, l: DataLoop)
    requires chan < |channels| && LoopSound(channels, t, lane, l)
    ensures LoopSound(channels[chan := channels[chan].(open := false)], t, lane, l)
  {
  }

  lemma OneEntry(channels: seq<Channel>, t: nat, lane: Lane, l: DataLoop, c: Chan)
    requires LoopSound(channels, t, lane, l)
    ensures |Entries(l.senders, c)| == if Registered(l, c) then 1 else 0
    ensures Entries(l.senders, c) == {} <==> !Registered(l, c)
  {
    if Registered(l, c) {
      var uuid :| uuid in l.senders && l.senders[uuid] == c;
      forall u | u in Entries(l.senders, c) ensures u == uuid {
        assert l.senders[u] == c;
      }
      assert Entries(l.senders, c) == {uuid};
    } else {
      forall u: Uuid ensures u !in Entries(l.senders, c) {
        assert u in l.senders ==> l.senders[u] != c;
      }
      assert Entries(l.senders, c) == {};
    }
  }

  lemma VisibleOneMore(lane: Lane, sent: seq<Data>, start: nat, stop: nat)
    requires start <= stop < |sent|
    ensures Visible(lane, sent[start..stop + 1])
         == Visible(lane, sent[start..stop]) + (if Dropped(lane, sent[stop]) then [] else [sent[stop]])
  {
    var ds := sent[start..stop + 1];
    assert ds[..|ds| - 1] == sent[start..stop];
  }

  function Took(l: DataLoop): DataLoop
    requires l.taken < |l.sent|
  {
    l.(taken := l.taken + 1)
  }

  /** A registered open channel after its data loop took the next data. */
  function Offered(ch: Channel, l: DataLoop): Channel
    requires l.taken < |l.sent|
  {
    var data := l.sent[l.taken];
    ch.(received := ch.received + (if Dropped(ch.lane, data) then [] else [data]), stop := l.taken + 1)
  }

  /** A step of a data loop gives the next data to every registered open channel, once, and nothing to any other. */
  lemma TakenBy(s: State, t: nat, lane: Lane, c: Chan)
    requires Sound(s) && CanTake(s, t, lane) && c < |s.channels|
    ensures var l := s.transceivers[t].Of(lane);
            var ch, r := s.channels[c], TakeStep(s, t, lane);
            |r.channels| == |s.channels| && (Registered(l, c) ==> ch.lane == lane && ch.owner == t)
            && r.channels[c] == if ch.open && Registered(l, c) then Offered(ch, l) else ch
  {
    hide Visible, EventsSound, ChannelSound;
    var l := s.transceivers[t].Of(lane);
    var data, ch := l.sent[l.taken], s.channels[c];
    assert LoopSound(s.channels, t, lane, l);
    OneEntry(s.channels, t, lane, l, c);
    if Registered(l, c) {
      var uuid :| uuid in l.senders && l.senders[uuid] == c;
      assert ch.lane == lane && ch.owner == t;
    }
    hide LoopSound, Entries;
    assert Repeat(data, 0) == [] && Repeat(data, 1) == [data];
    assert ch.received + [] == ch.received;
  }

  lemma OfferedIsSound(before: seq<Transceiver>, after: seq<Transceiver>, ch: Channel)
    requires ChannelSound(before, ch) && ch.owner < |after|
    requires var l := before[ch.owner].Of(ch.lane);
             ch.stop == l.taken < |l.sent| && after[ch.owner].Of(ch.lane) == Took(l)
    ensures ChannelSound(after, Offered(ch, before[ch.owner].Of(ch.lane)))
  {
    var l := before[ch.owner].Of(ch.lane);
    VisibleOneMore(ch.lane, l.sent, ch.start, l.taken);
    hide Visible;
    var shown, more := Visible(ch.lane, l.sent[ch.start..l.taken]), if Dropped(ch.lane, l.sent[l.taken]) then [] else [l.sent[l.taken]];
    assert ch.prior + shown + more == ch.prior + (shown + more);
  }

  lemma TakeKeeps(s: State, t: nat, lane: Lane)
    requires Sound(s) && CanTake(s, t, lane)
    ensures Sound(TakeStep(s, t, lane))
  {
    var r := TakeStep(s, t, lane);
    TakeEffect(s, t, lane);
    hide Visible, ChannelSound, EventsSound, TakeStep, LoopSound;
    forall c | 0 <= c < |r.channels| ensures ChannelSound(r.transceivers, r.channels[c]) {
      TakeKeepsChannel(s, t, lane, c);
    }
    forall u | 0 <= u < |r.transceivers|
      ensures EventsSound(r, u) && LoopSound(r.channels, u, Frames, r.transceivers[u].frames)
      ensures LoopSound(r.channels, u, Packets, r.transceivers[u].packets)
    {
      TakeKeepsMail(s, t, lane, u);
      TakeKeepsLoop(s, t, lane, u, Frames);
      TakeKeepsLoop(s, t, lane, u, Packets);
    }
  }

  lemma TakeEffect(s: State, t: nat, lane: Lane)
    requires CanTake(s, t, lane)
    ensures var r, x := TakeStep(s, t, lane), s.transceivers[t];
            r.streams == s.streams && r.waiting == s.waiting && r.awaited == s.awaited && |r.channels| == |s.channels|
            && r.transceivers == s.transceivers[t := x.With(lane, Took(x.Of(lane)))]
  {
  }

  lemma TakeKeepsChannel(s: State, t: nat, lane: Lane, c: Chan)
    requires Sound(s) && CanTake(s, t, lane) && c < |s.channels|
    ensures var r := TakeStep(s, t, lane); |r.channels| == |s.channels| && ChannelSound(r.transceivers, r.channels[c])
  {
    TakenBy(s, t, lane, c);
    TakeEffect(s, t, lane);
    OwnerKnown(s, c);
    var ch, l, r := s.channels[c], s.transceivers[t].Of(lane), TakeStep(s, t, lane);
    if ch.open && Registered(l, c) {
      AllTaken(s, t, lane, c);
      hide Visible, ChannelSound, TakeStep;
      OfferedIsSound(s.transceivers, r.transceivers, ch);
    } else {
      hide Visible, ChannelSound, TakeStep;
      ChannelStays(s.transceivers, r.transceivers, ch);
    }
  }

  lemma AllTaken(s: State, t: nat, lane: Lane, c: Chan)
    requires LoopsSound(s) && t < |s.transceivers| && c < |s.channels| && s.channels[c].open
    requires Registered(s.transceivers[t].Of(lane), c)
    ensures s.channels[c].stop == s.transceivers[t].Of(lane).taken
    ensures s.channels[c].owner == t && s.channels[c].lane == lane
  {
    assert LoopSound(s.channels, t, lane, s.transceivers[t].Of(lane));
  }

  lemma TakeKeepsMail(s: State, t: nat, lane: Lane, u: nat)
    requires Sound(s) && CanTake(s, t, lane) && u < |s.transceivers|
    ensures u < |TakeStep(s, t, lane).transceivers| && EventsSound(TakeStep(s, t, lane), u)
  {
    var r := TakeStep(s, t, lane);
    TakeEffect(s, t, lane);
    assert EventsSound(s, u);
    forall chan, other | PendingSound(s, u, chan, other) ensures SameAwaited(s, r, chan) {
      TakenBy(s, t, lane, chan);
    }
    hide TakeStep, EventsSound, PendingSound;
    MailStays(s, r, u);
  }

  lemma TakeKeepsLoop(s: State, t: nat, lane: Lane, u: nat, other: Lane)
    requires Sound(s) && CanTake(s, t, lane) && u < |s.transceivers|
    ensures var r := TakeStep(s, t, lane); u < |r.transceivers| && LoopSound(r.channels, u, other, r.transceivers[u].Of(other))
  {
    hide EventsSound, ChannelSound, TakeStep, Sound;
    TookLoop(s, t, lane, u, other);
    var r, l := TakeStep(s, t, lane), s.transceivers[u].Of(other);
    SoundLoop(s, u, other);
    forall uuid | uuid in l.senders
      ensures TakenEntry(r, l.senders[uuid], u, other, r.transceivers[u].Of(other).taken)
    {
      TakeKeepsEntry(s, t, lane, u, other, uuid);
    }
  }

  lemma SoundLoop(s: State, u: nat, other: Lane)
    requires Sound(s) && u < |s.transceivers|
    ensures LoopSound(s.channels, u, other, s.transceivers[u].Of(other))
  {
  }

  predicate TakenEntry(r: State, c: Chan, u: nat, other: Lane, taken: nat) {
    c < |r.channels|
    && var ch := r.channels[c];
       ch.owner == u && ch.lane == other && ch.joined && (ch.open ==> ch.stop == taken)
  }

  lemma TakeKeepsEntry(s: State, t: nat, lane: Lane, u: nat, other: Lane, uuid: Uuid)
    requires Sound(s) && CanTake(s, t, lane) && u < |s.transceivers| && uuid in s.transceivers[u].Of(other).senders
    ensures var r, l := TakeStep(s, t, lane), s.transceivers[u].Of(other);
            TakenEntry(r, l.senders[uuid], u, other, if u == t && other == lane then l.taken + 1 else l.taken)
  {
    hide EventsSound, ChannelSound, TakeStep, Sound;
    SoundLoop(s, u, other);
    SoundLoop(s, t, lane);
    TakeEffect(s, t, lane);
    var l := s.transceivers[u].Of(other);
    assert Registered(l, l.senders[uuid]);
    TakenBy(s, t, lane, l.senders[uuid]);
  }

  lemma TookLoop(s: State, t: nat, lane: Lane, u: nat, other: Lane)
    requires CanTake(s, t, lane) && u < |s.transceivers|
    ensures var l, r := s.transceivers[u].Of(other), TakeStep(s, t, lane);
            u < |r.transceivers| && r.transceivers[u].Of(other) == if u == t && other == lane then Took(l) else l
  {
    TakeEffect(s, t, lane);
  }

  // ---------- Steps of the event loops ----------

  /** The loops of `u` are sound when its senders shrank and its channels are as they were. */
  lemma FewerSenders(channels: seq<Channel>, t: nat, lane: Lane, l: DataLoop, uuid: Uuid)
    requires LoopSound(channels, t, lane, l)
    ensures LoopSound(channels, t, lane, l.(senders := l.senders - {uuid}))
  {
  }

  predicate SameData(l: DataLoop, m: DataLoop) {
    m.sent == l.sent && m.taken == l.taken
  }

  /** A new event state of one transceiver that keeps its data. */
  lemma ChannelsStay(s: State, t: nat, x: Transceiver)
    requires ChannelsSound(s) && LoopsSound(s) && t < |s.transceivers|
    requires SameData(s.transceivers[t].frames, x.frames) && SameData(s.transceivers[t].packets, x.packets)
    ensures ChannelsSound(s.(transceivers := s.transceivers[t := x]))
  {
    hide ChannelSound, LoopSound;
    var after := s.transceivers[t := x];
    forall c | 0 <= c < |s.channels| ensures ChannelSound(after, s.channels[c]) {
      OwnerKnown(s, c);
      ChannelStays(s.transceivers, after, s.channels[c]);
    }
  }

  lemma RemovedKeeps(s: State, t: nat, uuid: Uuid, pullsPackets: bool, subscribers: nat)
    requires Sound(s) && HasEvent(s, t)
    ensures Sound(Removed(s, t, uuid, pullsPackets, subscribers))
  {
    hide Visible, ChannelSound, EventsSound, LoopSound;
    var r, x := Removed(s, t, uuid, pullsPackets, subscribers), s.transceivers[t];
    var lane := if pullsPackets then Packets else Frames;
    FewerSenders(s.channels, t, lane, x.Of(lane), uuid);
    ChannelsStay(s, t, r.transceivers[t]);
    forall u | 0 <= u < |r.transceivers| ensures EventsSound(r, u) {
      if u == t {
        RemovedMail(s, t, uuid, pullsPackets, subscribers);
      } else {
        MailStays(s, r, u);
      }
    }
  }

  lemma RemovedMail(s: State, t: nat, uuid: Uuid, pullsPackets: bool, subscribers: nat)
    requires HasEvent(s, t) && EventsSound(s, t)
    ensures EventsSound(Removed(s, t, uuid, pullsPackets, subscribers), t)
  {
    var r := Removed(s, t, uuid, pullsPackets, subscribers);
    forall chan, lane | PendingSound(s, t, chan, lane) ensures PendingSound(r, t, chan, lane) {
    }
    hide PendingSound;
  }

  lemma UnSubscribedKeeps(s: State, t: nat, prior: seq<Data>, ok: bool)
    requires Sound(s) && HasEvent(s, t) && s.transceivers[t].events[0].UnSubscribe?
    ensures Sound(HandleStep(s, t, prior, ok))
  {
    hide Sound, Removed;
    var x, e := s.transceivers[t], s.transceivers[t].events[0];
    var n := if x.subscribers == 0 then 0 else x.subscribers - 1;
    RemovedKeeps(s, t, e.uuid, e.pullsPackets, n);
    if x.subscribers == 0 {
      RemovedIsIdle(s, t, e.uuid, e.pullsPackets, n);
      EndedKeeps(Removed(s, t, e.uuid, e.pullsPackets, n), t);
    }
  }

  lemma RemovedIsIdle(s: State, t: nat, uuid: Uuid, pullsPackets: bool, n: nat)
    requires HasEvent(s, t)
    ensures var r := Removed(s, t, uuid, pullsPackets, n); t < |r.transceivers| && r.transceivers[t].phase.Idle?
  {
  }

  lemma EndedKeeps(s: State, t: nat)
    requires Sound(s) && t < |s.transceivers| && s.transceivers[t].phase.Idle?
    ensures Sound(EndedAt(s, t))
  {
    hide Visible, ChannelSound, EventsSound, LoopSound;
    var r := EndedAt(s, t);
    ChannelsStay(s, t, r.transceivers[t]);
    forall u | 0 <= u < |r.transceivers| ensures EventsSound(r, u) {
      if u == t {
        NoMail(r, t);
      } else {
        MailStays(s, r, u);
      }
    }
  }

  /** The prior data reaches the awaited channel. */
  function Told(s: State, chan: Chan, prior: seq<Data>): State
    requires chan < |s.channels|
  {
    s.(channels := s.channels[chan := s.channels[chan].(prior := prior, received := prior)])
  }

  lemma ToldKeeps(s: State, t: nat, chan: Chan, lane: Lane, prior: seq<Data>)
    requires Sound(s) && t < |s.transceivers| && PendingSound(s, t, chan, lane)
    ensures Sound(Told(s, chan, prior)) && PendingSound(Told(s, chan, prior), t, chan, lane)
  {
    hide Visible, EventsSound;
    var r := Told(s, chan, prior);
    NothingVisible(lane, s.transceivers[t].Of(lane).sent);
    forall c | 0 <= c < |r.channels| ensures ChannelSound(r.transceivers, r.channels[c]) {
      assert ChannelSound(s.transceivers, s.channels[c]);
    }
    forall u | 0 <= u < |r.transceivers| ensures EventsSound(r, u) {
      assert EventsSound(s, u);
      ToldMail(s, chan, prior, u);
    }
  }

  lemma NothingVisible(lane: Lane, sent: seq<Data>)
    ensures Visible(lane, sent[0..0]) == []
  {
  }

  lemma ToldMail(s: State, chan: Chan, prior: seq<Data>, u: nat)
    requires u < |s.transceivers| && chan < |s.channels| && EventsSound(s, u)
    ensures EventsSound(Told(s, chan, prior), u)
  {
    var r := Told(s, chan, prior);
    forall c, lane | PendingSound(s, u, c, lane) ensures PendingSound(r, u, c, lane) {
    }
    hide PendingSound;
  }

  lemma SubscribedKeeps(s: State, t: nat, prior: seq<Data>, ok: bool)
    requires Sound(s) && HasEvent(s, t) && s.transceivers[t].events[0].Subscribe?
    ensures Sound(HandleStep(s, t, prior, ok))
  {
    var x, e := s.transceivers[t], s.transceivers[t].events[0];
    assert EventsSound(s, t) && PendingSound(s, t, e.chan, e.lane);
    ToldKeeps(s, t, e.chan, e.lane, prior);
    var told := Told(s, e.chan, prior);
    if ok {
      var r := HandleStep(s, t, prior, ok);
      InsertingMail(told, t);
      hide Visible, ChannelSound, EventsSound, LoopSound, PendingSound;
      ChannelsStay(told, t, r.transceivers[t]);
      forall u | 0 <= u < |r.transceivers| ensures EventsSound(r, u) {
        if u != t {
          MailStays(told, r, u);
        }
      }
    } else {
      hide Visible, ChannelSound, EventsSound, LoopSound, PendingSound;
      EndedKeeps(told, t);
    }
  }

  lemma InsertingMail(s: State, t: nat)
    requires HasEvent(s, t) && EventsSound(s, t) && s.transceivers[t].events[0].Subscribe?
    ensures var x := s.transceivers[t];
            var e := x.events[0];
            EventsSound(s.(transceivers := s.transceivers[t := x.(events := x.events[1..], phase := Inserting(e.uuid, e.chan, e.lane))]), t)
  {
  }

  /** The subscriber's channel once it is among the senders. */
  function Joined(ch: Channel, taken: nat): Channel {
    ch.(joined := true, start := taken, stop := taken)
  }

  lemma InsertKeeps(s: State, t: nat)
    requires Sound(s) && IsInserting(s, t)
    ensures Sound(InsertStep(s, t))
  {
    var x := s.transceivers[t];
    var Inserting(uuid, chan, lane) := x.phase;
    var r := InsertStep(s, t);
    var l := x.Of(lane);
    assert EventsSound(s, t) && PendingSound(s, t, chan, lane);
    InsertedChannel(s, t, chan, lane);
    AddedLoop(s.channels, chan, t, lane, l, uuid);
    InsertedMail(s, t);
    var x' := r.transceivers[t];
    hide Visible, ChannelSound, EventsSound, LoopSound;
    ChannelsStay(s, t, x');
    forall c | 0 <= c < |r.channels| ensures ChannelSound(r.transceivers, r.channels[c]) {
      SameOwner(s, t, x', c);
    }
    forall u | 0 <= u < |r.transceivers|
      ensures LoopSound(r.channels, u, Frames, r.transceivers[u].frames) && LoopSound(r.channels, u, Packets, r.transceivers[u].packets)
    {
      NotHere(s, t, chan, lane, u, Frames);
      NotHere(s, t, chan, lane, u, Packets);
      UntouchedLoop(s.channels, chan, Joined(s.channels[chan], l.taken), u, Frames, s.transceivers[u].frames);
      UntouchedLoop(s.channels, chan, Joined(s.channels[chan], l.taken), u, Packets, s.transceivers[u].packets);
    }
  }

  lemma InsertedChannel(s: State, t: nat, chan: Chan, lane: Lane)
    requires LoopsSound(s) && t < |s.transceivers| && PendingSound(s, t, chan, lane)
    ensures var l := s.transceivers[t].Of(lane);
            ChannelSound(s.transceivers, Joined(s.channels[chan], l.taken))
  {
    var l := s.transceivers[t].Of(lane);
    assert LoopSound(s.channels, t, lane, l);
    assert l.sent[l.taken..l.taken] == [];
  }

  // The loops look at the data of a transceiver alone.
  lemma SameOwner(s: State, t: nat, x: Transceiver, c: Chan)
    requires t < |s.transceivers| && IsInserting(s, t)
    requires SameData(s.transceivers[t].frames, x.frames) && SameData(s.transceivers[t].packets, x.packets)
    requires x == InsertStep(s, t).transceivers[t] && s.transceivers[t].phase.chan < |s.channels|
    requires ChannelsSound(s.(transceivers := s.transceivers[t := x]))
    requires var p := s.transceivers[t].phase;
             ChannelSound(s.transceivers, Joined(s.channels[p.chan], s.transceivers[t].Of(p.lane).taken))
    ensures c < |InsertStep(s, t).channels| ==> ChannelSound(InsertStep(s, t).transceivers, InsertStep(s, t).channels[c])
  {
    hide Visible;
  }

  lemma AddedLoop(channels: seq<Channel>, chan: Chan, t: nat, lane: Lane, l: DataLoop, uuid: Uuid)
    requires LoopSound(channels, t, lane, l) && !Registered(l, chan) && chan < |channels|
    requires channels[chan].owner == t && channels[chan].lane == lane
    ensures LoopSound(channels[chan := Joined(channels[chan], l.taken)], t, lane, l.(senders := l.senders[uuid := chan]))
  {
  }

  lemma UntouchedLoop(channels: seq<Channel>, chan: Chan, ch: Channel, t: nat, lane: Lane, l: DataLoop)
    requires chan < |channels| && LoopSound(channels, t, lane, l)
    ensures !Registered(l, chan) ==> LoopSound(channels[chan := ch], t, lane, l)
  {
  }

  /** The channel of a subscription under way is not among any senders. */
  lemma NotHere(s: State, t: nat, chan: Chan, lane: Lane, u: nat, other: Lane)
    requires LoopsSound(s) && t < |s.transceivers| && u < |s.transceivers| && PendingSound(s, t, chan, lane)
    ensures !Registered(s.transceivers[u].Of(other), chan)
  {
    assert LoopSound(s.channels, u, other, s.transceivers[u].Of(other));
  }

  lemma InsertedMail(s: State, t: nat)
    requires MailSound(s) && IsInserting(s, t)
    ensures MailSound(InsertStep(s, t))
  {
    var r, p := InsertStep(s, t), s.transceivers[t].phase;
    assert EventsSound(s, t) && PendingSound(s, t, p.chan, p.lane);
    forall u | 0 <= u < |r.transceivers| ensures EventsSound(r, u) {
      assert EventsSound(s, u);
      if u != t {
        assert forall c, lane :: !PendingSound(s, u, c, lane);
        StillNothing(s, r, u);
      }
    }
  }

  // ---------- Every run ----------

  /** The channel of a subscription under way has not joined yet. */
  lemma PendingIsNew(s: State, t: nat)
    requires Sound(s) && t < |s.transceivers|
    ensures var x := s.transceivers[t];
            (x.events != [] && x.events[0].Subscribe? ==> x.events[0].chan < |s.channels| && !s.channels[x.events[0].chan].joined)
            && (x.phase.Inserting? ==> x.phase.chan < |s.channels| && !s.channels[x.phase.chan].joined)
  {
    assert EventsSound(s, t);
    hide ChannelSound, LoopSound;
  }

  lemma NextKeeps(s: State, step: Step)
    requires Sound(s) && Enabled(s, step)
    ensures Sound(Next(s, step))
  {
    hide Sound, PublishStep, Posted, SubscribeStep, SendStep, HandleStep, InsertStep, TakeStep, StopStep;
    match step
    case Publish(id, frames, packets, announced) => PublishKeeps(s, id, frames, packets, announced);
    case RequestUnPublish(id) => UnPublishKeeps(s, id);
    case RequestSubscribe(id, uuid, lane) => SubscribeKeeps(s, id, uuid, lane);
    case RequestUnSubscribe(id, uuid, pullsPackets) =>
      if Reachable(s, id) { PostedKeeps(s, s.streams[id], UnSubscribe(uuid, pullsPackets)); }
    case Send(t, lane, data) => SendKeeps(s, t, lane, data);
    case HandleEvent(t, prior, ok) => HandleKeeps(s, t, prior, ok);
    case Insert(t) => InsertKeeps(s, t);
    case TakeData(t, lane) => TakeKeeps(s, t, lane);
    case StopLoop(t, lane) => StopKeeps(s, t, lane);
    case CloseReceiver(chan) => CloseKeeps(s, chan);
  }

  lemma UnPublishKeeps(s: State, id: StreamId)
    requires Sound(s)
    ensures Sound(UnPublishStep(s, id))
  {
    if Reachable(s, id) {
      PostedKeeps(s, s.streams[id], UnPublish);
      StreamsDropped(Posted(s, s.streams[id], UnPublish), id);
    }
  }

  lemma StreamsDropped(s: State, id: StreamId)
    requires Sound(s)
    ensures Sound(s.(streams := s.streams - {id}))
  {
    hide ChannelSound, LoopSound;
    var r := s.(streams := s.streams - {id});
    forall t | 0 <= t < |r.transceivers| ensures EventsSound(r, t) {
      assert EventsSound(s, t);
      SameEvents(s, r, t);
    }
  }

  lemma SameEvents(s: State, r: State, t: nat)
    requires t < |s.transceivers| && EventsSound(s, t) && r == s.(streams := r.streams)
    ensures EventsSound(r, t)
  {
  }

  lemma HandleKeeps(s: State, t: nat, prior: seq<Data>, ok: bool)
    requires Sound(s) && HasEvent(s, t)
    ensures Sound(HandleStep(s, t, prior, ok))
  {
    match s.transceivers[t].events[0]
    case Subscribe(_, _, _) => SubscribedKeeps(s, t, prior, ok);
    case UnSubscribe(_, _) => UnSubscribedKeeps(s, t, prior, ok);
    case UnPublish =>
      hide Sound;
      EndedKeeps(s, t);
  }

  lemma {:induction false} RunsOn(s: State, steps: seq<Step>, more: seq<Step>)
    requires IsRun(s, steps) && IsRun(After(s, steps), more)
    ensures IsRun(s, steps + more) && After(s, steps + more) == After(After(s, steps), more)
    decreases |steps|
  {
    hide Enabled, Next;
    if steps == [] {
      assert steps + more == more;
    } else {
      RunsOn(Next(s, steps[0]), steps[1..], more);
      assert (steps + more)[1..] == steps[1..] + more;
    }
  }

  lemma InitiallySound()
    ensures Sound(Initial())
  {
  }

  lemma {:induction false} RunKeeps(s: State, steps: seq<Step>)
    requires Sound(s) && IsRun(s, steps)
    ensures Sound(After(s, steps))
    decreases |steps|
  {
    hide Sound, Next, Enabled;
    if steps != [] {
      NextKeeps(s, steps[0]);
      RunKeeps(Next(s, steps[0]), steps[1..]);
    }
  }

  /**
  In every interleaving, what a subscriber received is its prior data and then one contiguous block of what its
  publisher sent, in order and without repetition, metadata frames left out; as long as it is among the senders and
  open, nothing its data loop has taken is missing.
   */
  lemma FanOut(steps: seq<Step>, c: Chan)
    requires IsRun(Initial(), steps) && c < |After(Initial(), steps).channels|
    ensures var s := After(Initial(), steps);
            var ch := s.channels[c];
            ch.owner < |s.transceivers|
            && var l := s.transceivers[ch.owner].Of(ch.lane);
               ch.start <= ch.stop <= l.taken <= |l.sent|
               && ch.received == ch.prior + Visible(ch.lane, l.sent[ch.start..ch.stop])
               && (ch.open && Registered(l, c) ==> ch.stop == l.taken)
  {
    InitiallySound();
    RunKeeps(Initial(), steps);
    var s := After(Initial(), steps);
    assert ChannelSound(s.transceivers, s.channels[c]);
    var ch := s.channels[c];
    assert LoopSound(s.channels, ch.owner, ch.lane, s.transceivers[ch.owner].Of(ch.lane));
  }
}
