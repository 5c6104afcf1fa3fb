/**
The stream hub (library/streamhub/src/lib.rs) as a system of steps: the hub loop, and for every
accepted publisher a transceiver with an event loop and one loop for each kind of data.  Every step
is one atomic action of one loop; mailboxes are first in, first out.
 */
module StreamHub {
  import opened Bytesio

  datatype Uuid = Uuid(number: nat)

  type StreamId = int

  /** A channel end handed to a subscriber, numbered in the order they are made. */
  type Chan = nat

  /** Frames and packets travel separately. */
  datatype Lane = Frames | Packets

  /** A frame or packet; `meta` marks the frames that carry metadata. */
  datatype Data = Data(meta: bool, content: int)

  datatype Event =
    | Subscribe(uuid: Uuid, chan: Chan, lane: Lane)
    | UnSubscribe(uuid: Uuid, pullsPackets: bool)
    | UnPublish

  /** A data loop: what its publisher sent, how much of it has been taken, and who it is passed on to. */
  datatype DataLoop = DataLoop(granted: bool, running: bool, sent: seq<Data>, taken: nat, senders: map<Uuid, Chan>)

  /** Between sending the prior data to a subscriber and adding it to the senders the event loop can be overtaken. */
  datatype Phase = Idle | Inserting(uuid: Uuid, chan: Chan, lane: Lane)

  datatype Transceiver = Transceiver(frames: DataLoop, packets: DataLoop, events: seq<Event>, subscribers: nat,
                                     alive: bool, exit: bool, phase: Phase) {
    function Of(lane: Lane): DataLoop {
      if lane.Frames? then frames else packets
    }

    function With(lane: Lane, l: DataLoop): Transceiver {
      if lane.Frames? then this.(frames := l) else this.(packets := l)
    }

    /** The event loop ends and drops its mailbox; the data loops are told to exit. */
    function Ended(): Transceiver {
      this.(alive := false, exit := true, events := [])
    }
  }

  /**
  A subscriber's channel: what arrived on it, and of that the prior data; once it has joined the senders, `start` and
  `stop` bound the part of the publisher's data it has been sent.
   */
  datatype Channel = Channel(owner: nat, lane: Lane, open: bool, joined: bool, prior: seq<Data>, received: seq<Data>, start: nat, stop: nat)

  datatype State = State(streams: map<StreamId, nat>, transceivers: seq<Transceiver>, channels: seq<Channel>, waiting: bool, awaited: Chan)

  datatype Step =
    | Publish(id: StreamId, frames: bool, packets: bool, announced: bool)
    | RequestUnPublish(id: StreamId)
    | RequestSubscribe(id: StreamId, uuid: Uuid, lane: Lane)
    | RequestUnSubscribe(id: StreamId, uuid: Uuid, pullsPackets: bool)
    | Send(t: nat, lane: Lane, data: Data)
    | HandleEvent(t: nat, prior: seq<Data>, ok: bool)
    | Insert(t: nat)
    | TakeData(t: nat, lane: Lane)
    | StopLoop(t: nat, lane: Lane)
    | CloseReceiver(chan: Chan)

  function Initial(): State {
    State(map[], [], [], false, 0)
  }

  // ---------- The hub loop ----------

  function NewLoop(running: bool, granted: bool): DataLoop {
    DataLoop(granted, running, [], 0, map[])
  }

  /**
  A name already taken is refused.  Otherwise a transceiver is started and the name taken; when the announcement to
  the relays fails the publisher is refused all the same and gets no channel to send on.
   */
  function PublishStep(s: State, id: StreamId, frames: bool, packets: bool, announced: bool): State {
    if id in s.streams then s
    else
      var t := Transceiver(NewLoop(frames, frames && announced), NewLoop(packets, packets && announced), [], 0, true, false, Idle);
      s.(streams := s.streams[id := |s.transceivers|], transceivers := s.transceivers + [t])
  }

  function Posted(s: State, t: nat, e: Event): State
    requires t < |s.transceivers|
  {
    var x := s.transceivers[t];
    s.(transceivers := s.transceivers[t := x.(events := x.events + [e])])
  }

  /** The hub can post to the stream's transceiver while its event loop runs. */
  predicate Reachable(s: State, id: StreamId) {
    id in s.streams && s.streams[id] < |s.transceivers| && s.transceivers[s.streams[id]].alive
  }

  function UnPublishStep(s: State, id: StreamId): State {
    if Reachable(s, id) then Posted(s, s.streams[id], UnPublish).(streams := s.streams - {id}) else s
  }

  function NewChannel(t: nat, lane: Lane): Channel {
    Channel(t, lane, true, false, [], [], 0, 0)
  }

  /** The hub waits for the reply before it takes its next event. */
  function SubscribeStep(s: State, id: StreamId, uuid: Uuid, lane: Lane): State {
    if Reachable(s, id) then
      var t, chan := s.streams[id], |s.channels|;
      Posted(s, t, Subscribe(uuid, chan, lane))
        .(channels := s.channels + [NewChannel(t, lane)], waiting := true, awaited := chan)
    else s
  }

  function UnSubscribeStep(s: State, id: StreamId, uuid: Uuid, pullsPackets: bool): State {
    if Reachable(s, id) then Posted(s, s.streams[id], UnSubscribe(uuid, pullsPackets)) else s
  }

  // ---------- The loops of a transceiver ----------

  /** The event loop of a transceiver ends; a reply the hub waits for from it is dropped. */
  function EndedAt(s: State, t: nat): State
    requires t < |s.transceivers|
  {
    s.(transceivers := s.transceivers[t := s.transceivers[t].Ended()],
       waiting := s.waiting && !(s.awaited < |s.channels| && s.channels[s.awaited].owner == t))
  }

  predicate HasEvent(s: State, t: nat) {
    t < |s.transceivers| && s.transceivers[t].alive && s.transceivers[t].phase.Idle? && s.transceivers[t].events != []
  }

  /**
  An unsubscription taken from the mailbox.  Which senders it looks at is decided by the kind of subscription, not by
  the kind of data subscribed to.
   */
  function Removed(s: State, t: nat, uuid: Uuid, pullsPackets: bool, subscribers: nat): State
    requires HasEvent(s, t)
  {
    var x := s.transceivers[t];
    var lane := if pullsPackets then Packets else Frames;
    var l := x.Of(lane);
    var rest := x.(events := x.events[1..], subscribers := subscribers);
    s.(transceivers := s.transceivers[t := rest.With(lane, l.(senders := l.senders - {uuid}))])
  }

  /**
  One event.  The prior data is what the publisher's handler sends; when that fails the loop ends, whatever events
  are left, and the reply the hub waits for is dropped.  So it does when there are more unsubscriptions than
  subscribers were counted and the count underflows.
   */
  function HandleStep(s: State, t: nat, prior: seq<Data>, ok: bool): State
    requires HasEvent(s, t)
  {
    var x := s.transceivers[t];
    var rest := x.(events := x.events[1..]);
    match x.events[0]
    case Subscribe(uuid, chan, lane) =>
      if chan >= |s.channels| then s
      else
        var told := s.(channels := s.channels[chan := s.channels[chan].(prior := prior, received := prior)]);
        if ok then told.(transceivers := s.transceivers[t := rest.(phase := Inserting(uuid, chan, lane))])
        else EndedAt(told, t)
    case UnSubscribe(uuid, pullsPackets) =>
      if x.subscribers == 0 then EndedAt(Removed(s, t, uuid, pullsPackets, 0), t)
      else Removed(s, t, uuid, pullsPackets, x.subscribers - 1)
    case UnPublish => EndedAt(s, t)
  }

  predicate IsInserting(s: State, t: nat) {
    t < |s.transceivers| && s.transceivers[t].phase.Inserting?
  }

  /** The subscriber is added to the senders and the hub gets its reply. */
  function InsertStep(s: State, t: nat): State
    requires IsInserting(s, t)
  {
    var x := s.transceivers[t];
    var Inserting(uuid, chan, lane) := x.phase;
    if chan >= |s.channels| then s
    else
      var l := x.Of(lane);
      s.(transceivers := s.transceivers[t := x.With(lane, l.(senders := l.senders[uuid := chan])).(phase := Idle, subscribers := x.subscribers + 1)],
         channels := s.channels[chan := s.channels[chan].(joined := true, start := l.taken, stop := l.taken)],
         waiting := false)
  }

  predicate CanTake(s: State, t: nat, lane: Lane) {
    t < |s.transceivers| && s.transceivers[t].Of(lane).running && s.transceivers[t].Of(lane).taken < |s.transceivers[t].Of(lane).sent|
  }

  /** Metadata frames are not passed on. */
  predicate Dropped(lane: Lane, data: Data) {
    lane.Frames? && data.meta
  }

  /** The entries under which a channel is registered. */
  function Entries(senders: map<Uuid, Chan>, chan: Chan): set<Uuid> {
    set uuid | uuid in senders && senders[uuid] == chan
  }

  /** A channel after the data has been sent once for each of its entries; a closed one takes nothing. */
  function Reached(ch: Channel, entries: nat, data: Data): Channel {
    if ch.open then ch.(received := ch.received + Repeat(data, entries)) else ch
  }

  function FannedOut(channels: seq<Channel>, senders: map<Uuid, Chan>, data: Data): seq<Channel> {
    seq(|channels|, c requires 0 <= c < |channels| => Reached(channels[c], |Entries(senders, c)|, data))
  }

  /** Every registered open channel has now been offered all that was taken. */
  function Marked(channels: seq<Channel>, senders: map<Uuid, Chan>, taken: nat): seq<Channel> {
    seq(|channels|, c requires 0 <= c < |channels| =>
      if channels[c].open && Entries(senders, c) != {} then channels[c].(stop := taken) else channels[c])
  }

  function TakeStep(s: State, t: nat, lane: Lane): State
    requires CanTake(s, t, lane)
  {
    var x := s.transceivers[t];
    var l := x.Of(lane);
    var data := l.sent[l.taken];
    var sent := if Dropped(lane, data) then s.channels else FannedOut(s.channels, l.senders, data);
    s.(transceivers := s.transceivers[t := x.With(lane, l.(taken := l.taken + 1))],
       channels := Marked(sent, l.senders, l.taken + 1))
  }

  /** A publisher can send while its loop is there to receive. */
  predicate CanSend(s: State, t: nat, lane: Lane) {
    t < |s.transceivers| && s.transceivers[t].Of(lane).granted && s.transceivers[t].Of(lane).running
  }

  function SendStep(s: State, t: nat, lane: Lane, data: Data): State
    requires CanSend(s, t, lane)
  {
    var x := s.transceivers[t];
    var l := x.Of(lane);
    s.(transceivers := s.transceivers[t := x.With(lane, l.(sent := l.sent + [data]))])
  }

  function StopStep(s: State, t: nat, lane: Lane): State
    requires t < |s.transceivers|
  {
    var x := s.transceivers[t];
    s.(transceivers := s.transceivers[t := x.With(lane, x.Of(lane).(running := false))])
  }

  // ---------- Runs ----------

  /** Which loops may act: the hub not while it waits, a data loop exits once it has been told to. */
  predicate Enabled(s: State, step: Step) {
    match step
    case Publish(_, _, _, _) => !s.waiting
    case RequestUnPublish(_) => !s.waiting
    case RequestSubscribe(_, _, _) => !s.waiting
    case RequestUnSubscribe(_, _, _) => !s.waiting
    case Send(t, lane, _) => CanSend(s, t, lane)
    case HandleEvent(t, _, _) => HasEvent(s, t)
    case Insert(t) => IsInserting(s, t)
    case TakeData(t, lane) => CanTake(s, t, lane)
    case StopLoop(t, lane) => t < |s.transceivers| && s.transceivers[t].exit
    case CloseReceiver(chan) => chan < |s.channels| && !(s.waiting && s.awaited == chan)
  }

  function Next(s: State, step: Step): State
    requires Enabled(s, step)
  {
    match step
    case Publish(id, frames, packets, announced) => PublishStep(s, id, frames, packets, announced)
    case RequestUnPublish(id) => UnPublishStep(s, id)
    case RequestSubscribe(id, uuid, lane) => SubscribeStep(s, id, uuid, lane)
    case RequestUnSubscribe(id, uuid, pullsPackets) => UnSubscribeStep(s, id, uuid, pullsPackets)
    case Send(t, lane, data) => SendStep(s, t, lane, data)
    case HandleEvent(t, prior, ok) => HandleStep(s, t, prior, ok)
    case Insert(t) => InsertStep(s, t)
    case TakeData(t, lane) => TakeStep(s, t, lane)
    case StopLoop(t, lane) => StopStep(s, t, lane)
    case CloseReceiver(chan) => s.(channels := s.channels[chan := s.channels[chan].(open := false)])
  }

  /** Every interleaving: the steps in any order in which each is enabled when it is taken. */
  predicate IsRun(s: State, steps: seq<Step>)
    decreases |steps|
  {
    steps == [] || (Enabled(s, steps[0]) && IsRun(Next(s, steps[0]), steps[1..]))
  }

  function After(s: State, steps: seq<Step>): State
    requires IsRun(s, steps)
    decreases |steps|
  {
    if steps == [] then s else After(Next(s, steps[0]), steps[1..])
  }

  // ---------- The loop over the senders ----------

  /** The data loop's body: it goes over the senders in whatever order the map gives them. */
  method SendToAll(channels: seq<Channel>, senders: map<Uuid, Chan>, data: Data) returns (r: seq<Channel>)
    requires forall uuid :: uuid in senders ==> senders[uuid] < |channels|
    ensures r == FannedOut(channels, senders, data)
  {
    r := channels;
    var left := senders.Keys;
    ghost var done: map<Uuid, Chan> := map[];
    NothingSent(channels, data);
    while left != {}
      invariant left <= senders.Keys && done == senders - left
      invariant r == FannedOut(channels, done, data)
      decreases |left|
    {
      ghost var some := Member(left);
      var uuid :| uuid in left;
      var chan := senders[uuid];
      OneMoreSent(channels, done, uuid, chan, data);
      if r[chan].open {
        r := r[chan := r[chan].(received := r[chan].received + [data])];
      }
      left := left - {uuid};
      done := done[uuid := chan];
    }
    assert done == senders;
  }

  lemma Member<T>(s: set<T>) returns (x: T)
    requires s != {}
    ensures x in s
  {
    x :| x in s;
  }

  lemma NothingSent(channels: seq<Channel>, data: Data)
    ensures FannedOut(channels, map[], data) == channels
  {
    forall c | 0 <= c < |channels|
      ensures Reached(channels[c], |Entries(map[], c)|, data) == channels[c]
    {
      assert Entries(map[], c) == {};
      assert channels[c].received + Repeat(data, 0) == channels[c].received;
    }
  }

  lemma OneMoreSent(channels: seq<Channel>, done: map<Uuid, Chan>, uuid: Uuid, chan: Chan, data: Data)
    requires uuid !in done && chan < |channels|
    ensures FannedOut(channels, done[uuid := chan], data) == OneSent(FannedOut(channels, done, data), chan, data)
  {
    var r, more := FannedOut(channels, done, data), FannedOut(channels, done[uuid := chan], data);
    forall c | 0 <= c < |channels|
      ensures more[c] == OneSent(r, chan, data)[c]
    {
      EntriesAfter(done, uuid, chan, c);
      hide Entries;
      if c == chan {
        ReachedAgain(channels[c], |Entries(done, c)|, data);
      }
    }
  }

  function OneSent(r: seq<Channel>, chan: Chan, data: Data): seq<Channel>
    requires chan < |r|
  {
    if r[chan].open then r[chan := r[chan].(received := r[chan].received + [data])] else r
  }

  lemma EntriesAfter(senders: map<Uuid, Chan>, uuid: Uuid, chan: Chan, c: Chan)
    requires uuid !in senders
    ensures |Entries(senders[uuid := chan], c)| == |Entries(senders, c)| + (if c == chan then 1 else 0)
  {
    var before, after := Entries(senders, c), Entries(senders[uuid := chan], c);
    assert after == if c == chan then before + {uuid} else before;
  }

  lemma ReachedAgain(ch: Channel, n: nat, data: Data)
    ensures Reached(ch, n + 1, data)
         == if ch.open then Reached(ch, n, data).(received := Reached(ch, n, data).received + [data]) else ch
  {
    assert Repeat(data, n + 1) == Repeat(data, n) + [data];
    assert ch.received + (Repeat(data, n) + [data]) == ch.received + Repeat(data, n) + [data];
  }
}
