/**
Runs from the start in which the stream hub does not do what it should.
 */
module StreamHubExamples {
  import opened Bytesio
  import opened StreamHub
  import opened StreamHubProofs
  import opened StreamHubLeaving
  import opened StreamHubNames

  // ---------- Runs written out ----------

  lemma RunOfTwo(s: State, a: Step, b: Step)
    requires Enabled(s, a) && Enabled(Next(s, a), b)
    ensures IsRun(s, [a, b]) && After(s, [a, b]) == Next(Next(s, a), b)
  {
    hide Enabled, Next;
    var end := Next(Next(s, a), b);
    assert [b][1..] == [] && [a, b][1..] == [b];
    assert IsRun(end, []) && After(end, []) == end;
    assert IsRun(Next(s, a), [b]) && After(Next(s, a), [b]) == Next(Next(s, a), b);
  }

  lemma RunOfThree(s: State, a: Step, b: Step, c: Step)
    requires Enabled(s, a) && Enabled(Next(s, a), b) && Enabled(Next(Next(s, a), b), c)
    ensures IsRun(s, [a, b, c]) && After(s, [a, b, c]) == Next(Next(Next(s, a), b), c)
  {
    hide Enabled, Next;
    RunOfTwo(Next(s, a), b, c);
    assert [a, b, c][1..] == [b, c];
  }

  lemma RunOfFour(s: State, a: Step, b: Step, c: Step, d: Step)
    requires Enabled(s, a) && Enabled(Next(s, a), b) && Enabled(Next(Next(s, a), b), c)
    requires Enabled(Next(Next(Next(s, a), b), c), d)
    ensures IsRun(s, [a, b, c, d]) && After(s, [a, b, c, d]) == Next(Next(Next(Next(s, a), b), c), d)
  {
    hide Enabled, Next;
    RunOfThree(Next(s, a), b, c, d);
    assert [a, b, c, d][1..] == [b, c, d];
  }

  // ---------- Where the prior data meets the block ----------

  /** Data still in the mailbox when it is cached comes twice. */
  lemma TwiceExample()
    ensures var steps := [Publish(7, true, false, true), Send(0, Frames, Data(false, 5)), RequestSubscribe(7, Uuid(1), Frames),
                          HandleEvent(0, [Data(false, 5)], true)]
                         + [Insert(0), TakeData(0, Frames)];
            IsRun(Initial(), steps) && |After(Initial(), steps).channels| == 1
            && After(Initial(), steps).channels[0].received == [Data(false, 5), Data(false, 5)]
  {
    var s, data := Initial(), Data(false, 5);
    RunOfFour(s, Publish(7, true, false, true), Send(0, Frames, data), RequestSubscribe(7, Uuid(1), Frames), HandleEvent(0, [data], true));
    var before := [Publish(7, true, false, true), Send(0, Frames, data), RequestSubscribe(7, Uuid(1), Frames), HandleEvent(0, [data], true)];
    var s4 := After(s, before);
    var s5 := Next(s4, Insert(0));
    RunOfTwo(s4, Insert(0), TakeData(0, Frames));
    RunsOn(s, before, [Insert(0), TakeData(0, Frames)]);
    OnlyChannel(s5, 0, Uuid(1));
  }

  /** Data taken before the subscriber is added to the senders never comes. */
  lemma MissedExample()
    ensures var steps := [Publish(7, true, false, true), RequestSubscribe(7, Uuid(1), Frames), HandleEvent(0, [], true)]
                         + [Send(0, Frames, Data(false, 5)), TakeData(0, Frames), Insert(0)];
            IsRun(Initial(), steps) && JoinedLate(After(Initial(), steps))
  {
    var s := Initial();
    RunOfThree(s, Publish(7, true, false, true), RequestSubscribe(7, Uuid(1), Frames), HandleEvent(0, [], true));
    var before := [Publish(7, true, false, true), RequestSubscribe(7, Uuid(1), Frames), HandleEvent(0, [], true)];
    var s3 := After(s, before);
    assert s3.transceivers[0].events == [] && s3.transceivers[0].frames == NewLoop(true, true);
    assert s3.transceivers == [Transceiver(NewLoop(true, true), NewLoop(false, false), [], 0, true, false, Inserting(Uuid(1), 0, Frames))];
    assert s3.channels == [NewChannel(0, Frames)];
    Overtaken(s3);
    RunsOn(s, before, [Send(0, Frames, Data(false, 5)), TakeData(0, Frames), Insert(0)]);
  }

  /** The only subscriber is among the senders, behind the first data, and has received nothing. */
  predicate JoinedLate(s: State) {
    && |s.channels| == |s.transceivers| == 1
    && s.channels[0].received == [] && s.channels[0].start == 1 && Registered(s.transceivers[0].frames, 0)
  }

  lemma Overtaken(s: State)
    requires s == State(map[7 := 0], [Transceiver(NewLoop(true, true), NewLoop(false, false), [], 0, true, false, Inserting(Uuid(1), 0, Frames))],
                        [NewChannel(0, Frames)], true, 0)
    ensures var steps := [Send(0, Frames, Data(false, 5)), TakeData(0, Frames), Insert(0)];
            IsRun(s, steps) && JoinedLate(After(s, steps))
  {
    var data := Data(false, 5);
    RunOfThree(s, Send(0, Frames, data), TakeData(0, Frames), Insert(0));
    NothingSent(s.channels, data);
    assert Entries(map[], 0) == {};
    var s3 := After(s, [Send(0, Frames, data), TakeData(0, Frames), Insert(0)]);
    assert s3.transceivers[0].frames.senders[Uuid(1)] == 0;
  }

  /** A data loop with one sender, whose channel is open. */
  lemma OnlyChannel(s: State, t: nat, uuid: Uuid)
    requires CanTake(s, t, Frames) && |s.channels| == 1 && s.channels[0].open
    requires s.transceivers[t].frames.senders == map[uuid := 0]
    ensures var l := s.transceivers[t].frames;
            TakeStep(s, t, Frames).channels
            == [s.channels[0].(received := s.channels[0].received + (if l.sent[l.taken].meta then [] else [l.sent[l.taken]]), stop := l.taken + 1)]
  {
    var l := s.transceivers[t].frames;
    assert Entries(l.senders, 0) == {uuid};
    assert Repeat(l.sent[l.taken], 1) == [l.sent[l.taken]];
    assert s.channels[0].received + [] == s.channels[0].received;
  }

  // ---------- Leaving ----------

  /** A subscriber to frames that leaves as one to packets stays among the senders and is sent what comes next. */
  lemma MismatchExample()
    ensures var steps := [Publish(7, true, false, true), RequestSubscribe(7, Uuid(1), Frames), HandleEvent(0, [], true), Insert(0)]
                         + [RequestUnSubscribe(7, Uuid(1), true), HandleEvent(0, [], true), Send(0, Frames, Data(false, 5)), TakeData(0, Frames)];
            IsRun(Initial(), steps) && |After(Initial(), steps).channels| == 1
            && !LetGo(After(Initial(), steps), 0) && After(Initial(), steps).channels[0].received == [Data(false, 5)]
  {
    var s, data := Initial(), Data(false, 5);
    RunOfFour(s, Publish(7, true, false, true), RequestSubscribe(7, Uuid(1), Frames), HandleEvent(0, [], true), Insert(0));
    var before := [Publish(7, true, false, true), RequestSubscribe(7, Uuid(1), Frames), HandleEvent(0, [], true), Insert(0)];
    var s4 := After(s, before);
    Leaves(s4);
    RunsOn(s, before, [RequestUnSubscribe(7, Uuid(1), true), HandleEvent(0, [], true), Send(0, Frames, data), TakeData(0, Frames)]);
  }

  lemma Leaves(s: State)
    requires s == State(map[7 := 0], [Joiner()], [Channel(0, Frames, true, true, [], [], 0, 0)], false, 0)
    ensures var steps := [RequestUnSubscribe(7, Uuid(1), true), HandleEvent(0, [], true), Send(0, Frames, Data(false, 5)), TakeData(0, Frames)];
            IsRun(s, steps) && |After(s, steps).channels| == 1
            && !LetGo(After(s, steps), 0) && After(s, steps).channels[0].received == [Data(false, 5)]
  {
    var data := Data(false, 5);
    var s2 := Next(Next(s, RequestUnSubscribe(7, Uuid(1), true)), HandleEvent(0, [], true));
    RunOfFour(s, RequestUnSubscribe(7, Uuid(1), true), HandleEvent(0, [], true), Send(0, Frames, data), TakeData(0, Frames));
    var s3 := Next(s2, Send(0, Frames, data));
    OnlyChannel(s3, 0, Uuid(1));
    var s4 := Next(s3, TakeData(0, Frames));
    assert s4.transceivers[0].frames.senders[Uuid(1)] == 0;
  }

  function Joiner(): Transceiver {
    Transceiver(DataLoop(true, true, [], 0, map[Uuid(1) := 0]), NewLoop(false, false), [], 1, true, false, Idle)
  }

  // ---------- Names ----------

  /** Two early ends: with the name taken it stays stuck, with the name already freed all is well. */
  lemma StuckExample()
    ensures var steps := [Publish(7, true, false, true), RequestSubscribe(7, Uuid(1), Packets), HandleEvent(0, [], false)];
            IsRun(Initial(), steps) && Stuck(After(Initial(), steps), 7, 0)
    ensures var steps := [Publish(7, true, false, true), RequestUnSubscribe(7, Uuid(1), false), RequestUnPublish(7),
                          HandleEvent(0, [], true)];
            IsRun(Initial(), steps) && Live(After(Initial(), steps)) && !After(Initial(), steps).transceivers[0].alive
  {
    var s := Initial();
    var publish, end := Publish(7, true, false, true), HandleEvent(0, [], true);
    RunOfThree(s, publish, RequestSubscribe(7, Uuid(1), Packets), HandleEvent(0, [], false));
    RunOfFour(s, publish, RequestUnSubscribe(7, Uuid(1), false), RequestUnPublish(7), end);
  }
}
