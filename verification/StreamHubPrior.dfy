/**
Where the prior data of a subscriber meets the block of its publisher's data.
 */
module StreamHubPrior {
  import opened StreamHub
  import opened StreamHubProofs

  lemma {:induction false} VisibleParts(lane: Lane, sent: seq<Data>, a: nat, b: nat, c: nat)
    requires a <= b <= c <= |sent|
    ensures Visible(lane, sent[a..c]) == Visible(lane, sent[a..b]) + Visible(lane, sent[b..c])
    decreases c
  {
    hide Visible;
    if b == c {
      NothingVisible(lane, sent);
      assert sent[b..c] == sent[0..0];
    } else {
      VisibleParts(lane, sent, a, b, c - 1);
      VisibleOneMore(lane, sent, a, c - 1);
      VisibleOneMore(lane, sent, b, c - 1);
    }
  }

  /**
  When the prior data ends with what the publisher had sent up to `cached`, and its loop has taken at least as much,
  the subscriber has all data from `from` on once, nothing twice and nothing left out, if and only if there is nothing
  but metadata between `cached` and where the loop stood when the subscriber was added.
   */
  lemma PriorMeetsBlock(steps: seq<Step>, c: Chan, head: seq<Data>, from: nat, cached: nat)
    requires IsRun(Initial(), steps) && c < |After(Initial(), steps).channels|
    requires var s := After(Initial(), steps);
             var ch := s.channels[c];
             ch.owner < |s.transceivers| && from <= cached <= ch.stop <= |s.transceivers[ch.owner].Of(ch.lane).sent|
             && ch.prior == head + Visible(ch.lane, s.transceivers[ch.owner].Of(ch.lane).sent[from..cached])
    ensures var s := After(Initial(), steps);
            var ch := s.channels[c];
            var sent := s.transceivers[ch.owner].Of(ch.lane).sent;
            ch.start <= ch.stop
            && (ch.received == head + Visible(ch.lane, sent[from..ch.stop])
                <==> Visible(ch.lane, if ch.start <= cached then sent[ch.start..cached] else sent[cached..ch.start]) == [])
  {
    FanOut(steps, c);
    var s := After(Initial(), steps);
    var ch := s.channels[c];
    BlockMeets(ch.lane, s.transceivers[ch.owner].Of(ch.lane).sent, head, from, cached, ch.start, ch.stop);
    hide Visible, IsRun, After;
  }

  lemma BlockMeets(lane: Lane, sent: seq<Data>, head: seq<Data>, from: nat, cached: nat, start: nat, stop: nat)
    requires from <= cached <= stop <= |sent| && start <= stop
    ensures head + Visible(lane, sent[from..cached]) + Visible(lane, sent[start..stop]) == head + Visible(lane, sent[from..stop])
            <==> Visible(lane, if start <= cached then sent[start..cached] else sent[cached..start]) == []
  {
    hide Visible;
    var first, block, due := Visible(lane, sent[from..cached]), Visible(lane, sent[start..stop]), Visible(lane, sent[cached..stop]);
    VisibleParts(lane, sent, from, cached, stop);
    assert head + first + due == head + (first + due);
    SameEnd(head + first, block, due);
    if start <= cached {
      VisibleParts(lane, sent, start, cached, stop);
    } else {
      VisibleParts(lane, sent, cached, start, stop);
    }
  }

  lemma SameEnd(a: seq<Data>, b: seq<Data>, c: seq<Data>)
    ensures a + b == a + c <==> b == c
  {
    assert (a + b)[|a|..] == b && (a + c)[|a|..] == c;
  }
}
