/**
The cache of groups of pictures a late subscriber starts from (protocol/rtmp/src/cache/gop.rs).
 */
module Gop {
  import opened Bytesio

  /** A frame as it is saved; the caller says which are key frames. */
  datatype Frame = Frame(content: int, isKey: bool)

  type Group = seq<Frame>

  function Saved(gops: seq<Group>, size: nat, frame: Frame): (r: seq<Group>)
    ensures gops != [] ==> r != []
  {
    if size == 0 then gops
    else
      var kept := if frame.isKey && |gops| == size then gops[1..] else gops;
      var open := if frame.isKey then kept + [[]] else kept;
      if open == [] then open else open[..|open| - 1] + [open[|open| - 1] + [frame]]
  }

  /** The cache after a whole history of frames. */
  function Cached(size: nat, history: seq<Frame>): (r: seq<Group>)
    ensures r != []
  {
    if history == [] then [[]] else Saved(Cached(size, history[..|history| - 1]), size, history[|history| - 1])
  }

  class Gops {
    var gops: seq<Group>
    const size: nat

    constructor (size: nat)
      ensures this.size == size && gops == Cached(size, [])
    {
      gops := [[]];
      this.size := size;
    }

    method SaveFrameData(frame: Frame, isKeyFrame: bool)
      requires isKeyFrame == frame.isKey
      modifies this`gops
      ensures gops == Saved(old(gops), size, frame)
    {
      if size == 0 {
        return;
      }
      if isKeyFrame {
        if |gops| == size {
          gops := gops[1..];
        }
        gops := gops + [[]];
      }
      if gops != [] {
        var last := |gops| - 1;
        gops := gops[last := gops[last] + [frame]];
      }
    }

    method GetGops() returns (r: seq<Group>)
      ensures r == gops
    {
      r := gops;
    }
  }

  // ---------- What is cached ----------

  function Keys(history: seq<Frame>): nat {
    if history == [] then 0
    else Keys(history[..|history| - 1]) + (if history[|history| - 1].isKey then 1 else 0)
  }

  /** Where the n-th most recent key frame is: the end for none, and the start when there are fewer. */
  function StartOf(history: seq<Frame>, n: nat): (k: nat)
    ensures k <= |history|
    decreases |history|
  {
    if n == 0 then |history|
    else if history == [] then 0
    else StartOf(history[..|history| - 1], if history[|history| - 1].isKey then n - 1 else n)
  }

  lemma {:induction false} StartsFall(history: seq<Frame>, n: nat)
    ensures StartOf(history, n + 1) <= StartOf(history, n)
    decreases |history|
  {
    if n > 0 && history != [] {
      StartsFall(history[..|history| - 1], if history[|history| - 1].isKey then n - 1 else n);
    }
  }

  /** From one key frame to the next, the n-th group from the end. */
  function GroupFromEnd(history: seq<Frame>, n: nat): Group {
    StartsFall(history, n);
    history[StartOf(history, n + 1)..StartOf(history, n)]
  }

  function Least(a: nat, b: nat): nat {
    if a < b then a else b
  }

  lemma GroupAfter(history: seq<Frame>, frame: Frame, n: nat)
    ensures var more := history + [frame];
            GroupFromEnd(more, n) == if frame.isKey then (if n == 0 then [frame] else GroupFromEnd(history, n - 1))
                                     else if n == 0 then GroupFromEnd(history, 0) + [frame] else GroupFromEnd(history, n)
  {
    var more := history + [frame];
    assert more[..|more| - 1] == history;
    StartsFall(history, n);
    if n > 0 {
      StartsFall(history, n - 1);
      var m := if frame.isKey then n - 1 else n;
      assert StartOf(more, n + 1) == StartOf(history, m + 1) && StartOf(more, n) == StartOf(history, m);
      SameSlice(history, frame, StartOf(history, m + 1), StartOf(history, m));
    } else {
      assert StartOf(more, 1) == if frame.isKey then |history| else StartOf(history, 1);
      LastSlice(history, frame, StartOf(more, 1));
    }
  }

  lemma SameSlice(history: seq<Frame>, frame: Frame, i: nat, j: nat)
    requires i <= j <= |history|
    ensures (history + [frame])[i..j] == history[i..j]
  {
  }

  lemma LastSlice(history: seq<Frame>, frame: Frame, i: nat)
    requires i <= |history|
    ensures (history + [frame])[i..|history| + 1] == history[i..] + [frame]
    ensures history[i..|history|] == history[i..] && history[|history|..] == []
  {
  }

  /** The cache holds the last groups of the history. */
  predicate AreGroups(gops: seq<Group>, history: seq<Frame>) {
    forall i :: 0 <= i < |gops| ==> gops[i] == GroupFromEnd(history, |gops| - 1 - i)
  }

  /** The cache is the most recent groups, as many as it may hold; the oldest may lack its key frame. */
  lemma {:induction false} CacheIsGroups(size: nat, history: seq<Frame>)
    requires size >= 1
    ensures |Cached(size, history)| == Least(size, Keys(history) + 1)
    ensures AreGroups(Cached(size, history), history)
  {
    if history != [] {
      var before, frame := history[..|history| - 1], history[|history| - 1];
      assert history == before + [frame];
      CacheIsGroups(size, before);
      hide StartOf, GroupFromEnd, Saved;
      SavedGroups(Cached(size, before), size, before, frame);
    }
  }

  lemma SavedGroups(gops: seq<Group>, size: nat, before: seq<Frame>, frame: Frame)
    requires size >= 1 && |gops| == Least(size, Keys(before) + 1) && AreGroups(gops, before)
    ensures var next := Saved(gops, size, frame);
            |next| == Least(size, Keys(before + [frame]) + 1) && AreGroups(next, before + [frame])
  {
    hide GroupFromEnd, Saved, Keys, AreGroups;
    SavedShape(gops, size, frame);
    KeysOneMore(before, frame);
    if frame.isKey {
      OldestDropped(gops, before);
      KeyOpensGroup(if |gops| == size then gops[1..] else gops, before, frame);
    } else {
      FrameJoinsGroup(gops, before, frame);
    }
  }

  lemma KeysOneMore(before: seq<Frame>, frame: Frame)
    ensures Keys(before + [frame]) == Keys(before) + (if frame.isKey then 1 else 0)
  {
    assert (before + [frame])[..|before|] == before;
  }

  lemma OldestDropped(gops: seq<Group>, before: seq<Frame>)
    requires gops != [] && AreGroups(gops, before)
    ensures AreGroups(gops[1..], before)
  {
    hide GroupFromEnd;
    forall i | 0 <= i < |gops| - 1 ensures gops[1..][i] == GroupFromEnd(before, |gops| - 2 - i) {
      assert gops[1..][i] == gops[i + 1];
    }
  }

  lemma KeyOpensGroup(kept: seq<Group>, before: seq<Frame>, frame: Frame)
    requires AreGroups(kept, before) && frame.isKey
    ensures AreGroups(kept + [[frame]], before + [frame])
  {
    hide GroupFromEnd;
    forall i | 0 <= i <= |kept| ensures (kept + [[frame]])[i] == GroupFromEnd(before + [frame], |kept| - i) {
      GroupAfter(before, frame, |kept| - i);
    }
  }

  lemma FrameJoinsGroup(gops: seq<Group>, before: seq<Frame>, frame: Frame)
    requires gops != [] && AreGroups(gops, before) && !frame.isKey
    ensures AreGroups(gops[..|gops| - 1] + [gops[|gops| - 1] + [frame]], before + [frame])
  {
    hide GroupFromEnd;
    var next := gops[..|gops| - 1] + [gops[|gops| - 1] + [frame]];
    forall i | 0 <= i < |next| ensures next[i] == GroupFromEnd(before + [frame], |next| - 1 - i) {
      GroupAfter(before, frame, |next| - 1 - i);
    }
  }

  lemma SavedShape(gops: seq<Group>, size: nat, frame: Frame)
    requires size >= 1 && gops != []
    ensures var next := Saved(gops, size, frame);
            next == if frame.isKey then (if |gops| == size then gops[1..] else gops) + [[frame]]
                    else gops[..|gops| - 1] + [gops[|gops| - 1] + [frame]]
  {
    if frame.isKey {
      var kept := if |gops| == size then gops[1..] else gops;
      assert (kept + [[]])[..|kept|] == kept && [] + [frame] == [frame];
    }
  }

  function Flat(gops: seq<Group>): seq<Frame> {
    if gops == [] then [] else gops[0] + Flat(gops[1..])
  }

  lemma {:induction false} GroupsJoin(gops: seq<Group>, history: seq<Frame>)
    requires AreGroups(gops, history)
    ensures Flat(gops) == history[StartOf(history, |gops|)..]
    decreases |gops|
  {
    hide StartOf;
    if gops == [] {
      assert StartOf(history, 0) == |history| by { StartOfNone(history); }
    } else {
      var rest := gops[1..];
      forall i | 0 <= i < |rest| ensures rest[i] == GroupFromEnd(history, |rest| - 1 - i) {
        assert rest[i] == gops[i + 1];
      }
      GroupsJoin(rest, history);
      StartsFall(history, |rest|);
      Divided(history, StartOf(history, |gops|), StartOf(history, |rest|));
    }
  }

  lemma StartOfNone(history: seq<Frame>)
    ensures StartOf(history, 0) == |history|
  {
  }

  lemma {:induction false} FewKeys(history: seq<Frame>, n: nat)
    requires Keys(history) < n
    ensures StartOf(history, n) == 0
    decreases |history|
  {
    if history != [] {
      FewKeys(history[..|history| - 1], if history[|history| - 1].isKey then n - 1 else n);
    }
  }

  /**
  What is cached is the end of the history: all of it while there were fewer key frames than the cache has places,
  and from then on from the size-th most recent key frame.
   */
  lemma CacheIsSuffix(size: nat, history: seq<Frame>)
    requires size >= 1
    ensures Flat(Cached(size, history)) == history[StartOf(history, size)..]
    ensures Keys(history) < size ==> Flat(Cached(size, history)) == history
  {
    hide Cached, Keys, StartOf, Flat, GroupFromEnd, AreGroups;
    CacheIsGroups(size, history);
    var gops := Cached(size, history);
    GroupsJoin(gops, history);
    if Keys(history) < size {
      FewKeys(history, |gops|);
      FewKeys(history, size);
    }
  }

  /** A cache without places stays as it was made, one empty group, whatever is saved. */
  lemma {:induction false} NothingCached(history: seq<Frame>)
    ensures Cached(0, history) == [[]]
  {
    if history != [] {
      NothingCached(history[..|history| - 1]);
    }
  }

  lemma {:induction false} KeyAt(history: seq<Frame>, n: nat)
    requires 1 <= n <= Keys(history)
    ensures var k := StartOf(history, n);
            k < |history| && history[k].isKey
            && (forall i :: k < i < StartOf(history, n - 1) ==> !history[i].isKey)
    decreases |history|
  {
    var before, last := history[..|history| - 1], history[|history| - 1];
    if last.isKey {
      if n > 1 {
        KeyAt(before, n - 1);
      }
    } else {
      KeyAt(before, n);
    }
  }

  /** Every cached group starts with its only key frame, but for the first group of all, which has none. */
  lemma GroupsStartWithKeys(size: nat, history: seq<Frame>, i: nat)
    requires size >= 1 && i < |Cached(size, history)|
    ensures var gops := Cached(size, history);
            var group := gops[i];
            if i > 0 || Keys(history) >= size then
              group != [] && group[0].isKey && forall j :: 0 < j < |group| ==> !group[j].isKey
            else forall j :: 0 <= j < |group| ==> !group[j].isKey
  {
    hide Cached, Keys, StartOf;
    CacheIsGroups(size, history);
    var n := |Cached(size, history)| - i;
    StartsFall(history, n - 1);
    if n <= Keys(history) {
      KeyAt(history, n);
      LaterStart(history, n);
      StartsWithKey(history, StartOf(history, n), StartOf(history, n - 1));
    } else {
      FewKeys(history, n);
      NoKeyBefore(history);
      NoKeys(history, StartOf(history, n - 1));
    }
  }

  lemma StartsWithKey(history: seq<Frame>, a: nat, b: nat)
    requires a < b <= |history| && history[a].isKey && forall i :: a < i < b ==> !history[i].isKey
    ensures var group := history[a..b];
            group != [] && group[0].isKey && forall j :: 0 < j < |group| ==> !group[j].isKey
  {
  }

  lemma NoKeys(history: seq<Frame>, b: nat)
    requires b <= |history| && forall i :: 0 <= i < b ==> !history[i].isKey
    ensures var group := history[0..b]; forall j :: 0 <= j < |group| ==> !group[j].isKey
  {
  }

  /** Two key frames are at different places. */
  lemma {:induction false} LaterStart(history: seq<Frame>, n: nat)
    requires 1 <= n <= Keys(history)
    ensures StartOf(history, n) < StartOf(history, n - 1)
    decreases |history|
  {
    if n > 1 || !history[|history| - 1].isKey {
      if history[|history| - 1].isKey {
        LaterStart(history[..|history| - 1], n - 1);
      } else if n > 1 {
        LaterStart(history[..|history| - 1], n);
      }
    }
  }

  lemma {:induction false} NoKeyBefore(history: seq<Frame>)
    ensures forall i :: 0 <= i < StartOf(history, Keys(history)) ==> !history[i].isKey
    decreases |history|
  {
    if history != [] {
      NoKeyBefore(history[..|history| - 1]);
    }
  }
}
