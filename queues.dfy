/** Value-level view of the channels behind a port.
    A port holds one channel per connection; here the state of those channels is
    the sequence of their buffers, in connection order, each buffer in send order. */
module Queues {

  /** Everything queued on the channels: channel after channel, each in send order. */
  function Concat<T>(bufs: seq<seq<T>>): (r: seq<T>)
  {
    if |bufs| == 0 then [] else Concat(bufs[..|bufs| - 1]) + bufs[|bufs| - 1]
  }

  /** The number of values queued over all channels. */
  function Total<T>(bufs: seq<seq<T>>): (r: nat)
  {
    if |bufs| == 0 then 0 else Total(bufs[..|bufs| - 1]) + |bufs[|bufs| - 1]|
  }

  /** No channel holds a value. */
  predicate AllEmpty<T>(bufs: seq<seq<T>>)
  {
    forall i :: 0 <= i < |bufs| ==> |bufs[i]| == 0
  }

  /** The channels after one copy of `t` is sent on each of them. */
  function Broadcast<T>(bufs: seq<seq<T>>, t: T): (r: seq<seq<T>>)
    ensures |r| == |bufs|
    ensures forall i :: 0 <= i < |bufs| ==> r[i] == bufs[i] + [t]
  {
    seq(|bufs|, i requires 0 <= i < |bufs| => bufs[i] + [t])
  }

  /** The channels after every one of them has been received from until empty. */
  function Drained<T>(bufs: seq<seq<T>>): (r: seq<seq<T>>)
    ensures |r| == |bufs| && AllEmpty(r)
  {
    seq(|bufs|, i requires 0 <= i < |bufs| => [])
  }

  /** The head of every non-empty channel, in connection order: what one
      single-item receive per channel collects. */
  function Heads<T>(bufs: seq<seq<T>>): (r: seq<T>)
  {
    if |bufs| == 0 then []
    else
      var last := bufs[|bufs| - 1];
      Heads(bufs[..|bufs| - 1]) + (if |last| == 0 then [] else [last[0]])
  }

  /** The number of channels that hold at least one value. */
  function NonEmptyCount<T>(bufs: seq<seq<T>>): (r: nat)
  {
    if |bufs| == 0 then 0
    else NonEmptyCount(bufs[..|bufs| - 1]) + (if |bufs[|bufs| - 1]| == 0 then 0 else 1)
  }

  /** The channels after one single-item receive on each of them. */
  function Tails<T>(bufs: seq<seq<T>>): (r: seq<seq<T>>)
    ensures |r| == |bufs|
    ensures forall i :: 0 <= i < |bufs| ==> r[i] == if |bufs[i]| == 0 then [] else bufs[i][1..]
  {
    seq(|bufs|, i requires 0 <= i < |bufs| => if |bufs[i]| == 0 then [] else bufs[i][1..])
  }

  /** Receiving channel by channel: the buffers of `a` then those of `b`. */
  lemma {:induction false} ConcatAppend<T>(a: seq<seq<T>>, b: seq<seq<T>>)
    ensures Concat(a + b) == Concat(a) + Concat(b)
  {
    if |b| == 0 {
      assert a + b == a;
    } else {
      var b' := b[..|b| - 1];
      assert (a + b)[..|a + b| - 1] == a + b';
      ConcatAppend(a, b');
    }
  }

  /** The drained sequence holds exactly the values queued over all channels. */
  lemma {:induction false} ConcatLength<T>(bufs: seq<seq<T>>)
    ensures |Concat(bufs)| == Total(bufs)
  {
    if |bufs| > 0 {
      ConcatLength(bufs[..|bufs| - 1]);
    }
  }

  /** Per-channel send order survives the merge: the j-th value of channel i sits
      in the merged sequence right after everything queued on channels 0..i-1. */
  lemma ConcatAt<T>(bufs: seq<seq<T>>, i: nat, j: nat)
    requires i < |bufs| && j < |bufs[i]|
    ensures Total(bufs[..i]) + j < |Concat(bufs)|
    ensures Concat(bufs)[Total(bufs[..i]) + j] == bufs[i][j]
  {
    assert bufs == bufs[..i] + [bufs[i]] + bufs[i + 1..];
    ConcatAppend(bufs[..i] + [bufs[i]], bufs[i + 1..]);
    ConcatAppend(bufs[..i], [bufs[i]]);
    assert Concat([bufs[i]]) == bufs[i] by {
      assert [bufs[i]][..0] == [];
    }
    ConcatLength(bufs[..i]);
  }

  /** Every queued value, and nothing else, comes out of a full drain. */
  lemma {:induction false} ConcatMembers<T>(bufs: seq<seq<T>>, x: T)
    ensures x in Concat(bufs) <==> exists i :: 0 <= i < |bufs| && x in bufs[i]
  {
    if |bufs| > 0 {
      var front := bufs[..|bufs| - 1];
      ConcatMembers(front, x);
      if x in Concat(bufs) {
        if x !in Concat(front) {
          assert x in bufs[|bufs| - 1];
        } else {
          var i :| 0 <= i < |front| && x in front[i];
          assert x in bufs[i];
        }
      }
      if exists i :: 0 <= i < |bufs| && x in bufs[i] {
        var i :| 0 <= i < |bufs| && x in bufs[i];
        if i < |front| {
          assert x in front[i];
        }
      }
    }
  }

  /** A full drain yields nothing exactly when no channel holds a value. */
  lemma {:induction false} ConcatEmpty<T>(bufs: seq<seq<T>>)
    ensures |Concat(bufs)| == 0 <==> AllEmpty(bufs)
  {
    if |bufs| > 0 {
      var front := bufs[..|bufs| - 1];
      ConcatEmpty(front);
      if AllEmpty(bufs) {
        assert AllEmpty(front) by {
          forall i | 0 <= i < |front| ensures |front[i]| == 0 {
            assert front[i] == bufs[i];
          }
        }
      }
      if |Concat(bufs)| == 0 {
        forall i | 0 <= i < |bufs| ensures |bufs[i]| == 0 {
          if i < |front| {
            assert front[i] == bufs[i];
          }
        }
      }
    }
  }

  /** Broadcasting adds exactly one value per channel to what a drain yields. */
  lemma {:induction false} BroadcastTotal<T>(bufs: seq<seq<T>>, t: T)
    ensures |Concat(Broadcast(bufs, t))| == |Concat(bufs)| + |bufs|
  {
    if |bufs| > 0 {
      var front := bufs[..|bufs| - 1];
      assert Broadcast(bufs, t)[..|bufs| - 1] == Broadcast(front, t);
      BroadcastTotal(front, t);
    }
  }

  /** Broadcasting to channels that were all empty queues exactly one copy per channel. */
  lemma {:induction false} BroadcastOnEmpty<T>(bufs: seq<seq<T>>, t: T)
    requires AllEmpty(bufs)
    ensures Concat(Broadcast(bufs, t)) == seq(|bufs|, _ => t)
  {
    if |bufs| > 0 {
      var front := bufs[..|bufs| - 1];
      assert Broadcast(bufs, t)[..|bufs| - 1] == Broadcast(front, t);
      assert AllEmpty(front) by {
        forall i | 0 <= i < |front| ensures |front[i]| == 0 {
          assert front[i] == bufs[i];
        }
      }
      BroadcastOnEmpty(front, t);
      assert bufs[|bufs| - 1] == [];
    }
  }

  /** A single-item pass takes at most one value per channel: one per non-empty channel. */
  lemma {:induction false} HeadsLength<T>(bufs: seq<seq<T>>)
    ensures |Heads(bufs)| == NonEmptyCount(bufs) <= |bufs|
  {
    if |bufs| > 0 {
      HeadsLength(bufs[..|bufs| - 1]);
    }
  }

  /** A single-item pass loses nothing: what it takes plus what it leaves is
      what was queued. */
  lemma {:induction false} HeadsConserve<T>(bufs: seq<seq<T>>)
    ensures multiset(Heads(bufs)) + multiset(Concat(Tails(bufs))) == multiset(Concat(bufs))
  {
    if |bufs| > 0 {
      var n := |bufs| - 1;
      var hd, tl := SplitLast(bufs);
      HeadsConserve(bufs[..n]);
      calc {
        multiset(Heads(bufs)) + multiset(Concat(Tails(bufs)));
        multiset(Heads(bufs[..n]) + hd) + multiset(Concat(Tails(bufs[..n])) + tl);
        multiset(Heads(bufs[..n])) + multiset(Concat(Tails(bufs[..n]))) + multiset(hd + tl);
        multiset(Concat(bufs[..n])) + multiset(bufs[n]);
        multiset(Concat(bufs));
      }
    }
  }

  /** The last channel's contribution to a single-item pass: its head (if any) is
      taken and its tail stays. */
  lemma SplitLast<T>(bufs: seq<seq<T>>) returns (hd: seq<T>, tl: seq<T>)
    requires |bufs| > 0
    ensures Heads(bufs) == Heads(bufs[..|bufs| - 1]) + hd
    ensures Concat(Tails(bufs)) == Concat(Tails(bufs[..|bufs| - 1])) + tl
    ensures hd + tl == bufs[|bufs| - 1]
  {
    var n := |bufs| - 1;
    var last := bufs[n];
    hd := if |last| == 0 then [] else [last[0]];
    tl := if |last| == 0 then [] else last[1..];
    assert Tails(bufs)[..n] == Tails(bufs[..n]);
    assert last == hd + tl;
  }

  /** When no channel holds more than one value, a single-item pass is a full drain. */
  lemma {:induction false} HeadsIsDrainOnSingletons<T>(bufs: seq<seq<T>>)
    requires forall i :: 0 <= i < |bufs| ==> |bufs[i]| <= 1
    ensures Heads(bufs) == Concat(bufs)
    ensures AllEmpty(Tails(bufs))
  {
    if |bufs| > 0 {
      var front := bufs[..|bufs| - 1];
      var last := bufs[|bufs| - 1];
      assert forall i :: 0 <= i < |front| ==> front[i] == bufs[i];
      HeadsIsDrainOnSingletons(front);
      if |last| == 1 {
        assert last == [last[0]];
      }
    }
  }

  /** The head taken from channel i by a single-item pass is the oldest value it
      held, and sits after the heads of the earlier non-empty channels. */
  lemma HeadsAt<T>(bufs: seq<seq<T>>, i: nat)
    requires i < |bufs| && |bufs[i]| > 0
    ensures NonEmptyCount(bufs[..i]) < |Heads(bufs)|
    ensures Heads(bufs)[NonEmptyCount(bufs[..i])] == bufs[i][0]
  {
    HeadsAppend(bufs[..i + 1], bufs[i + 1..]);
    assert bufs[..i + 1] + bufs[i + 1..] == bufs;
    assert bufs[..i + 1][..i] == bufs[..i];
    HeadsLength(bufs[..i]);
  }

  lemma {:induction false} HeadsAppend<T>(a: seq<seq<T>>, b: seq<seq<T>>)
    ensures Heads(a + b) == Heads(a) + Heads(b)
  {
    if |b| == 0 {
      assert a + b == a;
    } else {
      var b' := b[..|b| - 1];
      assert (a + b)[..|a + b| - 1] == a + b';
      HeadsAppend(a, b');
    }
  }

  /** Fan-in: when channel i holds exactly the one value vs[i], a full drain
      returns exactly those values, in connection order. */
  lemma {:induction false} ConcatSingletons<T>(bufs: seq<seq<T>>, vs: seq<T>)
    requires |bufs| == |vs|
    requires forall i :: 0 <= i < |bufs| ==> bufs[i] == [vs[i]]
    ensures Concat(bufs) == vs
  {
    if |bufs| > 0 {
      var k := |bufs| - 1;
      ConcatSingletons(bufs[..k], vs[..k]);
      assert vs == vs[..k] + [vs[k]];
    }
  }
}
