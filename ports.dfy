/** Input and Output ports: typed, one-directional endpoints joined by channels.
    `Output.Connect` creates one fresh channel per connection; the output keeps it as a
    sender, the input as a receiver. A channel is an unbounded FIFO queue. */
module Ports {
  import opened Queues

  /** The outcome of a non-blocking receive: a value, or `None` when the channel
      is empty. */
  datatype Option<T> = None | Some(value: T)

  /** One channel created by a connection: the values sent and not yet received. */
  class Channel<T> {
    var buf: seq<T>

    constructor ()
      ensures buf == []
    {
      buf := [];
    }

    /** Queues `t` behind everything sent before. */
    method Send(t: T)
      modifies this
      ensures buf == old(buf) + [t]
    {
      buf := buf + [t];
    }

    /** Receives until the channel reports that it is empty: everything queued,
        oldest first. */
    method ReceiveUntilEmpty() returns (r: seq<T>)
      modifies this
      ensures r == old(buf) && buf == []
    {
      r := [];
      var done := false;
      while !done
        invariant r + buf == old(buf)
        invariant done ==> buf == []
        decreases |buf|, !done
      {
        var res := TryRecv();
        if res.Some? {
          r := r + [res.value];
        } else {
          done := true;
        }
      }
    }

    /** Non-blocking receive: removes and returns the oldest value, or reports an
        empty channel and leaves it as it is. */
    method TryRecv() returns (res: Option<T>)
      modifies this
      ensures |old(buf)| == 0 ==> res == None && buf == old(buf)
      ensures |old(buf)| > 0 ==> res == Some(old(buf)[0]) && buf == old(buf)[1..]
    {
      if |buf| == 0 {
        res := None;
      } else {
        res := Some(buf[0]);
        buf := buf[1..];
      }
    }
  }

  /** The buffers of the given channels, in order. */
  ghost function Buffers<T>(cs: seq<Channel<T>>): (b: seq<seq<T>>)
    reads cs
    ensures |b| == |cs|
    ensures forall i :: 0 <= i < |cs| ==> b[i] == cs[i].buf
  {
    seq(|cs|, i requires 0 <= i < |cs| reads cs => cs[i].buf)
  }

  /** No channel appears twice: every connection made its own channel. */
  ghost predicate Distinct<T>(cs: seq<Channel<T>>)
  {
    forall i, j :: 0 <= i < j < |cs| ==> cs[i] != cs[j]
  }

  /** Input port: one receiver per connection, in connection order. */
  class Input<T> {
    var rx: seq<Channel<T>>

    ghost predicate Valid()
      reads this
    {
      Distinct(rx)
    }

    /** What a full drain of this input would return now. */
    ghost function Pending(): seq<T>
      reads this, rx
    {
      Concat(Buffers(rx))
    }

    constructor ()
      ensures Valid() && rx == []
    {
      rx := [];
    }

    /** Drains every receiver completely, receivers in connection order, each in send
        order; the input's channels are left empty. */
    method Fetch() returns (r: seq<T>)
      requires Valid()
      modifies rx
      ensures r == Concat(old(Buffers(rx)))
      ensures forall i :: 0 <= i < |rx| ==> rx[i].buf == []
      ensures Buffers(rx) == Drained(old(Buffers(rx)))
      ensures |r| == 0 <==> AllEmpty(old(Buffers(rx)))
    {
      ghost var b := Buffers(rx);
      r := ReceiveAll(rx, b);
      BuffersAre(rx, Drained(b));
      ConcatEmpty(b);
    }

    /** The single-item receive: takes at most one value from each receiver, the
        oldest one of every non-empty channel, receivers in connection order. */
    method FetchOne() returns (r: seq<T>)
      requires Valid()
      modifies rx
      ensures r == Heads(old(Buffers(rx)))
      ensures |r| == NonEmptyCount(old(Buffers(rx))) <= |rx|
      ensures Buffers(rx) == Tails(old(Buffers(rx)))
    {
      ghost var b := Buffers(rx);
      r := ReceiveHeads(rx, b);
      BuffersAre(rx, Tails(b));
      HeadsLength(b);
    }
  }

  /** The loop of the full drain over the receivers `cs`, whose buffers are `b`:
      each channel in turn is received from until it reports that it is empty. */
  method ReceiveAll<T>(cs: seq<Channel<T>>, ghost b: seq<seq<T>>) returns (r: seq<T>)
    requires Distinct(cs) && |b| == |cs|
    requires forall j :: 0 <= j < |cs| ==> cs[j].buf == b[j]
    modifies cs
    ensures r == Concat(b)
    ensures forall j :: 0 <= j < |cs| ==> cs[j].buf == []
  {
    r := [];
    var i := 0;
    while i < |cs|
      invariant 0 <= i <= |cs|
      invariant r == Concat(b[..i])
      invariant forall j :: 0 <= j < i ==> cs[j].buf == []
      invariant forall j :: i <= j < |cs| ==> cs[j].buf == b[j]
    {
      var c := cs[i];
      var got := c.ReceiveUntilEmpty();
      assert forall j :: 0 <= j < |cs| && j != i ==> cs[j] != c;
      r := r + got;
      assert b[..i + 1][..i] == b[..i];
      i := i + 1;
    }
    assert b[..|cs|] == b;
  }

  /** The loop of the single-item receive over the receivers `cs`, whose buffers
      are `b`: one receive attempt per channel. */
  method ReceiveHeads<T>(cs: seq<Channel<T>>, ghost b: seq<seq<T>>) returns (r: seq<T>)
    requires Distinct(cs) && |b| == |cs|
    requires forall j :: 0 <= j < |cs| ==> cs[j].buf == b[j]
    modifies cs
    ensures r == Heads(b)
    ensures forall j :: 0 <= j < |cs| ==> cs[j].buf == Tails(b)[j]
  {
    r := [];
    var i := 0;
    while i < |cs|
      invariant 0 <= i <= |cs|
      invariant r == Heads(b[..i])
      invariant forall j :: 0 <= j < i ==> cs[j].buf == Tails(b)[j]
      invariant forall j :: i <= j < |cs| ==> cs[j].buf == b[j]
    {
      var c := cs[i];
      var res := c.TryRecv();
      assert forall j :: 0 <= j < |cs| && j != i ==> cs[j] != c;
      var got := if res.Some? then [res.value] else [];
      assert got == if |b[i]| == 0 then [] else [b[i][0]];
      r := r + got;
      assert b[..i + 1][..i] == b[..i];
      i := i + 1;
    }
    assert b[..|cs|] == b;
  }

  /** The buffers of `cs` are `bs` when every channel's buffer is. */
  lemma BuffersAre<T>(cs: seq<Channel<T>>, bs: seq<seq<T>>)
    requires |cs| == |bs| && forall j :: 0 <= j < |cs| ==> cs[j].buf == bs[j]
    ensures Buffers(cs) == bs
  {
  }

  /** Output port: one sender per connection, in connection order. */
  class Output<T> {
    var tx: seq<Channel<T>>

    ghost predicate Valid()
      reads this
    {
      Distinct(tx)
    }

    constructor ()
      ensures Valid() && tx == []
    {
      tx := [];
    }

    /** Creates one fresh, empty channel and appends it to this output's senders and
        to the input's receivers. Connecting the same pair again adds a second,
        parallel channel. */
    method Connect(input: Input<T>)
      requires Valid() && input.Valid()
      modifies this, input
      ensures Valid() && input.Valid()
      ensures |tx| == |old(tx)| + 1 && tx[..|old(tx)|] == old(tx)
      ensures input.rx == old(input.rx) + [tx[|old(tx)|]]
      ensures fresh(tx[|old(tx)|]) && tx[|old(tx)|].buf == []
    {
      var c := new Channel<T>();
      tx := tx + [c];
      input.rx := input.rx + [c];
    }

    /** Sends a copy of `t` on every channel of this output: each buffer gains `t`
        at its tail and keeps its earlier contents. Only this output's channels
        are touched, so with no connection nothing changes. */
    method Fire(t: T)
      requires Valid()
      modifies tx
      ensures forall i :: 0 <= i < |tx| ==> tx[i].buf == old(tx[i].buf) + [t]
      ensures Buffers(tx) == Broadcast(old(Buffers(tx)), t)
    {
      for i := 0 to |tx|
        invariant forall j :: 0 <= j < i ==> tx[j].buf == old(tx[j].buf) + [t]
        invariant forall j :: i <= j < |tx| ==> tx[j].buf == old(tx[j].buf)
      {
        tx[i].Send(t);
      }
    }
  }

  /** Fan-out, receiving side: a value held by any channel of an input, such as
      the one a connected output has just fired, is part of what the next full
      drain of that input returns. */
  lemma DeliveredTo<T>(input: Input<T>, k: nat, v: T)
    requires k < |input.rx| && v in input.rx[k].buf
    ensures v in input.Pending()
  {
    var b := Buffers(input.rx);
    assert v in b[k];
    ConcatMembers(b, v);
  }

}
