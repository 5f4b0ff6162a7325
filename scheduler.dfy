/** The scheduling loop each region thread runs: at the top of every cycle it reads
    the shared exit flag and returns if it is set; otherwise it ticks and then
    processes every node, in registration order, and sleeps one full period.
    The flag is written by another thread, so the values the loop reads are given
    as a parameter; sleeping is not modelled. */
module Scheduler {
  import opened Nodes
  import opened Regions

  /** The calls one cycle makes on a region of n nodes. */
  function CycleTrace(n: nat): (r: seq<Event>)
  {
    if n == 0 then [] else CycleTrace(n - 1) + [Tick(n - 1), Process(n - 1)]
  }

  /** One cycle calls `tick` and then `process_input` on node i, at positions 2i and 2i+1. */
  lemma {:induction false} CycleTraceAt(n: nat, i: nat)
    requires i < n
    ensures |CycleTrace(n)| == 2 * n
    ensures CycleTrace(n)[2 * i] == Tick(i) && CycleTrace(n)[2 * i + 1] == Process(i)
  {
    CycleTraceLength(n - 1);
    if i < n - 1 {
      CycleTraceAt(n - 1, i);
    }
  }

  lemma {:induction false} CycleTraceLength(n: nat)
    ensures |CycleTrace(n)| == 2 * n
  {
    if n > 0 {
      CycleTraceLength(n - 1);
    }
  }

  /** One cycle calls each method of each registered node exactly once: the only
      position holding node i's tick is 2i, the only one holding its
      `process_input` is 2i+1, and no position names an unregistered node. */
  lemma CycleCallsEachNodeOnce(n: nat, i: nat, p: nat)
    requires p < |CycleTrace(n)|
    ensures CycleTrace(n)[p] == Tick(i) <==> p == 2 * i
    ensures CycleTrace(n)[p] == Process(i) <==> p == 2 * i + 1
  {
    CycleTraceLength(n);
    CycleTraceAt(n, p / 2);
  }

  /** One pass of the thread loop: if the exit flag is set nothing is called and the
      loop stops; otherwise every node is ticked and then processed, in order. */
  method RunCycle(region: Region, exit: bool) returns (trace: seq<Event>, stop: bool)
    ensures stop == exit
    ensures trace == if exit then [] else CycleTrace(|region.nodes|)
    ensures !exit ==> |trace| == 2 * |region.nodes|
    ensures !exit ==> forall i :: 0 <= i < |region.nodes| ==>
      trace[2 * i] == Tick(i) && trace[2 * i + 1] == Process(i)
  {
    trace := [];
    if exit {
      return [], true;
    }
    var i := 0;
    while i < |region.nodes|
      invariant 0 <= i <= |region.nodes|
      invariant trace == CycleTrace(i)
    {
      trace := trace + [Tick(i)];
      trace := trace + [Process(i)];
      i := i + 1;
    }
    stop := false;
    CycleTraceLength(|region.nodes|);
    forall i | 0 <= i < |region.nodes|
      ensures trace[2 * i] == Tick(i) && trace[2 * i + 1] == Process(i)
    {
      CycleTraceAt(|region.nodes|, i);
    }
  }

  /** The calls a region thread makes when the flag reads `observed[0]`,
      `observed[1]`, ... at the tops of its successive cycles. */
  function ThreadTrace(observed: seq<bool>, n: nat): (r: seq<Event>)
  {
    if |observed| == 0 || observed[0] then []
    else CycleTrace(n) + ThreadTrace(observed[1..], n)
  }

  /** The number of cycles run before the flag is first seen set. */
  function CyclesRun(observed: seq<bool>): (k: nat)
    ensures k <= |observed|
    ensures forall j :: 0 <= j < k ==> !observed[j]
    ensures k < |observed| ==> observed[k]
  {
    if |observed| == 0 || observed[0] then 0 else 1 + CyclesRun(observed[1..])
  }

  /** A thread runs one whole cycle per flag reading until the first set one. */
  lemma {:induction false} ThreadTraceLength(observed: seq<bool>, n: nat)
    ensures |ThreadTrace(observed, n)| == 2 * n * CyclesRun(observed)
  {
    if |observed| > 0 && !observed[0] {
      var c := CyclesRun(observed[1..]);
      ThreadTraceLength(observed[1..], n);
      CycleTraceLength(n);
      assert |ThreadTrace(observed, n)| == 2 * n + 2 * n * c;
      assert CyclesRun(observed) == c + 1;
      assert 2 * n * (c + 1) == 2 * n + 2 * n * c;
    }
  }

  /** Once the thread reads the flag set, nothing it would read afterwards matters:
      no node is called again. */
  lemma {:induction false} ThreadStopsAtExit(observed: seq<bool>, n: nat, k: nat)
    requires k < |observed| && observed[k]
    ensures ThreadTrace(observed, n) == ThreadTrace(observed[..k], n)
  {
    if k > 0 && !observed[0] {
      assert observed[..k][1..] == observed[1..][..k - 1];
      ThreadStopsAtExit(observed[1..], n, k - 1);
    }
  }

  /** The region thread's loop, run against the given flag readings. */
  method RunThread(region: Region, observed: seq<bool>) returns (trace: seq<Event>)
    ensures trace == ThreadTrace(observed, |region.nodes|)
  {
    trace := [];
    var k := 0;
    var stop := false;
    while k < |observed| && !stop
      invariant 0 <= k <= |observed|
      invariant trace + (if stop then [] else ThreadTrace(observed[k..], |region.nodes|))
        == ThreadTrace(observed, |region.nodes|)
      decreases |observed| - k, !stop
    {
      var cycle;
      cycle, stop := RunCycle(region, observed[k]);
      assert observed[k..][1..] == observed[k + 1..];
      trace := trace + cycle;
      if !stop {
        k := k + 1;
      }
    }
  }
}
