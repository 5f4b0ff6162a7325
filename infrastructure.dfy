/** The infrastructure: a builder that collects regions, and the running handle that
    `Run` turns it into. Running starts one thread per region; the threads
    themselves are not modelled, only the handles that stand for them and the
    shared exit flag. */
module Flexcore {
  import opened Regions

  /** The handle of one spawned region thread: the thread is named after its
      region and refers to it. */
  datatype JoinHandle = JoinHandle(name: string, region: Region)

  /** One step of shutting down the running infrastructure. */
  datatype ShutdownStep = SignalExit | Join(thread: JoinHandle)

  /** The builder: regions in the order they were added. */
  class Infrastructure {
    var regions: seq<Region>

    /** A new infrastructure holds no regions. */
    constructor ()
      ensures regions == []
    {
      regions := [];
    }

    /** Appends one region after the ones already added. */
    method AddRegion(region: Region)
      modifies this
      ensures regions == old(regions) + [region]
    {
      regions := regions + [region];
    }

    /** Moves every region out of the builder and starts one thread per region, in
        region order, all sharing one exit flag that starts cleared. No region and
        no node count is checked: an empty configuration runs too. */
    method Run() returns (running: RunningInfrastructure)
      modifies this
      ensures regions == []
      ensures fresh(running) && !running.exitSignal
      ensures |running.threads| == |old(regions)|
      ensures forall i :: 0 <= i < |old(regions)| ==>
        running.threads[i] == JoinHandle(old(regions[i].name), old(regions[i]))
    {
      var taken := regions;
      regions := [];
      running := new RunningInfrastructure();
      for i := 0 to |taken|
        invariant regions == []
        invariant fresh(running) && !running.exitSignal
        invariant |running.threads| == i
        invariant forall j :: 0 <= j < i ==>
          running.threads[j] == JoinHandle(taken[j].name, taken[j])
      {
        running.threads := running.threads + [JoinHandle(taken[i].name, taken[i])];
      }
    }
  }

  /** The running infrastructure: one handle per started thread and the exit flag
      they all poll. */
  class RunningInfrastructure {
    var threads: seq<JoinHandle>
    var exitSignal: bool

    constructor ()
      ensures threads == [] && !exitSignal
    {
      threads := [];
      exitSignal := false;
    }

    /** Shutdown on disposal: sets the exit flag first, then takes the handles out
        and joins every thread in start order. */
    method Drop() returns (steps: seq<ShutdownStep>)
      modifies this
      ensures exitSignal && threads == []
      ensures |steps| == |old(threads)| + 1 && steps[0] == SignalExit
      ensures forall i :: 0 <= i < |old(threads)| ==> steps[i + 1] == Join(old(threads)[i])
    {
      exitSignal := true;
      steps := [SignalExit];
      var taken := threads;
      threads := [];
      for i := 0 to |taken|
        invariant |steps| == i + 1 && steps[0] == SignalExit
        invariant forall j :: 0 <= j < i ==> steps[j + 1] == Join(taken[j])
      {
        steps := steps + [Join(taken[i])];
      }
    }
  }
}
