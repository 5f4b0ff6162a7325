/** Whole-system uses of the ports and builders: the crate's own `single_region`
    test, building a region, fan-out and fan-in. */
module Scenarios {
  import opened Queues
  import opened Ports
  import opened Nodes
  import opened Regions
  import opened Flexcore

  /** A region built from a name, a period and a list of nodes reports that name,
      that period and exactly those nodes, in the order they were added. */
  method BuildRegion(name: string, tick: nat, ns: seq<Node>)
    returns (gotName: string, gotTick: nat, gotNodes: seq<Node>)
    ensures gotName == name && gotTick == tick && gotNodes == ns
  {
    var region := new Region(name, tick);
    for i := 0 to |ns|
      invariant region.name == name && region.tick == tick
      invariant region.nodes == ns[..i]
    {
      region.AddNode(ns[i]);
    }
    gotName := region.Name();
    gotTick := region.Tick();
    gotNodes := region.NodesMut();
  }

  /** The `single_region` test: a sensor feeding a processing node feeding a
      business-logic node, all in one region of one infrastructure, which is then
      run and disposed of. */
  method SingleRegion()
    returns (sensorTx: nat, processingRx: nat, processingTx: nat, logicRx: nat,
             nodeCount: nat, regionCount: nat, threadCount: nat,
             shutdown: seq<ShutdownStep>)
    ensures sensorTx == 1 && processingRx == 1 && processingTx == 1 && logicRx == 1
    ensures nodeCount == 3 && regionCount == 1 && threadCount == 1
    ensures |shutdown| == 2 && shutdown[0] == SignalExit && shutdown[1].Join?
    ensures shutdown[1].thread.name == "Sensor"
  {
    sensorTx, processingRx, processingTx, logicRx := WirePorts();
    nodeCount, regionCount, threadCount, shutdown := RunSensorRegion();
  }

  /** The wiring of the test: measurements from the sensor node to the processing
      node, velocity from the processing node to the logic node. */
  method WirePorts() returns (sensorTx: nat, processingRx: nat, processingTx: nat, logicRx: nat)
    ensures sensorTx == 1 && processingRx == 1 && processingTx == 1 && logicRx == 1
  {
    var outMeasurements := new Output<seq<real>>();
    var inMeasurements := new Input<seq<real>>();
    var outVelocity := new Output<real>();
    var inVelocity := new Input<real>();

    outMeasurements.Connect(inMeasurements);
    sensorTx, processingRx := |outMeasurements.tx|, |inMeasurements.rx|;
    outVelocity.Connect(inVelocity);
    processingTx, logicRx := |outVelocity.tx|, |inVelocity.rx|;
  }

  /** The region of the test, three nodes ticking once a second, run and shut down. */
  method RunSensorRegion()
    returns (nodeCount: nat, regionCount: nat, threadCount: nat, shutdown: seq<ShutdownStep>)
    ensures nodeCount == 3 && regionCount == 1 && threadCount == 1
    ensures |shutdown| == 2 && shutdown[0] == SignalExit && shutdown[1].Join?
    ensures shutdown[1].thread.name == "Sensor"
  {
    var r1 := new Region("Sensor", 1_000_000_000);
    r1.AddNode(Node("counter"));
    r1.AddNode(Node("processing"));
    r1.AddNode(Node("output"));
    nodeCount := |r1.nodes|;

    var infra := new Infrastructure();
    infra.AddRegion(r1);
    regionCount := |infra.regions|;

    var handle := infra.Run();
    threadCount := |handle.threads|;
    ghost var thread := handle.threads[0];
    shutdown := handle.Drop();
    assert shutdown[1] == Join(thread);
  }

  /** One fresh output connected to n fresh inputs, input j through channel j. */
  method WireFanOut<T>(n: nat) returns (out: Output<T>, inputs: seq<Input<T>>)
    ensures fresh(out) && out.Valid() && |out.tx| == |inputs| == n
    ensures forall j :: 0 <= j < n ==> fresh(out.tx[j]) && out.tx[j].buf == []
    ensures forall j :: 0 <= j < n ==> inputs[j].rx == [out.tx[j]]
  {
    out := new Output<T>();
    inputs := [];
    while |inputs| < n
      invariant fresh(out) && out.Valid() && |out.tx| == |inputs| <= n
      invariant forall j :: 0 <= j < |inputs| ==> inputs[j].rx == [out.tx[j]]
      invariant forall j :: 0 <= j < |inputs| ==> out.tx[j].buf == [] && fresh(out.tx[j])
    {
      var input := new Input<T>();
      out.Connect(input);
      inputs := inputs + [input];
    }
  }

  /** Fan-out: one output connected to n fresh inputs; after one `Fire(v)` every
      input's next full drain returns exactly [v]. */
  method FanOut<T>(n: nat, v: T) returns (fetched: seq<seq<T>>)
    ensures |fetched| == n
    ensures forall i :: 0 <= i < n ==> fetched[i] == [v]
  {
    var out, inputs := WireFanOut<T>(n);
    var chans := out.tx;
    out.Fire(v);
    fetched := FetchEach(inputs, chans, v);
  }

  /** Fully drains each input in turn, input j owning only channel j, which holds
      just `v`. */
  method FetchEach<T>(inputs: seq<Input<T>>, chans: seq<Channel<T>>, v: T)
    returns (fetched: seq<seq<T>>)
    requires |inputs| == |chans| && Distinct(chans)
    requires forall j :: 0 <= j < |chans| ==> inputs[j].rx == [chans[j]] && chans[j].buf == [v]
    modifies chans
    ensures |fetched| == |inputs|
    ensures forall j :: 0 <= j < |inputs| ==> fetched[j] == [v]
  {
    fetched := [];
    for i := 0 to |inputs|
      invariant |fetched| == i
      invariant forall j :: 0 <= j < i ==> fetched[j] == [v]
      invariant forall j :: i <= j < |chans| ==> chans[j].buf == [v]
    {
      var c := chans[i];
      assert forall j :: 0 <= j < |chans| && j != i ==> chans[j] != c;
      var got := FetchSingle(inputs[i], c, v);
      fetched := fetched + [got];
    }
  }

  /** A full drain of an input whose only channel holds just `v`. */
  method FetchSingle<T>(input: Input<T>, c: Channel<T>, v: T) returns (got: seq<T>)
    requires input.rx == [c] && c.buf == [v]
    modifies c
    ensures got == [v] && c.buf == []
  {
    assert Buffers(input.rx) == [[v]];
    got := input.Fetch();
    assert Concat([[v]]) == [v] by {
      assert [[v]][..0] == [];
    }
  }

  /** One fresh input fed by n fresh outputs, output j through channel j. */
  method WireFanIn<T>(n: nat) returns (input: Input<T>, outs: seq<Output<T>>)
    ensures fresh(input) && input.Valid() && |input.rx| == |outs| == n
    ensures forall j :: 0 <= j < n ==> fresh(input.rx[j]) && input.rx[j].buf == []
    ensures forall j :: 0 <= j < n ==> outs[j].tx == [input.rx[j]]
  {
    input := new Input<T>();
    outs := [];
    while |outs| < n
      invariant fresh(input) && input.Valid() && |input.rx| == |outs| <= n
      invariant forall j :: 0 <= j < |outs| ==> outs[j].tx == [input.rx[j]]
      invariant forall j :: 0 <= j < |outs| ==> input.rx[j].buf == [] && fresh(input.rx[j])
    {
      var out := new Output<T>();
      out.Connect(input);
      outs := outs + [out];
    }
  }

  /** Fan-in: one input fed by one output per value; after output i fires vs[i],
      the input's next full drain returns exactly vs, in connection order. */
  method FanIn<T>(vs: seq<T>) returns (fetched: seq<T>)
    ensures fetched == vs
  {
    var input, outs := WireFanIn<T>(|vs|);
    var chans := input.rx;
    FireEach(outs, chans, vs);
    ghost var queued := Buffers(chans);
    fetched := input.Fetch();
    ConcatSingletons(queued, vs);
  }

  /** Output j, owning only the empty channel j, fires vs[j], for every j in turn. */
  method FireEach<T>(outs: seq<Output<T>>, chans: seq<Channel<T>>, vs: seq<T>)
    requires |outs| == |chans| == |vs| && Distinct(chans)
    requires forall j :: 0 <= j < |chans| ==> outs[j].tx == [chans[j]] && chans[j].buf == []
    modifies chans
    ensures forall j :: 0 <= j < |chans| ==> chans[j].buf == [vs[j]]
  {
    for i := 0 to |vs|
      invariant forall j :: 0 <= j < i ==> chans[j].buf == [vs[j]]
      invariant forall j :: i <= j < |vs| ==> chans[j].buf == []
    {
      var c := chans[i];
      assert forall j :: 0 <= j < |chans| && j != i ==> chans[j] != c;
      outs[i].Fire(vs[i]);
      assert outs[i].tx[0].buf == [] + [vs[i]];
    }
  }
}
