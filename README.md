# flexcore in Dafny

flexcore is a small Rust framework for cyclic, multi-threaded data processing.
Users write *nodes*, group them into *regions*, and add the regions to an
*infrastructure*. Each region has a name, a tick period and its nodes, in the
order they were registered. `Infrastructure::run` starts one thread per region.
In every cycle, that thread reads a shared exit flag and returns if the flag is
set. Otherwise it calls `tick` and then `process_input` on every node in
registration order, and then sleeps for one period. Dropping the running
infrastructure sets the flag and joins every thread.

Nodes exchange data through typed ports:
- `Output::connect` creates one fresh channel per connection and gives its
  sending end to the output and its receiving end to the input.
- `Output::fire` sends a copy of the value on every channel of the output.
- `Input::fetch` drains the input's receivers in connection order. `src/ports.rs`
  empties each receiver completely. The older copy in `src/lib.rs` takes at
  most one value from each receiver.

The model has these modules:

- `Queues`: the channels of a port as a value, a sequence of buffers in
  connection order. It defines what a full drain returns (`Concat`), what a
  single-item pass returns (`Heads`) and leaves behind (`Tails`), and what a
  broadcast does (`Broadcast`). It also holds the lemmas about these functions.
- `Ports`: `Channel`, `Input` and `Output` as classes whose fields the methods
  update in place. The receive loops are proved against the `Queues` functions.
- `Nodes`: a node, seen from the framework: its name. It also holds the calls
  the scheduler makes on a node (`Event`).
- `Regions`: the `Region` class.
- `Scheduler`: the loop each region thread runs, written as the sequence of
  node calls it makes. The values the loop reads from the exit flag are a
  parameter.
- `Flexcore`: `Infrastructure` (the builder) and `RunningInfrastructure`,
  including its shutdown on drop.
- `Scenarios`: the crate's `single_region` test, building a region, and
  fan-out and fan-in through ports.

Three things the code does not do:
- `run` (src/lib.rs:26-50) validates nothing. It accepts zero regions, and
  regions with zero nodes. An empty configuration starts zero threads
  (`Flexcore.Infrastructure.Run`).
- A region thread sleeps one full `region.tick` after every cycle
  (src/lib.rs:44). It does not measure how long the cycle took.
- A failure to spawn or join a thread panics through `expect`
  (src/lib.rs:46, 65).

## Model

| member | source | states |
|---|---|---|
| Ports.Channel.constructor | src/ports.rs:37 | a new channel holds no value |
| Ports.Channel.Send | src/ports.rs:45 | a send queues the value behind everything sent before it |
| Ports.Channel.TryRecv | src/ports.rs:14-17 | a non-blocking receive either removes and returns the oldest value, or reports an empty channel and leaves it unchanged |
| Ports.Channel.ReceiveUntilEmpty | src/ports.rs:13-18 | receiving until the channel reports empty returns everything queued, oldest first, and leaves the channel empty |
| Ports.Input.constructor | src/ports.rs:1-7 | a default input has no receivers |
| Ports.Input.Fetch | src/ports.rs:10-21 | the full drain returns the concatenation of all receivers' buffers in connection order, leaves every receiver empty, and returns nothing exactly when every receiver was empty |
| Ports.ReceiveAll | src/ports.rs:12-19 | the outer loop of the full drain over distinct receivers returns `Concat` of their buffers and empties each one |
| Ports.Input.FetchOne | src/lib.rs:108-117 | the single-item fetch returns the oldest value of each non-empty receiver, in connection order. It returns at most one value per receiver and leaves each receiver holding the rest of its buffer |
| Ports.ReceiveHeads | src/lib.rs:110-115 | the loop of the single-item fetch returns `Heads` of the buffers and leaves `Tails` of them |
| Ports.Output.constructor | src/ports.rs:24-30 | a default output has no senders |
| Ports.Output.Connect | src/ports.rs:36-40 | connecting appends one fresh, empty channel to the output's senders and the same channel to the input's receivers. Earlier connections are kept, and both ports still hold distinct channels |
| Ports.Output.Fire | src/ports.rs:43-47 | firing adds the value at the tail of every one of the output's channels and keeps their earlier contents. The new buffers are `Broadcast` of the old ones |
| Ports.DeliveredTo | src/ports.rs:10-21 | a value held by any channel of an input is part of what the input's next full drain returns |
| Queues.ConcatAppend | src/ports.rs:12-19 | draining receivers a and then receivers b returns the drain of a followed by the drain of b |
| Queues.ConcatLength | src/ports.rs:12-19 | a full drain returns exactly as many values as were queued over all receivers |
| Queues.ConcatAt | src/ports.rs:12-19 | the j-th value of receiver i comes out of a full drain right after everything queued on receivers 0..i-1, so each channel's send order is kept |
| Queues.ConcatMembers | src/ports.rs:12-19 | a value comes out of a full drain if and only if some receiver held it |
| Queues.ConcatEmpty | src/ports.rs:12-19 | a full drain is empty if and only if every receiver was empty |
| Queues.BroadcastTotal | src/ports.rs:43-47 | a fire grows the total queued over the output's channels by one value per channel |
| Queues.BroadcastOnEmpty | src/ports.rs:43-47 | firing on channels that were all empty queues exactly one copy of the value per channel |
| Queues.HeadsLength | src/lib.rs:110-115 | a single-item fetch returns one value per non-empty receiver, which is never more than the number of receivers |
| Queues.HeadsConserve | src/lib.rs:110-115 | a single-item fetch loses nothing: what it returns plus what it leaves is, as a multiset, what was queued |
| Queues.SplitLast | src/lib.rs:110-115 | the last receiver contributes its oldest value to a single-item fetch and keeps the rest |
| Queues.HeadsIsDrainOnSingletons | src/lib.rs:110-115 | when no receiver holds more than one value, the single-item fetch returns the same as the full drain of src/ports.rs:10-21 and leaves every receiver empty |
| Queues.HeadsAt | src/lib.rs:110-115 | the value a single-item fetch takes from receiver i is that receiver's oldest value. It sits right after the values taken from the earlier non-empty receivers |
| Queues.HeadsAppend | src/lib.rs:110-115 | a single-item fetch over receivers a and then b returns the fetch over a followed by the fetch over b |
| Queues.ConcatSingletons | src/ports.rs:12-19 | when receiver i holds exactly the value vs[i], a full drain returns exactly vs |
| Regions.Region.constructor | src/region.rs:13-19 | a new region has the given name and tick period and no nodes |
| Regions.Region.AddNode | src/region.rs:22-24 | adding a node appends it after the registered nodes and leaves the name and period unchanged |
| Regions.Region.Name | src/region.rs:26-28 | returns the region's name |
| Regions.Region.Tick | src/region.rs:30-32 | returns the region's tick period |
| Regions.Region.NodesMut | src/region.rs:34-36 | returns the registered nodes in registration order |
| Scheduler.CycleTraceLength | src/lib.rs:40-43 | one cycle over n nodes makes exactly 2n calls |
| Scheduler.CycleTraceAt | src/lib.rs:40-43 | in one cycle, node i is ticked at position 2i and processed at position 2i+1 |
| Scheduler.CycleCallsEachNodeOnce | src/lib.rs:40-43 | in one cycle, the only call that ticks node i is at position 2i and the only call that processes it is at position 2i+1, so each node gets each call exactly once, in registration order |
| Scheduler.RunCycle | src/lib.rs:37-43 | one pass of the thread loop calls nothing and stops if the flag is set. Otherwise it ticks and then processes every node in registration order, and carries on |
| Scheduler.CyclesRun | src/lib.rs:36-45 | the number of cycles run is the number of flag readings before the first set one |
| Scheduler.ThreadTraceLength | src/lib.rs:36-45 | a region thread makes 2n calls per cycle and runs one cycle per cleared flag reading before the first set one |
| Scheduler.ThreadStopsAtExit | src/lib.rs:37-39 | after the thread reads the flag set, no later reading changes what it calls |
| Scheduler.RunThread | src/lib.rs:36-45 | the thread loop, run against the given flag readings, makes exactly the calls `ThreadTrace` describes |
| Flexcore.Infrastructure.constructor | src/lib.rs:14-18 | a new infrastructure holds no regions |
| Flexcore.Infrastructure.AddRegion | src/lib.rs:21-23 | adding a region appends it after the regions already added |
| Flexcore.Infrastructure.Run | src/lib.rs:26-50 | running takes all regions out of the builder and starts one thread per region, in region order. Each thread's handle carries its region's name and the region, and the shared exit flag starts cleared. No configuration is rejected |
| Flexcore.RunningInfrastructure.constructor | src/lib.rs:28-31 | a running infrastructure starts with no threads and a cleared exit flag |
| Flexcore.RunningInfrastructure.Drop | src/lib.rs:61-67 | dropping first sets the exit flag, then takes the thread handles out and joins every thread in start order |
| Scenarios.SingleRegion | src/lib.rs:240-275 | the `single_region` test: each connection gives one sender and one receiver, the region holds three nodes, the builder one region and the running infrastructure one thread. Dropping it signals exit and joins the thread named "Sensor" |
| Scenarios.WirePorts | src/lib.rs:246-258 | the port checks of the `single_region` test: each side of both connections holds exactly one channel |
| Scenarios.RunSensorRegion | src/lib.rs:260-273 | the region checks of the `single_region` test: three nodes, one region, one thread, and a shutdown that joins the "Sensor" thread |
| Scenarios.BuildRegion | src/region.rs:13-36 | a region built from a name, a period and a list of nodes reports that name, that period and exactly those nodes, in order |
| Scenarios.WireFanOut | src/ports.rs:36-40 | connecting one output to n fresh inputs gives each input exactly one fresh, empty channel, which is the output's j-th sender |
| Scenarios.FanOut | src/ports.rs:10-47 | fan-out: after one fire on an output connected to n inputs, each input's next full drain returns exactly that value, once |
| Scenarios.FetchEach | src/ports.rs:10-21 | fully draining n inputs, each owning one channel that holds v, returns [v] for each of them |
| Scenarios.FetchSingle | src/ports.rs:10-21 | fully draining an input whose only channel holds v returns [v] and empties the channel |
| Scenarios.WireFanIn | src/ports.rs:36-40 | connecting n fresh outputs to one input gives the input n fresh, empty channels in connection order, the j-th being output j's only sender |
| Scenarios.FanIn | src/ports.rs:10-47 | fan-in: after output i fires vs[i] for each i, the input's next full drain returns exactly vs, in connection order |
| Scenarios.FireEach | src/ports.rs:43-47 | each output firing its own value on its own empty channel leaves channel j holding exactly that output's value |

## Left out

- Threads and concurrency: the region threads are not run in parallel. A thread is represented by the handle `Run` creates for it. The thread loop is modelled one thread at a time (`Scheduler.RunThread`), with the values it reads from the exit flag given as a parameter. How those readings relate to the moment `Drop` sets the flag is not modelled, and neither are the memory orderings of the atomic flag.
- Sleeping and time: `std::thread::sleep(region.tick)` is not modelled. A tick period is kept as a natural number of nanoseconds, and is only stored and returned.
- Panics: the `expect` calls on a failed send, a failed spawn and a failed join are not modelled. Neither end of a channel is ever dropped in the model. The receiver stays, so a send always succeeds. The senders stay, so `try_recv` never reports `Disconnected`. Both fetches handle `Disconnected` exactly like `Empty` (src/ports.rs:16, src/lib.rs:113), so no fetch behaviour is lost.
- What nodes do: the bodies of `tick` and `process_input` belong to the user. A node is its name, and the scheduler's calls are recorded as events. The test nodes' arithmetic and printing in src/lib.rs:143-238 are left out. So is examples/multi_region.rs, which only uses the API.
- Regions.Region.NodesMut: returns the node sequence as a value. The mutable alias the source hands out is not modelled, because nodes are values here.
- The second `Region` in src/lib.rs:70-92 has the same fields, constructor and `add_node` as src/region.rs, and is modelled once by `Regions.Region`. `Output::connect` and `Output::fire` in src/lib.rs:125-136 are the same as in src/ports.rs:32-48, and are modelled once.
- Scenarios.SingleRegion: the test's five-second sleep and the threads running during it are not modelled. The sensor payload, an array of three `f64`, is stood in for by the type `seq<real>`, and no payload value is ever computed. Only the test's checks, and the shutdown that dropping its handle performs, are modelled.
- Flexcore.Infrastructure.Run and Flexcore.Infrastructure.AddRegion: moving a region into the builder, and then into its thread, is modelled as a shared reference. So the model does not stop a region from being changed after it is added or after it runs. It also does not stop the builder from being used after `run`, which consumes it in the source.
