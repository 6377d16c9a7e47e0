# Slotted ALOHA simulator core, in Dafny

This project models the core of a Slotted ALOHA simulator, written in Java
(`Code/sender.java`). Several transmitters share one channel, and time is
divided into slots. The core has two parts.

- **Class `Node`**: one transmitter's contention state. It holds a two-packet
  buffer, a contention window `cw`, a backoff counter, a single packet-delay
  counter and a retry counter. The model has four operations on it:
  - packet arrival (`gen_pkt`);
  - the per-slot transmit/defer decision (`slot_action`);
  - the success update, which shrinks the window (`update_success`);
  - the collision update, which draws a new backoff, doubles the window and
    counts the retry (`update_fail`).
- **The slot loop of `SlottedAlohaSender.run_simulation`**. Each slot:
  1. advances the clock;
  2. lets every node roll for an arrival;
  3. collects the nodes that decide to transmit;
  4. resolves the slot. A lone transmitter delivers its packet, which is
     counted and its delay added to the total. Two or more transmitters
     collide: they are updated in array order, and the run aborts at the
     first node that reports retry exhaustion.

The project has two modules.

- `node.dfy` (module `AlohaNode`):
  - Each node operation is a function on a `NodeState` value. Its contract
    says what the operation means.
  - Lemmas cover sequences of collisions: retry counting, the 100-retry
    budget and the window clamps.
  - Class `Node` keeps the six Java fields. Its methods update them in place,
    and each method is proved to agree with its function.
- `simulation.dfy` (module `Simulation`):
  - Pure functions describe a slot (`Arrive`, `Act`, `Attempting`,
    `FailAll`, `Resolve`, `Slot`) and a whole run (`Run`), along with the
    lemmas about them.
  - Class `Simulator` holds an `array<Node>`. Its phase methods and its
    loop `RunSimulation` are proved equal to those functions. A ghost field
    `states` mirrors the nodes' states.

The simulator takes both random sources as parameters:
- `arrive(t, i)` says whether node `i` generates a packet in slot `t`;
- `draw(t, i, w)` is node `i`'s backoff draw in slot `t`, from a window of
  size `w`. The predicate `DrawInWindow` requires `0 <= draw(t, i, w) < w`.

`System.exit` is replaced by a returned `Outcome`, which is one of
`TargetReached`, `RetriesExhausted` or `OutOfFuel`. Each carries the counters
`SimTime`, `num_pkts_xmitted` and `total_delay_time`.

Some behaviour of the code differs from what a reader might expect; the model
follows the code:
- **One delay counter.** There is a single `pkt_delay` counter, not a
  per-packet delay for each of the two buffered packets. It is reset to 0 on
  every success, so a second buffered packet's delay counts from the first
  packet's delivery, not from its own arrival.
- **Retry limit.** The limit is the literal 100 (`Code/sender.java:79`),
  although the message printed on exhaustion (`Code/sender.java:80`) says 10.
  Because the check comes before the increment, 100 collisions in a row
  report "not exhausted" and the 101st reports exhaustion. On that 101st collision the node still gets a new
  backoff and a doubled window.
- **Clock.** `SimTime` is incremented at the top of the loop, so the first
  slot is slot 1.
- **Abort order.** A collision updates the nodes in array order and stops at
  the first node already at the limit. Later colliding nodes are not touched.
- **Window shrink.** `(int) Math.max(2, cw * 0.75)` is modelled exactly as
  `max(2, (3 * cw) / 4)`. The product is exact in binary floating point, and
  the cast truncates a value of at least 2.

The node invariant `Inv` is stronger than `backlogged <==> buffer_count > 0`
alone. It also says that an idle node has zero delay, zero backoff and zero
retries. This holds because `update_success` clears those fields whenever it
empties the buffer.

## Model

| member | source | states |
|---|---|---|
| AlohaNode.Initial | Code/sender.java:24-30 | a new node has an empty buffer, is not backlogged and has window defCw; it satisfies the node invariant iff defCw >= 1, and its window is within [2, 256] iff defCw is |
| AlohaNode.Node.constructor | Code/sender.java:24-30 | the six fields equal Initial(defCw), where buffer_count takes Java's default 0; the node is valid iff defCw >= 1 |
| AlohaNode.GenPktStep | Code/sender.java:32-38 | on a full buffer (2 packets), nothing changes, and the state is unchanged only then; otherwise the buffer grows by one and the node becomes backlogged, with no other field touched; it keeps the invariant, so the buffer never exceeds 2 |
| AlohaNode.Node.GenPkt | Code/sender.java:32-38 | the in-place update leaves exactly the state GenPktStep gives and keeps the node valid |
| AlohaNode.SlotActionStep | Code/sender.java:44-56 | returns 0 or 1, and 1 iff the node is backlogged with backoff 0; an idle node is left unchanged; a backlogged node's delay grows by exactly 1; a deferring backlogged node's backoff drops by 1, and a transmitting node's stays 0; no other field changes; the invariant (backoff >= 0) is kept; a transmitter has delay >= 1 |
| AlohaNode.Node.SlotAction | Code/sender.java:44-56 | the returned decision and the new fields are exactly those SlotActionStep gives; validity is kept |
| AlohaNode.IdleSlotActionsIdempotent | Code/sender.java:44-46 | any number of slot decisions on an idle node return 0 and leave it unchanged |
| AlohaNode.ShrinkWindow | Code/sender.java:60 | the shrunk window is at least 2 and is floor(3*cw/4) whenever that is above 2; it is strictly smaller than a window above 2 and never exceeds 256 when cw did not |
| AlohaNode.UpdateSuccessStep | Code/sender.java:58-73 | returns the old delay; the window becomes ShrinkWindow(cw); the buffer loses one packet; backlogged iff packets remain; delay, retries and backoff become 0; the invariant is kept on a backlogged node, and the window stays within [2, 256] |
| AlohaNode.Node.UpdateSuccess | Code/sender.java:58-73 | the returned delay and the new fields are exactly those UpdateSuccessStep gives; validity is kept for a backlogged node |
| AlohaNode.GrowWindow | Code/sender.java:77 | the grown window is 2*cw, or 256 when 2*cw exceeds 256; it is never above 256, at least 2 for a positive window, and strictly larger than a positive window below 256 |
| AlohaNode.UpdateFailStep | Code/sender.java:75-86 | the backoff becomes the draw from [0, old cw); the window becomes GrowWindow(cw); it reports exhaustion iff retries were already 100, leaving them there, and otherwise adds one retry; buffer, backlog and delay are unchanged; the [2, 256] window bounds are kept, and the invariant is kept on a backlogged node (the only kind the loop calls it on) |
| AlohaNode.Node.UpdateFail | Code/sender.java:75-86 | the result and the new fields are exactly those UpdateFailStep gives for the draw passed in place of nextInt(cw); validity is kept for a backlogged node |
| AlohaNode.Collisions | Code/sender.java:75-86 | n collisions in a row report n results and keep the window positive and the buffer and backlog unchanged |
| AlohaNode.CollisionsCountRetries | Code/sender.java:79-85 | after n collisions in a row the retry counter is min(100, start + n); collision k reports exhaustion iff the counter had reached 100 before it |
| AlohaNode.RetryBudget | Code/sender.java:79-85 | from zero retries, 100 consecutive collisions report "not exhausted" and the 101st reports exhaustion |
| AlohaNode.CollisionsKeepWindowBounded | Code/sender.java:75-86 | a window within [2, 256] stays within it through any run of collisions (ShrinkWindow's contract covers successes) |
| Simulation.Arrive | Code/sender.java:131-134 | node i gets gen_pkt exactly when arrive(t, i) holds; every node's invariant is kept, and a node with an arrival is backlogged afterwards |
| Simulation.Simulator.ArrivalPhase | Code/sender.java:131-134 | the loop over the node array leaves the nodes in exactly the states Arrive gives |
| Simulation.Act | Code/sender.java:141-144 | every node has taken its slot decision; all invariants are kept |
| Simulation.ActKeepsWindows | Code/sender.java:44-56 | the slot decisions leave every window unchanged, so windows within [2, 256] stay there |
| Simulation.Attempting | Code/sender.java:140-144 | the collected list is no longer than the number of nodes scanned; which nodes it lists, and that each appears once, is AttemptingExact |
| Simulation.AttemptingExact | Code/sender.java:140-144 | the collected indices are strictly increasing, each belongs to a node whose decision was to transmit, and every such node is listed |
| Simulation.Simulator.AttemptPhase | Code/sender.java:137-144 | the loop returns exactly Attempting's list and leaves every node as its decision left it (Act) |
| Simulation.DecidersCollide | Code/sender.java:140-147 | after the decisions, every listed transmitter is a backlogged node with delay at least 1 |
| Simulation.FailAll | Code/sender.java:151-162 | the collision pass keeps every invariant and never changes a buffer, backlog flag or delay; nodes that did not transmit are untouched; windows within [2, 256] stay there; it can stop only if someone transmitted |
| Simulation.FirstAtLimit | Code/sender.java:152-153 | the position of the first colliding node whose retries are at 100: all before it are below the limit |
| Simulation.FailAllStops | Code/sender.java:152-161 | the pass reports exhaustion iff some colliding node was already at 100 retries |
| Simulation.FailAllUpdates | Code/sender.java:152-153 | every colliding node up to and including the first one at the limit gets update_fail with its own draw |
| Simulation.FailAllSkips | Code/sender.java:152-161 | every colliding node after the first one at the limit is left untouched |
| Simulation.Simulator.ResolveCollision | Code/sender.java:151-162 | the in-place pass over the transmitters, with its early return, leaves the nodes and reports exhaustion exactly as FailAll does |
| Simulation.Resolve | Code/sender.java:146-162 | with exactly one transmitter, one more delivery is counted and that node's delay is added to the total; otherwise the counters are unchanged; with one transmitter, that node alone changes, to the state update_success gives it; otherwise the nodes and the abort flag are exactly those of the collision pass FailAll over the transmitters; only a collision of two or more can abort; a slot with no transmitter leaves every node as it is; windows within [2, 256] stay there |
| Simulation.Simulator.ResolvePhase | Code/sender.java:146-162 | the in-place resolution leaves the nodes and counters exactly as Resolve gives them |
| Simulation.Slot | Code/sender.java:125-162 | one slot advances the time by exactly 1; delivered grows by 1 iff there was exactly one transmitter, and then the total delay grows by at least 1; otherwise the total is unchanged; only a collision can abort; all node invariants are kept, and windows within [2, 256] stay there |
| Simulation.SlotProperties | Code/sender.java:140-162 | the slot's transmitters are exactly the nodes that decided to transmit; every other node keeps the state its decision left it in, including its window and retry counter; so an idle slot updates no node |
| Simulation.SlotCollides | Code/sender.java:151-162 | in a slot with other than one transmitter, the new nodes and the abort flag are those of the collision pass over the transmitters (backlogged, strictly increasing indices) on the states their decisions left, so FailAllStops, FailAllUpdates and FailAllSkips describe the slot |
| Simulation.SlotWinner | Code/sender.java:147-149 | a slot's lone transmitter ends in the state update_success gives it: window ShrinkWindow of its old window, one packet fewer, and delay, retry and backoff counters at 0 |
| Simulation.Simulator.RunSlot | Code/sender.java:125-162 | one slot run in place over the node array gives exactly the nodes, counters, transmitters and abort flag that Slot does |
| Simulation.Simulator.GenPktAt | Code/sender.java:133 | gen_pkt on node i changes only node i, as GenPktStep gives |
| Simulation.Simulator.SlotActionAt | Code/sender.java:142 | slot_action on node i changes only node i and returns its decision, as SlotActionStep gives |
| Simulation.Simulator.UpdateSuccessAt | Code/sender.java:149 | update_success on node i changes only node i and returns its delay, as UpdateSuccessStep gives |
| Simulation.Simulator.UpdateFailAt | Code/sender.java:153 | update_fail on node i changes only node i and reports exhaustion, as UpdateFailStep gives |
| Simulation.RunProperties | Code/sender.java:120-163 | about Run, the loop as a function bounded by a number of slots (split into Run, which tests the target, Budget, which tests the bound, and Turn, which runs one slot): over a whole run, delivered <= SimTime and total delay >= delivered are kept; time grows by at most the slot bound; the run ends by reaching the target iff delivered >= max_pkts, and then delivered equals max_pkts (from a count below it); running out of slots means every slot was used |
| Simulation.Simulator.Advance | Code/sender.java:125-163 | one iteration of the loop in place: the run from the old state equals the abort outcome, or the run from the new state with one slot fewer; windows within [2, 256] stay there |
| Simulation.Simulator.RunSimulation | Code/sender.java:120-163 | the loop over the node array returns exactly the outcome Run gives from counters (0, 0, 0); if every window started within [2, 256], every window ends there |
| Simulation.Simulator.constructor | Code/sender.java:103-112 | builds n distinct fresh nodes, each in state Initial(def_cw); the simulator is valid when def_cw >= 1, and every window is within [2, 256] when def_cw is |
| Simulation.LoneNodeDeliversAtOnce | Code/sender.java:120-163 | one node that gets a packet in slot 1 with a target of 1 packet ends with SimTime 1, one delivery and delay 1 |
| Simulation.BackloggedPairCollides | Code/sender.java:140-162 | two backlogged nodes with no backoff left both transmit and collide; both get a grown window and one more retry; nothing is delivered and the run goes on |
| Simulation.ExhaustedNodeAbortsRun | Code/sender.java:151-161 | when the first of two colliding nodes is at 100 retries, the run aborts in that slot with nothing delivered, and the second node is not updated |
| Simulation.PairTransmits | Code/sender.java:140-144 | two backlogged nodes with backoff 0 are collected as transmitters [0, 1] and keep their window and retries through the decision |

## Left out

- Command-line parsing in `sender.main` (`Code/sender.java:178-235`) and the `Code/script.py` driver are plumbing with no protocol logic, so neither is modelled.
- Console output and `System.exit` (`Code/sender.java:80`, 154-160, 165-170) are left out; the run returns an `Outcome` value instead.
- Utilization and average delay are floating-point divisions (`Code/sender.java:158-159`, 168-169). The model keeps only the integer counters they are computed from.
- `Math.random()` and `new Random().nextInt(cw)` are not modelled. They are replaced by the `arrive` and `draw` parameters, and nothing is assumed about their distribution.
- `pkt_gen_rate` (`Code/sender.java:97`, 116-118) appears only through the `arrive` oracle.
- The constructor of `SlottedAlohaSender` calls `run_simulation()` (`Code/sender.java:113`). In the model the two are separate, and `RunSimulation` is called on the constructed simulator.
- Simulation.Run: Java's loop need not terminate. A fuel bound (a maximum number of slots) replaces that, and `OutOfFuel` is the outcome of a run the model stops early.
- AlohaNode.GrowWindow: Java's 32-bit `cw * 2` can overflow for huge windows. Integers here are unbounded, so a window that starts within [2, 256] (`CollisionsKeepWindowBounded`) is never near that range. `SimTime`, `num_pkts_xmitted`, `total_delay_time`, `pkt_delay` and `retry_attempts` are unbounded too.
- Simulation.Simulator.constructor: a negative `num_users` (Java's `NegativeArraySizeException`) is excluded by typing `n` as a natural number.
- AlohaNode.UpdateFailStep: `nextInt(cw)` throws on a non-positive `cw`. The model requires a draw in `[0, cw)` instead, which the node invariant (`cw >= 1`) makes available whenever `def_cw >= 1`.
