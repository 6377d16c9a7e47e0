/** The slot loop of the Slotted ALOHA simulator (run_simulation of class
    SlottedAlohaSender in Code/sender.java): each slot advances the clock, lets
    every node roll for a packet arrival, collects the nodes that decide to
    transmit, and resolves the slot as idle, a success or a collision.

    The two random sources are parameters: arrive(t, i) says whether node i
    generates a packet in slot t, and draw(t, i, w) is node i's backoff draw in
    slot t from a window of size w. A run is bounded by a number of slots
    (fuel), since the loop itself need not end. */
module Simulation {
  import opened AlohaNode

  /** The run's aggregate counters: slots elapsed, packets delivered, and the sum
      of the delays reported by the deliveries. */
  datatype Counters = Counters(simTime: int, numPktsXmitted: int, totalDelayTime: int)

  /** How a run ends: the delivery target was met, a colliding node exhausted its
      retries, or the slot bound ran out first. */
  datatype Outcome =
    | TargetReached(counters: Counters)
    | RetriesExhausted(counters: Counters)
    | OutOfFuel(counters: Counters)

  /** Everything one slot produces: the new node states, the counters, the
      transmitting nodes (by index, in array order), and whether the slot ended
      the run by retry exhaustion. */
  datatype SlotResult = SlotResult(
    nodes: seq<NodeState>,
    counters: Counters,
    attemptors: seq<nat>,
    exhausted: bool)

  /** Every node's state satisfies the node invariant. */
  predicate AllInv(ss: seq<NodeState>)
  {
    forall i :: 0 <= i < |ss| ==> Inv(ss[i])
  }

  /** Counters of a run so far: no more deliveries than slots, and every delivery
      waited at least one slot. */
  predicate StatsInv(c: Counters)
  {
    0 <= c.numPktsXmitted <= c.simTime && c.totalDelayTime >= c.numPktsXmitted
  }

  /** Every node's window lies within its clamps [MinWindow, MaxWindow]. */
  predicate AllBounded(ss: seq<NodeState>)
  {
    forall i :: 0 <= i < |ss| ==> WindowBounded(ss[i])
  }

  /** Every backoff draw lies in [0, w) for the window w it is drawn from. */
  ghost predicate DrawInWindow(draw: (nat, nat, int) -> int)
  {
    forall t: nat, i: nat, w: int :: 1 <= w ==> 0 <= draw(t, i, w) < w
  }

  /** Strictly increasing indices: distinct, in array order. */
  predicate Increasing(att: seq<nat>)
  {
    forall j1, j2 :: 0 <= j1 < j2 < |att| ==> att[j1] < att[j2]
  }

  /** The transmitting nodes: indices of backlogged nodes. */
  ghost predicate Colliders(ss: seq<NodeState>, att: seq<nat>)
  {
    forall j :: 0 <= j < |att| ==> att[j] < |ss| && ss[att[j]].backlogged
  }

  /** The larger of a and b. */
  function Max(a: int, b: int): (m: int)
    ensures m >= a && m >= b && (m == a || m == b)
  {
    if a < b then b else a
  }

  /** Arrival phase of slot t: node i receives a packet exactly when arrive(t, i). */
  function Arrive(ss: seq<NodeState>, arrive: (nat, nat) -> bool, t: nat): (r: seq<NodeState>)
    ensures |r| == |ss|
    ensures forall i {:trigger r[i]} :: 0 <= i < |ss| ==> r[i] == if arrive(t, i) then GenPktStep(ss[i]) else ss[i]
    ensures AllInv(ss) ==> AllInv(r)
    ensures AllBounded(ss) ==> AllBounded(r)
    ensures forall i {:trigger r[i]} :: 0 <= i < |ss| && arrive(t, i) && Inv(ss[i]) ==> r[i].backlogged
  {
    seq(|ss|, i requires 0 <= i < |ss| => if arrive(t, i) then GenPktStep(ss[i]) else ss[i])
  }

  /** Every node's slot decision applied (the states it leaves). */
  function Act(ss: seq<NodeState>): (r: seq<NodeState>)
    ensures |r| == |ss|
    ensures forall i {:trigger r[i]} :: 0 <= i < |ss| ==> r[i] == SlotActionStep(ss[i]).next
    ensures AllInv(ss) ==> AllInv(r)
  {
    seq(|ss|, i requires 0 <= i < |ss| => SlotActionStep(ss[i]).next)
  }

  /** The slot decisions leave every window as it was, so within its clamps. */
  lemma {:induction false} ActKeepsWindows(ss: seq<NodeState>)
    ensures forall i :: 0 <= i < |ss| ==> Act(ss)[i].cw == ss[i].cw
    ensures AllBounded(ss) ==> AllBounded(Act(ss))
  {
  }

  /** The node decides to transmit in this slot. */
  predicate Wants(s: NodeState)
  {
    SlotActionStep(s).out == 1
  }

  /** The indices among the first k nodes that decide to transmit, in array
      order (what they are is AttemptingExact). */
  function Attempting(ss: seq<NodeState>, k: nat): (att: seq<nat>)
    requires k <= |ss|
    ensures |att| <= k
    decreases k
  {
    if k == 0 then []
    else Attempting(ss, k - 1) + (if Wants(ss[k - 1]) then [k - 1] else [])
  }

  /** The transmitters among the first k nodes are exactly the nodes that
      decide to transmit, each listed once, in increasing order. */
  lemma {:induction false} AttemptingExact(ss: seq<NodeState>, k: nat)
    requires k <= |ss|
    ensures var att := Attempting(ss, k);
            && Increasing(att)
            && (forall j :: 0 <= j < |att| ==> att[j] < k && Wants(ss[att[j]]))
            && (forall i {:trigger Wants(ss[i])} :: 0 <= i < k && Wants(ss[i]) ==> i in att)
    decreases k
  {
    if k > 0 {
      AttemptingExact(ss, k - 1);
    }
  }

  /** Collision resolution: the colliding nodes are updated one after another in
      array order, and the pass stops at the first node that reports exhaustion,
      leaving the nodes after it as they were. Reports whether it stopped. */
  function FailAll(ss: seq<NodeState>, att: seq<nat>, draw: (nat, nat, int) -> int, t: nat)
    : (r: (seq<NodeState>, bool))
    requires AllInv(ss) && DrawInWindow(draw) && Colliders(ss, att)
    ensures |r.0| == |ss| && AllInv(r.0)
    ensures AllBounded(ss) ==> AllBounded(r.0)
    ensures forall i {:trigger r.0[i]} :: 0 <= i < |ss| ==>
              && r.0[i].bufferCount == ss[i].bufferCount
              && r.0[i].backlogged == ss[i].backlogged
              && r.0[i].pktDelay == ss[i].pktDelay
    ensures forall i {:trigger r.0[i]} :: 0 <= i < |ss| && i !in att ==> r.0[i] == ss[i]
    ensures r.1 ==> att != []
    decreases |att|
  {
    if att == [] then (ss, false)
    else
      var i := att[0];
      var hit := UpdateFailStep(ss[i], draw(t, i, ss[i].cw));
      var updated := ss[i := hit.next];
      if hit.out then (updated, true)
      else FailAll(updated, att[1..], draw, t)
  }

  /** The position in att of the first node whose retry counter is at the limit,
      or |att| if there is none. */
  function FirstAtLimit(ss: seq<NodeState>, att: seq<nat>): (k: nat)
    requires forall j :: 0 <= j < |att| ==> att[j] < |ss|
    ensures k <= |att|
    ensures forall j :: 0 <= j < k ==> ss[att[j]].retryAttempts != RetryLimit
    ensures k < |att| ==> ss[att[k]].retryAttempts == RetryLimit
    decreases |att|
  {
    if att == [] then 0
    else if ss[att[0]].retryAttempts == RetryLimit then 0
    else 1 + FirstAtLimit(ss, att[1..])
  }

  /** FirstAtLimit looks only at the retry counters of the listed nodes. */
  lemma {:induction false} FirstAtLimitFrame(ss: seq<NodeState>, ss': seq<NodeState>, att: seq<nat>)
    requires |ss| == |ss'|
    requires forall j :: 0 <= j < |att| ==> att[j] < |ss|
    requires forall j :: 0 <= j < |att| ==> ss[att[j]].retryAttempts == ss'[att[j]].retryAttempts
    ensures FirstAtLimit(ss, att) == FirstAtLimit(ss', att)
    decreases |att|
  {
    if att != [] && ss[att[0]].retryAttempts != RetryLimit {
      FirstAtLimitFrame(ss, ss', att[1..]);
    }
  }

  /** One step of the collision pass: the first colliding node is updated, and
      the nodes after it are left as they were. When that node was not yet at
      the retry limit, the first node at the limit is found one position later
      in the rest of the list. */
  lemma {:induction false} FailAllHead(ss: seq<NodeState>, att: seq<nat>, draw: (nat, nat, int) -> int, t: nat)
    requires AllInv(ss) && DrawInWindow(draw) && Colliders(ss, att) && Increasing(att) && att != []
    ensures var hit := UpdateFailStep(ss[att[0]], draw(t, att[0], ss[att[0]].cw));
            var updated := ss[att[0] := hit.next];
            && Increasing(att[1..])
            && (forall j :: 0 < j < |att| ==> updated[att[j]] == ss[att[j]] && att[j] == att[1..][j - 1])
            && (!hit.out ==> 1 + FirstAtLimit(updated, att[1..]) == FirstAtLimit(ss, att))
            && (hit.out ==> FirstAtLimit(ss, att) == 0)
  {
    var i := att[0];
    var hit := UpdateFailStep(ss[i], draw(t, i, ss[i].cw));
    var updated := ss[i := hit.next];
    var rest := att[1..];
    forall j | 0 < j < |att|
      ensures updated[att[j]] == ss[att[j]]
    {
      assert att[0] < att[j];
    }
    if !hit.out {
      forall j | 0 <= j < |rest|
        ensures ss[rest[j]].retryAttempts == updated[rest[j]].retryAttempts
      {
        assert rest[j] == att[j + 1];
      }
      FirstAtLimitFrame(ss, updated, rest);
    }
  }

  /** The collision pass stops exactly when some colliding node was already at
      the retry limit. */
  lemma {:induction false} FailAllStops(ss: seq<NodeState>, att: seq<nat>, draw: (nat, nat, int) -> int, t: nat)
    requires AllInv(ss) && DrawInWindow(draw) && Colliders(ss, att) && Increasing(att)
    ensures FailAll(ss, att, draw, t).1 <==> FirstAtLimit(ss, att) < |att|
    decreases |att|
  {
    if att != [] {
      FailAllHead(ss, att, draw, t);
      var hit := UpdateFailStep(ss[att[0]], draw(t, att[0], ss[att[0]].cw));
      if !hit.out {
        FailAllStops(ss[att[0] := hit.next], att[1..], draw, t);
      }
    }
  }

  /** The collision pass, node by node: every colliding node up to and including
      the first one at the retry limit is updated with its own draw. */
  lemma {:induction false} FailAllUpdates(ss: seq<NodeState>, att: seq<nat>, draw: (nat, nat, int) -> int, t: nat)
    requires AllInv(ss) && DrawInWindow(draw) && Colliders(ss, att) && Increasing(att)
    ensures forall j :: 0 <= j <= FirstAtLimit(ss, att) && j < |att| ==>
              FailAll(ss, att, draw, t).0[att[j]]
              == UpdateFailStep(ss[att[j]], draw(t, att[j], ss[att[j]].cw)).next
    decreases |att|
  {
    if att != [] {
      FailAllHead(ss, att, draw, t);
      var hit := UpdateFailStep(ss[att[0]], draw(t, att[0], ss[att[0]].cw));
      if !hit.out {
        var rest := att[1..];
        FailAllUpdates(ss[att[0] := hit.next], rest, draw, t);
        assert att[0] !in rest by {
          forall j | 0 <= j < |rest| ensures rest[j] != att[0] {
            assert rest[j] == att[j + 1];
          }
        }
      }
    }
  }

  /** Every colliding node after the first one at the retry limit is left
      untouched by the collision pass. */
  lemma {:induction false} FailAllSkips(ss: seq<NodeState>, att: seq<nat>, draw: (nat, nat, int) -> int, t: nat)
    requires AllInv(ss) && DrawInWindow(draw) && Colliders(ss, att) && Increasing(att)
    ensures forall j :: FirstAtLimit(ss, att) < j < |att| ==>
              FailAll(ss, att, draw, t).0[att[j]] == ss[att[j]]
    decreases |att|
  {
    if att != [] {
      FailAllHead(ss, att, draw, t);
      var hit := UpdateFailStep(ss[att[0]], draw(t, att[0], ss[att[0]].cw));
      if !hit.out {
        FailAllSkips(ss[att[0] := hit.next], att[1..], draw, t);
      }
    }
  }

  /** After the decisions: the transmitting nodes are backlogged, listed once
      each, in array order. */
  lemma {:induction false} DecidersCollide(arrived: seq<NodeState>)
    requires AllInv(arrived)
    ensures Colliders(Act(arrived), Attempting(arrived, |arrived|))
    ensures forall j :: 0 <= j < |Attempting(arrived, |arrived|)| ==>
              Act(arrived)[Attempting(arrived, |arrived|)[j]].pktDelay >= 1
  {
    var att := Attempting(arrived, |arrived|);
    AttemptingExact(arrived, |arrived|);
    forall j | 0 <= j < |att|
      ensures att[j] < |arrived| && Act(arrived)[att[j]].backlogged && Act(arrived)[att[j]].pktDelay >= 1
    {
      assert Wants(arrived[att[j]]);
    }
  }

  /** The end of a slot, once every node has decided: a lone transmitter
      delivers its packet (one more delivery, its delay added to the total),
      several transmitters go through the collision pass, and a slot without
      transmitters changes nothing. The counters c already carry the slot's
      time. */
  function Resolve(acted: seq<NodeState>, att: seq<nat>, c: Counters, draw: (nat, nat, int) -> int)
    : (r: SlotResult)
    requires AllInv(acted) && DrawInWindow(draw) && Colliders(acted, att) && c.simTime >= 0
    ensures |r.nodes| == |acted| && AllInv(r.nodes) && r.attemptors == att
    ensures r.counters.simTime == c.simTime
    ensures r.counters.numPktsXmitted == c.numPktsXmitted + (if |att| == 1 then 1 else 0)
    ensures |att| == 1 ==> r.counters.totalDelayTime == c.totalDelayTime + acted[att[0]].pktDelay
    ensures |att| != 1 ==> r.counters.totalDelayTime == c.totalDelayTime
    ensures r.exhausted ==> |att| >= 2
    ensures att == [] ==> r.nodes == acted
    ensures |att| == 1 ==> r.nodes == acted[att[0] := UpdateSuccessStep(acted[att[0]]).next]
    ensures |att| != 1 ==> (r.nodes, r.exhausted) == FailAll(acted, att, draw, c.simTime)
    ensures AllBounded(acted) ==> AllBounded(r.nodes)
  {
    if |att| == 1 then
      var won := UpdateSuccessStep(acted[att[0]]);
      SlotResult(acted[att[0] := won.next],
                 Counters(c.simTime, c.numPktsXmitted + 1, c.totalDelayTime + won.out), att, false)
    else
      var (after, exhausted) := FailAll(acted, att, draw, c.simTime);
      SlotResult(after, c, att, exhausted)
  }

  /** One slot of the loop: the clock advances, arrivals, decisions, then the
      resolution. */
  function Slot(ss: seq<NodeState>, c: Counters, arrive: (nat, nat) -> bool, draw: (nat, nat, int) -> int)
    : (r: SlotResult)
    requires AllInv(ss) && DrawInWindow(draw) && c.simTime >= 0
    ensures |r.nodes| == |ss| && AllInv(r.nodes)
    ensures r.counters.simTime == c.simTime + 1
    ensures r.counters.numPktsXmitted == c.numPktsXmitted + (if |r.attemptors| == 1 then 1 else 0)
    ensures |r.attemptors| == 1 ==> r.counters.totalDelayTime >= c.totalDelayTime + 1
    ensures |r.attemptors| != 1 ==> r.counters.totalDelayTime == c.totalDelayTime
    ensures r.exhausted ==> |r.attemptors| >= 2
    ensures AllBounded(ss) ==> AllBounded(r.nodes)
  {
    var t := c.simTime + 1;
    var arrived := Arrive(ss, arrive, t);
    DecidersCollide(arrived);
    ActKeepsWindows(arrived);
    Resolve(Act(arrived), Attempting(arrived, |arrived|), Counters(t, c.numPktsXmitted, c.totalDelayTime), draw)
  }

  /** A slot, phase by phase: arrivals, decisions, resolution. */
  lemma {:induction false} SlotIs(ss: seq<NodeState>, c: Counters, arrive: (nat, nat) -> bool, draw: (nat, nat, int) -> int,
               arrived: seq<NodeState>, acted: seq<NodeState>, att: seq<nat>, timed: Counters)
    requires AllInv(ss) && DrawInWindow(draw) && c.simTime >= 0
    requires arrived == Arrive(ss, arrive, c.simTime + 1) && acted == Act(arrived)
    requires att == Attempting(arrived, |arrived|)
    requires timed == Counters(c.simTime + 1, c.numPktsXmitted, c.totalDelayTime)
    requires AllInv(acted) && Colliders(acted, att)
    ensures Slot(ss, c, arrive, draw) == Resolve(acted, att, timed, draw)
  {
  }

  /** The loop, bounded by fuel slots: it stops when the delivery target is met
      (checked before each slot), when the fuel is spent (Budget), or when a
      collision exhausts a node's retries (Turn). */
  function Run(ss: seq<NodeState>, c: Counters, maxPkts: int,
               arrive: (nat, nat) -> bool, draw: (nat, nat, int) -> int, fuel: nat): Outcome
    requires AllInv(ss) && DrawInWindow(draw) && c.simTime >= 0
    decreases fuel, 2
  {
    if c.numPktsXmitted >= maxPkts then TargetReached(c)
    else Budget(ss, c, maxPkts, arrive, draw, fuel)
  }

  /** The slot bound: no slot is run once the fuel is spent. */
  function Budget(ss: seq<NodeState>, c: Counters, maxPkts: int,
                  arrive: (nat, nat) -> bool, draw: (nat, nat, int) -> int, fuel: nat): Outcome
    requires AllInv(ss) && DrawInWindow(draw) && c.simTime >= 0
    decreases fuel, 1
  {
    if fuel == 0 then OutOfFuel(c)
    else Turn(ss, c, maxPkts, arrive, draw, fuel)
  }

  /** One turn of the loop: a slot, then the rest of the run unless the slot
      exhausted a node's retries. */
  function Turn(ss: seq<NodeState>, c: Counters, maxPkts: int,
                arrive: (nat, nat) -> bool, draw: (nat, nat, int) -> int, fuel: nat): Outcome
    requires AllInv(ss) && DrawInWindow(draw) && c.simTime >= 0 && fuel >= 1
    decreases fuel, 0
  {
    var r := Slot(ss, c, arrive, draw);
    if r.exhausted then RetriesExhausted(r.counters)
    else Run(r.nodes, r.counters, maxPkts, arrive, draw, fuel - 1)
  }

  /** Unfolds Run through Budget and Turn for one turn of the loop, when the
      target is not yet met and fuel remains. */
  lemma {:induction false} RunStep(ss: seq<NodeState>, c: Counters, maxPkts: int,
                arrive: (nat, nat) -> bool, draw: (nat, nat, int) -> int, fuel: nat, r: SlotResult)
    requires AllInv(ss) && DrawInWindow(draw) && c.simTime >= 0
    requires c.numPktsXmitted < maxPkts && fuel >= 1
    requires r == Slot(ss, c, arrive, draw)
    ensures AllInv(r.nodes) && r.counters.simTime >= 0
    ensures Run(ss, c, maxPkts, arrive, draw, fuel)
            == if r.exhausted then RetriesExhausted(r.counters)
               else Run(r.nodes, r.counters, maxPkts, arrive, draw, fuel - 1)
  {
    assert Run(ss, c, maxPkts, arrive, draw, fuel) == Turn(ss, c, maxPkts, arrive, draw, fuel);
  }

  /** Who one slot touches: the transmitters are exactly the nodes whose
      decision (after the arrival phase) was to transmit, and a node that did
      not transmit is left as its own decision left it, keeping its window and
      retry counter; so an idle slot calls no update at all. */
  lemma {:induction false} SlotProperties(ss: seq<NodeState>, c: Counters, arrive: (nat, nat) -> bool, draw: (nat, nat, int) -> int)
    requires AllInv(ss) && DrawInWindow(draw) && c.simTime >= 0
    ensures var r := Slot(ss, c, arrive, draw);
            var acted := Act(Arrive(ss, arrive, c.simTime + 1));
            && r.attemptors == Attempting(Arrive(ss, arrive, c.simTime + 1), |ss|)
            && (forall i {:trigger r.nodes[i]} :: 0 <= i < |ss| && i !in r.attemptors ==> r.nodes[i] == acted[i])
            && (forall i {:trigger r.nodes[i]} :: 0 <= i < |ss| && i !in r.attemptors ==>
                  r.nodes[i].cw == ss[i].cw && r.nodes[i].retryAttempts == ss[i].retryAttempts)
  {
    var t := c.simTime + 1;
    var arrived := Arrive(ss, arrive, t);
    var att := Attempting(arrived, |arrived|);
    var acted := Act(arrived);
    AttemptingExact(arrived, |arrived|);
    DecidersCollide(arrived);
    SlotIs(ss, c, arrive, draw, arrived, acted, att, Counters(t, c.numPktsXmitted, c.totalDelayTime));
  }

  /** A slot with other than one transmitter is the collision pass over the
      transmitters, in array order, on the states the decisions left; so the
      FailAll lemmas (FailAllStops, FailAllUpdates, FailAllSkips) apply to it. */
  lemma {:induction false} SlotCollides(ss: seq<NodeState>, c: Counters, arrive: (nat, nat) -> bool, draw: (nat, nat, int) -> int)
    requires AllInv(ss) && DrawInWindow(draw) && c.simTime >= 0
    ensures var r := Slot(ss, c, arrive, draw);
            var acted := Act(Arrive(ss, arrive, c.simTime + 1));
            && AllInv(acted) && Colliders(acted, r.attemptors) && Increasing(r.attemptors)
            && (|r.attemptors| != 1 ==> (r.nodes, r.exhausted) == FailAll(acted, r.attemptors, draw, c.simTime + 1))
  {
    var t := c.simTime + 1;
    var arrived := Arrive(ss, arrive, t);
    var att := Attempting(arrived, |arrived|);
    AttemptingExact(arrived, |arrived|);
    DecidersCollide(arrived);
    SlotIs(ss, c, arrive, draw, arrived, Act(arrived), att, Counters(t, c.numPktsXmitted, c.totalDelayTime));
  }

  /** The lone transmitter of a slot is the one node that gets update_success:
      it ends with a shrunk window, one packet fewer and its delay, retry and
      backoff counters back at 0. */
  lemma {:induction false} SlotWinner(ss: seq<NodeState>, c: Counters, arrive: (nat, nat) -> bool, draw: (nat, nat, int) -> int)
    requires AllInv(ss) && DrawInWindow(draw) && c.simTime >= 0
    ensures var r := Slot(ss, c, arrive, draw);
            var acted := Act(Arrive(ss, arrive, c.simTime + 1));
            |r.attemptors| == 1 ==>
              var w := r.attemptors[0];
              && w < |ss|
              && r.nodes[w] == UpdateSuccessStep(acted[w]).next
              && r.nodes[w].cw == ShrinkWindow(ss[w].cw)
              && r.nodes[w].bufferCount == acted[w].bufferCount - 1
              && r.nodes[w].pktDelay == 0 && r.nodes[w].retryAttempts == 0 && r.nodes[w].backoffCtr == 0
  {
    var t := c.simTime + 1;
    var arrived := Arrive(ss, arrive, t);
    var att := Attempting(arrived, |arrived|);
    var acted := Act(arrived);
    DecidersCollide(arrived);
    SlotIs(ss, c, arrive, draw, arrived, acted, att, Counters(t, c.numPktsXmitted, c.totalDelayTime));
    if |att| == 1 {
      var w := att[0];
      AttemptingExact(arrived, |arrived|);
      assert Wants(arrived[w]);
    }
  }

  /** The whole bounded run: the counters keep StatsInv (no more deliveries than
      slots, every delivery at least one slot of delay); the run ends with the
      target met exactly when the delivery count has reached maxPkts, and then
      the count equals the target (or the starting count, if that already
      exceeded it); running out of slots means all fuel slots were used. */
  lemma {:induction false} RunProperties(ss: seq<NodeState>, c: Counters, maxPkts: int,
                                         arrive: (nat, nat) -> bool, draw: (nat, nat, int) -> int, fuel: nat)
    requires AllInv(ss) && DrawInWindow(draw) && c.simTime >= 0
    ensures var o := Run(ss, c, maxPkts, arrive, draw, fuel);
            && (StatsInv(c) ==> StatsInv(o.counters))
            && c.simTime <= o.counters.simTime <= c.simTime + fuel
            && c.numPktsXmitted <= o.counters.numPktsXmitted
            && (o.TargetReached? <==> o.counters.numPktsXmitted >= maxPkts)
            && (o.TargetReached? ==> o.counters.numPktsXmitted == Max(c.numPktsXmitted, maxPkts))
            && (o.OutOfFuel? ==> o.counters.simTime == c.simTime + fuel)
    decreases fuel
  {
    if c.numPktsXmitted < maxPkts && fuel > 0 {
      var r := Slot(ss, c, arrive, draw);
      RunStep(ss, c, maxPkts, arrive, draw, fuel, r);
      if !r.exhausted {
        RunProperties(r.nodes, r.counters, maxPkts, arrive, draw, fuel - 1);
      }
    }
  }

  /** A lone node that receives a packet in the first slot sends it in that slot
      with delay 1, so a target of one packet is met after exactly one slot. */
  lemma {:induction false} LoneNodeDeliversAtOnce(defCw: int, arrive: (nat, nat) -> bool, draw: (nat, nat, int) -> int, fuel: nat)
    requires defCw >= 1 && DrawInWindow(draw) && arrive(1, 0) && fuel >= 1
    ensures Run([Initial(defCw)], Counters(0, 0, 0), 1, arrive, draw, fuel)
            == TargetReached(Counters(1, 1, 1))
  {
    var ss := [Initial(defCw)];
    var c := Counters(0, 0, 0);
    var arrived := Arrive(ss, arrive, 1);
    assert arrived[0] == GenPktStep(ss[0]);
    assert Wants(arrived[0]);
    assert Attempting(arrived, 0) == [];
    var att := Attempting(arrived, 1);
    assert att == [0];
    var acted := Act(arrived);
    assert acted[0].pktDelay == 1;
    DecidersCollide(arrived);
    SlotIs(ss, c, arrive, draw, arrived, acted, att, Counters(1, 0, 0));
    var r := Slot(ss, c, arrive, draw);
    assert r.counters == Counters(1, 1, 1);
    RunStep(ss, c, 1, arrive, draw, fuel, r);
  }

  /** The two transmitters of a slot in which exactly the two nodes of [a, b]
      transmit: both are backlogged with no backoff left. */
  lemma {:induction false} PairTransmits(a: NodeState, b: NodeState, arrive: (nat, nat) -> bool, t: nat)
    requires Inv(a) && Inv(b) && a.backlogged && b.backlogged
    requires a.backoffCtr == 0 && b.backoffCtr == 0
    ensures AllInv(Arrive([a, b], arrive, t))
    ensures Attempting(Arrive([a, b], arrive, t), 2) == [0, 1]
    ensures var acted := Act(Arrive([a, b], arrive, t));
            && acted[0].cw == a.cw && acted[0].retryAttempts == a.retryAttempts
            && acted[1].cw == b.cw && acted[1].retryAttempts == b.retryAttempts
  {
    var arrived := Arrive([a, b], arrive, t);
    assert Wants(arrived[0]) && Wants(arrived[1]);
    assert Attempting(arrived, 0) == [];
    assert Attempting(arrived, 1) == [0];
  }

  /** Two backlogged nodes whose backoff has run out both transmit, collide, and
      both get a doubled window and one more retry; nothing is delivered. */
  lemma {:induction false} BackloggedPairCollides(a: NodeState, b: NodeState, c: Counters,
                               arrive: (nat, nat) -> bool, draw: (nat, nat, int) -> int)
    requires Inv(a) && Inv(b) && a.backlogged && b.backlogged
    requires a.backoffCtr == 0 && b.backoffCtr == 0
    requires a.retryAttempts < RetryLimit && b.retryAttempts < RetryLimit
    requires DrawInWindow(draw) && c.simTime >= 0
    ensures var r := Slot([a, b], c, arrive, draw);
            && r.attemptors == [0, 1] && !r.exhausted
            && r.counters == Counters(c.simTime + 1, c.numPktsXmitted, c.totalDelayTime)
            && r.nodes[0].cw == GrowWindow(a.cw) && r.nodes[1].cw == GrowWindow(b.cw)
            && r.nodes[0].retryAttempts == a.retryAttempts + 1
            && r.nodes[1].retryAttempts == b.retryAttempts + 1
  {
    var t := c.simTime + 1;
    var arrived := Arrive([a, b], arrive, t);
    PairTransmits(a, b, arrive, t);
    var acted := Act(arrived);
    var timed := Counters(t, c.numPktsXmitted, c.totalDelayTime);
    DecidersCollide(arrived);
    SlotIs([a, b], c, arrive, draw, arrived, acted, [0, 1], timed);
    FailAllUpdates(acted, [0, 1], draw, t);
    assert FirstAtLimit(acted, [0, 1]) == 2;
  }

  /** A colliding node already at the retry limit ends the run in that slot, and
      a colliding node after it in array order is not updated. */
  lemma {:induction false} ExhaustedNodeAbortsRun(a: NodeState, b: NodeState, c: Counters, maxPkts: int,
                               arrive: (nat, nat) -> bool, draw: (nat, nat, int) -> int, fuel: nat)
    requires Inv(a) && Inv(b) && a.backlogged && b.backlogged
    requires a.backoffCtr == 0 && b.backoffCtr == 0
    requires a.retryAttempts == RetryLimit
    requires DrawInWindow(draw) && c.simTime >= 0
    requires c.numPktsXmitted < maxPkts && fuel >= 1
    ensures Slot([a, b], c, arrive, draw).nodes[1] == Act(Arrive([a, b], arrive, c.simTime + 1))[1]
    ensures Run([a, b], c, maxPkts, arrive, draw, fuel)
            == RetriesExhausted(Counters(c.simTime + 1, c.numPktsXmitted, c.totalDelayTime))
  {
    var t := c.simTime + 1;
    var arrived := Arrive([a, b], arrive, t);
    PairTransmits(a, b, arrive, t);
    var acted := Act(arrived);
    var timed := Counters(t, c.numPktsXmitted, c.totalDelayTime);
    DecidersCollide(arrived);
    SlotIs([a, b], c, arrive, draw, arrived, acted, [0, 1], timed);
    FailAllStops(acted, [0, 1], draw, t);
    FailAllSkips(acted, [0, 1], draw, t);
    assert FirstAtLimit(acted, [0, 1]) == 0;
    RunStep([a, b], c, maxPkts, arrive, draw, fuel, Slot([a, b], c, arrive, draw));
  }

  /** The simulator: a fixed array of distinct nodes and the delivery target.
      The ghost field states mirrors the nodes' states, in array order. */
  class Simulator {
    const nodes: array<Node>
    const maxPkts: int
    ghost var states: seq<NodeState>

    ghost function NodeSet(): set<Node>
      reads nodes
    {
      set i | 0 <= i < nodes.Length :: nodes[i]
    }

    /** The nodes are distinct objects and states is their current view. */
    ghost predicate Coupled()
      reads this, nodes, NodeSet()
    {
      && |states| == nodes.Length
      && (forall i, j :: 0 <= i < j < nodes.Length ==> nodes[i] != nodes[j])
      && (forall i :: 0 <= i < nodes.Length ==> nodes[i].State() == states[i])
    }

    ghost predicate Valid()
      reads this, nodes, NodeSet()
    {
      Coupled() && AllInv(states)
    }

    /** n fresh nodes, all with window defCw. */
    constructor (n: nat, defCw: int, maxPkts: int)
      ensures nodes.Length == n && this.maxPkts == maxPkts
      ensures Coupled() && fresh(nodes) && fresh(NodeSet())
      ensures forall i :: 0 <= i < n ==> states[i] == Initial(defCw)
      ensures defCw >= 1 ==> Valid()
      ensures MinWindow <= defCw <= MaxWindow ==> AllBounded(states)
    {
      var made: seq<Node> := [];
      while |made| < n
        invariant |made| <= n
        invariant forall i, j :: 0 <= i < j < |made| ==> made[i] != made[j]
        invariant forall i :: 0 <= i < |made| ==> fresh(made[i]) && made[i].State() == Initial(defCw)
      {
        var node := new Node(defCw);
        made := made + [node];
      }
      nodes := new Node[n](i requires 0 <= i < n => made[i]);
      this.maxPkts := maxPkts;
      states := seq(n, i => Initial(defCw));
    }

    /** Node i receives a packet. */
    method GenPktAt(i: nat)
      requires Coupled() && i < nodes.Length
      modifies this, nodes[i]
      ensures Coupled() && states == old(states)[i := GenPktStep(old(states)[i])]
    {
      nodes[i].GenPkt();
      states := states[i := nodes[i].State()];
    }

    /** Node i makes its slot decision. */
    method SlotActionAt(i: nat) returns (act: int)
      requires Coupled() && i < nodes.Length
      modifies this, nodes[i]
      ensures Coupled() && states == old(states)[i := SlotActionStep(old(states)[i]).next]
      ensures act == SlotActionStep(old(states)[i]).out
    {
      act := nodes[i].SlotAction();
      states := states[i := nodes[i].State()];
    }

    /** Node i delivers its packet. */
    method UpdateSuccessAt(i: nat) returns (delay: int)
      requires Coupled() && i < nodes.Length
      modifies this, nodes[i]
      ensures Coupled() && states == old(states)[i := UpdateSuccessStep(old(states)[i]).next]
      ensures delay == UpdateSuccessStep(old(states)[i]).out
    {
      delay := nodes[i].UpdateSuccess();
      states := states[i := nodes[i].State()];
    }

    /** Node i collides, with backoff draw d. */
    method UpdateFailAt(i: nat, d: int) returns (exhausted: bool)
      requires Coupled() && i < nodes.Length && 0 <= d < states[i].cw
      modifies this, nodes[i]
      ensures Coupled() && states == old(states)[i := UpdateFailStep(old(states)[i], d).next]
      ensures exhausted == UpdateFailStep(old(states)[i], d).out
    {
      exhausted := nodes[i].UpdateFail(d);
      states := states[i := nodes[i].State()];
    }

    /** The arrival phase of slot t. */
    method ArrivalPhase(arrive: (nat, nat) -> bool, t: nat)
      requires Valid()
      modifies this, NodeSet()
      ensures Valid()
      ensures states == Arrive(old(states), arrive, t)
    {
      ghost var ss := states;
      var i := 0;
      while i < nodes.Length
        invariant 0 <= i <= nodes.Length
        invariant Coupled()
        invariant forall j :: 0 <= j < i ==> states[j] == Arrive(ss, arrive, t)[j]
        invariant forall j :: i <= j < nodes.Length ==> states[j] == ss[j]
      {
        if arrive(t, i) {
          GenPktAt(i);
        }
        i := i + 1;
      }
    }

    /** The attempt phase: every node decides, and the indices of those that
        transmit are collected in array order. */
    method AttemptPhase() returns (attemptors: seq<nat>)
      requires Valid()
      modifies this, NodeSet()
      ensures Valid()
      ensures attemptors == Attempting(old(states), nodes.Length)
      ensures states == Act(old(states))
    {
      ghost var ss := states;
      attemptors := [];
      var i := 0;
      while i < nodes.Length
        invariant 0 <= i <= nodes.Length
        invariant Coupled()
        invariant attemptors == Attempting(ss, i)
        invariant forall j :: 0 <= j < i ==> states[j] == SlotActionStep(ss[j]).next
        invariant forall j :: i <= j < nodes.Length ==> states[j] == ss[j]
      {
        var act := SlotActionAt(i);
        if act == 1 {
          attemptors := attemptors + [i];
        }
        i := i + 1;
      }
    }

    /** The collision pass of slot t over the transmitting nodes. */
    method ResolveCollision(attemptors: seq<nat>, draw: (nat, nat, int) -> int, t: nat)
      returns (exhausted: bool)
      requires Valid() && DrawInWindow(draw) && Colliders(states, attemptors)
      modifies this, NodeSet()
      ensures Valid()
      ensures (states, exhausted) == FailAll(old(states), attemptors, draw, t)
    {
      ghost var ss := states;
      var j := 0;
      while j < |attemptors|
        invariant 0 <= j <= |attemptors|
        invariant Valid() && Colliders(states, attemptors[j..])
        invariant FailAll(states, attemptors[j..], draw, t) == FailAll(ss, attemptors, draw, t)
      {
        var i := attemptors[j];
        exhausted := UpdateFailAt(i, draw(t, i, nodes[i].cw));
        if exhausted {
          return;
        }
        assert attemptors[j..][1..] == attemptors[j + 1..];
        j := j + 1;
      }
      exhausted := false;
    }

    /** The end of the slot whose time c carries, once every node has decided. */
    method ResolvePhase(attemptors: seq<nat>, c: Counters, draw: (nat, nat, int) -> int)
      returns (next: Counters, exhausted: bool)
      requires Valid() && DrawInWindow(draw) && Colliders(states, attemptors) && c.simTime >= 0
      modifies this, NodeSet()
      ensures Valid()
      ensures SlotResult(states, next, attemptors, exhausted) == Resolve(old(states), attemptors, c, draw)
    {
      if |attemptors| == 1 {
        var delay := UpdateSuccessAt(attemptors[0]);
        next := Counters(c.simTime, c.numPktsXmitted + 1, c.totalDelayTime + delay);
        exhausted := false;
      } else {
        exhausted := ResolveCollision(attemptors, draw, c.simTime);
        next := c;
      }
    }

    /** One slot of the loop, from the counters before it. */
    method RunSlot(c: Counters, arrive: (nat, nat) -> bool, draw: (nat, nat, int) -> int)
      returns (next: Counters, attemptors: seq<nat>, exhausted: bool)
      requires Valid() && DrawInWindow(draw) && c.simTime >= 0
      modifies this, NodeSet()
      ensures Valid()
      ensures SlotResult(states, next, attemptors, exhausted) == Slot(old(states), c, arrive, draw)
    {
      ghost var ss := states;
      var simTime := c.simTime + 1;
      ArrivalPhase(arrive, simTime);
      ghost var arrived := states;
      attemptors := AttemptPhase();
      DecidersCollide(arrived);
      var timed := Counters(simTime, c.numPktsXmitted, c.totalDelayTime);
      assert arrived == Arrive(ss, arrive, simTime);
      assert |arrived| == nodes.Length;
      assert attemptors == Attempting(arrived, |arrived|);
      assert states == Act(arrived);
      SlotIs(ss, c, arrive, draw, arrived, states, attemptors, timed);
      next, exhausted := ResolvePhase(attemptors, timed, draw);
    }

    /** One turn of the loop: a slot, when the target is not yet met and fuel
        remains, and where the run goes from there. */
    method Advance(c: Counters, arrive: (nat, nat) -> bool, draw: (nat, nat, int) -> int, fuel: nat)
      returns (next: Counters, exhausted: bool)
      requires Valid() && DrawInWindow(draw) && c.simTime >= 0
      requires c.numPktsXmitted < maxPkts && fuel >= 1
      modifies this, NodeSet()
      ensures Valid() && next.simTime >= 0
      ensures old(AllBounded(states)) ==> AllBounded(states)
      ensures Run(old(states), c, maxPkts, arrive, draw, fuel)
              == if exhausted then RetriesExhausted(next)
                 else Run(states, next, maxPkts, arrive, draw, fuel - 1)
    {
      ghost var ss := states;
      var attemptors;
      next, attemptors, exhausted := RunSlot(c, arrive, draw);
      RunStep(ss, c, maxPkts, arrive, draw, fuel, SlotResult(states, next, attemptors, exhausted));
    }

    /** The whole run, bounded by fuel slots. */
    method RunSimulation(arrive: (nat, nat) -> bool, draw: (nat, nat, int) -> int, fuel: nat)
      returns (outcome: Outcome)
      requires Valid() && DrawInWindow(draw)
      modifies this, NodeSet()
      ensures Valid()
      ensures outcome == Run(old(states), Counters(0, 0, 0), maxPkts, arrive, draw, fuel)
      ensures old(AllBounded(states)) ==> AllBounded(states)
    {
      ghost var ss0 := states;
      var counters := Counters(0, 0, 0);
      var remaining := fuel;
      while counters.numPktsXmitted < maxPkts
        invariant Valid() && counters.simTime >= 0
        invariant AllBounded(ss0) ==> AllBounded(states)
        invariant Run(states, counters, maxPkts, arrive, draw, remaining)
                  == Run(ss0, Counters(0, 0, 0), maxPkts, arrive, draw, fuel)
        decreases remaining
      {
        if remaining == 0 {
          return OutOfFuel(counters);
        }
        var exhausted;
        counters, exhausted := Advance(counters, arrive, draw, remaining);
        if exhausted {
          return RetriesExhausted(counters);
        }
        remaining := remaining - 1;
      }
      outcome := TargetReached(counters);
    }
  }
}
