/** The per-transmitter contention state machine of a Slotted ALOHA node:
    a two-packet buffer, a contention window, a backoff counter, a single
    packet-delay counter and a retry counter (class Node in Code/sender.java).

    Each operation is given twice: as a function on a NodeState value, whose
    contract says what the operation means, and as a method of class Node that
    updates the six fields in place and is proved to agree with that function. */
module AlohaNode {

  /** Packets a node can hold; an arrival while this many are buffered is dropped. */
  const BufferCapacity: int := 2
  /** Lower clamp of the window after a success. */
  const MinWindow: int := 2
  /** Upper clamp of the window after a collision. */
  const MaxWindow: int := 256
  /** Retry count at which the next collision reports exhaustion instead of counting. */
  const RetryLimit: int := 100

  /** The six fields of a node, as a value. */
  datatype NodeState = NodeState(
    bufferCount: int,
    cw: int,
    backoffCtr: int,
    pktDelay: int,
    retryAttempts: int,
    backlogged: bool)

  /** What an operation returns, together with the state it leaves behind. */
  datatype Step<T> = Step(out: T, next: NodeState)

  /** The node invariant: the buffer holds 0..2 packets and the node is backlogged
      exactly when it holds one; counters are non-negative, retries never pass the
      limit, the window is positive (the backoff draw needs it), and an idle node
      carries no pending delay, backoff or retries. */
  predicate Inv(s: NodeState)
  {
    && 0 <= s.bufferCount <= BufferCapacity
    && s.backlogged == (s.bufferCount > 0)
    && s.cw >= 1
    && s.backoffCtr >= 0
    && s.pktDelay >= 0
    && 0 <= s.retryAttempts <= RetryLimit
    && (!s.backlogged ==> s.pktDelay == 0 && s.backoffCtr == 0 && s.retryAttempts == 0)
  }

  /** The contention window lies within its two clamps. */
  predicate WindowBounded(s: NodeState)
  {
    MinWindow <= s.cw <= MaxWindow
  }

  /** A freshly constructed node: empty buffer, the given window, all counters zero. */
  function Initial(defCw: int): (s: NodeState)
    ensures s.bufferCount == 0 && !s.backlogged && s.cw == defCw
    ensures Inv(s) <==> defCw >= 1
    ensures WindowBounded(s) <==> MinWindow <= defCw <= MaxWindow
  {
    NodeState(0, defCw, 0, 0, 0, false)
  }

  /** Packet arrival: dropped when the buffer is full, otherwise buffered. */
  function GenPktStep(s: NodeState): (t: NodeState)
    ensures s.bufferCount == BufferCapacity <==> t == s
    ensures s.bufferCount != BufferCapacity ==> t.bufferCount == s.bufferCount + 1 && t.backlogged
    ensures t.(bufferCount := s.bufferCount, backlogged := s.backlogged) == s
    ensures Inv(s) ==> Inv(t) && t.backlogged && t.bufferCount == Min(BufferCapacity, s.bufferCount + 1)
    ensures WindowBounded(t) == WindowBounded(s)
  {
    if s.bufferCount == BufferCapacity then s
    else s.(bufferCount := s.bufferCount + 1, backlogged := true)
  }

  /** The per-slot decision: 1 to transmit, 0 to pass. An idle node passes and
      changes nothing; a backlogged node ages its packet by one slot and transmits
      exactly when its backoff has run out, otherwise counts the backoff down. */
  function SlotActionStep(s: NodeState): (r: Step<int>)
    ensures r.out == 0 || r.out == 1
    ensures r.out == 1 <==> s.backlogged && s.backoffCtr == 0
    ensures !s.backlogged ==> r.next == s
    ensures s.backlogged ==> r.next.pktDelay == s.pktDelay + 1
    ensures s.backlogged && r.out == 0 ==> r.next.backoffCtr == s.backoffCtr - 1
    ensures r.out == 1 ==> r.next.backoffCtr == 0
    ensures r.next.(pktDelay := s.pktDelay, backoffCtr := s.backoffCtr) == s
    ensures Inv(s) ==> Inv(r.next)
    ensures Inv(s) && r.out == 1 ==> r.next.pktDelay >= 1
  {
    if !s.backlogged then Step(0, s)
    else
      var aged := s.(pktDelay := s.pktDelay + 1);
      if aged.backoffCtr == 0 then Step(1, aged)
      else Step(0, aged.(backoffCtr := aged.backoffCtr - 1))
  }

  /** The window after a success: three quarters of the old one, rounded down,
      but never below MinWindow. (The product with 0.75 is exact in binary
      floating point, and the cast truncates a value that is at least 2.) */
  function ShrinkWindow(cw: int): (w: int)
    ensures w >= MinWindow
    ensures w > MinWindow ==> 4 * w <= 3 * cw < 4 * w + 4
    ensures w == MinWindow ==> 3 * cw < 4 * (MinWindow + 1)
    ensures cw > MinWindow ==> w < cw
    ensures cw <= MaxWindow ==> w <= MaxWindow
  {
    var scaled := (3 * cw) / 4;
    if scaled < MinWindow then MinWindow else scaled
  }

  /** The window after a collision: doubled, but never above MaxWindow. */
  function GrowWindow(cw: int): (w: int)
    ensures w <= MaxWindow
    ensures w == 2 * cw || (w == MaxWindow && 2 * cw > MaxWindow)
    ensures cw >= 1 ==> w >= MinWindow
    ensures 1 <= cw < MaxWindow ==> w > cw
  {
    if 2 * cw < MaxWindow then 2 * cw else MaxWindow
  }

  /** A successful transmission: reports the delay counter, shrinks the window,
      releases one buffered packet and starts a fresh contention cycle. */
  function UpdateSuccessStep(s: NodeState): (r: Step<int>)
    ensures r.out == s.pktDelay
    ensures r.next.cw == ShrinkWindow(s.cw)
    ensures r.next.bufferCount == s.bufferCount - 1
    ensures r.next.backlogged <==> r.next.bufferCount != 0
    ensures r.next.pktDelay == 0 && r.next.retryAttempts == 0 && r.next.backoffCtr == 0
    ensures Inv(s) && s.backlogged ==> Inv(r.next)
    ensures s.cw <= MaxWindow ==> WindowBounded(r.next)
  {
    var left := s.bufferCount - 1;
    Step(s.pktDelay, NodeState(left, ShrinkWindow(s.cw), 0, 0, 0, left != 0))
  }

  /** A collision: the backoff counter becomes the random draw from [0, cw), the
      window doubles, and the retry counter advances unless it is already at the
      limit, in which case the node reports exhaustion. */
  function UpdateFailStep(s: NodeState, draw: int): (r: Step<bool>)
    requires 0 <= draw < s.cw
    ensures 0 <= r.next.backoffCtr < s.cw && r.next.backoffCtr == draw
    ensures r.next.cw == GrowWindow(s.cw)
    ensures r.out <==> s.retryAttempts == RetryLimit
    ensures !r.out ==> r.next.retryAttempts == s.retryAttempts + 1
    ensures r.out ==> r.next.retryAttempts == s.retryAttempts
    ensures r.next.bufferCount == s.bufferCount && r.next.backlogged == s.backlogged
    ensures r.next.pktDelay == s.pktDelay
    ensures Inv(s) && s.backlogged ==> Inv(r.next)
    ensures WindowBounded(s) ==> WindowBounded(r.next)
  {
    var drawn := s.(backoffCtr := draw, cw := GrowWindow(s.cw));
    if s.retryAttempts == RetryLimit then Step(true, drawn)
    else Step(false, drawn.(retryAttempts := drawn.retryAttempts + 1))
  }

  /** The smaller of a and b. */
  function Min(a: int, b: int): (m: int)
    ensures m <= a && m <= b && (m == a || m == b)
  {
    if a < b then a else b
  }

  /** A source of backoff draws for successive collisions: the k-th collision
      with window w draws a value in [0, w). */
  ghost predicate CollisionDraws(draw: (nat, int) -> int)
  {
    forall k: nat, w: int :: 1 <= w ==> 0 <= draw(k, w) < w
  }

  /** The node after n collisions in a row with no success in between, and what
      each of those collisions reported. */
  function Collisions(s: NodeState, n: nat, draw: (nat, int) -> int): (r: Step<seq<bool>>)
    requires s.cw >= 1 && CollisionDraws(draw)
    ensures |r.out| == n
    ensures r.next.cw >= 1
    ensures r.next.bufferCount == s.bufferCount && r.next.backlogged == s.backlogged
    decreases n
  {
    if n == 0 then Step([], s)
    else
      var before := Collisions(s, n - 1, draw);
      var hit := UpdateFailStep(before.next, draw(n - 1, before.next.cw));
      Step(before.out + [hit.out], hit.next)
  }

  /** Collision k (counted from 0) reports exhaustion exactly when the retry
      counter had already reached the limit before it, and the counter saturates
      at the limit. */
  lemma {:induction false} CollisionsCountRetries(s: NodeState, n: nat, draw: (nat, int) -> int)
    requires s.cw >= 1 && CollisionDraws(draw)
    requires 0 <= s.retryAttempts <= RetryLimit
    ensures Collisions(s, n, draw).next.retryAttempts == Min(RetryLimit, s.retryAttempts + n)
    ensures forall k :: 0 <= k < n ==>
              (Collisions(s, n, draw).out[k] <==> s.retryAttempts + k >= RetryLimit)
  {
    if n > 0 {
      CollisionsCountRetries(s, n - 1, draw);
    }
  }

  /** From a fresh contention cycle (no retries yet), the first RetryLimit
      collisions in a row all report "not exhausted", and the next one reports
      exhaustion. */
  lemma {:induction false} RetryBudget(s: NodeState, n: nat, draw: (nat, int) -> int)
    requires s.cw >= 1 && CollisionDraws(draw)
    requires s.retryAttempts == 0 && n == RetryLimit + 1
    ensures forall k :: 0 <= k < n - 1 ==> !Collisions(s, n, draw).out[k]
    ensures Collisions(s, n, draw).out[n - 1]
  {
    var r := Collisions(s, n, draw);
    CollisionsCountRetries(s, n, draw);
    forall k | 0 <= k < n - 1
      ensures !r.out[k]
    {
      assert s.retryAttempts + k < RetryLimit;
    }
  }

  /** A window within the clamps stays within them through any sequence of
      collisions. */
  lemma {:induction false} CollisionsKeepWindowBounded(s: NodeState, n: nat, draw: (nat, int) -> int)
    requires s.cw >= 1 && CollisionDraws(draw)
    requires WindowBounded(s)
    ensures WindowBounded(Collisions(s, n, draw).next)
  {
    if n > 0 {
      CollisionsKeepWindowBounded(s, n - 1, draw);
    }
  }

  /** An idle node passes every slot and is left as it was, however often asked. */
  lemma {:induction false} IdleSlotActionsIdempotent(s: NodeState, n: nat)
    requires !s.backlogged
    ensures SlotActionsRepeated(s, n) == Step(0, s)
  {
    if n > 1 {
      IdleSlotActionsIdempotent(s, n - 1);
    }
  }

  /** The slot decision taken n times in a row (with n >= 1 the last decision is
      reported; with n == 0 nothing is decided and 0 is reported). */
  function SlotActionsRepeated(s: NodeState, n: nat): Step<int>
    decreases n
  {
    if n == 0 then Step(0, s)
    else SlotActionStep(SlotActionsRepeated(s, n - 1).next)
  }

  /** One transmitter. */
  class Node {
    var bufferCount: int
    var cw: int
    var backoffCtr: int
    var pktDelay: int
    var retryAttempts: int
    var backlogged: bool

    /** The fields as a value. */
    function State(): NodeState
      reads this
    {
      NodeState(bufferCount, cw, backoffCtr, pktDelay, retryAttempts, backlogged)
    }

    ghost predicate Valid()
      reads this
    {
      Inv(State())
    }

    constructor (defCw: int)
      ensures State() == Initial(defCw)
      ensures Valid() <==> defCw >= 1
    {
      bufferCount := 0;
      cw := defCw;
      backoffCtr := 0;
      pktDelay := 0;
      retryAttempts := 0;
      backlogged := false;
    }

    method GenPkt()
      modifies this
      ensures State() == GenPktStep(old(State()))
      ensures old(Valid()) ==> Valid() && backlogged
    {
      if bufferCount == BufferCapacity {
        return;
      }
      bufferCount := bufferCount + 1;
      backlogged := true;
    }

    method SlotAction() returns (act: int)
      modifies this
      ensures Step(act, State()) == SlotActionStep(old(State()))
      ensures old(Valid()) ==> Valid()
    {
      if !backlogged {
        return 0;
      }
      pktDelay := pktDelay + 1;
      if backoffCtr == 0 {
        act := 1;
      } else {
        backoffCtr := backoffCtr - 1;
        act := 0;
      }
    }

    method UpdateSuccess() returns (delay: int)
      modifies this
      ensures Step(delay, State()) == UpdateSuccessStep(old(State()))
      ensures old(Valid()) && old(backlogged) ==> Valid()
    {
      delay := pktDelay;
      cw := ShrinkWindow(cw);
      bufferCount := bufferCount - 1;
      if bufferCount == 0 {
        backlogged := false;
      } else {
        backlogged := true;
      }
      pktDelay := 0;
      retryAttempts := 0;
      backoffCtr := 0;
    }

    /** draw stands for the uniform random draw from [0, cw). */
    method UpdateFail(draw: int) returns (exhausted: bool)
      requires 0 <= draw < cw
      modifies this
      ensures Step(exhausted, State()) == UpdateFailStep(old(State()), draw)
      ensures old(Valid()) && old(backlogged) ==> Valid()
    {
      backoffCtr := draw;
      cw := GrowWindow(cw);
      if retryAttempts == RetryLimit {
        return true;
      }
      retryAttempts := retryAttempts + 1;
      exhausted := false;
    }
  }
}
