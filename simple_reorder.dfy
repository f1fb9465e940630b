/** SimpleReorder: a sampled packet is held back on a FIFO chain while later
    packets overtake it, and is released once PACKETS packets have passed it or
    its deadline (the time it was held plus TIMEOUT) has come.

    The source keeps the pass counts relatively: the head's aggregate
    annotation counts the packets passed since the head was held, every other
    node's the packets passed between the hold of its predecessor and its own,
    and `_packet_counter` the packets passed since the last hold. */
module SimpleReorderElement {
  import opened Common
  import opened Sampling

  /** A held packet: the packet, its AGGREGATE_ANNO and its FIRST_TIMESTAMP_ANNO
      (the release deadline). */
  datatype Node = Node(pkt: Packet, agg: u32, deadline: int)

  /** The held state: the chain from `_head` to `_tail`, and `_packet_counter`. */
  datatype Reorder = Reorder(chain: seq<Node>, counter: u32)

  /** `_sampling_prob`, `_packets_to_wait`, `_timeout` and `_active`. */
  datatype Config = Config(prob: u32, packetsToWait: u32, timeout: int, active: bool)

  /** One pull from upstream: its result (None for a null packet) and the value
      click_random() gives if the element draws for it. */
  datatype Pulled = Pulled(pkt: Option<Packet>, draw: u32)

  function SumAgg(nodes: seq<Node>): nat
    decreases |nodes|
  {
    if nodes == [] then 0 else nodes[0].agg + SumAgg(nodes[1..])
  }

  lemma {:induction false} SumAggAppend(a: seq<Node>, b: seq<Node>)
    ensures SumAgg(a + b) == SumAgg(a) + SumAgg(b)
    decreases |a|
  {
    if a == [] {
      assert a + b == b;
    } else {
      assert (a + b)[0] == a[0];
      assert (a + b)[1..] == a[1..] + b;
      SumAggAppend(a[1..], b);
    }
  }

  function Packets(nodes: seq<Node>): seq<Packet> {
    seq(|nodes|, i requires 0 <= i < |nodes| => nodes[i].pkt)
  }

  /** How many packets node i has been passed by since it was held, as the
      relative annotations encode it: the head's count less the gaps up to i. */
  function Waited(chain: seq<Node>, i: nat): int
    requires i < |chain|
  {
    chain[0].agg - SumAgg(chain[1..i + 1])
  }

  /** The chain invariant: the head's count covers all later gaps and the
      passes since the last hold, so the last node has waited at least
      `_packet_counter` passes. Every rebasing subtraction is then
      non-negative. */
  predicate ChainInv(s: Reorder) {
    s.chain != [] ==> s.chain[0].agg >= SumAgg(s.chain[1..]) + s.counter
  }

  /** How much more the last node has waited than the passes since the last
      hold. It is 0 when a chain starts from a counter of 0. */
  function Excess(s: Reorder): int
    requires s.chain != []
  {
    Waited(s.chain, |s.chain| - 1) - s.counter
  }

  /** The release test at the top of the pull loop. */
  predicate Eligible(c: Config, s: Reorder, now: int) {
    s.chain != [] && (s.chain[0].agg >= c.packetsToWait || s.chain[0].deadline <= now)
  }

  /** emit(): unlink the head; the new head's count becomes the old head's
      count less its own gap. `_packet_counter` is not touched, even when the
      chain becomes empty. */
  function AfterEmit(s: Reorder): (r: (Packet, Reorder))
    requires s.chain != [] && ChainInv(s)
    ensures r.0 == s.chain[0].pkt
    ensures Packets(r.1.chain) == Packets(s.chain[1..])
    ensures forall j :: 0 <= j < |r.1.chain| ==> r.1.chain[j].deadline == s.chain[j + 1].deadline
    ensures r.1.counter == s.counter && ChainInv(r.1)
  {
    var head := s.chain[0];
    var rest := s.chain[1..];
    if rest == [] then (head.pkt, Reorder([], s.counter))
    else
      assert SumAgg(rest) == rest[0].agg + SumAgg(rest[1..]);
      var next := [rest[0].(agg := head.agg - rest[0].agg)] + rest[1..];
      assert next[1..] == rest[1..];
      (head.pkt, Reorder(next, s.counter))
  }

  /** A packet passed while the chain is non-empty: the head's count and
      `_packet_counter` rise by one. On an empty chain nothing changes. The
      precondition holds wherever pull passes a packet, since the head was not
      eligible; so neither increment wraps. */
  function AfterPass(s: Reorder): (r: Reorder)
    requires ChainInv(s)
    requires s.chain != [] ==> s.chain[0].agg < U32_LIMIT - 1
    ensures Packets(r.chain) == Packets(s.chain)
    ensures forall j :: 0 <= j < |r.chain| ==> r.chain[j].deadline == s.chain[j].deadline
    ensures r.counter == if s.chain == [] then s.counter else s.counter + 1
    ensures ChainInv(r)
  {
    if s.chain == [] then s
    else
      var next := [s.chain[0].(agg := s.chain[0].agg + 1)] + s.chain[1..];
      assert next[1..] == s.chain[1..];
      Reorder(next, s.counter + 1)
  }

  /** A sampled packet appended at the tail: its gap is `_packet_counter`,
      which then restarts from 0. */
  function AfterHold(s: Reorder, p: Packet, deadline: int): (r: Reorder)
    requires ChainInv(s)
    ensures Packets(r.chain) == Packets(s.chain) + [p]
    ensures |r.chain| == |s.chain| + 1 && r.chain[|s.chain|].deadline == deadline
    ensures forall j :: 0 <= j < |s.chain| ==> r.chain[j] == s.chain[j]
    ensures r.counter == 0 && ChainInv(r)
  {
    var next := s.chain + [Node(p, s.counter, deadline)];
    assert Packets(next) == Packets(s.chain) + [p];
    if s.chain == [] then Reorder(next, 0)
    else
      assert next[1..] == s.chain[1..] + [Node(p, s.counter, deadline)];
      SumAggAppend(s.chain[1..], [Node(p, s.counter, deadline)]);
      Reorder(next, 0)
  }

  /** Emitting the head leaves every other node's wait as it was. */
  lemma EmitKeepsWaited(s: Reorder, j: nat)
    requires s.chain != [] && ChainInv(s)
    requires j < |AfterEmit(s).1.chain|
    ensures Waited(AfterEmit(s).1.chain, j) == Waited(s.chain, j + 1)
  {
    var next := AfterEmit(s).1.chain;
    var c := s.chain;
    assert c[1..j + 2][1..] == c[2..j + 2];
    assert next[1..j + 1] == c[2..j + 2];
  }

  /** A pass adds one to every held node's wait. */
  lemma PassAddsOne(s: Reorder, j: nat)
    requires ChainInv(s)
    requires s.chain != [] ==> s.chain[0].agg < U32_LIMIT - 1
    requires j < |s.chain|
    ensures Waited(AfterPass(s).chain, j) == Waited(s.chain, j) + 1
  {
    assert AfterPass(s).chain[1..j + 1] == s.chain[1..j + 1];
  }

  /** A hold leaves the earlier nodes' waits alone. The new node starts with a
      wait of `_packet_counter` when the chain was empty, and otherwise with
      the excess of the chain it joins. */
  lemma {:induction false} HoldWaited(s: Reorder, p: Packet, deadline: int, j: nat)
    requires ChainInv(s)
    requires j <= |s.chain|
    ensures j < |s.chain| ==> Waited(AfterHold(s, p, deadline).chain, j) == Waited(s.chain, j)
    ensures j == |s.chain| == 0 ==> Waited(AfterHold(s, p, deadline).chain, j) == s.counter
    ensures j == |s.chain| > 0 ==> Waited(AfterHold(s, p, deadline).chain, j) == Excess(s)
  {
    var next := AfterHold(s, p, deadline).chain;
    if j < |s.chain| {
      assert next[1..j + 1] == s.chain[1..j + 1];
    } else if j > 0 {
      assert next[1..j + 1] == s.chain[1..] + [Node(p, s.counter, deadline)];
      SumAggAppend(s.chain[1..], [Node(p, s.counter, deadline)]);
      assert s.chain[1..|s.chain|] == s.chain[1..];
    }
  }

  /** The excess a chain starts with never changes while the chain lasts:
      passes, holds and emits that leave the chain non-empty all keep it. So
      when the counter was not 0 as the chain started, every packet held on
      that chain counts that many phantom passes. */
  lemma ExcessIsConstant(s: Reorder, p: Packet, deadline: int)
    requires s.chain != [] && ChainInv(s)
    ensures s.chain[0].agg < U32_LIMIT - 1 ==> Excess(AfterPass(s)) == Excess(s)
    ensures Excess(AfterHold(s, p, deadline)) == Excess(s)
    ensures |s.chain| > 1 ==> Excess(AfterEmit(s).1) == Excess(s)
  {
    if s.chain[0].agg < U32_LIMIT - 1 {
      PassAddsOne(s, |s.chain| - 1);
    }
    HoldWaited(s, p, deadline, |s.chain|);
    if |s.chain| > 1 {
      EmitKeepsWaited(s, |s.chain| - 2);
    }
  }

  /** A chain that starts from an empty chain gives its first node a wait of
      the counter left behind: the excess of the new chain. */
  lemma ExcessFromStaleCounter(s: Reorder, p: Packet, deadline: int)
    requires s.chain == [] && ChainInv(s)
    ensures Excess(AfterHold(s, p, deadline)) == s.counter
  {
    HoldWaited(s, p, deadline, 0);
  }

  /** Where the packet returned by one call of pull came from. */
  datatype Source = FromChain | FromUpstream | Exhausted

  /** The result of one call of pull: the packet returned, the new held state,
      how many upstream pulls it made, where the packet came from, the node
      released (for FromChain) and the time the timer was scheduled at, if it
      was. */
  datatype PullOutcome = PullOutcome(r: Option<Packet>, next: Reorder, used: nat, source: Source,
                                     released: Option<Node>, scheduled: Option<int>)

  /** The packets among the pulls (the held ones are all packets). */
  function HeldFrom(up: seq<Pulled>): seq<Packet>
    decreases |up|
  {
    if up == [] then []
    else (if up[0].pkt.Some? then [up[0].pkt.value] else []) + HeldFrom(up[1..])
  }

  lemma HeldFromPrefix(up: seq<Pulled>, n: nat)
    requires 0 < n <= |up|
    ensures HeldFrom(up[..n]) == (if up[0].pkt.Some? then [up[0].pkt.value] else []) + HeldFrom(up[1..][..n - 1])
  {
    assert up[..n][0] == up[0];
    assert up[..n][1..] == up[1..][..n - 1];
  }

  /** How many of the pulls of one call were held. */
  function HoldCount(o: PullOutcome): nat {
    if o.source == FromUpstream && o.used > 0 then o.used - 1 else o.used
  }

  /** One call of pull with clock reading `now` and upstream results `up` (an
      upstream beyond `up` returns null without being counted). The loop
      releases an eligible head before pulling; it returns a null, a packet
      pulled while inactive or one that is not sampled; a sampled packet is
      held and the loop goes round again. */
  function PullRun(c: Config, s: Reorder, now: int, up: seq<Pulled>): (o: PullOutcome)
    requires ChainInv(s)
    ensures ChainInv(o.next) && o.used <= |up|
    ensures o.source == FromChain <==> o.released.Some?
    ensures o.source == FromUpstream ==> 0 < o.used
    ensures o.source == Exhausted ==> o.r.None? && o.used == |up|
    ensures s.chain != [] ==> o.scheduled.None?
    decreases |up|
  {
    if Eligible(c, s, now) then
      var e := AfterEmit(s);
      PullOutcome(Some(e.0), e.1, 0, FromChain, Some(s.chain[0]), None)
    else if up == [] then
      PullOutcome(None, s, 0, Exhausted, None, None)
    else if !c.active || up[0].pkt.None? then
      PullOutcome(up[0].pkt, s, 1, FromUpstream, None, None)
    else if !Sampled(up[0].draw, c.prob) then
      PullOutcome(up[0].pkt, AfterPass(s), 1, FromUpstream, None, None)
    else
      var o := PullRun(c, AfterHold(s, up[0].pkt.value, now + c.timeout), now, up[1..]);
      o.(used := o.used + 1, scheduled := if s.chain == [] then Some(now + c.timeout) else None)
  }

  /** Pull releases a held packet only when it is eligible: its count has
      reached PACKETS or its deadline has come. An eligible head is released
      before anything is pulled. */
  lemma {:induction false} PullReleasesEligible(c: Config, s: Reorder, now: int, up: seq<Pulled>)
    requires ChainInv(s)
    ensures var o := PullRun(c, s, now, up);
      && (o.source == FromChain ==>
            o.r == Some(o.released.value.pkt)
            && (o.released.value.agg >= c.packetsToWait || o.released.value.deadline <= now))
      && ((o.source == FromChain && o.used == 0) <==> Eligible(c, s, now))
    decreases |up|
  {
    if !Eligible(c, s, now) && up != [] && c.active && up[0].pkt.Some? && Sampled(up[0].draw, c.prob) {
      PullReleasesEligible(c, AfterHold(s, up[0].pkt.value, now + c.timeout), now, up[1..]);
    }
  }

  /** Every pull that was not returned was held: it was a packet, the element
      was active and the draw was sampled. A packet returned from upstream is
      a null, one pulled while inactive, or one whose draw was not sampled. */
  lemma {:induction false} PullHoldsSampled(c: Config, s: Reorder, now: int, up: seq<Pulled>)
    requires ChainInv(s)
    ensures var o := PullRun(c, s, now, up);
      (forall k :: 0 <= k < HoldCount(o) ==> c.active && up[k].pkt.Some? && Sampled(up[k].draw, c.prob))
    ensures var o := PullRun(c, s, now, up);
      (o.source == FromUpstream ==>
            o.r == up[o.used - 1].pkt && (!c.active || o.r.None? || !Sampled(up[o.used - 1].draw, c.prob)))
    ensures var o := PullRun(c, s, now, up);
      o.scheduled == if s.chain == [] && HoldCount(o) > 0 then Some(now + c.timeout) else None
    decreases |up|
  {
    if !Eligible(c, s, now) && up != [] && c.active && up[0].pkt.Some? && Sampled(up[0].draw, c.prob) {
      var s' := AfterHold(s, up[0].pkt.value, now + c.timeout);
      PullHoldsSampled(c, s', now, up[1..]);
      var o' := PullRun(c, s', now, up[1..]);
      var o := PullRun(c, s, now, up);
      assert o == o'.(used := o'.used + 1, scheduled := if s.chain == [] then Some(now + c.timeout) else None);
      assert HoldCount(o) == HoldCount(o') + 1;
      assert o.source == FromUpstream ==> up[o.used - 1] == up[1..][o'.used - 1];
      forall k | 0 <= k < HoldCount(o') + 1
        ensures c.active && up[k].pkt.Some? && Sampled(up[k].draw, c.prob)
      {
        if k > 0 {
          assert up[k] == up[1..][k - 1];
        }
      }
    } else {
      assert HoldCount(PullRun(c, s, now, up)) == 0;
    }
  }

  /** The conservation statement of one call of pull, as a predicate on its
      outcome. */
  predicate Conserved(s: Reorder, up: seq<Pulled>, o: PullOutcome)
    requires o.used <= |up|
    requires o.source == FromUpstream ==> 0 < o.used
  {
    match o.source
    case FromChain =>
      o.r.Some? && [o.r.value] + Packets(o.next.chain) == Packets(s.chain) + HeldFrom(up[..o.used])
    case FromUpstream =>
      Packets(o.next.chain) == Packets(s.chain) + HeldFrom(up[..o.used - 1])
    case Exhausted =>
      Packets(o.next.chain) == Packets(s.chain) + HeldFrom(up)
  }

  /** No packet is lost, duplicated or reordered among the held ones: the
      chain before the call followed by the packets held during it is the
      released packet (if any) followed by the chain after it. */
  lemma {:induction false} PullConserves(c: Config, s: Reorder, now: int, up: seq<Pulled>)
    requires ChainInv(s)
    ensures Conserved(s, up, PullRun(c, s, now, up))
    decreases |up|
  {
    if Eligible(c, s, now) {
      assert up[..0] == [];
      assert [s.chain[0].pkt] + Packets(s.chain[1..]) == Packets(s.chain);
    } else if up == [] {
    } else if !c.active || up[0].pkt.None? || !Sampled(up[0].draw, c.prob) {
      assert up[..0] == [];
    } else {
      var p := up[0].pkt.value;
      var s' := AfterHold(s, p, now + c.timeout);
      PullConserves(c, s', now, up[1..]);
      HoldConserves(s, p, now + c.timeout, up, PullRun(c, s', now, up[1..]), PullRun(c, s, now, up));
    }
  }

  /** The step of PullConserves for a held first pull. */
  lemma HoldConserves(s: Reorder, p: Packet, d: int, up: seq<Pulled>, o': PullOutcome, o: PullOutcome)
    requires ChainInv(s) && up != [] && up[0].pkt == Some(p)
    requires o'.used <= |up| - 1 && (o'.source == FromUpstream ==> 0 < o'.used)
    requires o'.source == Exhausted ==> o'.used == |up| - 1
    requires o == o'.(used := o'.used + 1, scheduled := o.scheduled)
    requires Conserved(AfterHold(s, p, d), up[1..], o')
    ensures Conserved(s, up, o)
  {
    var before := Packets(s.chain);
    assert Packets(AfterHold(s, p, d).chain) == before + [p];
    if o'.source == FromChain {
      HeldFromPrefix(up, o'.used + 1);
      var held := HeldFrom(up[1..][..o'.used]);
      calc {
        [o.r.value] + Packets(o.next.chain);
        (before + [p]) + held;
        before + ([p] + held);
        before + HeldFrom(up[..o.used]);
      }
    } else if o'.source == FromUpstream {
      HeldFromPrefix(up, o'.used);
      var held := HeldFrom(up[1..][..o'.used - 1]);
      calc {
        Packets(o.next.chain);
        (before + [p]) + held;
        before + ([p] + held);
        before + HeldFrom(up[..o.used - 1]);
      }
    } else {
      HeldFromPrefix(up, |up|);
      assert up[..|up|] == up;
      assert up[1..][..|up| - 1] == up[1..];
      var held := HeldFrom(up[1..]);
      calc {
        Packets(o.next.chain);
        (before + [p]) + held;
        before + ([p] + held);
        before + HeldFrom(up);
      }
    }
  }

  /** The outcome of a whole call, given the outcome of the rest of it after
      `i` pulls that were all held, `sched` being the schedule they made. */
  function Resume(o: PullOutcome, i: nat, sched: Option<int>): PullOutcome {
    o.(used := o.used + i, scheduled := if sched.Some? then sched else o.scheduled)
  }

  /** One round of the pull loop that holds the first pull: the call goes on
      as a call from the new state on the remaining pulls. */
  lemma PullHoldStep(c: Config, s: Reorder, now: int, up: seq<Pulled>)
    requires ChainInv(s) && !Eligible(c, s, now) && up != []
    requires c.active && up[0].pkt.Some? && Sampled(up[0].draw, c.prob)
    ensures PullRun(c, s, now, up) ==
      Resume(PullRun(c, AfterHold(s, up[0].pkt.value, now + c.timeout), now, up[1..]), 1,
             if s.chain == [] then Some(now + c.timeout) else None)
  {
  }

  /** The pull loop as the source runs it: `i` pulls made so far, all held,
      and `sched` the timer schedule they made. */
  function PullLoop(c: Config, s: Reorder, now: int, up: seq<Pulled>, i: nat, sched: Option<int>): (o: PullOutcome)
    requires ChainInv(s) && i <= |up|
    decreases |up| - i
  {
    if Eligible(c, s, now) then
      var e := AfterEmit(s);
      PullOutcome(Some(e.0), e.1, i, FromChain, Some(s.chain[0]), sched)
    else if i == |up| then
      PullOutcome(None, s, i, Exhausted, None, sched)
    else if !c.active || up[i].pkt.None? then
      PullOutcome(up[i].pkt, s, i + 1, FromUpstream, None, sched)
    else if !Sampled(up[i].draw, c.prob) then
      PullOutcome(up[i].pkt, AfterPass(s), i + 1, FromUpstream, None, sched)
    else
      PullLoop(c, AfterHold(s, up[i].pkt.value, now + c.timeout), now, up, i + 1,
               if s.chain == [] then Some(now + c.timeout) else sched)
  }

  /** The loop computes PullRun: resuming after `i` held pulls is the rest of
      the call, shifted by `i`. */
  lemma {:induction false} PullLoopResumes(c: Config, s: Reorder, now: int, up: seq<Pulled>, i: nat, sched: Option<int>)
    requires ChainInv(s) && i <= |up|
    requires sched.Some? ==> s.chain != []
    ensures PullLoop(c, s, now, up, i, sched) == Resume(PullRun(c, s, now, up[i..]), i, sched)
    decreases |up| - i
  {
    if !Eligible(c, s, now) && i < |up| && c.active && up[i].pkt.Some? && Sampled(up[i].draw, c.prob) {
      var post := AfterHold(s, up[i].pkt.value, now + c.timeout);
      var started := if s.chain == [] then Some(now + c.timeout) else None;
      assert up[i..][1..] == up[i + 1..];
      PullLoopResumes(c, post, now, up, i + 1, if s.chain == [] then Some(now + c.timeout) else sched);
      PullHoldStep(c, s, now, up[i..]);
      ResumeTwice(PullRun(c, post, now, up[i + 1..]), i, sched, started);
    }
  }

  lemma ResumeTwice(o: PullOutcome, i: nat, sched: Option<int>, first: Option<int>)
    ensures Resume(Resume(o, 1, first), i, sched) == Resume(o, i + 1, if sched.Some? then sched else first)
  {
  }

  /** While inactive, the element still releases an eligible held packet first
      and otherwise returns whatever upstream gives, holding nothing. */
  lemma InactiveBypass(c: Config, s: Reorder, now: int, up: seq<Pulled>)
    requires ChainInv(s) && !c.active && up != [] && !Eligible(c, s, now)
    ensures PullRun(c, s, now, up) == PullOutcome(up[0].pkt, s, 1, FromUpstream, None, None)
  {
  }

  /** With PACKETS 1, hold A and pass B, so B overtakes A; the next pull
      releases A and leaves `_packet_counter` at 1 on the now empty chain. A
      sampled C is then held with that stale count and released by the same
      call, before its deadline and with no packet having passed it. */
  lemma StaleCounterReleasesEarly(a: Packet, b: Packet, cp: Packet)
    ensures
      var c := Config(0, 1, 1000, true);
      var o1 := PullRun(c, Reorder([], 0), 0, [Pulled(Some(a), 0), Pulled(Some(b), 1)]);
      var o2 := PullRun(c, o1.next, 0, []);
      var o3 := PullRun(c, o2.next, 0, [Pulled(Some(cp), 0)]);
      && o1.r == Some(b) && o2.r == Some(a) && o2.next == Reorder([], 1)
      && o3.r == Some(cp) && o3.source == FromChain && o3.used == 1
      && o3.released.value.deadline > 0 && o3.next == Reorder([], 0)
  {
    var c := Config(0, 1, 1000, true);
    var s1 := AfterHold(Reorder([], 0), a, 1000);
    assert s1 == Reorder([Node(a, 0, 1000)], 0);
    assert Sampled(0, 0) && !Sampled(1, 0);
    var o1' := PullRun(c, s1, 0, [Pulled(Some(b), 1)]);
    assert o1'.next == Reorder([Node(a, 1, 1000)], 1);
    assert [Pulled(Some(a), 0), Pulled(Some(b), 1)][1..] == [Pulled(Some(b), 1)];
    var s3 := AfterHold(Reorder([], 1), cp, 1000);
    assert s3 == Reorder([Node(cp, 1, 1000)], 0);
    assert PullRun(c, s3, 0, []).next == Reorder([], 0);
  }

  /** The result of one run of the release task. */
  datatype TaskOutcome = TaskOutcome(pushed: Option<Packet>, next: Reorder, reschedule: Option<int>)

  /** run_task: hand the head to checked_output_push(1, ...) if its deadline
      has come (the pass count is not consulted), then reschedule the timer
      for the deadline of whatever is at the head. */
  function TaskRun(s: Reorder, now: int): (t: TaskOutcome)
    requires ChainInv(s)
    ensures ChainInv(t.next) && t.next.counter == s.counter
    ensures t.pushed.Some? <==> s.chain != [] && s.chain[0].deadline <= now
    ensures t.pushed.Some? ==> t.pushed.value == s.chain[0].pkt && Packets(t.next.chain) == Packets(s.chain[1..])
    ensures t.pushed.None? ==> t.next == s
    ensures t.reschedule.Some? <==> t.next.chain != []
    ensures t.reschedule.Some? ==> t.reschedule.value == t.next.chain[0].deadline
    ensures t.pushed.Some? && t.reschedule.Some? ==> t.reschedule.value == s.chain[1].deadline
  {
    var (pushed, next) :=
      if s.chain != [] && s.chain[0].deadline <= now then
        var e := AfterEmit(s); (Some(e.0), e.1)
      else (None, s);
    TaskOutcome(pushed, next, if next.chain != [] then Some(next.chain[0].deadline) else None)
  }

  /** The parsed configuration: P, PACKETS, TIMEOUT and ACTIVE. */
  datatype ReorderArgs = ReorderArgs(prob: u32, packets: u32, timeout: int, active: bool)

  /** The defaults configure fills in for missing keywords: P 0xFFFFFFFF
      (always sample), PACKETS 1, TIMEOUT 1 ms (times are in microseconds, as
      packet timestamps are), ACTIVE true. */
  const DEFAULT_ARGS: ReorderArgs := ReorderArgs(0xFFFF_FFFF, 1, 1000, true)

  class SimpleReorder {
    var samplingProb: u32
    var packetsToWait: u32
    var timeout: int
    var active: bool
    var chain: seq<Node>
    var packetCounter: u32
    /** The time the timer is scheduled at (the last schedule_at), if any. */
    var timerAt: Option<int>

    function Cfg(): Config
      reads this
    {
      Config(samplingProb, packetsToWait, timeout, active)
    }

    function State(): Reorder
      reads this
    {
      Reorder(chain, packetCounter)
    }

    predicate Valid()
      reads this
    {
      ChainInv(State())
    }

    /** The element as created: nothing held. */
    constructor ()
      ensures Valid() && chain == [] && packetCounter == 0 && timerAt.None?
    {
      samplingProb, packetsToWait, timeout, active := 0, 0, 0, false;
      chain, packetCounter, timerAt := [], 0, None;
    }

    /** configure: `args` is None when the keywords do not parse, and then
        nothing changes; missing keywords take their DEFAULT_ARGS values. P is
        not range-checked here. */
    method Configure(args: Option<ReorderArgs>) returns (ok: bool)
      modifies this
      ensures ok <==> args.Some?
      ensures ok ==> Cfg() == Config(args.value.prob, args.value.packets, args.value.timeout, args.value.active)
      ensures !ok ==> Cfg() == old(Cfg())
      ensures State() == old(State()) && timerAt == old(timerAt)
    {
      if args.None? {
        return false;
      }
      var a := args.value;
      samplingProb, active, packetsToWait, timeout := a.prob, a.active, a.packets, a.timeout;
      ok := true;
    }

    /** initialize: an empty chain and a zero counter. */
    method Initialize()
      modifies this
      ensures Valid() && State() == Reorder([], 0)
      ensures Cfg() == old(Cfg()) && timerAt == old(timerAt)
    {
      chain := [];
      packetCounter := 0;
    }

    /** emit(): unlink the head and return its packet. */
    method Emit() returns (p: Packet)
      requires Valid() && chain != []
      modifies this
      ensures Valid()
      ensures (p, State()) == AfterEmit(old(State()))
      ensures Cfg() == old(Cfg()) && timerAt == old(timerAt)
    {
      var head := chain[0];
      var rest := chain[1..];
      p := head.pkt;
      if rest == [] {
        chain := [];
      } else {
        assert SumAgg(rest) == rest[0].agg + SumAgg(rest[1..]);
        chain := [rest[0].(agg := head.agg - rest[0].agg)] + rest[1..];
      }
    }

    /** pull: the loop of the source, one upstream pull per round. The
        returned packet, the new chain and counter, and the number of pulls
        are those of PullRun; the timer is rescheduled when a hold starts a
        chain. */
    method Pull(now: int, up: seq<Pulled>) returns (r: Option<Packet>, used: nat)
      requires Valid()
      modifies this
      ensures Valid() && Cfg() == old(Cfg())
      ensures
        var o := PullRun(old(Cfg()), old(State()), now, up);
        && r == o.r && used == o.used && State() == o.next
        && timerAt == if o.scheduled.Some? then o.scheduled else old(timerAt)
    {
      var i := 0;
      ghost var sched: Option<int> := None;
      ghost var c := Cfg();
      ghost var s0 := State();
      PullLoopResumes(c, s0, now, up, 0, None);
      assert up[0..] == up;
      while true
        invariant 0 <= i <= |up| && Valid() && Cfg() == c
        invariant timerAt == if sched.Some? then sched else old(timerAt)
        invariant PullLoop(c, s0, now, up, 0, None) == PullLoop(c, State(), now, up, i, sched)
        decreases |up| - i
      {
        if chain != [] && (chain[0].agg >= packetsToWait || chain[0].deadline <= now) {
          var p := Emit();
          r, used := Some(p), i;
          break;
        }
        if i == |up| {
          r, used := None, i;
          break;
        }
        var x := up[i];
        i := i + 1;
        if !active || x.pkt.None? {
          r, used := x.pkt, i;
          break;
        }
        ghost var pre := State();
        var held := Admit(now, x.pkt.value, x.draw);
        if !held {
          r, used := x.pkt, i;
          break;
        }
        sched := if pre.chain == [] then Some(now + timeout) else sched;
      }
    }

    /** The sampling decision of the pull loop for a packet `p` with random
        draw `draw`: a packet that is not sampled passes (the head's count and
        the counter rise if something is held); a sampled one is appended to
        the chain, and when it starts the chain the timer is scheduled for its
        deadline. */
    method Admit(now: int, p: Packet, draw: u32) returns (held: bool)
      requires Valid() && !Eligible(Cfg(), State(), now)
      modifies this
      ensures Valid() && Cfg() == old(Cfg())
      ensures held <==> Sampled(draw, samplingProb)
      ensures !held ==> State() == AfterPass(old(State())) && timerAt == old(timerAt)
      ensures held ==> State() == AfterHold(old(State()), p, now + timeout)
      ensures held ==> timerAt == if old(chain) == [] then Some(now + timeout) else old(timerAt)
    {
      if Masked(draw) > samplingProb {
        if chain != [] {
          chain := [chain[0].(agg := chain[0].agg + 1)] + chain[1..];
          packetCounter := packetCounter + 1;
        }
        assert State() == AfterPass(old(State()));
        return false;
      }
      if chain == [] {
        timerAt := Some(now + timeout);
      }
      chain := chain + [Node(p, packetCounter, now + timeout)];
      packetCounter := 0;
      assert State() == AfterHold(old(State()), p, now + timeout);
      held := true;
    }

    /** run_task: hand an expired head to checked_output_push(1, ...), here
        returned in `pushed`. The element declares a single output, so port 1
        does not exist and the push frees the packet. Then reschedule the
        timer for the new head's deadline. */
    method RunTask(now: int) returns (pushed: Option<Packet>, worked: bool)
      requires Valid()
      modifies this
      ensures Valid() && Cfg() == old(Cfg())
      ensures
        var t := TaskRun(old(State()), now);
        && pushed == t.pushed && State() == t.next && (worked <==> pushed.Some?)
        && timerAt == if t.reschedule.Some? then t.reschedule else old(timerAt)
    {
      pushed, worked := None, false;
      if chain != [] && chain[0].deadline <= now {
        var p := Emit();
        pushed, worked := Some(p), true;
      }
      if chain != [] {
        timerAt := Some(chain[0].deadline);
      }
    }

    /** The sampling_prob write handler. */
    method WriteProb(parsed: Option<u32>) returns (ok: bool)
      modifies this
      ensures ok <==> ProbWrite(parsed).Some?
      ensures samplingProb == if ok then parsed.value else old(samplingProb)
      ensures ok ==> samplingProb <= SAMPLING_ONE
      ensures packetsToWait == old(packetsToWait) && timeout == old(timeout) && active == old(active)
      ensures State() == old(State()) && timerAt == old(timerAt)
    {
      var p := ProbWrite(parsed);
      if p.None? {
        return false;
      }
      samplingProb := p.value;
      ok := true;
    }

    /** The timeout write handler: `parsed` is None when the text is not a
        time, and then nothing changes. Packets already held keep their
        deadlines. */
    method WriteTimeout(parsed: Option<int>) returns (ok: bool)
      modifies this
      ensures ok <==> parsed.Some?
      ensures timeout == if ok then parsed.value else old(timeout)
      ensures samplingProb == old(samplingProb) && packetsToWait == old(packetsToWait) && active == old(active)
      ensures State() == old(State()) && timerAt == old(timerAt)
    {
      if parsed.None? {
        return false;
      }
      timeout := parsed.value;
      ok := true;
    }
  }
}
