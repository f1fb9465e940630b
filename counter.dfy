/** Counter: passes packets unchanged and counts them and their bytes in
    uint64 counters (counter_int_type). Outside simple mode each update checks
    two triggers, one on the packet count and one on the byte count; a
    trigger fires when the count EQUALS its value and it has not fired since
    the last reset. */
module CounterElement {
  import opened Common

  /** CounterBase::stats: `_count` and `_byte_count`. */
  datatype Stats = Stats(count: u64, byteCount: u64)

  /** One trigger: its value, whether it has fired since the last reset
      (`_count_triggered`), and whether a handler call is installed
      (`_count_trigger_h` non-null). */
  datatype Trigger = Trigger(at: u64, triggered: bool, hasCall: bool)

  datatype Triggers = Triggers(count: Trigger, bytes: Trigger)

  /** Which handler calls one check made. */
  datatype Fired = Fired(countCall: bool, byteCall: bool)

  datatype CounterState = CounterState(stats: Stats, triggers: Triggers)

  const NO_TRIGGER: u64 := U64_LIMIT - 1

  /** One trigger seeing one count value: it is marked as fired when the
      value equals it, and the handler is called only the first time. */
  function Check(t: Trigger, value: u64): (r: (Trigger, bool))
    ensures r.0.at == t.at && r.0.hasCall == t.hasCall
    ensures r.0.triggered <==> t.triggered || value == t.at
    ensures r.1 <==> t.hasCall && !t.triggered && value == t.at
  {
    var hit := value == t.at && !t.triggered;
    (if hit then t.(triggered := true) else t, hit && t.hasCall)
  }

  /** check_handlers: both triggers see the new counts. */
  function CheckHandlers(tr: Triggers, s: Stats): (r: (Triggers, Fired))
    ensures (r.0.count, r.1.countCall) == Check(tr.count, s.count)
    ensures (r.0.bytes, r.1.byteCall) == Check(tr.bytes, s.byteCount)
  {
    var c := Check(tr.count, s.count);
    var b := Check(tr.bytes, s.byteCount);
    (Triggers(c.0, b.0), Fired(c.1, b.1))
  }

  /** A trigger seeing a sequence of values, and whether each one fired. */
  function Watch(t: Trigger, values: seq<u64>): (r: (Trigger, seq<bool>))
    ensures |r.1| == |values|
    decreases |values|
  {
    if values == [] then (t, [])
    else
      var before := Watch(t, values[..|values| - 1]);
      var c := Check(before.0, values[|values| - 1]);
      (c.0, before.1 + [c.1])
  }

  /** A trigger fires at most once over any sequence of values: exactly once
      when it has a handler, has not fired yet and one of the values equals
      it, and never otherwise; afterwards it stays marked as fired. */
  lemma {:induction false} WatchFiresOnce(t: Trigger, values: seq<u64>)
    ensures CountTrue(Watch(t, values).1) == if t.hasCall && !t.triggered && t.at in values then 1 else 0
    ensures Watch(t, values).0 == t.(triggered := t.triggered || t.at in values)
    decreases |values|
  {
    if values != [] {
      var init := values[..|values| - 1];
      var last := values[|values| - 1];
      assert values == init + [last];
      WatchFiresOnce(t, init);
      var before := Watch(t, init);
      CountTrueAppend(before.1, [Check(before.0, last).1]);
      assert t.at in values <==> t.at in init || t.at == last;
    }
  }

  /** The new counts after one packet of `len` bytes. */
  function CountPacket(s: Stats, len: u32): Stats {
    Stats(Add64(s.count, 1), Add64(s.byteCount, len))
  }

  /** simple_action on a packet of `len` bytes: count it and, outside simple
      mode, check the triggers. */
  function PacketStep(s: CounterState, simple: bool, len: u32): (r: (CounterState, Fired))
    ensures r.0.stats == CountPacket(s.stats, len)
    ensures simple ==> r.0.triggers == s.triggers && r.1 == Fired(false, false)
  {
    var st := CountPacket(s.stats, len);
    if simple then (CounterState(st, s.triggers), Fired(false, false))
    else
      var c := CheckHandlers(s.triggers, st);
      (CounterState(st, c.0), c.1)
  }

  /** Packets counted one by one (BATCH_PRECISE): the state after them and
      what each check fired. */
  function PreciseRun(s: CounterState, simple: bool, lens: seq<u32>): (r: (CounterState, seq<Fired>))
    ensures |r.1| == |lens|
    decreases |lens|
  {
    if lens == [] then (s, [])
    else
      var before := PreciseRun(s, simple, lens[..|lens| - 1]);
      var step := PacketStep(before.0, simple, lens[|lens| - 1]);
      (step.0, before.1 + [step.1])
  }

  /** The exact sum of the lengths. */
  function Sum(lens: seq<u32>): nat
    decreases |lens|
  {
    if lens == [] then 0 else Sum(lens[..|lens| - 1]) + lens[|lens| - 1]
  }

  /** The sum of the lengths as `bc` accumulates it in a counter_int_type. */
  function Sum64(lens: seq<u32>): (r: u64)
    ensures r == Sum(lens) % U64_LIMIT
    decreases |lens|
  {
    if lens == [] then 0
    else
      var before := Sum64(lens[..|lens| - 1]);
      Add64Mod(Sum(lens[..|lens| - 1]), lens[|lens| - 1]);
      Add64(before, lens[|lens| - 1])
  }

  /** Reducing before adding does not change a sum modulo 2^64. */
  lemma Add64Mod(x: nat, y: nat)
    ensures Add64(x % U64_LIMIT, y) == (x + y) % U64_LIMIT
  {
    var q := x / U64_LIMIT;
    assert x == q * U64_LIMIT + x % U64_LIMIT;
    assert x + y == q * U64_LIMIT + (x % U64_LIMIT + y);
  }

  /** A whole batch counted at once (not BATCH_PRECISE): the batch size and
      the summed lengths are added, and the triggers are checked once, on the
      final counts. */
  function BatchStep(s: CounterState, simple: bool, lens: seq<u32>): (r: (CounterState, Fired))
    ensures r.0.stats == Stats(Add64(s.stats.count, |lens|), Add64(s.stats.byteCount, Sum64(lens)))
    ensures simple ==> r.0.triggers == s.triggers && r.1 == Fired(false, false)
  {
    var st := Stats(Add64(s.stats.count, |lens|), Add64(s.stats.byteCount, Sum64(lens)));
    if simple then (CounterState(st, s.triggers), Fired(false, false))
    else
      var c := CheckHandlers(s.triggers, st);
      (CounterState(st, c.0), c.1)
  }

  /** Counting packets one by one adds their number and total length, each
      modulo 2^64. */
  lemma {:induction false} PreciseStats(s: CounterState, simple: bool, lens: seq<u32>)
    ensures PreciseRun(s, simple, lens).0.stats == Stats(Add64(s.stats.count, |lens|), Add64(s.stats.byteCount, Sum(lens)))
    decreases |lens|
  {
    if lens == [] {
      assert Add64(s.stats.count, 0) == s.stats.count;
      assert Add64(s.stats.byteCount, 0) == s.stats.byteCount;
    } else {
      var init := lens[..|lens| - 1];
      PreciseStats(s, simple, init);
      Add64Twice(s.stats.count, |init|, 1);
      Add64Twice(s.stats.byteCount, Sum(init), lens[|lens| - 1]);
    }
  }

  /** Both batch modes end with the same counts. */
  lemma PreciseAgreesWithBatch(s: CounterState, simple: bool, lens: seq<u32>)
    ensures PreciseRun(s, simple, lens).0.stats == BatchStep(s, simple, lens).0.stats
  {
    PreciseStats(s, simple, lens);
    assert Sum64(lens) == Sum(lens) % U64_LIMIT;
    Add64Split(s.stats.byteCount, Sum(lens));
  }

  /** Adding y or y modulo 2^64 to a uint64_t gives the same result. */
  lemma Add64Split(x: u64, y: nat)
    ensures Add64(x, y % U64_LIMIT) == Add64(x, y)
  {
    var q := y / U64_LIMIT;
    assert y == q * U64_LIMIT + y % U64_LIMIT;
    assert x + y == q * U64_LIMIT + (x + y % U64_LIMIT);
  }

  /** The packet counts a precise run passes through: count + 1, ...,
      count + n, each modulo 2^64. */
  function CountValues(c: u64, n: nat): (r: seq<u64>)
    ensures |r| == n
  {
    seq(n, i requires 0 <= i < n => Add64(c, i + 1))
  }

  /** The byte counts a precise run passes through. */
  function ByteValues(b: u64, lens: seq<u32>): (r: seq<u64>)
    ensures |r| == |lens|
  {
    seq(|lens|, i requires 0 <= i < |lens| => Add64(b, Sum(lens[..i + 1])))
  }

  function CountCalls(f: seq<Fired>): (r: seq<bool>)
    ensures |r| == |f|
  {
    seq(|f|, i requires 0 <= i < |f| => f[i].countCall)
  }

  function ByteCalls(f: seq<Fired>): (r: seq<bool>)
    ensures |r| == |f|
  {
    seq(|f|, i requires 0 <= i < |f| => f[i].byteCall)
  }

  /** Outside simple mode a precise run shows the count trigger every
      intermediate count: its trigger and count calls are those of watching
      count + 1, ..., count + n. */
  lemma {:induction false} PreciseRunWatchesCount(s: CounterState, lens: seq<u32>)
    ensures PreciseRun(s, false, lens).0.triggers.count == Watch(s.triggers.count, CountValues(s.stats.count, |lens|)).0
    ensures CountCalls(PreciseRun(s, false, lens).1) == Watch(s.triggers.count, CountValues(s.stats.count, |lens|)).1
    decreases |lens|
  {
    if lens != [] {
      var n := |lens|;
      var init := lens[..n - 1];
      PreciseRunWatchesCount(s, init);
      PreciseStats(s, false, init);
      var before := PreciseRun(s, false, init);
      Add64Twice(s.stats.count, n - 1, 1);
      var cv := CountValues(s.stats.count, n);
      assert cv[..n - 1] == CountValues(s.stats.count, n - 1);
      var r := PreciseRun(s, false, lens);
      assert CountCalls(r.1) == CountCalls(before.1) + [r.1[n - 1].countCall];
    }
  }

  /** Likewise the byte trigger sees every intermediate byte count. */
  lemma {:induction false} PreciseRunWatchesBytes(s: CounterState, lens: seq<u32>)
    ensures PreciseRun(s, false, lens).0.triggers.bytes == Watch(s.triggers.bytes, ByteValues(s.stats.byteCount, lens)).0
    ensures ByteCalls(PreciseRun(s, false, lens).1) == Watch(s.triggers.bytes, ByteValues(s.stats.byteCount, lens)).1
    decreases |lens|
  {
    if lens != [] {
      var n := |lens|;
      var init := lens[..n - 1];
      PreciseRunWatchesBytes(s, init);
      PreciseStats(s, false, init);
      var before := PreciseRun(s, false, init);
      Add64Twice(s.stats.byteCount, Sum(init), lens[n - 1]);
      ByteValuesPrefix(s.stats.byteCount, lens);
      var step := PacketStep(before.0, false, lens[n - 1]);
      var r := PreciseRun(s, false, lens);
      assert r == (step.0, before.1 + [step.1]);
      assert step.0.stats.byteCount == Add64(s.stats.byteCount, Sum(lens));
      assert ByteCalls(r.1) == ByteCalls(before.1) + [step.1.byteCall];
    }
  }

  /** The byte counts of all but the last packet are those of the shorter
      run, and the last is the whole sum. */
  lemma {:induction false} ByteValuesPrefix(b: u64, lens: seq<u32>)
    requires lens != []
    ensures ByteValues(b, lens)[..|lens| - 1] == ByteValues(b, lens[..|lens| - 1])
    ensures ByteValues(b, lens)[|lens| - 1] == Add64(b, Sum(lens))
  {
    var n := |lens|;
    var init := lens[..n - 1];
    var bv := ByteValues(b, lens);
    var iv := ByteValues(b, init);
    forall i | 0 <= i < n - 1
      ensures bv[i] == iv[i]
    {
      assert lens[..i + 1] == init[..i + 1];
    }
    assert bv[..n - 1] == iv;
    assert lens[..n] == lens;
  }

  /** Per packet (BATCH_PRECISE), the count handler is called at most once,
      and it is called exactly when it is installed, has not fired since the
      reset and one of the intermediate counts equals the trigger. */
  lemma PreciseCountTrigger(s: CounterState, lens: seq<u32>)
    ensures CountTrue(CountCalls(PreciseRun(s, false, lens).1)) ==
      if s.triggers.count.hasCall && !s.triggers.count.triggered
         && exists i :: 1 <= i <= |lens| && Add64(s.stats.count, i) == s.triggers.count.at
      then 1 else 0
  {
    PreciseRunWatchesCount(s, lens);
    WatchFiresOnce(s.triggers.count, CountValues(s.stats.count, |lens|));
    InCountValues(s.stats.count, |lens|, s.triggers.count.at);
  }

  /** A value is among count + 1, ..., count + n exactly when one of those
      sums equals it. */
  lemma InCountValues(c: u64, n: nat, v: u64)
    ensures v in CountValues(c, n) <==> exists i :: 1 <= i <= n && Add64(c, i) == v
  {
    var cv := CountValues(c, n);
    if exists i :: 1 <= i <= n && Add64(c, i) == v {
      var i :| 1 <= i <= n && Add64(c, i) == v;
      assert cv[i - 1] == v;
    }
    if v in cv {
      var j :| 0 <= j < n && cv[j] == v;
      assert Add64(c, j + 1) == v;
    }
  }

  /** Per packet, the byte handler is likewise called at most once, exactly
      when one of the intermediate byte counts equals its trigger. */
  lemma PreciseByteTrigger(s: CounterState, lens: seq<u32>)
    ensures CountTrue(ByteCalls(PreciseRun(s, false, lens).1)) ==
      if s.triggers.bytes.hasCall && !s.triggers.bytes.triggered
         && s.triggers.bytes.at in ByteValues(s.stats.byteCount, lens)
      then 1 else 0
  {
    PreciseRunWatchesBytes(s, lens);
    WatchFiresOnce(s.triggers.bytes, ByteValues(s.stats.byteCount, lens));
  }

  /** The byte trigger tests equality, not "reaches or exceeds": from 0 bytes
      with the trigger at 100, one packet of 150 bytes passes it without a
      call, and the trigger stays armed. */
  lemma ByteTriggerNeedsEquality(s: CounterState)
    requires s.stats.byteCount == 0 && s.triggers.bytes == Trigger(100, false, true)
    ensures PreciseRun(s, false, [150]).0.stats.byteCount == 150
    ensures CountTrue(ByteCalls(PreciseRun(s, false, [150]).1)) == 0
    ensures !PreciseRun(s, false, [150]).0.triggers.bytes.triggered
  {
    PreciseByteTrigger(s, [150]);
    PreciseStats(s, false, [150]);
    PreciseRunWatchesBytes(s, [150]);
    assert [150][..1] == [150];
    assert Sum([150]) == 150;
    assert ByteValues(0, [150]) == [150];
  }

  /** Per batch (no BATCH_PRECISE) the count handler is called exactly when
      it is installed, has not fired and the count after the whole batch
      equals the trigger. */
  lemma BatchCountTrigger(s: CounterState, lens: seq<u32>)
    ensures BatchStep(s, false, lens).1.countCall <==>
      s.triggers.count.hasCall && !s.triggers.count.triggered && Add64(s.stats.count, |lens|) == s.triggers.count.at
  {
  }

  /** The difference between the two modes: from count 0 with the trigger at
      2, a batch of three packets calls the count handler when counted one by
      one, but never when counted as a batch, since the check sees only 3,
      and the trigger stays armed. */
  lemma JumpedTriggerNeverFires(s: CounterState, lens: seq<u32>)
    requires s.stats.count == 0 && s.triggers.count == Trigger(2, false, true) && |lens| == 3
    ensures CountTrue(CountCalls(PreciseRun(s, false, lens).1)) == 1
    ensures !BatchStep(s, false, lens).1.countCall
    ensures !BatchStep(s, false, lens).0.triggers.count.triggered
  {
    PreciseCountTrigger(s, lens);
    assert Add64(0, 2) == 2;
  }

  /** GET_COUNT and GET_COUNTS answer in unsigned 32-bit words, so the uint64
      counts are truncated to their low 32 bits. */
  function Low32(x: u64): u32 {
    x % U32_LIMIT
  }

  /** CLICK_LLRPC_COUNTS_SIZE */
  const LLRPC_COUNTS_SIZE: nat := 8

  datatype LlrpcCommand =
    | GetRate(rateSel: u32)
    | GetCount(sel: u32)
    | GetCounts(n: u32, keys: seq<u32>)
    | OtherCommand

  datatype LlrpcReply =
    | Einval
    | Value(v: u32)
    | Values(vs: seq<u32>)
    /** Passed on to Element::llrpc. */
    | Unhandled

  /** The leading word of a COUNT_CALL or BYTE_COUNT_CALL argument as an
      unsigned integer (None on a type mismatch), saturated to 2^64 - 1. */
  datatype CallArg = CallArg(first: Option<nat>)

  /** The parsed keywords: NO_RATE, COUNT_CALL, BYTE_COUNT_CALL,
      BATCH_PRECISE and ATOMIC (0 to 2). */
  datatype CounterArgs = CounterArgs(noRate: bool, countCall: Option<CallArg>, byteCountCall: Option<CallArg>, batchPrecise: bool, atomic: nat)

  function Saturate64(v: nat): u64 {
    if v < U64_LIMIT then v else U64_LIMIT - 1
  }

  /** The lengths of the packets of a batch. */
  function Lengths(batch: seq<Packet>): (r: seq<u32>)
    ensures |r| == |batch| && forall i :: 0 <= i < |batch| ==> r[i] == batch[i].length
  {
    seq(|batch|, i requires 0 <= i < |batch| => batch[i].length)
  }

  class Counter {
    var count: u64
    var byteCount: u64
    var countTrigger: u64
    var countTriggered: bool
    var hasCountCall: bool
    var byteTrigger: u64
    var byteTriggered: bool
    var hasByteCall: bool
    var batchPrecise: bool
    var atomic: nat
    var simple: bool

    function State(): CounterState
      reads this
    {
      CounterState(Stats(count, byteCount),
        Triggers(Trigger(countTrigger, countTriggered, hasCountCall), Trigger(byteTrigger, byteTriggered, hasByteCall)))
    }

    /** The element as created: no handler calls, not precise, not atomic,
        not simple. */
    constructor ()
      ensures !hasCountCall && !hasByteCall && !batchPrecise && atomic == 0 && !simple
    {
      count, byteCount := 0, 0;
      countTrigger, countTriggered, hasCountCall := 0, false, false;
      byteTrigger, byteTriggered, hasByteCall := 0, false, false;
      batchPrecise, atomic, simple := false, 0, false;
    }

    /** configure: `args` is None when the keywords do not parse, and then
        nothing changes. NO_RATE without either call selects simple mode. A
        call whose count is not an integer fails configure after the
        keywords, and any trigger parsed before it, are stored. A missing
        call leaves its trigger at 2^64 - 1. */
    method Configure(args: Option<CounterArgs>) returns (ok: bool)
      requires args.Some? ==> args.value.atomic <= 2
      modifies this
      ensures ok ==> args.Some?
      ensures args.None? ==> State() == old(State()) && batchPrecise == old(batchPrecise) && atomic == old(atomic) && simple == old(simple)
      ensures args.Some? ==>
        var a := args.value;
        && batchPrecise == a.batchPrecise && atomic == a.atomic
        && simple == (old(simple) || (a.countCall.None? && a.byteCountCall.None? && a.noRate))
        && (ok <==> (a.countCall.Some? ==> a.countCall.value.first.Some?) && (a.byteCountCall.Some? ==> a.byteCountCall.value.first.Some?))
        && (a.countCall.None? ==> countTrigger == NO_TRIGGER && hasCountCall == old(hasCountCall))
        && (a.countCall.Some? && a.countCall.value.first.Some? ==> countTrigger == Saturate64(a.countCall.value.first.value) && hasCountCall)
        && (a.countCall.Some? && a.countCall.value.first.None? ==>
              countTrigger == old(countTrigger) && hasCountCall == old(hasCountCall) && byteTrigger == old(byteTrigger) && hasByteCall == old(hasByteCall))
        && ((a.countCall.None? || a.countCall.value.first.Some?) ==>
             && (a.byteCountCall.None? ==> byteTrigger == NO_TRIGGER && hasByteCall == old(hasByteCall))
             && (a.byteCountCall.Some? && a.byteCountCall.value.first.Some? ==> byteTrigger == Saturate64(a.byteCountCall.value.first.value) && hasByteCall)
             && (a.byteCountCall.Some? && a.byteCountCall.value.first.None? ==> byteTrigger == old(byteTrigger) && hasByteCall == old(hasByteCall)))
      ensures count == old(count) && byteCount == old(byteCount)
      ensures countTriggered == old(countTriggered) && byteTriggered == old(byteTriggered)
    {
      if args.None? {
        return false;
      }
      var a := args.value;
      batchPrecise, atomic := a.batchPrecise, a.atomic;
      if a.countCall.None? && a.byteCountCall.None? && a.noRate {
        simple := true;
      }
      if a.countCall.Some? {
        var first := a.countCall.value.first;
        if first.None? {
          return false;
        }
        countTrigger := Saturate64(first.value);
        hasCountCall := true;
      } else {
        countTrigger := NO_TRIGGER;
      }
      if a.byteCountCall.Some? {
        var first := a.byteCountCall.value.first;
        if first.None? {
          return false;
        }
        byteTrigger := Saturate64(first.value);
        hasByteCall := true;
      } else {
        byteTrigger := NO_TRIGGER;
      }
      ok := true;
    }

    /** reset: both counts to 0; outside simple mode the triggers are armed
        again. */
    method Reset()
      modifies this
      ensures count == 0 && byteCount == 0
      ensures !simple ==> !countTriggered && !byteTriggered
      ensures simple ==> countTriggered == old(countTriggered) && byteTriggered == old(byteTriggered)
      ensures countTrigger == old(countTrigger) && byteTrigger == old(byteTrigger)
      ensures hasCountCall == old(hasCountCall) && hasByteCall == old(hasByteCall)
      ensures batchPrecise == old(batchPrecise) && atomic == old(atomic) && simple == old(simple)
    {
      count, byteCount := 0, 0;
      if simple {
        return;
      }
      countTriggered, byteTriggered := false, false;
    }

    /** initialize: `handlersOk` says whether the installed handler calls
        resolved. Then the counts are reset; a plain Counter cannot be atomic,
        so ATOMIC above 0 fails. */
    method Initialize(handlersOk: bool) returns (ok: bool)
      modifies this
      ensures ok <==> handlersOk && atomic == 0
      ensures !handlersOk ==> State() == old(State())
      ensures handlersOk ==> count == 0 && byteCount == 0 && (!simple ==> !countTriggered && !byteTriggered)
      ensures countTrigger == old(countTrigger) && byteTrigger == old(byteTrigger)
      ensures hasCountCall == old(hasCountCall) && hasByteCall == old(hasByteCall)
      ensures batchPrecise == old(batchPrecise) && atomic == old(atomic) && simple == old(simple)
    {
      if !handlersOk {
        return false;
      }
      Reset();
      ok := atomic == 0;
    }

    /** simple_action: the packet passes unchanged, counted as PacketStep
        says. */
    method SimpleAction(p: Packet) returns (out: Packet, fired: Fired)
      modifies this
      ensures out == p
      ensures (State(), fired) == PacketStep(old(State()), simple, p.length)
      ensures batchPrecise == old(batchPrecise) && atomic == old(atomic) && simple == old(simple)
    {
      count := Add64(count, 1);
      byteCount := Add64(byteCount, p.length);
      out, fired := p, Fired(false, false);
      if simple {
        return;
      }
      var countCall, byteCall := false, false;
      if count == countTrigger && !countTriggered {
        countTriggered := true;
        countCall := hasCountCall;
      }
      if byteCount == byteTrigger && !byteTriggered {
        byteTriggered := true;
        byteCall := hasByteCall;
      }
      fired := Fired(countCall, byteCall);
    }

    /** simple_action_batch: the batch passes unchanged. With BATCH_PRECISE
        each packet is counted as simple_action counts it, with one entry of
        `fired` per packet; otherwise the lengths are summed and the batch is
        counted as BatchStep says, with a single entry. */
    method SimpleActionBatch(batch: seq<Packet>) returns (out: seq<Packet>, fired: seq<Fired>)
      modifies this
      ensures out == batch
      ensures batchPrecise ==> (State(), fired) == PreciseRun(old(State()), simple, Lengths(batch))
      ensures !batchPrecise ==>
        var b := BatchStep(old(State()), simple, Lengths(batch));
        State() == b.0 && fired == [b.1]
      ensures batchPrecise == old(batchPrecise) && atomic == old(atomic) && simple == old(simple)
    {
      out := batch;
      ghost var lens := Lengths(batch);
      if batchPrecise {
        fired := [];
        ghost var s0 := State();
        var i := 0;
        while i < |batch|
          invariant 0 <= i <= |batch|
          invariant batchPrecise == old(batchPrecise) && atomic == old(atomic) && simple == old(simple)
          invariant (State(), fired) == PreciseRun(s0, simple, lens[..i])
        {
          assert lens[..i + 1][..i] == lens[..i];
          var _, f := SimpleAction(batch[i]);
          fired := fired + [f];
          i := i + 1;
        }
        assert lens[..i] == lens;
        return;
      }
      var bc: u64 := 0;
      var i := 0;
      while i < |batch|
        invariant 0 <= i <= |batch|
        invariant bc == Sum64(lens[..i])
      {
        assert lens[..i + 1][..i] == lens[..i];
        bc := Add64(bc, batch[i].length);
        i := i + 1;
      }
      assert lens[..i] == lens;
      count := Add64(count, |batch|);
      byteCount := Add64(byteCount, bc);
      if simple {
        fired := [Fired(false, false)];
        return;
      }
      var countCall, byteCall := false, false;
      if count == countTrigger && !countTriggered {
        countTriggered := true;
        countCall := hasCountCall;
      }
      if byteCount == byteTrigger && !byteTriggered {
        byteTriggered := true;
        byteCall := hasByteCall;
      }
      fired := [Fired(countCall, byteCall)];
    }

    /** count and byte_count. */
    function Read(): (r: Stats)
      reads this
      ensures r == State().stats
    {
      Stats(count, byteCount)
    }

    /** atomic_read: a plain Counter reads non-atomically, exactly as read. */
    function AtomicRead(): (r: Stats)
      reads this
      ensures r == Read()
    {
      Read()
    }

    /** add: both counts rise by the given stats, modulo 2^64; nothing is
        checked. */
    method Add(s: Stats)
      modifies this
      ensures Read() == Stats(Add64(old(count), s.count), Add64(old(byteCount), s.byteCount))
      ensures State().triggers == old(State().triggers)
      ensures batchPrecise == old(batchPrecise) && atomic == old(atomic) && simple == old(simple)
    {
      count := Add64(count, s.count);
      byteCount := Add64(byteCount, s.byteCount);
    }

    /** atomic_add: a plain Counter adds non-atomically, exactly as add. */
    method AtomicAdd(s: Stats)
      modifies this
      ensures Read() == Stats(Add64(old(count), s.count), Add64(old(byteCount), s.byteCount))
      ensures State().triggers == old(State().triggers)
      ensures batchPrecise == old(batchPrecise) && atomic == old(atomic) && simple == old(simple)
    {
      Add(s);
    }

    /** The count_call and byte_call write handlers. `first` is the leading
        word as an unsigned integer (None when it is not one); `handler` is
        the outcome of installing the rest as a handler call: None when that
        fails, otherwise whether a handler is now installed. The trigger is
        stored before the handler is installed, so a failed install keeps the
        new trigger but does not re-arm it. */
    method WriteCountCall(first: Option<u64>, handler: Option<bool>) returns (ok: bool)
      modifies this
      ensures ok <==> first.Some? && handler.Some?
      ensures countTrigger == if first.Some? then first.value else old(countTrigger)
      ensures ok ==> !countTriggered && hasCountCall == handler.value
      ensures !ok ==> countTriggered == old(countTriggered) && hasCountCall == old(hasCountCall)
      ensures Read() == old(Read()) && State().triggers.bytes == old(State().triggers.bytes)
      ensures batchPrecise == old(batchPrecise) && atomic == old(atomic) && simple == old(simple)
    {
      if first.None? {
        return false;
      }
      countTrigger := first.value;
      if handler.None? {
        return false;
      }
      hasCountCall := handler.value;
      countTriggered := false;
      ok := true;
    }

    method WriteByteCountCall(first: Option<u64>, handler: Option<bool>) returns (ok: bool)
      modifies this
      ensures ok <==> first.Some? && handler.Some?
      ensures byteTrigger == if first.Some? then first.value else old(byteTrigger)
      ensures ok ==> !byteTriggered && hasByteCall == handler.value
      ensures !ok ==> byteTriggered == old(byteTriggered) && hasByteCall == old(hasByteCall)
      ensures Read() == old(Read()) && State().triggers.count == old(State().triggers.count)
      ensures batchPrecise == old(batchPrecise) && atomic == old(atomic) && simple == old(simple)
    {
      if first.None? {
        return false;
      }
      byteTrigger := first.value;
      if handler.None? {
        return false;
      }
      hasByteCall := handler.value;
      byteTriggered := false;
      ok := true;
    }

    /** The count selected by an llrpc key: 0 for packets, 1 for bytes,
        truncated to 32 bits. */
    function Selected(key: u32): u32
      requires key <= 1
      reads this
    {
      if key == 0 then Low32(count) else Low32(byteCount)
    }

    /** llrpc. GET_RATE accepts only selector 0 and answers `rate`, the
        averaged rate; GET_COUNT accepts selector 0 or 1; GET_COUNTS accepts
        fewer than CLICK_LLRPC_COUNTS_SIZE keys, each 0 or 1, and answers
        one count per key. Anything else is EINVAL; other commands are
        passed on. */
    method Llrpc(cmd: LlrpcCommand, rate: u32) returns (r: LlrpcReply)
      requires cmd.GetCounts? ==> |cmd.keys| == LLRPC_COUNTS_SIZE
      ensures cmd.GetRate? ==> r == if cmd.rateSel == 0 then Value(rate) else Einval
      ensures cmd.GetCount? ==> r == if cmd.sel <= 1 then Value((if cmd.sel == 0 then count else byteCount) % U32_LIMIT) else Einval
      ensures cmd.GetCounts? ==>
        if cmd.n < LLRPC_COUNTS_SIZE && forall i :: 0 <= i < cmd.n ==> cmd.keys[i] <= 1
        then r.Values? && |r.vs| == cmd.n && forall i :: 0 <= i < cmd.n ==> r.vs[i] == (if cmd.keys[i] == 0 then count else byteCount) % U32_LIMIT
        else r == Einval
      ensures cmd.OtherCommand? ==> r == Unhandled
    {
      match cmd {
        case GetRate(sel) =>
          r := if sel == 0 then Value(rate) else Einval;
        case GetCount(sel) =>
          r := if sel <= 1 then Value(Selected(sel)) else Einval;
        case GetCounts(n, keys) =>
          if n >= LLRPC_COUNTS_SIZE {
            return Einval;
          }
          var values: seq<u32> := [];
          var i := 0;
          while i < n
            invariant 0 <= i <= n
            invariant forall j :: 0 <= j < i ==> keys[j] <= 1
            invariant |values| == i && forall j :: 0 <= j < i ==> values[j] == Selected(keys[j])
          {
            if keys[i] == 0 {
              values := values + [Low32(count)];
            } else if keys[i] == 1 {
              values := values + [Low32(byteCount)];
            } else {
              return Einval;
            }
            i := i + 1;
          }
          r := Values(values);
        case OtherCommand =>
          r := Unhandled;
      }
    }
  }
}
