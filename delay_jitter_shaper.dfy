/** DelayJitterShaper: holds one packet at a time and releases it no earlier
    than its arrival time plus DELAY plus the current jitter. The jitter is a
    random number of microseconds in 0..JITTER, redrawn once every BURST
    packets. Times are whole microseconds. */
module DelayJitterShaperElement {
  import opened Common

  const USEC_PER_SEC: int := 1_000_000

  /** `_p->timestamp_anno()` is replaced by the current time when its seconds
      field is 0, i.e. when the packet carries no timestamp yet. */
  function Stamped(ts: int, now: int): int {
    if 0 <= ts < USEC_PER_SEC then now else ts
  }

  /** `_count` and `_currentJitter`. */
  datatype JitterState = JitterState(count: int, current: int)

  /** The jitter choice made when a packet is admitted: with a non-zero
      JITTER, once `_count` has reached BURST the count restarts from 0 and
      the jitter becomes the draw; otherwise nothing changes. */
  function NextJitter(js: JitterState, jitter: nat, burst: int, draw: int): JitterState {
    if jitter != 0 && js.count >= burst then JitterState(0, draw) else js
  }

  /** One packet through the element: admitted (possibly redrawing), then
      released, which adds one to the count. Returns the jitter the packet
      was delayed by and the state after its release. */
  function PacketJitter(js: JitterState, jitter: nat, burst: int, draw: int): (r: (int, JitterState))
    ensures r.0 == if jitter != 0 && js.count >= burst then draw else js.current
    ensures r.1.count == if jitter != 0 && js.count >= burst then 1 else js.count + 1
    ensures r.1.current == r.0
  {
    var n := NextJitter(js, jitter, burst, draw);
    (n.current, JitterState(n.count + 1, n.current))
  }

  /** The jitters of consecutive packets, `draws[i]` being the value
      click_random would give at packet i, and the final state. */
  function JitterRun(js: JitterState, jitter: nat, burst: int, draws: seq<int>): (r: (seq<int>, JitterState))
    ensures |r.0| == |draws|
    decreases |draws|
  {
    if draws == [] then ([], js)
    else
      var step := PacketJitter(js, jitter, burst, draws[0]);
      var rest := JitterRun(step.1, jitter, burst, draws[1..]);
      ([step.0] + rest.0, rest.1)
  }

  /** Inside a burst (0 <= count < BURST) the next BURST - count packets keep
      the current jitter, whatever the draws, and the count ends at BURST. */
  lemma {:induction false} WithinBurst(js: JitterState, jitter: nat, burst: int, draws: seq<int>)
    requires 0 <= js.count < burst && |draws| == burst - js.count
    ensures JitterRun(js, jitter, burst, draws) == (seq(|draws|, i => js.current), JitterState(burst, js.current))
    decreases |draws|
  {
    var step := PacketJitter(js, jitter, burst, draws[0]);
    assert step == (js.current, JitterState(js.count + 1, js.current));
    if |draws| > 1 {
      WithinBurst(step.1, jitter, burst, draws[1..]);
    }
    assert [js.current] + seq(|draws| - 1, i => js.current) == seq(|draws|, i => js.current);
  }

  /** With a non-zero JITTER and BURST >= 1, a packet admitted when the count
      has reached BURST draws a new jitter, the next BURST packets (it
      included) all share that draw, and the packet after them draws again. */
  lemma BurstSharesDraw(js: JitterState, jitter: nat, burst: int, draws: seq<int>)
    requires jitter != 0 && burst >= 1 && js.count >= burst && |draws| > burst
    ensures JitterRun(js, jitter, burst, draws).0[..burst] == seq(burst, i => draws[0])
    ensures JitterRun(js, jitter, burst, draws).0[burst] == draws[burst]
  {
    var first := PacketJitter(js, jitter, burst, draws[0]);
    assert first == (draws[0], JitterState(1, draws[0]));
    var d := draws[1..];
    JitterRunSplit(first.1, jitter, burst, d, burst - 1);
    if burst > 1 {
      WithinBurst(first.1, jitter, burst, d[..burst - 1]);
    } else {
      assert d[..0] == [];
    }
    var tail := JitterRun(JitterState(burst, draws[0]), jitter, burst, d[burst - 1..]);
    assert d[burst - 1..][0] == draws[burst];
    assert tail.0[0] == draws[burst];
    var run := JitterRun(js, jitter, burst, draws);
    assert run.0 == [draws[0]] + (seq(burst - 1, i => draws[0]) + tail.0);
    assert run.0[..burst] == seq(burst, i => draws[0]);
  }

  /** Running the packets of a + b draws is running a and then b. */
  lemma {:induction false} JitterRunSplit(js: JitterState, jitter: nat, burst: int, draws: seq<int>, a: nat)
    requires a <= |draws|
    ensures JitterRun(js, jitter, burst, draws).0 ==
      JitterRun(js, jitter, burst, draws[..a]).0 + JitterRun(JitterRun(js, jitter, burst, draws[..a]).1, jitter, burst, draws[a..]).0
    ensures JitterRun(js, jitter, burst, draws).1 ==
      JitterRun(JitterRun(js, jitter, burst, draws[..a]).1, jitter, burst, draws[a..]).1
    decreases a
  {
    if a > 0 {
      var step := PacketJitter(js, jitter, burst, draws[0]);
      JitterRunSplit(step.1, jitter, burst, draws[1..], a - 1);
      assert draws[..a][1..] == draws[1..][..a - 1];
      assert draws[1..][a - 1..] == draws[a..];
    } else {
      assert draws[..0] == [] && draws[0..] == draws;
    }
  }

  /** With JITTER 0 the jitter is never redrawn: every packet gets the
      current one. */
  lemma {:induction false} ZeroJitterKeepsCurrent(js: JitterState, burst: int, draws: seq<int>)
    ensures JitterRun(js, 0, burst, draws).0 == seq(|draws|, i => js.current)
    decreases |draws|
  {
    if draws != [] {
      var step := PacketJitter(js, 0, burst, draws[0]);
      ZeroJitterKeepsCurrent(step.1, burst, draws[1..]);
      assert [js.current] + seq(|draws| - 1, i => js.current) == seq(|draws|, i => js.current);
    }
  }

  /** With BURST at most 0 (a negative value written to the burst handler, or
      a configured BURST above 2^31 - 1 read back as a negative int) and a
      non-zero JITTER, every packet draws afresh. */
  lemma {:induction false} NonPositiveBurstRedrawsEach(js: JitterState, jitter: nat, burst: int, draws: seq<int>)
    requires jitter != 0 && burst <= 0 && js.count >= 0
    ensures JitterRun(js, jitter, burst, draws).0 == draws
    decreases |draws|
  {
    if draws != [] {
      var step := PacketJitter(js, jitter, burst, draws[0]);
      NonPositiveBurstRedrawsEach(step.1, jitter, burst, draws[1..]);
      assert [draws[0]] + draws[1..] == draws;
    }
  }

  /** The parsed configuration: DELAY, JITTER (default 0) and BURST (an
      unsigned, default 1). */
  datatype ShaperArgs = ShaperArgs(delay: int, jitter: nat, burst: u32)

  class DelayJitterShaper {
    /** `_p`: the held packet, its timestamp annotation holding its release
        time. */
    var slot: Option<Packet>
    var delay: int
    var jitter: nat
    var currentJitter: int
    var burst: int
    var count: int
    /** The time `_timer` is scheduled at, if any. */
    var timerAt: Option<int>
    /** Whether `_notifier` is active. */
    var awake: bool
    /** What the held packet's release time is made of: the time it was
        stamped with, the DELAY and the jitter in force when it was
        admitted. */
    ghost var arrival: int
    ghost var heldDelay: int
    ghost var heldJitter: int

    ghost predicate Valid()
      reads this
    {
      && currentJitter >= 0
      && (slot.Some? ==> slot.value.timestamp == arrival + heldDelay + heldJitter && heldJitter >= 0)
    }

    function Jitter(): JitterState
      reads this
    {
      JitterState(count, currentJitter)
    }

    /** The ghost account of the held packet's release time. */
    ghost function Held(): (int, int, int)
      reads this
    {
      (arrival, heldDelay, heldJitter)
    }

    constructor ()
      ensures Valid() && slot.None? && count == 0 && currentJitter == 0
    {
      slot, delay, jitter, currentJitter, burst, count := None, 0, 0, 0, 0, 0;
      timerAt, awake := None, false;
      arrival, heldDelay, heldJitter := 0, 0, 0;
    }

    /** configure: `args` is None when the keywords do not parse, and then
        nothing changes. The unsigned BURST is stored in an int, so a value
        above 2^31 - 1 reads back negative. The current jitter starts at
        JITTER and the count at 1. */
    method Configure(args: Option<ShaperArgs>) returns (ok: bool)
      requires Valid()
      modifies this
      ensures Valid() && (ok <==> args.Some?)
      ensures ok ==> delay == args.value.delay && jitter == args.value.jitter
      ensures ok ==> burst == AsSigned32(args.value.burst) && Jitter() == JitterState(1, args.value.jitter)
      ensures !ok ==> delay == old(delay) && jitter == old(jitter) && burst == old(burst) && Jitter() == old(Jitter())
      ensures slot == old(slot) && timerAt == old(timerAt) && awake == old(awake) && Held() == old(Held())
    {
      if args.None? {
        return false;
      }
      var a := args.value;
      delay := a.delay;
      burst := AsSigned32(a.burst);
      jitter := a.jitter;
      currentJitter := a.jitter;
      count := 1;
      ok := true;
    }

    /** pull. The element pulls upstream only when it holds nothing; `up` is
        what that pull returns, `draw` what click_random(0, JITTER) would
        return, `adjustment` is Timer::adjustment() and `upstreamActive` the
        upstream empty signal. A new packet is stamped if it has no time yet,
        the jitter is redrawn per NextJitter, and its release time set. A held
        packet whose release time has come is returned stamped with `now`;
        otherwise the element stays awake if the release is within
        `adjustment`, and sleeps with the timer set otherwise. */
    method Pull(now: int, adjustment: int, up: Option<Packet>, upstreamActive: bool, draw: int)
      returns (r: Option<Packet>, pulled: bool)
      requires Valid() && 0 <= draw <= jitter
      modifies this
      ensures Valid()
      ensures pulled <==> old(slot).None?
      ensures delay == old(delay) && jitter == old(jitter) && burst == old(burst)
      // admission
      ensures pulled && up.Some? ==>
        var js := NextJitter(old(Jitter()), jitter, burst, draw);
        && currentJitter == js.current
        && arrival == Stamped(up.value.timestamp, now) && heldDelay == delay && heldJitter == js.current
        && count == (if r.Some? then js.count + 1 else js.count)
      ensures !(pulled && up.Some?) ==>
        currentJitter == old(currentJitter) && count == (if r.Some? then old(count) + 1 else old(count))
      ensures !(pulled && up.Some?) ==> Held() == old(Held())
      // release
      ensures r.Some? && !pulled ==> old(slot).value.timestamp <= now
      ensures r.Some? ==>
        && arrival + heldDelay + heldJitter <= now
        && arrival + heldDelay <= now
        && slot.None?
        && (if pulled then up.Some? && r.value == up.value.(timestamp := now) else r.value == old(slot).value.(timestamp := now))
      ensures r.None? && slot.Some? ==>
        && slot.value.timestamp > now
        && (pulled ==> up.Some?)
        && slot == (if pulled then Some(up.value.(timestamp := arrival + heldDelay + heldJitter)) else old(slot))
        && (slot.value.timestamp - adjustment <= now ==> awake && timerAt == old(timerAt))
        && (slot.value.timestamp - adjustment > now ==> !awake && timerAt == Some(slot.value.timestamp - adjustment))
      ensures slot.None? && r.None? ==>
        pulled && up.None? && timerAt == old(timerAt) && awake == (if upstreamActive then old(awake) else false)
    {
      pulled := slot.None?;
      if slot.None? && up.Some? {
        var p := up.value;
        var ts := Stamped(p.timestamp, now);
        if jitter != 0 && count >= burst {
          count := 0;
          currentJitter := draw;
        }
        arrival, heldDelay, heldJitter := ts, delay, currentJitter;
        slot := Some(p.(timestamp := ts + delay + currentJitter));
      }
      if slot.Some? {
        var p := slot.value;
        if p.timestamp <= now {
          r := Some(p.(timestamp := now));
          slot := None;
          count := count + 1;
          return;
        }
        var expiry := p.timestamp - adjustment;
        if expiry <= now {
          awake := true;
        } else {
          timerAt := Some(expiry);
          awake := false;
        }
      } else if !upstreamActive {
        awake := false;
      }
      r := None;
    }

    /** run_timer: wake the notifier. */
    method RunTimer()
      modifies this
      ensures awake
      ensures slot == old(slot) && Jitter() == old(Jitter()) && timerAt == old(timerAt) && Held() == old(Held())
      ensures delay == old(delay) && jitter == old(jitter) && burst == old(burst)
    {
      awake := true;
    }

    /** cleanup: the held packet, if any, is freed; it is returned here. */
    method Cleanup() returns (killed: Option<Packet>)
      ensures killed == slot
    {
      killed := slot;
    }

    /** The delay write handler: text that is not a time is rejected and
        nothing changes. A held packet keeps its release time. */
    method WriteDelay(parsed: Option<int>) returns (ok: bool)
      requires Valid()
      modifies this
      ensures Valid() && (ok <==> parsed.Some?)
      ensures delay == if ok then parsed.value else old(delay)
      ensures jitter == old(jitter) && burst == old(burst) && Jitter() == old(Jitter()) && slot == old(slot)
      ensures Held() == old(Held())
    {
      if parsed.None? {
        return false;
      }
      delay := parsed.value;
      ok := true;
    }

    /** The jitter write handler: sets the bound of later draws; the current
        jitter stays until the next draw. */
    method WriteJitter(parsed: Option<nat>) returns (ok: bool)
      requires Valid()
      modifies this
      ensures Valid() && (ok <==> parsed.Some?)
      ensures jitter == if ok then parsed.value else old(jitter)
      ensures delay == old(delay) && burst == old(burst) && Jitter() == old(Jitter()) && slot == old(slot)
      ensures Held() == old(Held())
    {
      if parsed.None? {
        return false;
      }
      jitter := parsed.value;
      ok := true;
    }

    /** The burst write handler: `parsed` is the int cp_integer reads, or
        None when the text is not an integer. */
    method WriteBurst(parsed: Option<int>) returns (ok: bool)
      requires Valid()
      requires parsed.Some? ==> -0x8000_0000 <= parsed.value < 0x8000_0000
      modifies this
      ensures Valid() && (ok <==> parsed.Some?)
      ensures burst == if ok then parsed.value else old(burst)
      ensures delay == old(delay) && jitter == old(jitter) && Jitter() == old(Jitter()) && slot == old(slot)
      ensures Held() == old(Held())
    {
      if parsed.None? {
        return false;
      }
      burst := parsed.value;
      ok := true;
    }
  }
}
