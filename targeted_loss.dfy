/** TargetedLoss: among packets that match the rules, a sampled match starts a
    burst, and every match of a burst is dropped until the burst counter
    reaches BURST. Non-matching packets pass and never move the burst. */
module TargetedLossElement {
  import opened Common
  import opened Sampling
  import opened PrefixMatch

  /** `_sampling`, `_packet_count` and `_drops`. */
  datatype BurstState = BurstState(sampling: bool, packetCount: u32, drops: u32)

  /** The outcome of one matching packet. */
  datatype Verdict = Verdict(drop: bool, next: BurstState)

  /** Outside a burst the progress counter is 0. initialize establishes it and
      every match keeps it. */
  predicate Settled(s: BurstState) {
    s.sampling || s.packetCount == 0
  }

  /** What pull does with a matching packet: a burst starts when none is
      running and the draw is sampled; during a burst the packet is dropped,
      the drop and progress counters rise, and progress reaching BURST ends
      the burst. A packet outside a burst passes and changes nothing. */
  function OnMatch(s: BurstState, prob: u32, burst: u32, draw: u32): (v: Verdict)
    ensures v.drop <==> s.sampling || Sampled(draw, prob)
    ensures !v.drop ==> v.next == s
    ensures v.drop ==> v.next.drops == Inc32(s.drops)
    ensures v.drop ==> (v.next.sampling <==> Inc32(s.packetCount) < burst)
    ensures Settled(s) ==> Settled(v.next)
  {
    var sampling := s.sampling || Sampled(draw, prob);
    if !sampling then Verdict(false, s)
    else
      var count := Inc32(s.packetCount);
      var drops := Inc32(s.drops);
      if count >= burst then Verdict(true, BurstState(false, 0, drops))
      else Verdict(true, BurstState(true, count, drops))
  }

  /** The drop decisions for consecutive matching packets, one random draw
      each, and the state after them. */
  function LossRun(s: BurstState, prob: u32, burst: u32, draws: seq<u32>): (r: (seq<bool>, BurstState))
    ensures |r.0| == |draws|
    decreases |draws|
  {
    if draws == [] then ([], s)
    else
      var v := OnMatch(s, prob, burst, draws[0]);
      var rest := LossRun(v.next, prob, burst, draws[1..]);
      ([v.drop] + rest.0, rest.1)
  }

  function Max1(b: u32): nat {
    if b == 0 then 1 else b
  }

  /** Inside a burst at progress c < BURST, the next BURST - c matches are all
      dropped whatever their draws, and then the burst is over. */
  lemma {:induction false} BurstTail(s: BurstState, prob: u32, burst: u32, draws: seq<u32>)
    requires s.sampling && s.packetCount < burst
    requires |draws| == burst - s.packetCount
    ensures LossRun(s, prob, burst, draws) == (seq(|draws|, i => true), BurstState(false, 0, Add32(s.drops, |draws|)))
    decreases |draws|
  {
    var v := OnMatch(s, prob, burst, draws[0]);
    assert Inc32(s.packetCount) == s.packetCount + 1;
    Add32Inc(s.drops, |draws| - 1);
    if |draws| > 1 {
      BurstTail(v.next, prob, burst, draws[1..]);
    } else {
      assert Add32(v.next.drops, 0) == v.next.drops;
    }
    assert [true] + seq(|draws| - 1, i => true) == seq(|draws|, i => true);
  }

  /** A burst that starts from rest drops max(BURST, 1) consecutive matching
      packets (the first one included) and leaves the element at rest, with the
      drop counter raised by that many. */
  lemma BurstLength(s: BurstState, prob: u32, burst: u32, draws: seq<u32>)
    requires !s.sampling && s.packetCount == 0
    requires |draws| == Max1(burst) && Sampled(draws[0], prob)
    ensures LossRun(s, prob, burst, draws) == (seq(|draws|, i => true), BurstState(false, 0, Add32(s.drops, |draws|)))
  {
    var v := OnMatch(s, prob, burst, draws[0]);
    Add32Inc(s.drops, |draws| - 1);
    if burst > 1 {
      BurstTail(v.next, prob, burst, draws[1..]);
    } else {
      assert Add32(v.next.drops, 0) == v.next.drops;
    }
    assert [true] + seq(|draws| - 1, i => true) == seq(|draws|, i => true);
  }

  /** Outside a burst, a matching packet whose draw is not sampled passes and
      changes nothing; so with probability 0 only a draw whose low 28 bits are
      all zero can start a burst. */
  lemma {:induction false} NoBurstWithoutSample(s: BurstState, prob: u32, burst: u32, draws: seq<u32>)
    requires !s.sampling
    requires forall i :: 0 <= i < |draws| ==> !Sampled(draws[i], prob)
    ensures LossRun(s, prob, burst, draws) == (seq(|draws|, i => false), s)
    decreases |draws|
  {
    if draws != [] {
      assert !Sampled(draws[0], prob);
      assert OnMatch(s, prob, burst, draws[0]) == Verdict(false, s);
      NoBurstWithoutSample(s, prob, burst, draws[1..]);
      assert [false] + seq(|draws| - 1, i => false) == seq(|draws|, i => false);
    } else {
      assert seq(|draws|, i => false) == [];
    }
  }

  /** The parsed configuration: P, BURST, the rule keywords and ACTIVE. */
  datatype LossArgs = LossArgs(prob: u32, burst: u32, rules: RuleArgs, active: bool)

  class TargetedLoss {
    var samplingProb: u32
    var burst: u32
    var drops: u32
    var packetCount: u32
    var sampling: bool
    var active: bool
    var rules: RuleSet

    function State(): BurstState
      reads this
    {
      BurstState(sampling, packetCount, drops)
    }

    /** The element as created, before configure. */
    constructor ()
      ensures State() == BurstState(false, 0, 0) && !active
      ensures !rules.sourceSet && !rules.destSet
    {
      var zero := Rule(0, 0);
      samplingProb, burst, drops, packetCount, sampling, active := 0, 0, 0, 0, false, false;
      rules := RuleSet(zero, zero, zero, false, false);
    }

    /** configure: `args` is None when the keywords do not parse (P defaults to
        0xFFFFFFFF, BURST to 1). The SOURCE and DEST flags are cleared first.
        Fails on PREFIX together with SOURCE/DEST. */
    method Configure(args: Option<LossArgs>) returns (ok: bool)
      modifies this
      ensures ok <==> args.Some? && !Conflicting(args.value.rules)
      ensures ok ==> rules == ConfiguredRules(old(rules).(sourceSet := false, destSet := false), args.value.rules)
      ensures ok ==> samplingProb == args.value.prob && burst == args.value.burst && active == args.value.active
      ensures !ok ==> rules == old(rules).(sourceSet := false, destSet := false)
      ensures !ok ==> samplingProb == old(samplingProb) && burst == old(burst) && active == old(active)
      ensures State() == old(State())
    {
      rules := rules.(sourceSet := false, destSet := false);
      if args.None? {
        return false;
      }
      var a := args.value;
      if Conflicting(a.rules) {
        return false;
      }
      rules := ConfiguredRules(rules, a.rules);
      samplingProb, active, burst := a.prob, a.active, a.burst;
      ok := true;
    }

    /** initialize: no burst running, counters at 0. */
    method Initialize()
      modifies this
      ensures State() == BurstState(false, 0, 0) && Settled(State())
      ensures samplingProb == old(samplingProb) && burst == old(burst) && active == old(active) && rules == old(rules)
    {
      sampling := false;
      packetCount := 0;
      drops := 0;
    }

    /** pull: `up` is what the upstream pull returned and `draw` the value
        click_random() would give. A targeted packet is handled as OnMatch
        says; every other result is returned unchanged, state untouched. */
    method Pull(up: Option<Packet>, draw: u32) returns (r: Option<Packet>)
      modifies this
      ensures samplingProb == old(samplingProb) && burst == old(burst) && active == old(active) && rules == old(rules)
      ensures !Targeted(active, rules, up) ==> r == up && State() == old(State())
      ensures Targeted(active, rules, up) ==>
        var v := OnMatch(old(State()), samplingProb, burst, draw);
        State() == v.next && r == (if v.drop then None else up)
    {
      if !active || up.None? {
        return up;
      }
      var p := up.value;
      if !p.hasNetworkHeader {
        return up;
      }
      if Matches(rules, p.src, p.dst) {
        if !sampling && Masked(draw) <= samplingProb {
          sampling := true;
        }
        if sampling {
          drops := Inc32(drops);
          packetCount := Inc32(packetCount);
          if packetCount >= burst {
            sampling := false;
            packetCount := 0;
          }
          return None;
        }
      }
      return up;
    }

    /** The sampling_prob write handler: a value above 2^28 (1.0) or text that
        does not parse is rejected and nothing changes. */
    method WriteProb(parsed: Option<u32>) returns (ok: bool)
      modifies this
      ensures ok <==> ProbWrite(parsed).Some?
      ensures samplingProb == if ok then parsed.value else old(samplingProb)
      ensures ok ==> samplingProb <= SAMPLING_ONE
      ensures burst == old(burst) && active == old(active) && rules == old(rules) && State() == old(State())
    {
      var p := ProbWrite(parsed);
      if p.None? {
        return false;
      }
      samplingProb := p.value;
      ok := true;
    }

    /** The source, dest and prefix write handlers: `w` is None when the text
        does not parse; a rejected write changes nothing. Unlike the N-of-K
        elements, no burst state is reset. */
    method WriteRule(w: Option<RuleWrite>) returns (ok: bool)
      modifies this
      ensures ok <==> w.Some?
      ensures rules == if ok then ApplyRuleWrite(old(rules), w.value) else old(rules)
      ensures samplingProb == old(samplingProb) && burst == old(burst) && active == old(active) && State() == old(State())
    {
      if w.None? {
        return false;
      }
      rules := ApplyRuleWrite(rules, w.value);
      ok := true;
    }

    /** The clear_drops write handler. */
    method ClearDrops()
      modifies this
      ensures drops == 0 && sampling == old(sampling) && packetCount == old(packetCount)
      ensures samplingProb == old(samplingProb) && burst == old(burst) && active == old(active) && rules == old(rules)
    {
      drops := 0;
    }
  }
}
