/** TargetedDropFirstNofK: of every window of K packets matching the rules,
    drop the first N. The window is a uint32 counter that rises on each match
    and is reset to 0 once a passing match brings it to K or beyond. */
module DropFirstNofK {
  import opened Common
  import opened PrefixMatch

  /** The outcome of one matching packet: whether it is dropped, and the new
      value of `_packet_count`. */
  datatype Window = Window(drop: bool, count: u32)

  /** What pull does to the counter on a matching packet: increment it (as a
      uint32); a value of at most N drops the packet; otherwise the packet
      passes, and a value of at least K resets the counter to 0. */
  function FirstStep(count: u32, n: u32, k: u32): (w: Window)
    ensures w.drop <==> Inc32(count) <= n
    ensures w.drop ==> w.count == Inc32(count)
    ensures !w.drop ==> w.count == if Inc32(count) >= k then 0 else Inc32(count)
    ensures n <= k && count <= k ==> w.count <= k
  {
    var c := Inc32(count);
    if c <= n then Window(true, c)
    else if c >= k then Window(false, 0)
    else Window(false, c)
  }

  /** The drop decisions for m consecutive matching packets starting from
      counter value `count`, and the counter value after them. */
  function FirstRun(count: u32, n: u32, k: u32, m: nat): (r: (seq<bool>, u32))
    ensures |r.0| == m
    decreases m
  {
    if m == 0 then ([], count)
    else
      var w := FirstStep(count, n, k);
      var rest := FirstRun(w.count, n, k, m - 1);
      ([w.drop] + rest.0, rest.1)
  }

  /** The length of one window: K when N < K; when N == K the K-th match is
      still dropped and the following one resets the counter, so K + 1. */
  function Period(n: u32, k: u32): nat {
    if n < k then k else k + 1
  }

  /** Running a + b matches is running a and then b from where a stopped. */
  lemma {:induction false} FirstRunSplit(count: u32, n: u32, k: u32, a: nat, b: nat)
    ensures FirstRun(count, n, k, a + b).0 == FirstRun(count, n, k, a).0 + FirstRun(FirstRun(count, n, k, a).1, n, k, b).0
    ensures FirstRun(count, n, k, a + b).1 == FirstRun(FirstRun(count, n, k, a).1, n, k, b).1
    decreases a
  {
    if a > 0 {
      var w := FirstStep(count, n, k);
      FirstRunSplit(w.count, n, k, a - 1, b);
      assert a + b - 1 == (a - 1) + b;
    }
  }

  /** From a counter c inside the window, the rest of the window drops exactly
      the matches that bring the counter to at most N, and ends at 0. */
  lemma {:induction false} FirstWindowFrom(c: u32, n: u32, k: u32)
    requires n <= k && (n == k ==> k < U32_LIMIT - 1)
    requires c < Period(n, k)
    ensures FirstRun(c, n, k, Period(n, k) - c) == (seq(Period(n, k) - c, i => c + i < n), 0)
    decreases Period(n, k) - c
  {
    var m := Period(n, k) - c;
    var w := FirstStep(c, n, k);
    assert Inc32(c) == c + 1;
    var rest := FirstRun(w.count, n, k, m - 1);
    if c + 1 <= n || c + 1 < k {
      FirstWindowFrom(c + 1, n, k);
      assert rest == (seq(m - 1, i => c + 1 + i < n), 0);
    } else {
      assert m == 1;
    }
    assert [w.drop] + rest.0 == seq(m, i => c + i < n);
  }

  /** Starting from 0 (after initialize or a rule write), the matches of a
      window are dropped exactly at positions 1..N (indices 0..N-1), the rest
      of the window passes, and the counter is back at 0 when it ends. With
      N < K the window is K matches long, with N == K it is K + 1. */
  lemma FirstWindow(n: u32, k: u32)
    requires n <= k && (n == k ==> k < U32_LIMIT - 1)
    ensures FirstRun(0, n, k, Period(n, k)) == (seq(Period(n, k), i => i < n), 0)
    ensures CountTrue(FirstRun(0, n, k, Period(n, k)).0) == n
  {
    FirstWindowFrom(0, n, k);
    assert seq(Period(n, k) - 0, i => 0 + i < n) == seq(Period(n, k), i => i < n);
    CountTruePrefix(Period(n, k), n);
  }

  /** Over M whole windows of matching packets exactly N * M are dropped and the
      counter ends where it started. */
  lemma {:induction false} FirstCycles(n: u32, k: u32, cycles: nat)
    requires n <= k && (n == k ==> k < U32_LIMIT - 1)
    ensures FirstRun(0, n, k, cycles * Period(n, k)).1 == 0
    ensures CountTrue(FirstRun(0, n, k, cycles * Period(n, k)).0) == cycles * n
  {
    if cycles > 0 {
      var p := Period(n, k);
      var a := (cycles - 1) * p;
      MulStep(cycles, p);
      MulStep(cycles, n);
      FirstCycles(n, k, cycles - 1);
      FirstRunSplit(0, n, k, a, p);
      FirstWindow(n, k);
      var first := FirstRun(0, n, k, a);
      var second := FirstRun(first.1, n, k, p);
      CountTrueAppend(first.0, second.0);
    }
  }

  /** With N == K == 2^32 - 1 the incremented counter is always at most N
      (from 2^32 - 1 it wraps to 0), so every matching packet is dropped and
      the window never ends. */
  lemma {:induction false} AllOnesDropsAll(count: u32, m: nat)
    ensures FirstRun(count, U32_LIMIT - 1, U32_LIMIT - 1, m).0 == seq(m, i => true)
    decreases m
  {
    if m > 0 {
      var w := FirstStep(count, U32_LIMIT - 1, U32_LIMIT - 1);
      AllOnesDropsAll(w.count, m - 1);
      assert [true] + seq(m - 1, i => true) == seq(m, i => true);
    } else {
      assert seq(m, i => true) == [];
    }
  }

  lemma MulStep(c: nat, p: nat)
    requires c > 0
    ensures c * p == (c - 1) * p + p
  {
  }

  /** The parsed configuration: N, K, the rule keywords and ACTIVE. */
  datatype DropArgs = DropArgs(n: u32, k: u32, rules: RuleArgs, active: bool)

  class TargetedDropFirstNofK {
    var n: u32
    var k: u32
    var drops: u32
    var packetCount: u32
    var active: bool
    var rules: RuleSet

    /** The element as created, before configure. */
    constructor ()
      ensures n == 0 && k == 0 && drops == 0 && packetCount == 0 && !active
      ensures !rules.sourceSet && !rules.destSet
    {
      var zero := Rule(0, 0);
      n, k, drops, packetCount, active := 0, 0, 0, 0, false;
      rules := RuleSet(zero, zero, zero, false, false);
    }

    /** configure: `args` is None when the keywords do not parse. The SOURCE
        and DEST flags are cleared before anything is checked, so a failed
        configuration leaves them cleared. Fails on PREFIX with SOURCE/DEST
        and on N > K. */
    method Configure(args: Option<DropArgs>) returns (ok: bool)
      modifies this
      ensures ok <==> args.Some? && !Conflicting(args.value.rules) && args.value.n <= args.value.k
      ensures ok ==> rules == ConfiguredRules(old(rules).(sourceSet := false, destSet := false), args.value.rules)
      ensures ok ==> n == args.value.n && k == args.value.k && active == args.value.active
      ensures !ok ==> rules == old(rules).(sourceSet := false, destSet := false)
      ensures !ok ==> n == old(n) && k == old(k) && active == old(active)
      ensures drops == old(drops) && packetCount == old(packetCount)
    {
      rules := rules.(sourceSet := false, destSet := false);
      if args.None? {
        return false;
      }
      var a := args.value;
      if Conflicting(a.rules) {
        return false;
      }
      if a.n > a.k {
        return false;
      }
      rules := ConfiguredRules(rules, a.rules);
      n, k, active := a.n, a.k, a.active;
      ok := true;
    }

    /** initialize: both counters start at 0. */
    method Initialize()
      modifies this
      ensures packetCount == 0 && drops == 0
      ensures n == old(n) && k == old(k) && active == old(active) && rules == old(rules)
    {
      packetCount := 0;
      drops := 0;
    }

    /** pull: `up` is what the upstream pull returned. A targeted packet is
        counted and dropped or passed as FirstStep says; every other result
        is returned unchanged and no counter moves. */
    method Pull(up: Option<Packet>) returns (r: Option<Packet>)
      modifies this
      ensures n == old(n) && k == old(k) && active == old(active) && rules == old(rules)
      ensures !Targeted(active, rules, up) ==>
        r == up && packetCount == old(packetCount) && drops == old(drops)
      ensures Targeted(active, rules, up) ==>
        var w := FirstStep(old(packetCount), n, k);
        && packetCount == w.count
        && r == (if w.drop then None else up)
        && drops == (if w.drop then Inc32(old(drops)) else old(drops))
    {
      if !active || up.None? {
        return up;
      }
      var p := up.value;
      if !p.hasNetworkHeader {
        return up;
      }
      if Matches(rules, p.src, p.dst) {
        packetCount := Inc32(packetCount);
        if packetCount <= n {
          drops := Inc32(drops);
          return None;
        } else if packetCount >= k {
          packetCount := 0;
        }
      }
      return up;
    }

    /** The source, dest and prefix write handlers: `w` is None when the text
        does not parse. The counter is reset to 0 before parsing, so a
        rejected write resets it too. */
    method WriteRule(w: Option<RuleWrite>) returns (ok: bool)
      modifies this
      ensures packetCount == 0
      ensures ok <==> w.Some?
      ensures rules == if ok then ApplyRuleWrite(old(rules), w.value) else old(rules)
      ensures n == old(n) && k == old(k) && active == old(active) && drops == old(drops)
    {
      packetCount := 0;
      if w.None? {
        return false;
      }
      rules := ApplyRuleWrite(rules, w.value);
      ok := true;
    }

    /** The clear_drops write handler. */
    method ClearDrops()
      modifies this
      ensures drops == 0
      ensures n == old(n) && k == old(k) && active == old(active) && rules == old(rules)
      ensures packetCount == old(packetCount)
    {
      drops := 0;
    }
  }
}
