/** TargetedDropLastNofK: a uint32 counter starts at K and falls by one on each
    packet that matches the rules. A match that leaves it in 1..N is dropped;
    one that leaves it at 0 or, read as a signed 32-bit value, below 0 resets
    it to K and passes. Starting from K, the dropped matches of a window are
    numbers K-N .. K-1 and the K-th passes. */
module DropLastNofK {
  import opened Common
  import opened PrefixMatch

  /** The outcome of one matching packet: whether it is dropped, and the new
      value of `_packet_count`. */
  datatype Window = Window(drop: bool, count: u32)

  /** What pull does to the counter on a matching packet. The drop test comes
      first and returns before the reset test, so a dropped packet never
      resets the counter. */
  function LastStep(count: u32, n: u32, k: u32): (w: Window)
    ensures w.drop <==> 0 < Dec32(count) <= n
    ensures w.drop ==> w.count == Dec32(count)
    ensures !w.drop ==> w.count == if AsSigned32(Dec32(count)) <= 0 then k else Dec32(count)
    ensures 0 < count < 0x8000_0000 ==> w.count == k || (w.count == count - 1 && w.count > 0)
  {
    var c := Dec32(count);
    if c <= n && c > 0 then Window(true, c)
    else if AsSigned32(c) <= 0 then Window(false, k)
    else Window(false, c)
  }

  /** The drop decisions for m consecutive matching packets starting from
      counter value `count`, and the counter value after them. */
  function LastRun(count: u32, n: u32, k: u32, m: nat): (r: (seq<bool>, u32))
    ensures |r.0| == m
    decreases m
  {
    if m == 0 then ([], count)
    else
      var w := LastStep(count, n, k);
      var rest := LastRun(w.count, n, k, m - 1);
      ([w.drop] + rest.0, rest.1)
  }

  /** From a counter c in 1..K (with K at most 2^31, so that no value in the
      window reads as negative), the next c matches take the counter to
      c-1, ..., 0; the i-th of them (from 0) is dropped iff it leaves the
      counter in 1..N, and the last resets the counter to K. */
  lemma {:induction false} LastWindowFrom(c: u32, n: u32, k: u32)
    requires k <= 0x8000_0000
    requires 0 < c <= k
    ensures LastRun(c, n, k, c) == (seq(c, i => 0 < c - 1 - i <= n), k)
    decreases c
  {
    var w := LastStep(c, n, k);
    assert Dec32(c) == c - 1;
    var rest := LastRun(w.count, n, k, c - 1);
    if c > 1 {
      assert AsSigned32(c - 1) == c - 1;
      assert w.count == c - 1;
      LastWindowFrom(c - 1, n, k);
      assert rest == (seq(c - 1, i => 0 < c - 2 - i <= n), k);
    } else {
      assert w == Window(false, k);
    }
    assert [w.drop] + rest.0 == seq(c, i => 0 < c - 1 - i <= n);
  }

  /** Starting from K, a window of K matches drops exactly positions K-N ..
      K-1 (counting from 1; the K-th passes and resets the counter to K), which
      is N drops when N < K and K-1 when N == K. */
  lemma LastWindow(n: u32, k: u32)
    requires 0 < k <= 0x8000_0000 && n <= k
    ensures LastRun(k, n, k, k) == (seq(k, i => k - n <= i + 1 < k), k)
    ensures CountTrue(LastRun(k, n, k, k).0) == if n < k then n else k - 1
  {
    LastWindowFrom(k, n, k);
    var d := if n < k then n else k - 1;
    assert seq(k, i => 0 < k - 1 - i <= n) == seq(k, i => k - n <= i + 1 < k);
    CountTrueSuffix(k, d);
    assert seq(k, i => k - n <= i + 1 < k) == seq(k, i => k - 1 - d <= i < k - 1);
  }

  /** Exactly d of the k positions k-1-d .. k-2 are marked. */
  lemma {:induction false} CountTrueSuffix(k: nat, d: nat)
    requires d < k
    ensures CountTrue(seq(k, i => k - 1 - d <= i < k - 1)) == d
  {
    var s := seq(k, i => k - 1 - d <= i < k - 1);
    var front := seq(k - 1 - d, i => false);
    var back := seq(d, i => true) + [false];
    assert s == front + back;
    CountTrueAppend(front, back);
    CountTrueAppend(seq(d, i => true), [false]);
    CountTrueNone(k - 1 - d);
    CountTruePrefix(d, d);
    assert seq(d, i => true) == seq(d, i => i < d);
  }

  lemma {:induction false} CountTrueNone(m: nat)
    ensures CountTrue(seq(m, i => false)) == 0
  {
    if m > 0 {
      assert seq(m, i => false)[1..] == seq(m - 1, i => false);
      CountTrueNone(m - 1);
    }
  }

  /** Running a + b matches is running a and then b from where a stopped. */
  lemma {:induction false} LastRunSplit(count: u32, n: u32, k: u32, a: nat, b: nat)
    ensures LastRun(count, n, k, a + b).0 == LastRun(count, n, k, a).0 + LastRun(LastRun(count, n, k, a).1, n, k, b).0
    ensures LastRun(count, n, k, a + b).1 == LastRun(LastRun(count, n, k, a).1, n, k, b).1
    decreases a
  {
    if a > 0 {
      var w := LastStep(count, n, k);
      LastRunSplit(w.count, n, k, a - 1, b);
      assert a + b - 1 == (a - 1) + b;
    }
  }

  /** Over M whole windows of K matches, starting from K, exactly N * M are
      dropped when N < K, and the counter ends at K. */
  lemma {:induction false} LastCycles(n: u32, k: u32, cycles: nat)
    requires n < k <= 0x8000_0000
    ensures LastRun(k, n, k, cycles * k).1 == k
    ensures CountTrue(LastRun(k, n, k, cycles * k).0) == cycles * n
  {
    if cycles > 0 {
      var a := (cycles - 1) * k;
      assert cycles * k == a + k;
      assert cycles * n == (cycles - 1) * n + n;
      LastCycles(n, k, cycles - 1);
      LastRunSplit(k, n, k, a, k);
      LastWindow(n, k);
      var first := LastRun(k, n, k, a);
      var second := LastRun(first.1, n, k, k);
      CountTrueAppend(first.0, second.0);
    }
  }

  /** With K == 0 (so N == 0) the counter wraps from 0 to 2^32 - 1, which reads
      as -1 and is reset to 0: no matching packet is ever dropped. */
  lemma {:induction false} LastZeroKNeverDrops(m: nat)
    ensures LastRun(0, 0, 0, m) == (seq(m, i => false), 0)
  {
    if m > 0 {
      assert LastStep(0, 0, 0) == Window(false, 0);
      LastZeroKNeverDrops(m - 1);
      assert LastRun(0, 0, 0, m) == ([false] + LastRun(0, 0, 0, m - 1).0, LastRun(0, 0, 0, m - 1).1);
      assert [false] + seq(m - 1, i => false) == seq(m, i => false);
    } else {
      assert seq(m, i => false) == [];
    }
  }

  /** With K above 2^31 the first decrement from K gives a value that reads
      as negative, so (while N < K - 1) every match resets the counter to K
      and passes: nothing is dropped. */
  lemma {:induction false} LastHugeKNeverDrops(n: u32, k: u32, m: nat)
    requires k > 0x8000_0000 && n < k - 1
    ensures LastRun(k, n, k, m) == (seq(m, i => false), k)
  {
    if m > 0 {
      assert LastStep(k, n, k) == Window(false, k);
      LastHugeKNeverDrops(n, k, m - 1);
      assert LastRun(k, n, k, m) == ([false] + LastRun(k, n, k, m - 1).0, LastRun(k, n, k, m - 1).1);
      assert [false] + seq(m - 1, i => false) == seq(m, i => false);
    } else {
      assert seq(m, i => false) == [];
    }
  }

  /** The parsed configuration: N, K, the rule keywords and ACTIVE. */
  datatype DropArgs = DropArgs(n: u32, k: u32, rules: RuleArgs, active: bool)

  class TargetedDropLastNofK {
    var n: u32
    var k: u32
    var drops: u32
    var packetCount: u32
    var active: bool
    var rules: RuleSet

    /** The element as created, before configure. */
    constructor ()
      ensures n == 0 && k == 0 && drops == 0 && packetCount == 0 && !active
      ensures !rules.sourceSet && !rules.destSet
    {
      var zero := Rule(0, 0);
      n, k, drops, packetCount, active := 0, 0, 0, 0, false;
      rules := RuleSet(zero, zero, zero, false, false);
    }

    /** configure: `args` is None when the keywords do not parse. The SOURCE
        and DEST flags are cleared first, so a failed configuration leaves them
        cleared. Fails on PREFIX with SOURCE/DEST and on N > K; on success the
        counter starts at K. */
    method Configure(args: Option<DropArgs>) returns (ok: bool)
      modifies this
      ensures ok <==> args.Some? && !Conflicting(args.value.rules) && args.value.n <= args.value.k
      ensures ok ==> rules == ConfiguredRules(old(rules).(sourceSet := false, destSet := false), args.value.rules)
      ensures ok ==> n == args.value.n && k == args.value.k && active == args.value.active && packetCount == k
      ensures !ok ==> rules == old(rules).(sourceSet := false, destSet := false)
      ensures !ok ==> n == old(n) && k == old(k) && active == old(active) && packetCount == old(packetCount)
      ensures drops == old(drops)
    {
      rules := rules.(sourceSet := false, destSet := false);
      if args.None? {
        return false;
      }
      var a := args.value;
      if Conflicting(a.rules) {
        return false;
      }
      if a.n > a.k {
        return false;
      }
      rules := ConfiguredRules(rules, a.rules);
      n, k := a.n, a.k;
      packetCount := k;
      active := a.active;
      ok := true;
    }

    /** initialize: only the drop count is zeroed; the counter keeps the K that
        configure gave it. */
    method Initialize()
      modifies this
      ensures drops == 0
      ensures packetCount == old(packetCount)
      ensures n == old(n) && k == old(k) && active == old(active) && rules == old(rules)
    {
      drops := 0;
    }

    /** pull: `up` is what the upstream pull returned. A targeted packet moves
        the counter and is dropped or passed as LastStep says; every other
        result is returned unchanged and no counter moves. */
    method Pull(up: Option<Packet>) returns (r: Option<Packet>)
      modifies this
      ensures n == old(n) && k == old(k) && active == old(active) && rules == old(rules)
      ensures !Targeted(active, rules, up) ==>
        r == up && packetCount == old(packetCount) && drops == old(drops)
      ensures Targeted(active, rules, up) ==>
        var w := LastStep(old(packetCount), n, k);
        && packetCount == w.count
        && r == (if w.drop then None else up)
        && drops == (if w.drop then Inc32(old(drops)) else old(drops))
    {
      if !active || up.None? {
        return up;
      }
      var p := up.value;
      if !p.hasNetworkHeader {
        return up;
      }
      if Matches(rules, p.src, p.dst) {
        packetCount := Dec32(packetCount);
        if packetCount <= n && packetCount > 0 {
          drops := Inc32(drops);
          return None;
        }
        if AsSigned32(packetCount) <= 0 {
          packetCount := k;
        }
      }
      return up;
    }

    /** The source, dest and prefix write handlers: `w` is None when the text
        does not parse. The counter is reset to K before parsing, so a
        rejected write resets it too. */
    method WriteRule(w: Option<RuleWrite>) returns (ok: bool)
      modifies this
      ensures packetCount == k
      ensures ok <==> w.Some?
      ensures rules == if ok then ApplyRuleWrite(old(rules), w.value) else old(rules)
      ensures n == old(n) && k == old(k) && active == old(active) && drops == old(drops)
    {
      packetCount := k;
      if w.None? {
        return false;
      }
      rules := ApplyRuleWrite(rules, w.value);
      ok := true;
    }

    /** The clear_drops write handler. */
    method ClearDrops()
      modifies this
      ensures drops == 0
      ensures n == old(n) && k == old(k) && active == old(active) && rules == old(rules)
      ensures packetCount == old(packetCount)
    {
      drops := 0;
    }
  }
}
