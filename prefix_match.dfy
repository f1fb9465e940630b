/** The classification shared by TargetedLoss, TargetedDropFirstNofK and
    TargetedDropLastNofK: three rule slots (SOURCE, DEST, PREFIX), each a
    network/mask pair, with set flags for SOURCE and DEST. The three elements
    carry identical copies of this logic; it is modelled once here. */
module PrefixMatch {
  import opened Common

  /** tl_prefix: a network address and a mask. */
  datatype Rule = Rule(net: Addr, mask: Addr)

  /** The rule fields of a targeted element: `_source`, `_dest`, `_prefix`,
      `_source_set`, `_dest_set`. */
  datatype RuleSet = RuleSet(source: Rule, dest: Rule, prefix: Rule, sourceSet: bool, destSet: bool)

  /** IPAddress::matches_prefix: the address agrees with the network on every
      bit of the mask. */
  function MatchesPrefix(a: Addr, r: Rule): (b: bool)
    ensures b <==> a & r.mask == r.net & r.mask
  {
    (a ^ r.net) & r.mask == 0
  }

  /** The match test of pull: in source/dest mode (either flag set) every set
      side must match and an unset side imposes nothing; otherwise (prefix
      mode) either address matching PREFIX suffices. */
  function Matches(rs: RuleSet, src: Addr, dst: Addr): bool {
    if rs.sourceSet || rs.destSet then
      (!rs.sourceSet || MatchesPrefix(src, rs.source)) &&
      (!rs.destSet || MatchesPrefix(dst, rs.dest))
    else
      MatchesPrefix(src, rs.prefix) || MatchesPrefix(dst, rs.prefix)
  }

  /** Whether pull applies its drop policy to what upstream returned: the
      element is active, upstream gave a packet, the packet has a network
      header, and its addresses match the rules. Everything else is returned
      as it came, with no counter touched. */
  predicate Targeted(active: bool, rs: RuleSet, up: Option<Packet>) {
    active && up.Some? && up.value.hasNetworkHeader && Matches(rs, up.value.src, up.value.dst)
  }

  /** In prefix mode the direction of the packet does not matter. */
  lemma PrefixModeSymmetric(rs: RuleSet, src: Addr, dst: Addr)
    requires !rs.sourceSet && !rs.destSet
    ensures Matches(rs, src, dst) == Matches(rs, dst, src)
  {
  }

  /** With a zero mask (the default 0.0.0.0/0) prefix mode matches every packet. */
  lemma ZeroMaskMatchesAll(rs: RuleSet, src: Addr, dst: Addr)
    requires !rs.sourceSet && !rs.destSet && rs.prefix.mask == 0
    ensures Matches(rs, src, dst)
  {
  }

  /** The SOURCE, DEST and PREFIX keywords as parsed by IPPrefixArg(true);
      an omitted keyword is 0.0.0.0/0. */
  datatype RuleArgs = RuleArgs(source: Rule, dest: Rule, prefix: Rule)

  /** A non-zero PREFIX together with a non-zero SOURCE or DEST is a
      configuration error. Only the network addresses are compared with zero. */
  predicate Conflicting(a: RuleArgs) {
    (a.source.net != 0 || a.dest.net != 0) && a.prefix.net != 0
  }

  /** The rule fields after a successful configure. `prev` are the fields
      before it: a slot that configure does not assign keeps its old value. */
  function ConfiguredRules(prev: RuleSet, a: RuleArgs): (rs: RuleSet)
    requires !Conflicting(a)
    ensures rs.sourceSet <==> a.source.net != 0
    ensures rs.destSet <==> a.dest.net != 0
    ensures rs.source == if rs.sourceSet then a.source else prev.source
    ensures rs.dest == if rs.destSet then a.dest else prev.dest
    ensures rs.prefix == if rs.sourceSet || rs.destSet then prev.prefix else a.prefix
  {
    if a.source.net != 0 || a.dest.net != 0 then
      RuleSet(
        if a.source.net != 0 then a.source else prev.source,
        if a.dest.net != 0 then a.dest else prev.dest,
        prev.prefix,
        a.source.net != 0,
        a.dest.net != 0)
    else
      RuleSet(prev.source, prev.dest, a.prefix, false, false)
  }

  /** A configuration that gives only PREFIX (or nothing) classifies by the
      PREFIX rule alone; one that gives SOURCE and DEST needs both to match. */
  lemma ConfiguredMatching(prev: RuleSet, a: RuleArgs, src: Addr, dst: Addr)
    requires !Conflicting(a)
    ensures a.source.net == 0 && a.dest.net == 0 ==>
      (Matches(ConfiguredRules(prev, a), src, dst) <==>
        MatchesPrefix(src, a.prefix) || MatchesPrefix(dst, a.prefix))
    ensures a.source.net != 0 && a.dest.net != 0 ==>
      (Matches(ConfiguredRules(prev, a), src, dst) <==>
        MatchesPrefix(src, a.source) && MatchesPrefix(dst, a.dest))
  {
  }

  /** A parsed write to the prefix, source or dest handler. The source and
      dest handlers also take CLEAROTHER. */
  datatype RuleWrite =
    | WritePrefix(rule: Rule)
    | WriteSource(rule: Rule, clearOther: bool)
    | WriteDest(rule: Rule, clearOther: bool)

  /** The rule fields after an accepted write: a prefix write unsets SOURCE and
      DEST; a source (dest) write sets its own side and, with CLEAROTHER,
      unsets the other side. No write touches another slot's address. */
  function ApplyRuleWrite(rs: RuleSet, w: RuleWrite): (r: RuleSet)
    ensures w.WritePrefix? ==> !r.sourceSet && !r.destSet && r.prefix == w.rule
    ensures w.WriteSource? ==> r.sourceSet && r.source == w.rule && (r.destSet <==> rs.destSet && !w.clearOther)
    ensures w.WriteDest? ==> r.destSet && r.dest == w.rule && (r.sourceSet <==> rs.sourceSet && !w.clearOther)
    ensures !w.WriteSource? ==> r.source == rs.source
    ensures !w.WriteDest? ==> r.dest == rs.dest
    ensures !w.WritePrefix? ==> r.prefix == rs.prefix
  {
    match w
    case WritePrefix(rule) => rs.(sourceSet := false, destSet := false, prefix := rule)
    case WriteSource(rule, clear) => rs.(sourceSet := true, source := rule, destSet := rs.destSet && !clear)
    case WriteDest(rule, clear) => rs.(destSet := true, dest := rule, sourceSet := rs.sourceSet && !clear)
  }

  /** After a write the element classifies by the written rule: a prefix write
      matches on either address; a source write with CLEAROTHER matches on the
      source alone; without it, a dest rule that was set still has to match. */
  lemma MatchingAfterWrite(rs: RuleSet, w: RuleWrite, src: Addr, dst: Addr)
    ensures w.WritePrefix? ==>
      (Matches(ApplyRuleWrite(rs, w), src, dst) <==> MatchesPrefix(src, w.rule) || MatchesPrefix(dst, w.rule))
    ensures w.WriteSource? && w.clearOther ==>
      (Matches(ApplyRuleWrite(rs, w), src, dst) <==> MatchesPrefix(src, w.rule))
    ensures w.WriteSource? && !w.clearOther ==>
      (Matches(ApplyRuleWrite(rs, w), src, dst) <==>
        MatchesPrefix(src, w.rule) && (rs.destSet ==> MatchesPrefix(dst, rs.dest)))
    ensures w.WriteDest? && w.clearOther ==>
      (Matches(ApplyRuleWrite(rs, w), src, dst) <==> MatchesPrefix(dst, w.rule))
    ensures w.WriteDest? && !w.clearOther ==>
      (Matches(ApplyRuleWrite(rs, w), src, dst) <==>
        MatchesPrefix(dst, w.rule) && (rs.sourceSet ==> MatchesPrefix(src, rs.source)))
  {
  }
}
