/** Object keys of shards and region markers: the deletion side, the reading side and the commit
    protocol build them separately, and a key can be parsed back. */
module ShardKeys {
  import opened Wrappers
  import opened Decimal
  import opened Text

  datatype Kind = Det | Mean | Mem

  // ---------------------------------------------------------------- kinds

  /** `target_kind.lower().strip()`; None is the ValueError of an unknown kind. */
  function KindOf(targetKind: string): Option<Kind> {
    var kind := Strip(Lower(targetKind));
    if kind == "det" then Some(Det)
    else if kind == "mean" then Some(Mean)
    else if kind == "mem" then Some(Mem)
    else None
  }

  function KindName(kind: Kind): string {
    match kind case Det => "det" case Mean => "mean" case Mem => "mem"
  }

  function NormalizeMemberIndex(kind: Kind, member: Option<int>): int {
    match kind
    case Det => 0
    case Mean => -1
    case Mem => if member.None? then 1 else member.value
  }

  /** One variable shard of one store, as `PhysicalShardTarget` normalises it. */
  datatype Target = Target(variable: string, kind: Kind, lead: int, member: int) {
    predicate Normalized() {
      member == NormalizeMemberIndex(kind, Some(member))
    }
  }

  // ---------------------------------------------------------------- the keys

  /** `make_shard_relative_key` */
  function ShardRelativeKey(variable: string, targetKind: string, lead: int, member: int): Option<string> {
    match KindOf(targetKind)
    case None => None
    case Some(Det) => Some(variable + "/shard.det_L" + Format(lead, 4) + ".shard")
    case Some(Mean) => Some(variable + "/shard.mean_L" + Format(lead, 4) + ".shard")
    case Some(Mem) =>
      Some(variable + "/shard.mem" + Format(NormalizeMemberIndex(Mem, Some(member)), 3)
           + "_L" + Format(lead, 4) + ".shard")
  }

  /** `make_region_marker_relative_key` */
  function MarkerRelativeKey(targetKind: string, lead: int, member: int): Option<string> {
    match KindOf(targetKind)
    case None => None
    case Some(Det) => Some("__commit__/v1/regions/det_L" + Format(lead, 4) + ".json")
    case Some(Mean) => Some("__commit__/v1/regions/mean_L" + Format(lead, 4) + ".json")
    case Some(Mem) =>
      Some("__commit__/v1/regions/mem" + Format(NormalizeMemberIndex(Mem, Some(member)), 3)
           + "_L" + Format(lead, 4) + ".json")
  }

  /** The API reader's `_get_shard_key`. */
  function ReaderShardKey(variable: string, member: Option<int>, lead: int, isMean: bool): string {
    if isMean then variable + "/shard.mean_L" + Format(lead, 4) + ".shard"
    else if member.Some? then variable + "/shard.mem" + Format(member.value, 3) + "_L" + Format(lead, 4) + ".shard"
    else variable + "/shard.det_L" + Format(lead, 4) + ".shard"
  }

  lemma VariableFirst3(v: string, a: string, b: string, c: string)
    ensures v + a + b + c == v + (a + b + c)
  {
  }

  lemma VariableFirst5(v: string, a: string, b: string, c: string, d: string, e: string)
    ensures v + a + b + c + d + e == v + (a + b + c + d + e)
  {
    VariableFirst3(v, a, b, c);
    VariableFirst3(v, a + b + c, d, e);
  }

  /** A reader key is the variable and a text that does not depend on it. */
  function ReaderTail(member: Option<int>, lead: int, isMean: bool): string {
    if isMean then "/shard.mean_L" + Format(lead, 4) + ".shard"
    else if member.Some? then "/shard.mem" + Format(member.value, 3) + "_L" + Format(lead, 4) + ".shard"
    else "/shard.det_L" + Format(lead, 4) + ".shard"
  }

  lemma ReaderKeyParts(variable: string, member: Option<int>, lead: int, isMean: bool)
    ensures ReaderShardKey(variable, member, lead, isMean) == variable + ReaderTail(member, lead, isMean)
  {
    if isMean {
      VariableFirst3(variable, "/shard.mean_L", Format(lead, 4), ".shard");
    } else if member.Some? {
      VariableFirst5(variable, "/shard.mem", Format(member.value, 3), "_L", Format(lead, 4), ".shard");
    } else {
      VariableFirst3(variable, "/shard.det_L", Format(lead, 4), ".shard");
    }
  }

  /** `logical_region_encoding` */
  function LogicalRegionEncoding(lead: int, member: Option<int>, isMean: bool): string {
    var leadToken := "L" + Format(lead, 4);
    if isMean then "mean_" + leadToken
    else if member.None? then "det_" + leadToken
    else "mem" + Format(member.value, 3) + "_" + leadToken
  }

  // ---------------------------------------------------------------- parsing a key back

  /** Reads a shard key from the right, where the variable cannot interfere. */
  function ParseShardKey(key: string): Option<Target> {
    if !EndsWith(key, ".shard") then None
    else match SplitNumber(Chop(key, ".shard"))
      case None => None
      case Some((rest, lead)) => if EndsWith(rest, "_L") then ParseHead(Chop(rest, "_L"), lead) else None
  }

  function ParseHead(head: string, lead: int): Option<Target> {
    if EndsWith(head, "/shard.det") then Some(Target(Chop(head, "/shard.det"), Det, lead, 0))
    else if EndsWith(head, "/shard.mean") then Some(Target(Chop(head, "/shard.mean"), Mean, lead, -1))
    else match SplitNumber(head)
      case Some((stem, member)) =>
        if EndsWith(stem, "/shard.mem") then Some(Target(Chop(stem, "/shard.mem"), Mem, lead, member)) else None
      case None => None
  }

  lemma ParseTail(head: string, lead: int)
    ensures var key := head + "_L" + Format(lead, 4) + ".shard";
            EndsWith(key, ".shard") && SplitNumber(Chop(key, ".shard")) == Some((head + "_L", lead))
    ensures EndsWith(head + "_L", "_L") && Chop(head + "_L", "_L") == head
  {
    ChopConcat(head + "_L" + Format(lead, 4), ".shard");
    NumberRoundTrip(head + "_L", lead, 4);
    ChopConcat(head, "_L");
  }

  /** The end of a formatted number is a digit. */
  lemma EndsInDigit(a: string, n: int, width: nat)
    ensures var s := a + Format(n, width); s != [] && IsDigit(s[|s| - 1])
  {
    var d := FormatParts(n, width);
    var f := Format(n, width);
    assert (a + f)[|a + f| - 1] == f[|f| - 1];
  }

  /** The key of a target in front of its `_L` token. */
  function HeadOf(t: Target): string {
    match t.kind
    case Det => t.variable + "/shard.det"
    case Mean => t.variable + "/shard.mean"
    case Mem => t.variable + "/shard.mem" + Format(t.member, 3)
  }

  lemma HeadRoundTrip(t: Target)
    requires t.Normalized()
    ensures var head := HeadOf(t);
            match t.kind
            case Det => EndsWith(head, "/shard.det") && Chop(head, "/shard.det") == t.variable
            case Mean =>
              !EndsWith(head, "/shard.det") && EndsWith(head, "/shard.mean") && Chop(head, "/shard.mean") == t.variable
            case Mem =>
              && !EndsWith(head, "/shard.det") && !EndsWith(head, "/shard.mean")
              && SplitNumber(head) == Some((t.variable + "/shard.mem", t.member))
              && EndsWith(t.variable + "/shard.mem", "/shard.mem")
              && Chop(t.variable + "/shard.mem", "/shard.mem") == t.variable
  {
    var head := HeadOf(t);
    match t.kind
    case Det => ChopConcat(t.variable, "/shard.det");
    case Mean =>
      ChopConcat(t.variable, "/shard.mean");
      assert head[|head| - 1] == 'n';
      LastCharDecides(head, "/shard.det");
    case Mem =>
      NumberRoundTrip(t.variable + "/shard.mem", t.member, 3);
      EndsInDigit(t.variable + "/shard.mem", t.member, 3);
      LastCharDecides(head, "/shard.det");
      LastCharDecides(head, "/shard.mean");
      ChopConcat(t.variable, "/shard.mem");
  }

  lemma KindNames(kind: Kind)
    ensures KindOf(KindName(kind)) == Some(kind)
  {
    assert Lower("det") == "det" && Lower("mean") == "mean" && Lower("mem") == "mem";
  }

  lemma KeyIsHeadAndLead(t: Target)
    requires t.Normalized()
    ensures ShardRelativeKey(t.variable, KindName(t.kind), t.lead, t.member) ==
            Some(HeadOf(t) + "_L" + Format(t.lead, 4) + ".shard")
  {
    KindNames(t.kind);
    var lead := Format(t.lead, 4);
    match t.kind
    case Det => assert t.variable + "/shard.det_L" + lead + ".shard" == HeadOf(t) + "_L" + lead + ".shard";
    case Mean => assert t.variable + "/shard.mean_L" + lead + ".shard" == HeadOf(t) + "_L" + lead + ".shard";
    case Mem =>
  }

  /** What parsing does with a key that is a head, a lead token and the extension. */
  lemma ParseByHead(head: string, lead: int)
    ensures ParseShardKey(head + "_L" + Format(lead, 4) + ".shard") == ParseHead(head, lead)
  {
    ParseTail(head, lead);
  }

  lemma ParseMember(head: string, variable: string, member: int, lead: int)
    requires !EndsWith(head, "/shard.det") && !EndsWith(head, "/shard.mean")
    requires SplitNumber(head) == Some((variable + "/shard.mem", member))
    ensures ParseHead(head, lead) == Some(Target(variable, Mem, lead, member))
  {
    ChopConcat(variable, "/shard.mem");
  }

  lemma ParseHeadRoundTrip(t: Target)
    requires t.Normalized()
    ensures ParseHead(HeadOf(t), t.lead) == Some(t)
  {
    HeadRoundTrip(t);
    if t.kind.Mem? { ParseMember(HeadOf(t), t.variable, t.member, t.lead); }
  }

  /** Parsing the key of a target gives the target back, for any variable and any lead. */
  lemma KeyRoundTrip(t: Target)
    requires t.Normalized()
    ensures var key := ShardRelativeKey(t.variable, KindName(t.kind), t.lead, t.member);
            key.Some? && ParseShardKey(key.value) == Some(t)
  {
    KeyIsHeadAndLead(t);
    ParseByHead(HeadOf(t), t.lead);
    ParseHeadRoundTrip(t);
  }

  /** Distinct targets of a store never share a key, so deleting one shard deletes no other. */
  lemma KeysDistinct(t: Target, u: Target)
    requires t.Normalized() && u.Normalized() && t != u
    ensures ShardRelativeKey(t.variable, KindName(t.kind), t.lead, t.member) !=
            ShardRelativeKey(u.variable, KindName(u.kind), u.lead, u.member)
  {
    KeyRoundTrip(t);
    KeyRoundTrip(u);
  }

  // ---------------------------------------------------------------- how the keys are spelt

  /** A deterministic target has member 0, a mean -1, a member its own number or else the first, and
      normalising again changes nothing. */
  lemma NormalMembers(kind: Kind, member: Option<int>)
    ensures var m := NormalizeMemberIndex(kind, member);
            && NormalizeMemberIndex(kind, Some(m)) == m
            && (kind.Det? ==> m == 0) && (kind.Mean? ==> m == -1)
            && (kind.Mem? ==> m == if member.Some? then member.value else 1)
  {
  }

  lemma KindSpellings()
    ensures KindOf(" Mean ") == Some(Mean) && KindOf("DET") == Some(Det) && KindOf("member") == None
  {
    assert Lower(" Mean ") == " mean " && Strip(" mean ") == Strip("mean ") == Strip("mean") == "mean";
    assert Lower("DET") == "det" && Lower("member") == "member";
  }

  // ---------------------------------------------------------------- the three sides agree

  /** How the reader names the kind of a target: a mean, a member, or neither. */
  function ReaderMember(t: Target): Option<int> {
    if t.kind.Mem? then Some(t.member) else None
  }

  lemma ReaderFindsDeletedKey(t: Target)
    requires t.Normalized()
    ensures ShardRelativeKey(t.variable, KindName(t.kind), t.lead, t.member) ==
            Some(ReaderShardKey(t.variable, ReaderMember(t), t.lead, t.kind.Mean?))
  {
    KindNames(t.kind);
  }

  lemma Regroup(dir: string, kind: string, lead: string, extension: string)
    ensures dir + (kind + ("L" + lead)) + extension == (dir + kind + "L") + lead + extension
  {
  }

  lemma RegroupMember(dir: string, member: string, lead: string, extension: string)
    ensures dir + ("mem" + member + "_" + ("L" + lead)) + extension == (dir + "mem") + member + "_L" + lead + extension
  {
    assert "_" + ("L" + lead) == "_L" + lead;
  }

  lemma MarkerWrapsRegion(t: Target)
    requires t.Normalized()
    ensures MarkerRelativeKey(KindName(t.kind), t.lead, t.member) ==
            Some("__commit__/v1/regions/" + LogicalRegionEncoding(t.lead, ReaderMember(t), t.kind.Mean?) + ".json")
  {
    KindNames(t.kind);
    var lead := Format(t.lead, 4);
    var dir := "__commit__/v1/regions/";
    match t.kind
    case Det =>
      Regroup(dir, "det_", lead, ".json");
      assert dir + "det_" + "L" == "__commit__/v1/regions/det_L";
    case Mean =>
      Regroup(dir, "mean_", lead, ".json");
      assert dir + "mean_" + "L" == "__commit__/v1/regions/mean_L";
    case Mem =>
      RegroupMember(dir, Format(t.member, 3), lead, ".json");
      assert dir + "mem" == "__commit__/v1/regions/mem";
  }

  /** A shard key is its variable's directory around the same region encoding. */
  lemma ShardWrapsRegion(t: Target)
    requires t.Normalized()
    ensures ShardRelativeKey(t.variable, KindName(t.kind), t.lead, t.member) ==
            Some((t.variable + "/shard.") + LogicalRegionEncoding(t.lead, ReaderMember(t), t.kind.Mean?) + ".shard")
  {
    KindNames(t.kind);
    var lead := Format(t.lead, 4);
    var dir := t.variable + "/shard.";
    match t.kind
    case Det =>
      Regroup(dir, "det_", lead, ".shard");
      assert dir + "det_" + "L" == t.variable + "/shard.det_L";
    case Mean =>
      Regroup(dir, "mean_", lead, ".shard");
      assert dir + "mean_" + "L" == t.variable + "/shard.mean_L";
    case Mem =>
      RegroupMember(dir, Format(t.member, 3), lead, ".shard");
      assert dir + "mem" == t.variable + "/shard.mem";
  }

  // ---------------------------------------------------------------- examples

  lemma TwoDigits(n: nat)
    requires 10 <= n < 100
    ensures Digits(n) == [DigitOf(n / 10), DigitOf(n % 10)]
  {
  }

  lemma Numerals()
    ensures Format(0, 4) == "0000" && Format(6, 4) == "0006" && Format(17, 3) == "017"
  {
    TwoDigits(17);
    assert Zeros(3) == "000" && Zeros(1) == "0";
  }

  lemma RegionExamples()
    ensures LogicalRegionEncoding(6, None, false) == "det_L0006"
    ensures LogicalRegionEncoding(6, Some(17), false) == "mem017_L0006"
    ensures LogicalRegionEncoding(6, None, true) == "mean_L0006"
  {
    Numerals();
    assert "L" + "0006" == "L0006" && "det_" + "L0006" == "det_L0006" && "mean_" + "L0006" == "mean_L0006";
    assert "mem" + "017" == "mem017" && "mem017" + "_" == "mem017_" && "mem017_" + "L0006" == "mem017_L0006";
  }

  /** The documented spellings: four digits of lead, three of member. */
  lemma KeyExamples(variable: string)
    ensures ShardRelativeKey(variable, "det", 6, 0) == Some((variable + "/shard.") + "det_L0006" + ".shard")
    ensures ShardRelativeKey(variable, "mean", 6, -1) == Some((variable + "/shard.") + "mean_L0006" + ".shard")
    ensures ShardRelativeKey(variable, "mem", 6, 17) == Some((variable + "/shard.") + "mem017_L0006" + ".shard")
    ensures MarkerRelativeKey("mem", 6, 17) == Some("__commit__/v1/regions/" + "mem017_L0006" + ".json")
  {
    RegionExamples();
    ShardWrapsRegion(Target(variable, Det, 6, 0));
    ShardWrapsRegion(Target(variable, Mean, 6, -1));
    ShardWrapsRegion(Target(variable, Mem, 6, 17));
    MarkerWrapsRegion(Target(variable, Mem, 6, 17));
  }
}
