/** Grouping of demands into Modbus read blocks, and what one block costs on the bus. */
module PollGrouping {
  import opened Domain
  import Modbus
  import opened TextOrder
  import Sorting
  import opened PollDemands

  // ---------------------------------------------------------------- the order demands are grouped in

  function TableRank(table: Modbus.Table): nat {
    if table.InputRegisters? then 0 else 1
  }

  predicate SameKey(a: Demand, b: Demand) {
    a.requestClass.Rank() == b.requestClass.Rank() && a.frequency == b.frequency && a.block.table == b.block.table
  }

  /** By request class, frequency, table, start and id. */
  predicate DemandLe(a: Demand, b: Demand) {
    if a.requestClass.Rank() != b.requestClass.Rank() then a.requestClass.Rank() < b.requestClass.Rank()
    else if a.frequency.Rank() != b.frequency.Rank() then a.frequency.Rank() < b.frequency.Rank()
    else if TableRank(a.block.table) != TableRank(b.block.table) then TableRank(a.block.table) < TableRank(b.block.table)
    else if a.block.start != b.block.start then a.block.start < b.block.start
    else TextLe(a.parameterId, b.parameterId)
  }

  function Sorted(demands: seq<Demand>): seq<Demand> {
    Sorting.Sort(demands, DemandLe)
  }

  lemma DemandOrder()
    ensures Sorting.TotalPreorder(DemandLe)
  {
    forall a: Demand, b: Demand ensures DemandLe(a, b) || DemandLe(b, a) {
      TextLeTotal(a.parameterId, b.parameterId);
    }
    forall a: Demand, b: Demand, c: Demand | DemandLe(a, b) && DemandLe(b, c) ensures DemandLe(a, c) {
      if TextLe(a.parameterId, b.parameterId) && TextLe(b.parameterId, c.parameterId) {
        TextLeTransitive(a.parameterId, b.parameterId, c.parameterId);
      }
    }
  }

  // ---------------------------------------------------------------- grouping

  type Group = g: seq<Demand> | g != []
    witness [Demand("", Modbus.RegisterBlock(Modbus.InputRegisters, 0, 1), Fast, Background, 0, {}, {}, false, false, 0, 0)]

  function GroupStart(group: Group): nat {
    var n := |group| - 1;
    if n == 0 then group[n].block.start else Min(GroupStart(group[..n]), group[n].block.start)
  }

  function GroupEnd(group: Group): int {
    var n := |group| - 1;
    if n == 0 then group[n].block.End() else Max(GroupEnd(group[..n]), group[n].block.End())
  }

  lemma {:induction false} StartMeans(group: Group) returns (first: Demand)
    ensures first in group && first.block.start == GroupStart(group)
    ensures forall d :: d in group ==> GroupStart(group) <= d.block.start
  {
    var n := |group| - 1;
    first := group[n];
    if n > 0 {
      var before := StartMeans(group[..n]);
      if before.block.start < first.block.start {
        first := before;
      }
    }
  }

  lemma {:induction false} EndMeans(group: Group) returns (last: Demand)
    ensures last in group && last.block.End() == GroupEnd(group)
    ensures forall d :: d in group ==> d.block.End() <= GroupEnd(group)
  {
    var n := |group| - 1;
    last := group[n];
    if n > 0 {
      var before := EndMeans(group[..n]);
      if before.block.End() > last.block.End() {
        last := before;
      }
    }
  }

  /** Start and end are the least start and the greatest end of the members. */
  lemma ExtentMeans(group: Group)
    ensures forall d :: d in group ==> GroupStart(group) <= d.block.start && d.block.End() <= GroupEnd(group)
    ensures exists d :: d in group && d.block.start == GroupStart(group)
    ensures exists d :: d in group && d.block.End() == GroupEnd(group)
  {
    var first := StartMeans(group);
    var last := EndMeans(group);
  }

  /** Every member of the group allows `gap` unused registers to be read along. */
  predicate AllowsGap(group: seq<Demand>, gap: int) {
    forall d :: d in group ==> !d.doNotBridge && gap <= d.maximumBridgeGap
  }

  predicate CanAppend(group: Group, next: Demand) {
    && SameKey(group[0], next)
    && Max(GroupEnd(group), next.block.End()) - GroupStart(group) + 1 <= 125
    && (next.block.start <= GroupEnd(group) + 1 || AllowsGap(group + [next], next.block.start - GroupEnd(group) - 1))
  }

  function Groups(sorted: seq<Demand>): seq<Group> {
    if sorted == [] then []
    else
      var n := |sorted| - 1;
      Place(Groups(sorted[..n]), sorted[n])
  }

  /** The next demand joins the last group if it may, and opens a new one otherwise. */
  function Place(groups: seq<Group>, demand: Demand): seq<Group> {
    if groups != [] && CanAppend(groups[|groups| - 1], demand)
    then groups[|groups| - 1 := groups[|groups| - 1] + [demand]]
    else groups + [[demand]]
  }

  method CollectGroups(sorted: seq<Demand>) returns (groups: seq<Group>)
    ensures groups == Groups(sorted)
  {
    hide CanAppend;
    groups := [];
    for i := 0 to |sorted|
      invariant groups == Groups(sorted[..i])
    {
      assert sorted[..i + 1][..i] == sorted[..i];
      if groups != [] && CanAppend(groups[|groups| - 1], sorted[i]) {
        groups := groups[|groups| - 1 := groups[|groups| - 1] + [sorted[i]]];
      } else {
        groups := groups + [[sorted[i]]];
      }
    }
    assert sorted[..|sorted|] == sorted;
  }

  function Flatten(groups: seq<Group>): seq<Demand> {
    if groups == [] then [] else Flatten(groups[..|groups| - 1]) + groups[|groups| - 1]
  }

  lemma {:induction false} GroupsKeepDemands(sorted: seq<Demand>)
    ensures Flatten(Groups(sorted)) == sorted
  {
    hide Place;
    if sorted != [] {
      var n := |sorted| - 1;
      GroupsKeepDemands(sorted[..n]);
      PlaceKeeps(Groups(sorted[..n]), sorted[n]);
      assert sorted == sorted[..n] + [sorted[n]];
    }
  }

  lemma PlaceKeeps(groups: seq<Group>, demand: Demand)
    ensures Flatten(Place(groups, demand)) == Flatten(groups) + [demand]
  {
    hide CanAppend;
    var n := |groups| - 1;
    if groups != [] && CanAppend(groups[n], demand) {
      assert groups[n := groups[n] + [demand]][..n] == groups[..n];
    } else {
      assert (groups + [[demand]])[..|groups|] == groups;
    }
  }

  /** A group as the greedy pass grows it: every member could be appended to those before it. */
  ghost predicate Grown(group: Group) {
    forall k {:trigger GrownAt(group, k)} :: 0 < k < |group| ==> GrownAt(group, k)
  }

  ghost predicate GrownAt(group: Group, k: nat)
    requires 0 < k < |group|
  {
    CanAppend(group[..k], group[k])
  }

  lemma GrownExtends(group: Group, next: Demand)
    requires Grown(group) && CanAppend(group, next)
    ensures Grown(group + [next])
  {
    hide CanAppend;
    forall k | 0 < k < |group| + 1 ensures GrownAt(group + [next], k) {
      assert (group + [next])[..k] == group[..k];
      if k == |group| { assert group[..k] == group; } else { assert GrownAt(group, k); }
    }
  }

  lemma {:induction false} GroupsAreGrown(sorted: seq<Demand>)
    ensures forall g :: g in Groups(sorted) ==> Grown(g)
  {
    hide CanAppend, Grown;
    if sorted != [] {
      var n := |sorted| - 1;
      var groups := Groups(sorted[..n]);
      GroupsAreGrown(sorted[..n]);
      SingletonIsGrown(sorted[n]);
      if groups != [] && CanAppend(groups[|groups| - 1], sorted[n]) {
        GrownExtends(groups[|groups| - 1], sorted[n]);
      }
    }
  }

  lemma SingletonIsGrown(demand: Demand)
    ensures Grown([demand])
  {
  }

  // ---------------------------------------------------------------- groups are as large as they may be

  /** The registers a group spans. */
  function Span(group: Group): int {
    GroupEnd(group) - GroupStart(group) + 1
  }

  /** Why `next` cannot join `group`: another class, frequency or table; too many registers; or unused registers
      in between that a member or `next` does not allow to be read. */
  ghost predicate MustSplit(group: Group, next: Demand) {
    || next.requestClass != group[0].requestClass
    || next.frequency != group[0].frequency
    || next.block.table != group[0].block.table
    || Span(group + [next]) > 125
    || (var gap := next.block.start - GroupEnd(group) - 1;
        gap > 0 && exists d :: d in group + [next] && (d.doNotBridge || d.maximumBridgeGap < gap))
  }

  lemma SplitExactlyWhen(group: Group, next: Demand)
    requires SameKey(group[0], next) ==> GroupStart(group) <= next.block.start
    ensures CanAppend(group, next) <==> !MustSplit(group, next)
  {
    RanksIdentify(group[0].frequency, next.frequency, group[0].requestClass, next.requestClass);
    assert (group + [next])[..|group|] == group;
    var gap := next.block.start - GroupEnd(group) - 1;
    if gap > 0 {
      assert AllowsGap(group + [next], gap) <==> !exists d :: d in group + [next] && (d.doNotBridge || d.maximumBridgeGap < gap);
    }
  }

  /** The last demand placed so far is the last member of the last group. */
  lemma LastPlaced(sorted: seq<Demand>)
    requires sorted != []
    ensures var groups := Groups(sorted);
            groups != [] && groups[|groups| - 1][|groups[|groups| - 1]| - 1] == sorted[|sorted| - 1]
  {
    hide CanAppend;
  }

  /** The next demand in order does not start before the last group, if it could belong to it at all. */
  lemma NextStartsLater(sorted: seq<Demand>, n: nat)
    requires 0 < n < |sorted| && Sorting.SortedBy(sorted, DemandLe)
    ensures var groups := Groups(sorted[..n]);
            groups != [] && (SameKey(groups[|groups| - 1][0], sorted[n]) ==> GroupStart(groups[|groups| - 1]) <= sorted[n].block.start)
  {
    hide Groups, Grown;
    var groups := Groups(sorted[..n]);
    LastPlaced(sorted[..n]);
    GroupsAreGrown(sorted[..n]);
    var last := groups[|groups| - 1];
    assert last in groups;
    GrownHasOneKey(last);
    var first := StartMeans(last);
    assert last[|last| - 1] == sorted[n - 1] && last[|last| - 1] in last;
    assert DemandLe(sorted[n - 1], sorted[n]);
  }

  /** Members that joined had no need to split, and neighbouring groups had. */
  ghost predicate SplitRight(groups: seq<Group>) {
    && (forall i, k :: 0 <= i < |groups| && 0 < k < |groups[i]| ==> !MustSplit(groups[i][..k], groups[i][k]))
    && forall i :: 0 < i < |groups| ==> MustSplit(groups[i - 1], groups[i][0])
  }

  lemma PlacedRight(groups: seq<Group>, next: Demand)
    requires SplitRight(groups)
    requires groups != [] ==>
               (SameKey(groups[|groups| - 1][0], next) ==> GroupStart(groups[|groups| - 1]) <= next.block.start)
    ensures SplitRight(Place(groups, next))
  {
    hide CanAppend, MustSplit;
    var placed := Place(groups, next);
    if groups != [] {
      SplitExactlyWhen(groups[|groups| - 1], next);
    }
    forall i, k | 0 <= i < |placed| && 0 < k < |placed[i]| ensures !MustSplit(placed[i][..k], placed[i][k]) {
      if i < |groups| && k < |groups[i]| {
        assert placed[i][..k] == groups[i][..k];
      } else if i < |groups| {
        assert placed[i][..k] == groups[i];
      }
    }
  }

  lemma {:induction false} PassSplitsRight(sorted: seq<Demand>)
    requires Sorting.SortedBy(sorted, DemandLe)
    ensures SplitRight(Groups(sorted))
  {
    hide Place, SplitRight, DemandLe;
    if sorted == [] {
      NoGroupsSplitRight();
    } else {
      var n := |sorted| - 1;
      PassSplitsRight(sorted[..n]);
      if n > 0 {
        NextStartsLater(sorted, n);
      } else {
        assert sorted[..n] == [];
      }
      PlacedRight(Groups(sorted[..n]), sorted[n]);
    }
  }

  lemma NoGroupsSplitRight()
    ensures SplitRight([])
  {
  }

  /** Two neighbouring groups are apart only because they must be, and no member joined a group it had to be
      split off from: no block could be grown further in its place of the order. */
  lemma GroupsSplitOnlyWhereTheyMust(active: seq<Demand>)
    ensures var groups := Groups(Sorted(active));
            && (forall i, k :: 0 <= i < |groups| && 0 < k < |groups[i]| ==> !MustSplit(groups[i][..k], groups[i][k]))
            && forall i :: 0 < i < |groups| ==> MustSplit(groups[i - 1], groups[i][0])
  {
    hide MustSplit, Groups, DemandLe;
    DemandOrder();
    Sorting.SortSorts(active, DemandLe);
    PassSplitsRight(Sorted(active));
  }

  // ---------------------------------------------------------------- what a grown group guarantees

  predicate ReadableBlock(block: Modbus.RegisterBlock) {
    block.ValidFor(Modbus.ReadFunction(block.table))
  }

  /** A grown group of valid demands, ordered by start. */
  ghost predicate Readable(group: Group) {
    && Grown(group)
    && (forall d :: d in group ==> ReadableBlock(d.block))
    && (forall i, j :: 0 <= i < j < |group| ==> group[i].block.start <= group[j].block.start)
  }

  function BlockOf(group: Group): Modbus.RegisterBlock
    requires GroupEnd(group) >= GroupStart(group)
  {
    Modbus.RegisterBlock(group[0].block.table, GroupStart(group), GroupEnd(group) - GroupStart(group) + 1)
  }

  lemma {:induction false} GroupFits(group: Group)
    requires Readable(group)
    ensures GroupStart(group) == group[0].block.start
    ensures 1 <= GroupEnd(group) - GroupStart(group) + 1 <= 125 && GroupEnd(group) <= 0xFFFF
  {
    hide Readable, AllowsGap, SameKey;
    LastIsOrdered(group);
    if |group| > 1 {
      FrontIsReadable(group);
      GroupFits(group[..|group| - 1]);
    }
  }

  lemma GroupHasOneKey(group: Group)
    requires Readable(group)
    ensures forall d :: d in group ==> SameKey(group[0], d)
  {
    hide SameKey;
    forall k | 0 <= k < |group| ensures SameKey(group[0], group[k]) {
      if k == 0 {
        KeyOfItself(group[0]);
      } else {
        assert GrownAt(group, k);
        AppendedSameKey(group[..k], group[k]);
      }
    }
  }

  lemma KeyOfItself(d: Demand)
    ensures SameKey(d, d)
  {
  }

  lemma AppendedSameKey(group: Group, next: Demand)
    requires CanAppend(group, next)
    ensures SameKey(group[0], next)
  {
  }

  lemma LastIsOrdered(group: Group)
    requires Readable(group)
    ensures var n := |group| - 1;
            && ReadableBlock(group[n].block) && group[0].block.start <= group[n].block.start
            && (n > 0 ==> CanAppend(group[..n], group[n]))
  {
    assert group[|group| - 1] in group;
    assert |group| > 1 ==> GrownAt(group, |group| - 1);
  }

  lemma FrontIsReadable(group: Group)
    requires Readable(group) && |group| > 1
    ensures Readable(group[..|group| - 1])
  {
    hide CanAppend, ReadableBlock;
    var front := group[..|group| - 1];
    forall k | 0 < k < |front| ensures GrownAt(front, k) {
      assert front[..k] == group[..k];
      assert GrownAt(group, k);
    }
  }

  /** The block of every group is one valid read of at most 125 registers that covers all its members. */
  lemma GroupedBlockIsValid(group: Group)
    requires Readable(group)
    ensures GroupEnd(group) >= GroupStart(group) && ReadableBlock(BlockOf(group)) && BlockOf(group).count <= 125
    ensures forall d :: d in group ==>
              && d.block.table == BlockOf(group).table
              && BlockOf(group).start <= d.block.start && d.block.End() <= BlockOf(group).End()
  {
    GroupFits(group);
    GroupHasOneKey(group);
    ExtentMeans(group);
  }

  lemma {:induction false} PiecesOfFlatten(groups: seq<Group>, i: nat) returns (offset: nat)
    requires i < |groups|
    ensures offset + |groups[i]| <= |Flatten(groups)| && Flatten(groups)[offset..offset + |groups[i]|] == groups[i]
    decreases |groups|
  {
    var n := |groups| - 1;
    if i == n {
      offset := |Flatten(groups[..n])|;
    } else {
      offset := PiecesOfFlatten(groups[..n], i);
      assert Flatten(groups) == Flatten(groups[..n]) + groups[n];
    }
  }

  lemma GrownHasOneKey(group: Group)
    requires Grown(group)
    ensures forall k :: 0 <= k < |group| ==> SameKey(group[0], group[k])
  {
    forall k | 0 < k < |group| ensures SameKey(group[0], group[k]) {
      assert GrownAt(group, k);
    }
  }

  /** A grown piece of an ordered list of valid demands is readable. */
  lemma PieceIsReadable(sorted: seq<Demand>, offset: nat, g: Group)
    requires Sorting.SortedBy(sorted, DemandLe) && forall d :: d in sorted ==> ReadableBlock(d.block)
    requires offset + |g| <= |sorted| && sorted[offset..offset + |g|] == g
    requires Grown(g) && forall k :: 0 <= k < |g| ==> SameKey(g[0], g[k])
    ensures Readable(g)
  {
    hide Grown, ReadableBlock;
    forall d | d in g ensures ReadableBlock(d.block) {
      assert d in sorted;
    }
    forall i, j | 0 <= i < j < |g| ensures g[i].block.start <= g[j].block.start {
      assert g[i] == sorted[offset + i] && g[j] == sorted[offset + j];
      assert DemandLe(sorted[offset + i], sorted[offset + j]);
      assert SameKey(g[0], g[i]) && SameKey(g[0], g[j]);
    }
  }

  // ---------------------------------------------------------------- reads refine

  /** The words a read of `block` returns from a register memory. */
  function ReadWords(memory: (Modbus.Table, nat) -> Word, block: Modbus.RegisterBlock): (words: seq<Word>)
    ensures |words| == block.count
  {
    seq(block.count, i requires 0 <= i < block.count => memory(block.table, block.start + i))
  }

  /** Cutting a member's slice out of the grouped read gives exactly the words of reading it alone. */
  lemma GroupedReadRefines(group: Group, member: Demand, memory: (Modbus.Table, nat) -> Word)
    requires Readable(group) && member in group
    ensures GroupEnd(group) >= GroupStart(group) && BlockOf(group).start <= member.block.start
    ensures var offset := member.block.start - BlockOf(group).start;
            && offset + member.block.count <= BlockOf(group).count
            && ReadWords(memory, BlockOf(group))[offset..offset + member.block.count] == ReadWords(memory, member.block)
  {
    hide Readable;
    GroupedBlockIsValid(group);
    SliceIsRead(BlockOf(group), member.block, memory);
  }

  lemma SliceIsRead(whole: Modbus.RegisterBlock, part: Modbus.RegisterBlock, memory: (Modbus.Table, nat) -> Word)
    requires whole.table == part.table && whole.start <= part.start && part.End() <= whole.End()
    ensures var offset := part.start - whole.start;
            offset + part.count <= whole.count && ReadWords(memory, whole)[offset..offset + part.count] == ReadWords(memory, part)
  {
  }

  // ---------------------------------------------------------------- bridged gaps are allowed

  /** `address` lies in the block but belongs to no member. */
  ghost predicate Uncovered(group: Group, address: int) {
    GroupStart(group) <= address <= GroupEnd(group)
    && forall d :: d in group ==> !(d.block.start <= address <= d.block.End())
  }

  /** The gap before member `k`, counted from the end of everything before it. */
  function GapBefore(group: Group, k: nat): int
    requires 0 < k < |group|
  {
    group[k].block.start - GroupEnd(group[..k]) - 1
  }

  /** Every address that is read without being asked for lies in a gap that the member right after it and all
      members before it allow to be bridged. */
  lemma {:induction false} BridgedGapsAreAllowed(group: Group, address: int) returns (k: nat)
    requires Readable(group) && Uncovered(group, address)
    ensures 0 < k < |group| && GroupEnd(group[..k]) < address < group[k].block.start
    ensures AllowsGap(group[..k + 1], GapBefore(group, k))
  {
    hide Readable, Uncovered, CanAppend, SameKey, AllowsGap;
    var n := |group| - 1;
    LastIsOrdered(group);
    LastMisses(group, address);
    k := n;
    if n > 0 {
      FrontIsReadable(group);
      if address <= GroupEnd(group[..n]) {
        FrontMisses(group, address);
        k := BridgedGapsAreAllowed(group[..n], address);
        assert group[..n][..k] == group[..k] && group[..n][..k + 1] == group[..k + 1];
      } else {
        AppendedOverGap(group[..n], group[n]);
        assert group[..n] + [group[n]] == group[..n + 1];
      }
    }
  }

  lemma AppendedOverGap(group: Group, next: Demand)
    requires CanAppend(group, next) && next.block.start > GroupEnd(group) + 1
    ensures AllowsGap(group + [next], next.block.start - GroupEnd(group) - 1)
  {
  }

  lemma LastMisses(group: Group, address: int)
    requires Readable(group) && Uncovered(group, address)
    ensures var n := |group| - 1;
            && n > 0
            && (address > GroupEnd(group[..n]) ==> address < group[n].block.start)
  {
    var n := |group| - 1;
    assert group[n] in group;
  }

  lemma FrontMisses(group: Group, address: int)
    requires |group| > 1 && Readable(group) && Uncovered(group, address) && address <= GroupEnd(group[..|group| - 1])
    ensures Uncovered(group[..|group| - 1], address)
  {
    var n := |group| - 1;
    FrontIsReadable(group);
    GroupFits(group);
    GroupFits(group[..n]);
    assert forall d :: d in group[..n] ==> d in group;
  }

  // ---------------------------------------------------------------- cost

  datatype Link = Link(baudRate: nat, eightDataBits: bool, parity: bool, twoStopBits: bool)
  {
    predicate Valid() {
      0 < baudRate <= U32_MAX
    }

    function BitsPerCharacter(): nat {
      1 + (if eightDataBits then 8 else 7) + (if parity then 1 else 0) + (if twoStopBits then 2 else 1)
    }
  }

  const MICROSECOND: Nanos := 1000
  /** The longest duration: a 64-bit number of seconds and a second less one nanosecond. */
  const DURATION_MAX: Nanos := U64_MAX * 1_000_000_000 + 999_999_999

  function DivCeil(x: nat, d: nat): nat
    requires d > 0
  {
    (x + (d - 1)) / d
  }

  lemma DivCeilMeans(x: nat, d: nat)
    requires d > 0
    ensures DivCeil(x, d) * d >= x && (DivCeil(x, d) == 0 || (DivCeil(x, d) - 1) * d < x)
  {
    var q, r := (x + (d - 1)) / d, (x + (d - 1)) % d;
    assert x + (d - 1) == q * d + r;
    assert (q - 1) * d == q * d - d;
  }

  /** The silent interval of 3.5 characters, at least 1750 microseconds above 19200 baud. */
  function ProtocolT35(link: Link): Nanos
    requires link.Valid()
  {
    if link.baudRate > 19_200 then 1750 * MICROSECOND
    else DivCeil(link.BitsPerCharacter() * 35 * 1_000_000, link.baudRate * 10) * MICROSECOND
  }

  function WireBytes(count: nat): nat {
    8 + (5 + 2 * count)
  }

  function Saturated(duration: nat): Nanos {
    Min(duration, DURATION_MAX)
  }

  datatype CostModel = CostModel(link: Link, minimumInterFrameDelay: Nanos, measuredResponseTime: Nanos, deviceMargin: Nanos)

  function TransactionCost(model: CostModel, block: Modbus.RegisterBlock): Nanos
    requires model.link.Valid()
  {
    var wire := DivCeil(WireBytes(block.count) * model.link.BitsPerCharacter() * 1_000_000, model.link.baudRate) * MICROSECOND;
    var t35 := Max(ProtocolT35(model.link), model.minimumInterFrameDelay);
    Saturated(Saturated(Saturated(wire + t35) + model.measuredResponseTime) + model.deviceMargin)
  }

  /** Unless the estimate hits the longest duration, it is the time of an eight-byte request and a response of five
      bytes and the registers on the wire, rounded up to a microsecond, plus every other part of the transaction. */
  lemma CostCoversTransaction(model: CostModel, block: Modbus.RegisterBlock)
    requires model.link.Valid() && TransactionCost(model, block) < DURATION_MAX
    ensures var rest := TransactionCost(model, block)
                        - Max(ProtocolT35(model.link), model.minimumInterFrameDelay) - model.measuredResponseTime - model.deviceMargin;
            && rest >= 0 && rest % MICROSECOND == 0
            && (rest - MICROSECOND) * model.link.baudRate
               < (13 + 2 * block.count) * model.link.BitsPerCharacter() * 1_000_000_000
               <= rest * model.link.baudRate
  {
    var bits := WireBytes(block.count) * model.link.BitsPerCharacter();
    var micros := DivCeil(bits * 1_000_000, model.link.baudRate);
    DivCeilMeans(bits * 1_000_000, model.link.baudRate);
    ScaledBounds(micros, model.link.baudRate, bits * 1_000_000);
    assert bits > 0;
  }

  lemma ScaledBounds(micros: nat, rate: nat, bits: nat)
    requires micros * rate >= bits > 0 && (micros == 0 || (micros - 1) * rate < bits)
    ensures (micros * MICROSECOND - MICROSECOND) * rate < bits * MICROSECOND <= (micros * MICROSECOND) * rate
    ensures (micros * MICROSECOND) % MICROSECOND == 0
  {
    assert micros > 0;
    assert (micros * MICROSECOND) * rate == (micros * rate) * MICROSECOND;
    assert (micros * MICROSECOND - MICROSECOND) * rate == ((micros - 1) * rate) * MICROSECOND;
  }

  /** The silent interval is 3.5 characters rounded up to a microsecond, or 1750 microseconds above 19200 baud. */
  lemma SilenceMeans(link: Link)
    requires link.Valid()
    ensures link.baudRate > 19_200 ==> ProtocolT35(link) == 1_750_000
    ensures link.baudRate <= 19_200 ==>
              && ProtocolT35(link) % MICROSECOND == 0
              && (ProtocolT35(link) - MICROSECOND) * link.baudRate * 2 < 7 * link.BitsPerCharacter() * 1_000_000_000
                 <= ProtocolT35(link) * link.baudRate * 2
  {
    var tenths := link.BitsPerCharacter() * 35 * 1_000_000;
    var micros := DivCeil(tenths, link.baudRate * 10);
    DivCeilMeans(tenths, link.baudRate * 10);
    ScaledBounds(micros, link.baudRate * 10, tenths);
  }

  const ONE_MILLION_PPM: nat := 1_000_000

  function UtilizationPpm(cost: Nanos, period: Nanos): nat {
    if period == 0 then ONE_MILLION_PPM
    else Min(DivCeil(Min(cost * ONE_MILLION_PPM, U128_MAX), period), U32_MAX)
  }

  /** Unless it saturates, the reported share is never less than the true one, by less than one part. */
  lemma PpmIsSound(cost: Nanos, period: Nanos)
    requires 0 < period && cost <= DURATION_MAX && UtilizationPpm(cost, period) < U32_MAX
    ensures cost * ONE_MILLION_PPM <= UtilizationPpm(cost, period) * period
    ensures UtilizationPpm(cost, period) > 0 ==> (UtilizationPpm(cost, period) - 1) * period < cost * ONE_MILLION_PPM
  {
    assert DURATION_MAX * ONE_MILLION_PPM <= U128_MAX;
    assert cost * ONE_MILLION_PPM <= DURATION_MAX * ONE_MILLION_PPM;
    DivCeilMeans(cost * ONE_MILLION_PPM, period);
  }
}
