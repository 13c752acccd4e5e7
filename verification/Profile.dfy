/** The profile record of `currentflow/signals/volume_profile.py`: bar hygiene, bucket kinds,
    merged nodes and `build_profile`. */
module Profile {
  import opened Models
  import opened Sequences
  import Allocation
  import ValueArea

  const BUCKETS: nat := 24
  const MIN_BARS: nat := 10
  const WINDOW_BARS: int := 60
  const VALUE_AREA_PCT: real := 0.70
  const HVN_MULT: real := 1.5
  const LVN_MULT: real := 0.4

  datatype NodeKind = HVN | LVN | ORDINARY

  datatype Bucket = Bucket(low: real, high: real, volume: real, kind: NodeKind)

  datatype Node = Node(kind: NodeKind, low: real, high: real, volume: real, share: real)

  datatype VolumeProfile =
    | Unavailable(bars: seq<Bar>)
    | Available(
        poc: real, vah: real, val: real,
        buckets: seq<Bucket>, nodes: seq<Node>, bars: seq<Bar>,
        totalVolume: real, valueAreaVolume: real)

  // ---- bar hygiene -----------------------------------------------------------------------

  predicate IsComplete(b: DailyBar) {
    b.status == TRADED && b.high.Some? && b.low.Some? && b.close.Some? && b.volume.Some?
  }

  /** The profile never reads the open, so a bar without one still counts. */
  function ToBar(b: DailyBar): Bar
    requires IsComplete(b)
  {
    Bar(b.date, if b.open.Some? then b.open.value else 0.0,
        b.high.value, b.low.value, b.close.value, b.volume.value)
  }

  function ToBars(bars: seq<DailyBar>): (r: seq<Bar>)
    requires forall b :: b in bars ==> IsComplete(b)
    ensures |r| == |bars|
  {
    seq(|bars|, i requires 0 <= i < |bars| => ToBar(bars[i]))
  }

  function Complete(bars: seq<DailyBar>): seq<Bar> {
    ToBars(Filter(Sort(bars, ByDate), b => IsComplete(b)))
  }

  /** The last `window` complete bars. */
  function Usable(bars: seq<DailyBar>, window: Option<int>): seq<Bar> {
    var span := if window.Some? then window.value else WINDOW_BARS;
    var all := Complete(bars);
    if span <= 0 then [] else if span >= |all| then all else all[|all| - span..]
  }

  // ---- bucket kinds ----------------------------------------------------------------------

  function Live(vols: seq<real>): seq<real> {
    Filter(vols, v => v > 0.0)
  }

  /** `_classify`: shelf or air against the mean of the buckets that hold volume. */
  function Kinds(vols: seq<real>): (kinds: seq<NodeKind>)
    ensures |kinds| == |vols|
  {
    var live := Live(vols);
    var mean := if live == [] then 0.0 else Sum(live) / |live| as real;
    if mean <= 0.0 then seq(|vols|, _ => ORDINARY)
    else seq(|vols|, i requires 0 <= i < |vols| => KindOf(vols[i], mean))
  }

  function KindOf(v: real, mean: real): NodeKind {
    if v >= HVN_MULT * mean then HVN else if v <= LVN_MULT * mean then LVN else ORDINARY
  }

  function Rank(kind: NodeKind): int {
    match kind
    case LVN => 0
    case ORDINARY => 1
    case HVN => 2
  }

  lemma {:induction false} SumAtMost(xs: seq<real>, top: real)
    requires forall x :: x in xs ==> x <= top
    ensures Sum(xs) <= |xs| as real * top
  {
    if xs != [] {
      var n := |xs| - 1;
      forall x | x in xs[..n] ensures x <= top {
        assert x in xs;
      }
      SumAtMost(xs[..n], top);
      assert xs[n] in xs;
      assert (n + 1) as real * top == n as real * top + top;
    }
  }

  lemma MeanAtMost(sum: real, n: nat, top: real)
    requires n > 0 && sum <= n as real * top
    ensures sum / n as real <= top
  {
    assert sum / n as real * n as real == sum;
  }

  /** Kinds follow volume, and the heaviest bucket of a profile with volume is never air. */
  lemma KindsFollowVolume(vols: seq<real>, i: nat, j: nat)
    requires i < |vols| && j < |vols| && vols[i] <= vols[j]
    ensures Rank(Kinds(vols)[i]) <= Rank(Kinds(vols)[j])
    ensures (forall k :: 0 <= k < |vols| ==> vols[k] <= vols[j]) ==> Kinds(vols)[j] != LVN
  {
    var live := Live(vols);
    if live != [] && forall k :: 0 <= k < |vols| ==> vols[k] <= vols[j] {
      SumAtMost(live, vols[j]);
      MeanAtMost(Sum(live), |live|, vols[j]);
    }
  }

  lemma {:induction false} HasLeast(xs: seq<real>) returns (i: nat)
    requires xs != []
    ensures i < |xs| && forall j :: 0 <= j < |xs| ==> xs[i] <= xs[j]
  {
    i := |xs| - 1;
    if |xs| > 1 {
      var j := HasLeast(xs[..i]);
      if xs[j] < xs[i] {
        i := j;
      }
    }
  }

  lemma {:induction false} SumAtLeast(xs: seq<real>, low: real)
    requires forall j :: 0 <= j < |xs| ==> low <= xs[j]
    ensures |xs| as real * low <= Sum(xs)
  {
    if xs != [] {
      var n := |xs| - 1;
      SumAtLeast(xs[..n], low);
      assert (n + 1) as real * low == n as real * low + low;
    }
  }

  lemma MeanAtLeast(sum: real, n: nat, low: real)
    requires n > 0 && n as real * low <= sum
    ensures low <= sum / n as real
  {
    assert sum / n as real * n as real == sum;
  }

  /** Not every bucket is a shelf: the lightest that holds volume is at most the mean. */
  lemma SomeBucketIsNotHvn(vols: seq<real>) returns (i: nat)
    requires vols != []
    ensures i < |vols| && Kinds(vols)[i] != HVN
  {
    var live := Live(vols);
    i := 0;
    if live != [] {
      var least := HasLeast(live);
      SumAtLeast(live, live[least]);
      MeanAtLeast(Sum(live), |live|, live[least]);
      assert live[least] in live;
      i :| 0 <= i < |vols| && vols[i] == live[least];
    }
  }

  // ---- merged nodes ----------------------------------------------------------------------

  function BucketVolumes(buckets: seq<Bucket>): (r: seq<real>)
    ensures |r| == |buckets|
  {
    seq(|buckets|, i requires 0 <= i < |buckets| => buckets[i].volume)
  }

  function Share(volume: real, total: real): real {
    if total > 0.0 then volume / total else 0.0
  }

  /** Node `k` stands for the buckets from `cuts[k]` up to `cuts[k + 1]`. */
  ghost predicate NodeCovers(node: Node, buckets: seq<Bucket>, total: real, a: nat, b: nat) {
    && a < b <= |buckets|
    && (forall i :: a <= i < b ==> buckets[i].kind == node.kind)
    && node.low == buckets[a].low && node.high == buckets[b - 1].high
    && node.volume == Sum(BucketVolumes(buckets)[a..b])
    && node.share == Share(node.volume, total)
  }

  ghost predicate Tiles(nodes: seq<Node>, buckets: seq<Bucket>, total: real, cuts: seq<nat>) {
    && |cuts| == |nodes| + 1 && cuts[0] == 0 && cuts[|nodes|] == |buckets|
    && (forall k :: 0 <= k < |nodes| ==> NodeCovers(nodes[k], buckets, total, cuts[k], cuts[k + 1]))
    && (forall k :: 0 < k < |nodes| ==> nodes[k - 1].kind != nodes[k].kind)
  }

  lemma TilesExtend(nodes: seq<Node>, buckets: seq<Bucket>, total: real, cuts: seq<nat>, b: Bucket)
    requires Tiles(nodes, buckets, total, cuts)
    ensures forall k :: 0 <= k < |nodes| ==>
              NodeCovers(nodes[k], buckets + [b], total, cuts[k], cuts[k + 1])
  {
    var more := buckets + [b];
    assert BucketVolumes(more) == BucketVolumes(buckets) + [b.volume];
    forall k | 0 <= k < |nodes|
      ensures NodeCovers(nodes[k], more, total, cuts[k], cuts[k + 1])
    {
      assert NodeCovers(nodes[k], buckets, total, cuts[k], cuts[k + 1]);
      assert BucketVolumes(more)[cuts[k]..cuts[k + 1]]
          == BucketVolumes(buckets)[cuts[k]..cuts[k + 1]];
    }
  }

  /** A bucket of the last node's kind lengthens that node. */
  lemma Lengthen(nodes: seq<Node>, buckets: seq<Bucket>, total: real, cuts: seq<nat>, b: Bucket, node: Node)
    requires Tiles(nodes, buckets, total, cuts)
    requires nodes != [] && nodes[|nodes| - 1].kind == b.kind == node.kind
    requires node.low == nodes[|nodes| - 1].low && node.high == b.high
    requires node.volume == nodes[|nodes| - 1].volume + b.volume
    requires node.share == Share(node.volume, total)
    ensures Tiles(nodes[..|nodes| - 1] + [node], buckets + [b], total,
                  cuts[..|nodes|] + [|buckets| + 1])
  {
    var n := |buckets|;
    var more := buckets + [b];
    TilesExtend(nodes, buckets, total, cuts, b);
    var a := cuts[|nodes| - 1];
    assert NodeCovers(nodes[|nodes| - 1], buckets, total, a, n);
    assert NodeCovers(nodes[|nodes| - 1], more, total, a, n);
    SumStep(BucketVolumes(more), a, n);
    assert NodeCovers(node, more, total, a, n + 1);
  }

  /** A bucket of another kind starts a node. */
  lemma StartNode(nodes: seq<Node>, buckets: seq<Bucket>, total: real, cuts: seq<nat>, b: Bucket)
    requires Tiles(nodes, buckets, total, cuts)
    requires nodes == [] || nodes[|nodes| - 1].kind != b.kind
    ensures Tiles(nodes + [Node(b.kind, b.low, b.high, b.volume, Share(b.volume, total))],
                  buckets + [b], total, cuts + [|buckets| + 1])
  {
    var n := |buckets|;
    var more := buckets + [b];
    TilesExtend(nodes, buckets, total, cuts, b);
    assert BucketVolumes(more)[n..n + 1] == [] + [b.volume];
    SumSnoc([], b.volume);
    assert NodeCovers(Node(b.kind, b.low, b.high, b.volume, Share(b.volume, total)),
                      more, total, n, n + 1);
  }

  /** `_merge`: the last node is rewritten while the kind stays the same. */
  method Merge(buckets: seq<Bucket>, total: real) returns (nodes: seq<Node>, ghost cuts: seq<nat>)
    ensures Tiles(nodes, buckets, total, cuts)
  {
    nodes, cuts := [], [0];
    var i := 0;
    while i < |buckets|
      invariant 0 <= i <= |buckets|
      invariant Tiles(nodes, buckets[..i], total, cuts)
    {
      var b := buckets[i];
      assert buckets[..i + 1] == buckets[..i] + [b];
      if nodes != [] && nodes[|nodes| - 1].kind == b.kind {
        var prev := nodes[|nodes| - 1];
        var volume := prev.volume + b.volume;
        var node := Node(prev.kind, prev.low, b.high, volume, Share(volume, total));
        Lengthen(nodes, buckets[..i], total, cuts, b, node);
        cuts := cuts[..|nodes|] + [i + 1];
        nodes := nodes[..|nodes| - 1] + [node];
      } else {
        StartNode(nodes, buckets[..i], total, cuts, b);
        nodes := nodes + [Node(b.kind, b.low, b.high, b.volume, Share(b.volume, total))];
        cuts := cuts + [i + 1];
      }
      i := i + 1;
    }
    assert buckets[..i] == buckets;
  }

  /** The runs are maximal and nothing else: a cut is exactly a change of kind. */
  lemma CutsAreChanges(nodes: seq<Node>, buckets: seq<Bucket>, total: real, cuts: seq<nat>, i: nat)
    requires Tiles(nodes, buckets, total, cuts) && 0 < i < |buckets|
    ensures i in cuts <==> buckets[i - 1].kind != buckets[i].kind
  {
    var k := CoveringNode(nodes, buckets, total, cuts, i, |nodes|);
    assert NodeCovers(nodes[k], buckets, total, cuts[k], cuts[k + 1]);
    if cuts[k] == i {
      assert k > 0;
      assert NodeCovers(nodes[k - 1], buckets, total, cuts[k - 1], cuts[k]);
    } else {
      forall j | 0 <= j < |cuts| ensures cuts[j] != i {
        if j <= k { CutsIncrease(nodes, buckets, total, cuts, j, k); }
        else { CutsIncrease(nodes, buckets, total, cuts, k + 1, j); }
      }
    }
  }

  lemma {:induction false} CutsIncrease(nodes: seq<Node>, buckets: seq<Bucket>, total: real, cuts: seq<nat>, j: nat,
                                        k: nat)
    requires Tiles(nodes, buckets, total, cuts) && j <= k < |cuts|
    ensures cuts[j] <= cuts[k]
  {
    if j < k {
      CutsIncrease(nodes, buckets, total, cuts, j, k - 1);
      assert NodeCovers(nodes[k - 1], buckets, total, cuts[k - 1], cuts[k]);
    }
  }

  lemma {:induction false} CoveringNode(nodes: seq<Node>, buckets: seq<Bucket>, total: real, cuts: seq<nat>, i: nat,
                                        m: nat)
    returns (k: nat)
    requires Tiles(nodes, buckets, total, cuts) && m <= |nodes| && i < cuts[m]
    ensures k < m && cuts[k] <= i < cuts[k + 1]
  {
    k := m - 1;
    if i < cuts[k] {
      k := CoveringNode(nodes, buckets, total, cuts, i, k);
    }
  }

  function NodeVolumes(nodes: seq<Node>): (r: seq<real>)
    ensures |r| == |nodes|
  {
    seq(|nodes|, i requires 0 <= i < |nodes| => nodes[i].volume)
  }

  function NodeShares(nodes: seq<Node>): (r: seq<real>)
    ensures |r| == |nodes|
  {
    seq(|nodes|, i requires 0 <= i < |nodes| => nodes[i].share)
  }

  lemma {:induction false} NodePrefixConserves(nodes: seq<Node>, buckets: seq<Bucket>, total: real, cuts: seq<nat>,
                                               m: nat)
    requires Tiles(nodes, buckets, total, cuts) && m <= |nodes|
    ensures cuts[m] <= |buckets|
    ensures Sum(NodeVolumes(nodes)[..m]) == Sum(BucketVolumes(buckets)[..cuts[m]])
  {
    CutsIncrease(nodes, buckets, total, cuts, m, |nodes|);
    var vols := BucketVolumes(buckets);
    if m > 0 {
      NodePrefixConserves(nodes, buckets, total, cuts, m - 1);
      assert NodeCovers(nodes[m - 1], buckets, total, cuts[m - 1], cuts[m]);
      SumSplit(vols, 0, cuts[m - 1], cuts[m]);
      assert NodeVolumes(nodes)[..m][..m - 1] == NodeVolumes(nodes)[..m - 1];
      assert vols[0..cuts[m]] == vols[..cuts[m]];
      assert vols[0..cuts[m - 1]] == vols[..cuts[m - 1]];
    }
  }

  /** Merging conserves volume, and the shares of a profile's nodes add up to one. */
  lemma MergeConserves(nodes: seq<Node>, buckets: seq<Bucket>, total: real, cuts: seq<nat>)
    requires Tiles(nodes, buckets, total, cuts)
    ensures Sum(NodeVolumes(nodes)) == Sum(BucketVolumes(buckets))
    ensures total > 0.0 && total == Sum(BucketVolumes(buckets)) ==> Sum(NodeShares(nodes)) == 1.0
  {
    NodePrefixConserves(nodes, buckets, total, cuts, |nodes|);
    assert NodeVolumes(nodes)[..|nodes|] == NodeVolumes(nodes);
    assert BucketVolumes(buckets)[..|buckets|] == BucketVolumes(buckets);
    if total > 0.0 && total == Sum(BucketVolumes(buckets)) {
      forall k | 0 <= k < |nodes| ensures nodes[k].share == Share(nodes[k].volume, total) {
        assert NodeCovers(nodes[k], buckets, total, cuts[k], cuts[k + 1]);
      }
      SharesAddUp(nodes, total);
    }
  }

  lemma SharesAddUp(nodes: seq<Node>, total: real)
    requires total > 0.0 && Sum(NodeVolumes(nodes)) == total
    requires forall k :: 0 <= k < |nodes| ==> nodes[k].share == Share(nodes[k].volume, total)
    ensures Sum(NodeShares(nodes)) == 1.0
  {
    var k := 1.0 / total;
    forall i | 0 <= i < |nodes| ensures NodeShares(nodes)[i] == k * NodeVolumes(nodes)[i] {
      assert nodes[i].volume / total == k * nodes[i].volume;
    }
    SumScale(NodeVolumes(nodes), NodeShares(nodes), k);
  }

  // ---- build_profile ---------------------------------------------------------------------

  function LowestLow(bars: seq<Bar>): (r: real)
    requires bars != []
    ensures forall i :: 0 <= i < |bars| ==> r <= bars[i].low
    ensures exists i :: 0 <= i < |bars| && r == bars[i].low
  {
    if |bars| == 1 then bars[0].low
    else
      var rest := LowestLow(bars[1..]);
      if bars[0].low <= rest then bars[0].low else rest
  }

  function HighestHigh(bars: seq<Bar>): (r: real)
    requires bars != []
    ensures forall i :: 0 <= i < |bars| ==> bars[i].high <= r
    ensures exists i :: 0 <= i < |bars| && r == bars[i].high
  {
    if |bars| == 1 then bars[0].high
    else
      var rest := HighestHigh(bars[1..]);
      if bars[0].high >= rest then bars[0].high else rest
  }

  /** The heaviest bucket, ties to the lower price. */
  function PointOfControl(vols: seq<real>): (poc: nat)
    requires vols != []
    ensures poc < |vols|
    ensures forall i :: 0 <= i < |vols| ==> vols[i] <= vols[poc]
    ensures forall i :: 0 <= i < poc ==> vols[i] < vols[poc]
  {
    if |vols| == 1 then 0
    else
      var front := PointOfControl(vols[..|vols| - 1]);
      if vols[|vols| - 1] > vols[front] then |vols| - 1 else front
  }

  function BucketAt(lo: real, width: real, vols: seq<real>, i: nat): Bucket
    requires i < |vols|
  {
    Bucket(Allocation.Edge(lo, width, i), Allocation.Edge(lo, width, i + 1), vols[i], Kinds(vols)[i])
  }

  function Buckets(lo: real, width: real, vols: seq<real>): (r: seq<Bucket>)
    ensures |r| == |vols| && BucketVolumes(r) == vols
    ensures forall i :: 0 <= i < |r| ==> r[i] == BucketAt(lo, width, vols, i)
  {
    seq(|vols|, i requires 0 <= i < |vols| => BucketAt(lo, width, vols, i))
  }

  function Mid(b: Bucket): real { (b.low + b.high) / 2.0 }

  /** When there is nothing readable: too few bars, no price range, or no volume. */
  predicate Readable(bars: seq<Bar>) {
    |bars| >= MIN_BARS && LowestLow(bars) < HighestHigh(bars) && Allocation.TotalTraded(bars) > 0.0
  }

  function BucketWidth(bars: seq<Bar>): (r: real)
    requires bars != []
    ensures LowestLow(bars) < HighestHigh(bars) ==> r > 0.0
  {
    (HighestHigh(bars) - LowestLow(bars)) / BUCKETS as real
  }

  function WindowVolumes(bars: seq<Bar>): (r: seq<real>)
    requires Readable(bars)
    ensures |r| == BUCKETS && NonNegative(r)
  {
    Allocation.Volumes(bars, LowestLow(bars), BucketWidth(bars), BUCKETS)
  }

  /** The buckets cut the window's own range and hold exactly the volume traded. */
  ghost predicate BucketsRead(buckets: seq<Bucket>, total: real, bars: seq<Bar>)
    requires Readable(bars)
  {
    && |buckets| == BUCKETS && BucketVolumes(buckets) == WindowVolumes(bars)
    && buckets == Buckets(LowestLow(bars), BucketWidth(bars), WindowVolumes(bars))
    && (forall i :: 0 <= i < BUCKETS ==> buckets[i].kind == Kinds(WindowVolumes(bars))[i])
    && buckets[0].low == LowestLow(bars) && buckets[BUCKETS - 1].high == HighestHigh(bars)
    && (forall i :: 0 < i < BUCKETS ==> buckets[i - 1].high == buckets[i].low)
    && total == Sum(BucketVolumes(buckets)) == Allocation.TotalTraded(bars)
  }

  /** The levels are those of the greedy value area around the heaviest bucket. */
  ghost predicate LevelsRead(p: VolumeProfile, bars: seq<Bar>)
    requires p.Available? && Readable(bars) && |p.buckets| == BUCKETS
  {
    var vols := WindowVolumes(bars);
    var poc := PointOfControl(vols);
    var band := ValueArea.Grow(vols, Target(p.totalVolume), ValueArea.Band(poc, poc));
    && p.poc == Mid(p.buckets[poc])
    && p.val == p.buckets[band.lo].low && p.vah == p.buckets[band.hi].high
    && p.valueAreaVolume == ValueArea.BandSum(vols, band)
    && p.valueAreaVolume >= Target(p.totalVolume)
    && p.val < p.poc < p.vah
  }

  /** The nodes are the maximal runs, they conserve the volume and their shares add up. */
  ghost predicate NodesRead(nodes: seq<Node>, buckets: seq<Bucket>, total: real) {
    && (exists cuts :: Tiles(nodes, buckets, total, cuts))
    && Sum(NodeVolumes(nodes)) == total && Sum(NodeShares(nodes)) == 1.0
  }

  /** What a readable profile promises about the bars it was built from. */
  ghost predicate ReadsAs(p: VolumeProfile, bars: seq<Bar>)
    requires p.Available? && Readable(bars)
  {
    && p.bars == bars
    && BucketsRead(p.buckets, p.totalVolume, bars)
    && LevelsRead(p, bars)
    && NodesRead(p.nodes, p.buckets, p.totalVolume)
  }

  /** `build_profile` answered with `p`. */
  ghost predicate IsProfileOf(p: VolumeProfile, bars: seq<DailyBar>, window: Option<int>) {
    && (p.Available? <==> Readable(Usable(bars, window)))
    && p.bars == Usable(bars, window)
    && (p.Available? ==> ReadsAs(p, Usable(bars, window)))
  }

  lemma MidInside(lo: real, width: real, vols: seq<real>, a: nat, m: nat, b: nat)
    requires width > 0.0 && a <= m <= b < |vols|
    ensures var bs := Buckets(lo, width, vols);
            bs[a].low < Mid(bs[m]) < bs[b].high
  {
    Allocation.EdgeMonotone(lo, width, a, m);
    Allocation.EdgeMonotone(lo, width, m + 1, b + 1);
    Allocation.EdgeMonotone(lo, width, m, m + 1);
  }

  lemma WindowInRange(bars: seq<Bar>)
    requires Readable(bars)
    ensures Allocation.Edge(LowestLow(bars), BucketWidth(bars), BUCKETS) == HighestHigh(bars)
    ensures forall k :: 0 <= k < |bars| ==>
              Allocation.InRange(bars[k], LowestLow(bars), BucketWidth(bars), BUCKETS)
  {
  }

  /** `build_profile`. */
  method Build(bars: seq<DailyBar>, window: Option<int>) returns (p: VolumeProfile)
    ensures IsProfileOf(p, bars, window)
  {
    var usable := Usable(bars, window);
    if |usable| < MIN_BARS {
      return Unavailable(usable);
    }
    var lo, hi := LowestLow(usable), HighestHigh(usable);
    if hi <= lo {
      return Unavailable(usable);
    }
    var width := (hi - lo) / BUCKETS as real;
    assert Allocation.Edge(lo, width, BUCKETS) == hi;
    var cells := Allocation.Allocate(usable, lo, width, BUCKETS);
    var vols := cells[..];
    var total := Sum(vols);
    Allocation.VolumesConserve(usable, lo, width, BUCKETS);
    if total <= 0.0 {
      return Unavailable(usable);
    }
    p := Assemble(usable, lo, width, vols, total);
  }

  lemma BucketsOfWindow(bars: seq<Bar>)
    requires Readable(bars)
    ensures BucketsRead(Buckets(LowestLow(bars), BucketWidth(bars), WindowVolumes(bars)),
                        Allocation.TotalTraded(bars), bars)
  {
    WindowInRange(bars);
    Allocation.VolumesConserve(bars, LowestLow(bars), BucketWidth(bars), BUCKETS);
  }

  function Target(total: real): real { total * VALUE_AREA_PCT }

  /** The record made of a band around the point of control. */
  function ProfileOf(bars: seq<Bar>, buckets: seq<Bucket>, nodes: seq<Node>, total: real, poc: nat,
                     band: ValueArea.Band, acc: real): VolumeProfile
    requires poc < |buckets| && band.lo < |buckets| && band.hi < |buckets|
  {
    Available(Mid(buckets[poc]), buckets[band.hi].high, buckets[band.lo].low, buckets, nodes, bars, total, acc)
  }

  lemma BandOfWindow(vols: seq<real>, total: real, poc: nat, band: ValueArea.Band)
    requires NonNegative(vols) && vols != [] && total == Sum(vols) && poc == PointOfControl(vols)
    requires band == ValueArea.Grow(vols, Target(total), ValueArea.Band(poc, poc))
    ensures band.lo <= poc <= band.hi < |vols| && ValueArea.BandSum(vols, band) >= Target(total)
  {
    SumNonNegative(vols);
    ValueArea.GrowReaches(vols, Target(total), ValueArea.Band(poc, poc));
  }

  lemma LevelsOfWindow(bars: seq<Bar>, buckets: seq<Bucket>, nodes: seq<Node>, total: real, vols: seq<real>, poc: nat,
                       band: ValueArea.Band)
    requires Readable(bars) && vols == WindowVolumes(bars) && total == Sum(vols) && poc == PointOfControl(vols)
    requires buckets == Buckets(LowestLow(bars), BucketWidth(bars), vols)
    requires band == ValueArea.Grow(vols, Target(total), ValueArea.Band(poc, poc))
    ensures band.lo <= poc <= band.hi < BUCKETS
    ensures LevelsRead(ProfileOf(bars, buckets, nodes, total, poc, band, ValueArea.BandSum(vols, band)), bars)
  {
    BandOfWindow(vols, total, poc, band);
    MidInside(LowestLow(bars), BucketWidth(bars), vols, band.lo, poc, band.hi);
  }

  /** The last part of `build_profile`: levels, buckets and nodes from the volumes. */
  method Assemble(bars: seq<Bar>, lo: real, width: real, vols: seq<real>, total: real)
    returns (p: VolumeProfile)
    requires Readable(bars) && lo == LowestLow(bars) && width == BucketWidth(bars)
    requires vols == WindowVolumes(bars)
    requires total == Sum(vols) == Allocation.TotalTraded(bars)
    ensures p.Available? && ReadsAs(p, bars)
  {
    var poc := PointOfControl(vols);
    var band, acc := ValueArea.Compute(vols, poc, Target(total));
    var buckets := Buckets(lo, width, vols);
    BucketsOfWindow(bars);
    var nodes := MergeWhole(buckets, total);
    LevelsOfWindow(bars, buckets, nodes, total, vols, poc, band);
    p := ProfileOf(bars, buckets, nodes, total, poc, band, acc);
  }

  /** `_merge` over all buckets of a window that traded. */
  method MergeWhole(buckets: seq<Bucket>, total: real) returns (nodes: seq<Node>)
    requires total > 0.0 && total == Sum(BucketVolumes(buckets))
    ensures NodesRead(nodes, buckets, total)
  {
    ghost var cuts;
    nodes, cuts := Merge(buckets, total);
    MergeConserves(nodes, buckets, total, cuts);
  }
}
