/** Broker netting, clearing and concentration: `currentflow/signals/broker_flow.py` and the
    clearing report of `currentflow/store/integrity.py`. */
module BrokerFlow {
  import opened Models
  import opened Sequences
  import opened Ordering

  datatype BrokerRow = BrokerRow(date: int, broker: string, side: Side, value: Option<real>)

  type Nets = map<string, real>

  // ---- daily netting --------------------------------------------------------------------------------

  function Signed(r: BrokerRow): real
    requires r.value.Some?
  {
    if r.side == BUY then r.value.value else -r.value.value
  }

  function Get(m: Nets, k: string): real { if k in m then m[k] else 0.0 }

  function Day(net: map<int, Nets>, d: int): Nets { if d in net then net[d] else map[] }

  function Added(net: map<int, Nets>, r: BrokerRow): map<int, Nets> {
    if r.value.None? then net
    else net[r.date := Day(net, r.date)[r.broker := Get(Day(net, r.date), r.broker) + Signed(r)]]
  }

  /** The nets of a list of rows. */
  function NetsOf(rows: seq<BrokerRow>): map<int, Nets> {
    if rows == [] then map[] else Added(NetsOf(rows[..|rows| - 1]), rows[|rows| - 1])
  }

  /** How many rows have no value. */
  function Unknown(rows: seq<BrokerRow>): nat {
    if rows == [] then 0 else Unknown(rows[..|rows| - 1]) + if rows[|rows| - 1].value.None? then 1 else 0
  }

  /** `daily_broker_net`: rows of unknown value are dropped and counted. */
  method DailyBrokerNet(rows: seq<BrokerRow>) returns (net: map<int, Nets>, dropped: nat)
    ensures net == NetsOf(rows)
    ensures dropped == Unknown(rows)
  {
    net, dropped := map[], 0;
    for i := 0 to |rows|
      invariant net == NetsOf(rows[..i])
      invariant dropped == Unknown(rows[..i])
    {
      var r := rows[i];
      assert rows[..i + 1][..i] == rows[..i];
      if r.value.None? {
        dropped := dropped + 1;
      } else {
        var day := Day(net, r.date);
        net := net[r.date := day[r.broker := Get(day, r.broker) + Signed(r)]];
      }
    }
    assert rows[..|rows|] == rows;
  }

  function Gross(rows: seq<BrokerRow>, d: int, side: Side): real {
    if rows == [] then 0.0
    else
      var r := rows[|rows| - 1];
      Gross(rows[..|rows| - 1], d, side)
      + if r.value.Some? && r.date == d && r.side == side then r.value.value else 0.0
  }

  function GrossOf(rows: seq<BrokerRow>, d: int, side: Side, broker: string): real {
    if rows == [] then 0.0
    else
      var r := rows[|rows| - 1];
      GrossOf(rows[..|rows| - 1], d, side, broker)
      + if r.value.Some? && r.date == d && r.side == side && r.broker == broker then r.value.value else 0.0
  }

  /** One broker's net of the day is what it bought less what it sold. */
  lemma {:induction false} BrokerNetIsGross(rows: seq<BrokerRow>, d: int, broker: string)
    ensures Get(Day(NetsOf(rows), d), broker) == GrossOf(rows, d, BUY, broker) - GrossOf(rows, d, SELL, broker)
    ensures broker in Day(NetsOf(rows), d) <==>
            exists i :: 0 <= i < |rows| && rows[i].date == d && rows[i].broker == broker && rows[i].value.Some?
  {
    if rows != [] {
      BrokerNetIsGross(rows[..|rows| - 1], d, broker);
    }
  }

  lemma HasCode(s: set<string>)
    ensures s == {} || exists k :: k in s
  {
    if forall k :: k !in s {
      assert s == {};
    }
  }

  /** The sum of a dictionary's values. */
  ghost function Total(m: Nets): real {
    if m == map[] then 0.0
    else
      HasCode(m.Keys);
      var k :| k in m.Keys;
      m[k] + Total(m - {k})
  }

  /** In whatever order the values are added. */
  lemma {:induction false} TotalRemove(m: Nets, k: string)
    requires k in m
    ensures Total(m) == m[k] + Total(m - {k})
    decreases |m|
  {
    HasCode(m.Keys);
    var first :| first in m.Keys && Total(m) == m[first] + Total(m - {first});
    if first != k {
      TotalRemove(m - {first}, k);
      TotalRemove(m - {k}, first);
      assert m - {first} - {k} == m - {k} - {first};
    }
  }

  lemma TotalUpdate(m: Nets, k: string, v: real)
    ensures Total(m[k := v]) == Total(m) - Get(m, k) + v
  {
    TotalRemove(m[k := v], k);
    if k in m {
      TotalRemove(m, k);
      assert m[k := v] - {k} == m - {k};
    } else {
      assert m[k := v] - {k} == m;
    }
  }

  /** The day's nets sum to gross buying less gross selling: netting by broker loses nothing. */
  lemma {:induction false} DayNetsConserve(rows: seq<BrokerRow>, d: int)
    ensures Total(Day(NetsOf(rows), d)) == Gross(rows, d, BUY) - Gross(rows, d, SELL)
  {
    if rows != [] {
      var front, r := rows[..|rows| - 1], rows[|rows| - 1];
      DayNetsConserve(front, d);
      if r.value.Some? && r.date == d {
        var day := Day(NetsOf(front), d);
        TotalUpdate(day, r.broker, Get(day, r.broker) + Signed(r));
      }
    }
  }

  // ---- clearing ---------------------------------------------------------------------------------------

  datatype ClearingReport = ClearingReport(grossBuy: real, grossSell: real, dropped: nat) {
    function Larger(): real { if grossBuy >= grossSell then grossBuy else grossSell }

    function Imbalance(): real {
      if Larger() != 0.0 then Abs(grossBuy - grossSell) / Larger() else 0.0
    }

    predicate Clears() { Imbalance() <= CLEARING_TOL }
  }

  const CLEARING_TOL := 0.01

  function Abs(x: real): real { if x >= 0.0 then x else -x }

  /** One side of the market over all rows, whatever their dates. */
  function GrossAll(rows: seq<BrokerRow>, side: Side): real {
    if rows == [] then 0.0
    else
      var r := rows[|rows| - 1];
      GrossAll(rows[..|rows| - 1], side) + if r.value.Some? && r.side == side then r.value.value else 0.0
  }

  /** On one day's rows that is the day's. */
  lemma {:induction false} GrossOfOneDay(rows: seq<BrokerRow>, d: int, side: Side)
    requires forall i :: 0 <= i < |rows| ==> rows[i].date == d
    ensures GrossAll(rows, side) == Gross(rows, d, side)
  {
    if rows != [] {
      GrossOfOneDay(rows[..|rows| - 1], d, side);
    }
  }

  /** The report on a list of rows. */
  function Report(rows: seq<BrokerRow>): ClearingReport {
    ClearingReport(GrossAll(rows, BUY), GrossAll(rows, SELL), Unknown(rows))
  }

  /** `broker_market_clears`, of one day's rows or of a range's. */
  method BrokerMarketClears(rows: seq<BrokerRow>) returns (r: ClearingReport)
    ensures r == Report(rows)
  {
    var buy, sell, dropped := 0.0, 0.0, 0;
    for i := 0 to |rows|
      invariant buy == GrossAll(rows[..i], BUY) && sell == GrossAll(rows[..i], SELL)
      invariant dropped == Unknown(rows[..i])
    {
      var row := rows[i];
      assert rows[..i + 1][..i] == rows[..i];
      if row.value.None? {
        dropped := dropped + 1;
      } else if row.side == BUY {
        buy := buy + row.value.value;
      } else {
        sell := sell + row.value.value;
      }
    }
    assert rows[..|rows|] == rows;
    r := ClearingReport(buy, sell, dropped);
  }

  ghost predicate Magnitudes(rows: seq<BrokerRow>) {
    forall i :: 0 <= i < |rows| && rows[i].value.Some? ==> rows[i].value.value >= 0.0
  }

  lemma {:induction false} GrossNonNegative(rows: seq<BrokerRow>, d: int, side: Side)
    requires Magnitudes(rows)
    ensures Gross(rows, d, side) >= 0.0
  {
    if rows != [] {
      GrossNonNegative(rows[..|rows| - 1], d, side);
    }
  }

  lemma DivideOrder(x: real, y: real, t: real)
    requires y > 0.0
    ensures x / y <= t <==> x <= t * y
  {
    var q := x / y;
    assert x == q * y;
    assert (t - q) * y == t * y - x;
    if t >= q {
      assert (t - q) * y >= 0.0;
    } else {
      assert (q - t) * y > 0.0;
    }
  }

  /** A day of magnitudes clears exactly when its broker nets sum to at most one percent of the
      larger side, either way. */
  lemma ClearsIffNetsBalance(rows: seq<BrokerRow>, d: int)
    requires Magnitudes(rows) && forall i :: 0 <= i < |rows| ==> rows[i].date == d
    ensures Report(rows).Clears() <==> Abs(Total(Day(NetsOf(rows), d))) <= CLEARING_TOL * Report(rows).Larger()
  {
    DayNetsConserve(rows, d);
    GrossNonNegative(rows, d, BUY);
    GrossNonNegative(rows, d, SELL);
    GrossOfOneDay(rows, d, BUY);
    GrossOfOneDay(rows, d, SELL);
    ClearsIff(Report(rows), Total(Day(NetsOf(rows), d)));
  }

  lemma ClearsIff(report: ClearingReport, net: real)
    requires report.grossBuy >= 0.0 && report.grossSell >= 0.0 && net == report.grossBuy - report.grossSell
    ensures report.Clears() <==> Abs(net) <= CLEARING_TOL * report.Larger()
  {
    if report.Larger() > 0.0 {
      DivideOrder(Abs(net), report.Larger(), CLEARING_TOL);
    }
  }

  // ---- syndicates ---------------------------------------------------------------------------------------

  type Groups = seq<(string, seq<string>)>

  /** The group a code belongs to: the last one that lists it, or else the code itself. */
  function MemberOf(groups: Groups, code: string): string {
    if groups == [] then code
    else
      var (name, codes) := groups[|groups| - 1];
      if code in codes then name else MemberOf(groups[..|groups| - 1], code)
  }

  /** What one group holds. */
  ghost function Holding(net: Nets, groups: Groups, name: string): Nets {
    map c | c in net && MemberOf(groups, c) == name :: net[c]
  }

  /** The groups with a member, each with its members' sum. */
  ghost predicate IsGrouping(grouped: Nets, net: Nets, groups: Groups) {
    forall g :: g in grouped <==> Holding(net, groups, g) != map[]
  }

  ghost predicate SumsMembers(grouped: Nets, net: Nets, groups: Groups) {
    forall g :: Get(grouped, g) == Total(Holding(net, groups, g))
  }

  lemma HoldingStep(net: Nets, groups: Groups, code: string, v: real, g: string)
    requires code !in net
    ensures Holding(net[code := v], groups, g)
            == if g == MemberOf(groups, code) then Holding(net, groups, g)[code := v] else Holding(net, groups, g)
    ensures Total(Holding(net[code := v], groups, g))
            == Total(Holding(net, groups, g)) + if g == MemberOf(groups, code) then v else 0.0
  {
    var more := net[code := v];
    if g == MemberOf(groups, code) {
      assert Holding(more, groups, g) == Holding(net, groups, g)[code := v];
      TotalUpdate(Holding(net, groups, g), code, v);
    } else {
      assert Holding(more, groups, g) == Holding(net, groups, g);
    }
  }

  lemma GroupingStep(grouped: Nets, net: Nets, groups: Groups, code: string, v: real, g: string)
    requires IsGrouping(grouped, net, groups) && SumsMembers(grouped, net, groups)
    requires code !in net && g == MemberOf(groups, code)
    ensures IsGrouping(grouped[g := Get(grouped, g) + v], net[code := v], groups)
    ensures SumsMembers(grouped[g := Get(grouped, g) + v], net[code := v], groups)
  {
    var more, after := net[code := v], grouped[g := Get(grouped, g) + v];
    forall h
      ensures (h in after <==> Holding(more, groups, h) != map[]) && Get(after, h) == Total(Holding(more, groups, h)) {
      HoldingStep(net, groups, code, v, h);
      assert Get(grouped, h) == Total(Holding(net, groups, h));
      assert h == g ==> code in Holding(more, groups, h);
    }
  }

  lemma TotalStep(grouped: Nets, net: Nets, code: string, v: real, g: string)
    requires Total(grouped) == Total(net) && code !in net
    ensures Total(grouped[g := Get(grouped, g) + v]) == Total(net[code := v])
  {
    TotalUpdate(grouped, g, Get(grouped, g) + v);
    TotalUpdate(net, code, v);
  }

  ghost predicate IsSyndicated(grouped: Nets, net: Nets, groups: Groups) {
    && IsGrouping(grouped, net, groups) && SumsMembers(grouped, net, groups)
    && Total(grouped) == Total(net)
  }

  lemma SyndicateStep(grouped: Nets, net: Nets, groups: Groups, code: string, v: real, g: string, after: Nets,
                      more: Nets)
    requires IsSyndicated(grouped, net, groups) && code !in net && g == MemberOf(groups, code)
    requires after == grouped[g := Get(grouped, g) + v] && more == net[code := v]
    ensures IsSyndicated(after, more, groups)
  {
    GroupingStep(grouped, net, groups, code, v, g);
    TotalStep(grouped, net, code, v, g);
  }

  lemma RestStep(net: Nets, todo: set<string>, code: string, rest: set<string>)
    requires code in todo && todo <= net.Keys && rest == todo - {code}
    ensures code !in net - todo && net - rest == (net - todo)[code := net[code]]
  {
  }

  /** `syndicate_nets`: each group gets the sum of its members, and the total is preserved. */
  method SyndicateNets(net: Nets, groups: Groups) returns (grouped: Nets)
    ensures IsSyndicated(grouped, net, groups)
  {
    grouped := map[];
    var todo := net.Keys;
    ghost var seen: Nets := map[];
    assert net - todo == seen;
    while todo != {}
      invariant todo <= net.Keys && seen == net - todo && IsSyndicated(grouped, seen, groups)
    {
      HasCode(todo);
      var code :| code in todo;
      var g := MemberOf(groups, code);
      var v := net[code];
      var after := grouped[g := Get(grouped, g) + v];
      RestStep(net, todo, code, todo - {code});
      SyndicateStep(grouped, seen, groups, code, v, g, after, seen[code := v]);
      grouped, seen, todo := after, seen[code := v], todo - {code};
    }
    assert seen == net;
  }

  // ---- concentration --------------------------------------------------------------------------------------

  ghost predicate Positive(xs: seq<real>) { forall i :: 0 <= i < |xs| ==> xs[i] > 0.0 }

  /** The net buyers' values. */
  function Buys(values: seq<real>): (buys: seq<real>)
    ensures Positive(buys)
  {
    if values == [] then []
    else if values[0] > 0.0 then [values[0]] + Buys(values[1..])
    else Buys(values[1..])
  }

  predicate Descending(x: real, y: real) { x >= y }

  function Ranked(buys: seq<real>): (r: seq<real>)
    ensures |r| == |buys|
    ensures Positive(buys) ==> Positive(r)
  {
    InMultiset(buys, Sort(buys, Descending));
    AllIn(buys, Sort(buys, Descending));
    Sort(buys, Descending)
  }

  lemma AllIn(xs: seq<real>, ys: seq<real>)
    requires forall x :: x in xs <==> x in ys
    ensures Positive(xs) ==> Positive(ys)
  {
    forall i | Positive(xs) && 0 <= i < |ys| ensures ys[i] > 0.0 {
      assert ys[i] in ys;
    }
  }

  function Head(xs: seq<real>, n: nat): seq<real> { if n < |xs| then xs[..n] else xs }

  function Ratio(x: real, y: real): (q: real)
    requires y > 0.0
    ensures q * y == x
  {
    x / y
  }

  /** The share of the first `n`, largest first. */
  function TopShare(buys: seq<real>, n: nat): real
    requires Positive(buys) && buys != []
  {
    var ranked := Ranked(buys);
    SumPositive(ranked);
    Ratio(Sum(Head(ranked, n)), Sum(ranked))
  }

  function ShareSquared(v: real, total: real): real
    requires total > 0.0
  {
    var share := Ratio(v, total);
    share * share
  }

  function Squared(buys: seq<real>, total: real): (r: seq<real>)
    requires total > 0.0
    ensures |r| == |buys| && forall i :: 0 <= i < |r| ==> r[i] == ShareSquared(buys[i], total)
  {
    seq(|buys|, i requires 0 <= i < |buys| => ShareSquared(buys[i], total))
  }

  function SquaredShares(buys: seq<real>): real
    requires Positive(buys) && buys != []
  {
    SumPositive(buys);
    Sum(Squared(buys, Sum(buys)))
  }

  /** `top_n_share` of a dictionary's values, in their order. */
  function TopNShare(values: seq<real>, n: nat): Option<real> {
    if Buys(values) == [] then None else Some(TopShare(Buys(values), n))
  }

  /** `herfindahl` of a dictionary's values. */
  function Herfindahl(values: seq<real>): Option<real> {
    if Buys(values) == [] then None else Some(SquaredShares(Buys(values)))
  }

  lemma {:induction false} SumPositive(xs: seq<real>)
    requires Positive(xs)
    ensures Sum(xs) >= 0.0 && (xs != [] ==> Sum(xs) > 0.0)
  {
    if xs != [] {
      SumPositive(xs[..|xs| - 1]);
    }
  }

  lemma {:induction false} SumOfInsert(x: real, xs: seq<real>)
    ensures Sum(Insert(x, xs, Descending)) == x + Sum(xs)
  {
    if xs == [] {
      SumCons(x, []);
    } else {
      var y, rest := xs[0], xs[1..];
      assert xs == [y] + rest;
      InsertStep(x, y, rest, Descending);
      SumOfInsert(x, rest);
      SumCons(x, xs);
      SumCons(y, rest);
      SumCons(y, Insert(x, rest, Descending));
    }
  }

  lemma {:induction false} SumOfSort(xs: seq<real>)
    ensures Sum(Sort(xs, Descending)) == Sum(xs)
  {
    if xs != [] {
      var x, rest := xs[0], xs[1..];
      assert xs == [x] + rest;
      SortStep(x, rest, Descending);
      SumOfSort(rest);
      SumOfInsert(x, Sort(rest, Descending));
      SumCons(x, rest);
    }
  }

  lemma RankedSum(buys: seq<real>)
    ensures Sum(Ranked(buys)) == Sum(buys)
  {
    SumOfSort(buys);
  }

  /** The first in rank is a largest value. */
  lemma RankedTop(buys: seq<real>) returns (at: nat)
    requires buys != []
    ensures at < |buys| && buys[at] == Ranked(buys)[0]
    ensures forall i :: 0 <= i < |buys| ==> buys[i] <= buys[at]
  {
    var ranked := Ranked(buys);
    SortSorted(buys, Descending);
    InMultiset(buys, ranked);
    assert ranked[0] in ranked;
    at :| 0 <= at < |buys| && buys[at] == ranked[0];
    forall i | 0 <= i < |buys| ensures buys[i] <= ranked[0] {
      assert buys[i] in buys;
      var j :| 0 <= j < |ranked| && ranked[j] == buys[i];
      assert j == 0 || Descending(ranked[0], ranked[j]);
    }
  }

  // ---- three inequalities about positive terms -----------------------------------------------------

  function Product(x: real, y: real): real { x * y }

  function Squares(xs: seq<real>): real {
    if xs == [] then 0.0 else Squares(xs[..|xs| - 1]) + xs[|xs| - 1] * xs[|xs| - 1]
  }

  lemma {:induction false} SquaredIsQuotient(xs: seq<real>, total: real)
    requires total > 0.0
    ensures Sum(Squared(xs, total)) * (total * total) == Squares(xs)
  {
    if xs != [] {
      var n := |xs| - 1;
      var front, x := xs[..n], xs[n];
      SquaredIsQuotient(front, total);
      assert Squared(xs, total)[..n] == Squared(front, total);
      QuotientSquare(x, total);
      var a, b, t := Sum(Squared(front, total)), ShareSquared(x, total), total * total;
      assert (a + b) * t == a * t + b * t;
    }
  }

  lemma QuotientSquare(x: real, total: real)
    requires total > 0.0
    ensures ShareSquared(x, total) * (total * total) == x * x
  {
    var q := Ratio(x, total);
    assert q * q * (total * total) == (q * total) * (q * total);
  }

  /** The squared distances of the terms from `x`, summed, are not negative. */
  lemma {:induction false} SpreadNonNegative(xs: seq<real>, x: real)
    ensures Squares(xs) - 2.0 * x * Sum(xs) + |xs| as real * (x * x) >= 0.0
  {
    if xs != [] {
      var n := |xs| - 1;
      var y := xs[n];
      SpreadNonNegative(xs[..n], x);
      SquareOfDifference(y, x);
      assert 2.0 * x * (Sum(xs[..n]) + y) == 2.0 * x * Sum(xs[..n]) + 2.0 * x * y;
      assert |xs| as real * (x * x) == n as real * (x * x) + x * x;
    }
  }

  lemma SquareOfDifference(y: real, x: real)
    ensures y * y - 2.0 * x * y + x * x >= 0.0
  {
    var d := y - x;
    assert d * d == y * y - 2.0 * x * y + x * x;
  }

  /** Cauchy and Schwarz: the squared sum is at most the count times the sum of squares. */
  lemma {:induction false} SquareOfSum(xs: seq<real>)
    ensures Product(Sum(xs), Sum(xs)) <= Product(|xs| as real, Squares(xs))
  {
    if xs != [] {
      var n := |xs| - 1;
      var x, s, q, m := xs[n], Sum(xs[..n]), Squares(xs[..n]), n as real;
      SquareOfSum(xs[..n]);
      SpreadNonNegative(xs[..n], x);
      CauchyStep(s, q, m, x);
      assert |xs| as real == m + 1.0;
    }
  }

  lemma CauchyStep(s: real, q: real, m: real, x: real)
    requires Product(s, s) <= Product(m, q) && q - 2.0 * x * s + m * (x * x) >= 0.0
    ensures Product(s + x, s + x) <= Product(m + 1.0, q + x * x)
  {
    assert (s + x) * (s + x) == s * s + 2.0 * x * s + x * x;
    assert (m + 1.0) * (q + x * x) == m * q + m * (x * x) + q + x * x;
  }

  lemma {:induction false} SquaresAtMost(xs: seq<real>, top: real)
    requires Positive(xs) && forall i :: 0 <= i < |xs| ==> xs[i] <= top
    ensures Squares(xs) <= Product(top, Sum(xs))
  {
    if xs != [] {
      var n := |xs| - 1;
      SquaresAtMost(xs[..n], top);
      TermAtMost(Squares(xs[..n]), Sum(xs[..n]), xs[n], top);
    }
  }

  lemma TermAtMost(q: real, sum: real, x: real, top: real)
    requires 0.0 < x <= top && q <= Product(top, sum)
    ensures q + x * x <= Product(top, sum + x)
  {
    assert (top - x) * x >= 0.0;
    assert top * (sum + x) == top * sum + x * x + (top - x) * x;
  }

  lemma {:induction false} SquaresAtLeast(xs: seq<real>, k: nat)
    requires k < |xs|
    ensures Product(xs[k], xs[k]) <= Squares(xs) && Squares(xs[..|xs| - 1]) >= 0.0
  {
    SquaresNonNegative(xs[..|xs| - 1]);
    var n := |xs| - 1;
    assert xs[n] * xs[n] >= 0.0;
    if k < n {
      SquaresAtLeast(xs[..n], k);
    }
  }

  lemma {:induction false} SquaresNonNegative(xs: seq<real>)
    ensures Squares(xs) >= 0.0
  {
    if xs != [] {
      SquaresNonNegative(xs[..|xs| - 1]);
      assert xs[|xs| - 1] * xs[|xs| - 1] >= 0.0;
    }
  }

  lemma {:induction false} TermAtMostSum(xs: seq<real>, k: nat)
    requires Positive(xs) && k < |xs|
    ensures xs[k] <= Sum(xs)
  {
    SumPositive(xs[..|xs| - 1]);
    if k < |xs| - 1 {
      TermAtMostSum(xs[..|xs| - 1], k);
    }
  }

  // ---- from sums to shares ----------------------------------------------------------------------------

  ghost predicate IsQuotient(q: real, x: real, y: real) { Product(q, y) == x }

  lemma ProductPositive(x: real, y: real)
    requires x > 0.0 && y > 0.0
    ensures Product(x, y) > 0.0
  {
  }

  /** A quotient over `total`, expanded and squared. */
  lemma QuotientOver(t: real, top: real, total: real)
    requires IsQuotient(t, top, total)
    ensures IsQuotient(t, Product(top, total), Product(total, total))
    ensures IsQuotient(Product(t, t), Product(top, top), Product(total, total))
  {
    assert t * (total * total) == (t * total) * total;
    assert t * t * (total * total) == (t * total) * (t * total);
  }

  lemma QuotientOrder(x: real, y: real, a: real, b: real, z: real)
    requires z > 0.0 && IsQuotient(x, a, z) && IsQuotient(y, b, z) && a <= b
    ensures x <= y
  {
    ProductSign(y - x, z);
    assert (y - x) * z == b - a;
  }

  lemma ProductSign(d: real, z: real)
    requires z > 0.0
    ensures d < 0.0 ==> Product(d, z) < 0.0
  {
    if d < 0.0 {
      ProductPositive(-d, z);
      assert d * z == -(-d * z);
    }
  }

  lemma CountBound(h: real, k: real, q: real, z: real)
    requires z > 0.0 && k > 0.0 && IsQuotient(h, q, z) && z <= Product(k, q)
    ensures 1.0 / k <= h
  {
    assert k * h * z == k * (h * z);
    QuotientOrder(1.0, Product(k, h), z, Product(k, q), z);
    DivideOrder(1.0, k, h);
  }

  /** `h` the sum of squared shares, `t` the top share, `k` the buyers. */
  lemma ShareBounds(h: real, t: real, k: real, q: real, top: real, total: real)
    requires total > 0.0 && k > 0.0 && SumsAgree(total, q, top, k)
    requires IsQuotient(h, q, Product(total, total)) && IsQuotient(t, top, total)
    ensures 1.0 / k <= h <= t <= 1.0 && Product(t, t) <= h
  {
    var z := Product(total, total);
    ProductPositive(total, total);
    QuotientOver(t, top, total);
    CountBound(h, k, q, z);
    QuotientOrder(h, t, q, Product(top, total), z);
    QuotientOrder(Product(t, t), h, Product(top, top), q, z);
    QuotientOrder(t, 1.0, top, total, total);
  }

  /** What the sum and the sum of squares of `k` terms, `top` the largest, have to do with each
      other. */
  ghost predicate SumsAgree(total: real, q: real, top: real, k: real) {
    && Product(total, total) <= Product(k, q) && q <= Product(top, total)
    && Product(top, top) <= q && top <= total
  }

  lemma SumsOfBuys(buys: seq<real>, at: nat, top: real)
    requires Positive(buys) && at < |buys| && buys[at] == top && forall i :: 0 <= i < |buys| ==> buys[i] <= top
    ensures SumsAgree(Sum(buys), Squares(buys), top, |buys| as real)
  {
    SquareOfSum(buys);
    TopOfBuys(buys, at, top);
  }

  lemma TopOfBuys(buys: seq<real>, at: nat, top: real)
    requires Positive(buys) && at < |buys| && buys[at] == top && forall i :: 0 <= i < |buys| ==> buys[i] <= top
    ensures Squares(buys) <= Product(top, Sum(buys)) && Product(top, top) <= Squares(buys) && top <= Sum(buys)
  {
    SquaresAtMost(buys, top);
    SquaresAtLeast(buys, at);
    TermAtMostSum(buys, at);
  }

  ghost predicate IsConcentration(hhi: real, top1: real, k: nat) {
    k > 0 && 1.0 / k as real <= hhi <= top1 <= 1.0 && top1 * top1 <= hhi
  }

  lemma Concentrated(h: real, t: real, q: real, top: real, total: real, k: nat)
    requires k > 0 && 0.0 < top && SumsAgree(total, q, top, k as real)
    requires IsQuotient(h, q, Product(total, total)) && IsQuotient(t, top, total)
    ensures IsConcentration(h, t, k)
  {
    ShareBounds(h, t, k as real, q, top, total);
  }

  lemma RatioIs(x: real, y: real)
    requires y > 0.0
    ensures IsQuotient(Ratio(x, y), x, y)
  {
  }

  lemma TopShareIs(buys: seq<real>, top: real)
    requires Positive(buys) && buys != [] && top == Ranked(buys)[0]
    ensures IsQuotient(TopShare(buys, 1), top, Sum(buys))
  {
    var ranked := Ranked(buys);
    SumPositive(ranked);
    RankedSum(buys);
    SumOfFirst(ranked);
    RatioIs(ranked[0], Sum(ranked));
  }

  lemma HhiIs(buys: seq<real>, total: real)
    requires Positive(buys) && buys != [] && total == Sum(buys)
    ensures IsQuotient(SquaredShares(buys), Squares(buys), Product(total, total))
  {
    SumPositive(buys);
    SquaredIsQuotient(buys, total);
  }

  lemma BoundsOf(buys: seq<real>)
    requires Positive(buys) && buys != []
    ensures IsConcentration(SquaredShares(buys), TopShare(buys, 1), |buys|)
  {
    var at := RankedTop(buys);
    BoundsAt(buys, at, buys[at]);
  }

  lemma BoundsAt(buys: seq<real>, at: nat, top: real)
    requires Positive(buys) && at < |buys| && buys[at] == top == Ranked(buys)[0]
    requires forall i :: 0 <= i < |buys| ==> buys[i] <= top
    ensures IsConcentration(SquaredShares(buys), TopShare(buys, 1), |buys|)
  {
    HhiIs(buys, Sum(buys));
    TopShareIs(buys, top);
    SumsOfBuys(buys, at, top);
    Concentrated(SquaredShares(buys), TopShare(buys, 1), Squares(buys), top, Sum(buys), |buys|);
  }

  /** For `k` net buyers, 1/k <= HHI <= top-1 share <= 1 and the square of the top-1 share is at most
      the HHI. */
  lemma ConcentrationBounds(values: seq<real>)
    requires Buys(values) != []
    ensures IsConcentration(Herfindahl(values).value, TopNShare(values, 1).value, |Buys(values)|)
  {
    BoundsOf(Buys(values));
  }

  lemma SumOfFirst(xs: seq<real>)
    requires xs != []
    ensures Sum(Head(xs, 1)) == xs[0]
  {
    assert Head(xs, 1) == [] + [xs[0]];
    SumSnoc([], xs[0]);
  }

  /** The share grows with the number of brokers counted, and is all of it once every buyer is. */
  lemma TopShareMonotone(values: seq<real>, m: nat, n: nat)
    requires Buys(values) != [] && m <= n
    ensures TopNShare(values, m).value <= TopNShare(values, n).value <= 1.0
    ensures n >= |Buys(values)| ==> TopNShare(values, n).value == 1.0
  {
    var ranked := Ranked(Buys(values));
    SumPositive(ranked);
    HeadGrows(ranked, m, n);
    HeadGrows(ranked, n, |ranked| + n);
    assert Head(ranked, |ranked| + n) == ranked;
    var total := Sum(ranked);
    SameDivisor(Sum(Head(ranked, m)), Sum(Head(ranked, n)), total);
    SameDivisor(Sum(Head(ranked, n)), total, total);
    assert n >= |ranked| ==> Head(ranked, n) == ranked;
  }

  lemma HeadGrows(xs: seq<real>, m: nat, n: nat)
    requires Positive(xs) && m <= n
    ensures Sum(Head(xs, m)) <= Sum(Head(xs, n))
  {
    var a, b := Head(xs, m), Head(xs, n);
    assert b == a + b[|a|..];
    SumAppend(a, b[|a|..]);
    SumPositive(b[|a|..]);
  }

  lemma SameDivisor(x: real, y: real, z: real)
    requires z > 0.0 && x <= y
    ensures Ratio(x, z) <= Ratio(y, z) && Ratio(z, z) == 1.0
  {
    var p, q := Ratio(x, z), Ratio(y, z);
    QuotientOrder(p, q, x, y, z);
  }

  // ---- persistence -----------------------------------------------------------------------------------------

  /** The positive run at the end of a list. */
  method TailRun(nets: seq<real>) returns (streak: nat)
    ensures streak <= |nets|
    ensures forall i :: |nets| - streak <= i < |nets| ==> nets[i] > 0.0
    ensures streak < |nets| ==> nets[|nets| - 1 - streak] <= 0.0
  {
    streak := 0;
    while streak < |nets| && nets[|nets| - 1 - streak] > 0.0
      invariant streak <= |nets|
      invariant forall i :: |nets| - streak <= i < |nets| ==> nets[i] > 0.0
    {
      streak := streak + 1;
    }
  }

  /** A broker's net on each stored day, oldest first; absent is zero. */
  function NetHistory(daily: map<int, Nets>, broker: string): (nets: seq<real>)
    ensures |nets| == |Sorted(daily.Keys)|
    ensures forall i :: 0 <= i < |nets| ==> nets[i] == Get(Day(daily, Sorted(daily.Keys)[i]), broker)
  {
    var days := Sorted(daily.Keys);
    seq(|days|, i requires 0 <= i < |days| => Get(Day(daily, days[i]), broker))
  }

  /** `persistence`: how many of the latest days in a row the broker was a net buyer. */
  method Persistence(daily: map<int, Nets>, broker: string) returns (streak: nat)
    ensures var nets := NetHistory(daily, broker);
            && streak <= |nets|
            && (forall i :: |nets| - streak <= i < |nets| ==> nets[i] > 0.0)
            && (streak < |nets| ==> nets[|nets| - 1 - streak] <= 0.0)
  {
    streak := TailRun(NetHistory(daily, broker));
  }
}
