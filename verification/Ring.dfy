/**
  The Lightning liquidity ring of argus/builders/lnd.py: three equal channels in a triangle
  and a rebalancer that lets one node at a time pay itself around the ring.
 */
module Ring {
  import opened Options
  import opened Positional

  datatype Node = First | Second | Third

  function Next(n: Node): Node {
    match n case First => Second case Second => Third case Third => First
  }

  function Prev(n: Node): Node {
    match n case First => Third case Second => First case Third => Second
  }

  /** One line of a node's channel listing. */
  datatype Line = Line(active: bool, peer: Node, local: nat, capacity: nat)

  /** What the scan remembers: the fullest and the emptiest active channel. */
  datatype Extremes = Extremes(
    hiRatio: int, hiLocal: nat, hiCapacity: nat,
    loRatio: int, loPeer: Option<Node>, loLocal: nat, loCapacity: nat)

  const NOTHING_SEEN := Extremes(-1, 0, 0, 101, None, 0, 0)

  function Ratio(line: Line): nat
    requires line.capacity > 0
  {
    line.local * 100 / line.capacity
  }

  function Note(e: Extremes, line: Line): Extremes {
    if !line.active || line.capacity == 0 then e
    else
      var ratio := Ratio(line);
      var e' := if ratio > e.hiRatio
                then e.(hiRatio := ratio, hiLocal := line.local, hiCapacity := line.capacity) else e;
      if ratio < e'.loRatio
      then e'.(loRatio := ratio, loPeer := Some(line.peer), loLocal := line.local, loCapacity := line.capacity)
      else e'
  }

  function Scan(data: seq<Line>): Extremes {
    if data == [] then NOTHING_SEEN else Note(Scan(data[..|data| - 1]), data[|data| - 1])
  }

  function ActiveCount(data: seq<Line>): nat {
    if data == [] then 0 else ActiveCount(data[..|data| - 1]) + if data[|data| - 1].active then 1 else 0
  }

  datatype Config = Config(low: int, high: int, minRebal: nat)

  /** The amount the shell computes from the extremes. */
  function Amount(e: Extremes): int {
    var amtHi := e.hiLocal - e.hiCapacity / 2;
    var amtLo := e.loCapacity / 2 - e.loLocal;
    if amtLo < amtHi then amtLo else amtHi
  }

  /** A self-payment request: the amount and the peer of its last hop. */
  datatype Payment = Payment(amt: int, lastHop: Option<Node>)

  function Planned(data: seq<Line>, cfg: Config): Option<Payment> {
    var e := Scan(data);
    if ActiveCount(data) != 2 then None
    else if e.hiRatio <= cfg.high && e.loRatio >= cfg.low then None
    else if Amount(e) < cfg.minRebal then None
    else Some(Payment(Amount(e), e.loPeer))
  }

  /** The decision part of rebalance_node, with the shell's loop over the listing. */
  method Plan(data: seq<Line>, cfg: Config) returns (p: Option<Payment>)
    ensures p == Planned(data, cfg)
  {
    var active := 0;
    for n := 0 to |data|
      invariant active == ActiveCount(data[..n])
    {
      assert data[..n + 1][..n] == data[..n];
      active := active + if data[n].active then 1 else 0;
    }
    assert data[..|data|] == data;
    if active != 2 {
      return None;
    }
    var hiRatio: int, hiLocal: nat, hiCap: nat := -1, 0, 0;
    var loRatio: int, loPeer: Option<Node>, loLocal: nat, loCap: nat := 101, None, 0, 0;
    for n := 0 to |data|
      invariant Extremes(hiRatio, hiLocal, hiCap, loRatio, loPeer, loLocal, loCap) == Scan(data[..n])
    {
      assert data[..n + 1][..n] == data[..n];
      var line := data[n];
      if line.active && line.capacity > 0 {
        var ratio := line.local * 100 / line.capacity;
        if ratio > hiRatio {
          hiRatio, hiLocal, hiCap := ratio, line.local, line.capacity;
        }
        if ratio < loRatio {
          loRatio, loPeer, loLocal, loCap := ratio, Some(line.peer), line.local, line.capacity;
        }
      }
    }
    if hiRatio <= cfg.high && loRatio >= cfg.low {
      return None;
    }
    var amtHi := hiLocal - hiCap / 2;
    var amtLo := loCap / 2 - loLocal;
    var amt := amtHi;
    if amtLo < amt {
      amt := amtLo;
    }
    if amt < cfg.minRebal {
      return None;
    }
    return Some(Payment(amt, loPeer));
  }

  // -- any listing ---------------------------------------------------------------

  /** The active lines of a listing, in order. */
  function ActiveLines(data: seq<Line>): (lines: seq<Line>)
    ensures forall i :: 0 <= i < |lines| ==> lines[i].active && lines[i] in data
  {
    if data == [] then []
    else ActiveLines(data[..|data| - 1]) + if data[|data| - 1].active then [data[|data| - 1]] else []
  }

  lemma {:induction false} OnlyActiveCount(data: seq<Line>)
    ensures Scan(data) == Scan(ActiveLines(data)) && ActiveCount(data) == |ActiveLines(data)|
    ensures ActiveCount(ActiveLines(data)) == |ActiveLines(data)|
  {
    hide Ratio;
    if data != [] {
      var n := |data| - 1;
      OnlyActiveCount(data[..n]);
      if data[n].active {
        assert ActiveLines(data)[..|ActiveLines(data)| - 1] == ActiveLines(data[..n]);
      } else {
        assert ActiveLines(data) == ActiveLines(data[..n]);
      }
    }
  }

  /**
    Whatever the listing: a plan looks at the active channels only and needs exactly two of
    them, whose fuller one sheds what the emptier one can take, as far as both are from half.
   */
  lemma PlanNeedsTwo(data: seq<Line>, cfg: Config)
    ensures Planned(data, cfg) == Planned(ActiveLines(data), cfg)
    ensures Planned(data, cfg).Some? ==> |ActiveLines(data)| == 2
    ensures |ActiveLines(data)| == 2 && ActiveLines(data)[0].capacity > 0 && ActiveLines(data)[1].capacity > 0 ==>
              PlansBetween(ActiveLines(data)[0], ActiveLines(data)[1], cfg, Planned(data, cfg))
  {
    hide Ratio, PlansBetween, Amount;
    OnlyActiveCount(data);
    var lines := ActiveLines(data);
    if |lines| == 2 && lines[0].capacity > 0 && lines[1].capacity > 0 {
      assert lines == [lines[0], lines[1]];
      TwoLinesPlan(lines[0], lines[1], cfg);
    }
  }

  /** What two channels with shares of at most all their capacity plan. */
  predicate PlansBetween(a: Line, b: Line, cfg: Config, p: Option<Payment>)
    requires a.capacity > 0 && b.capacity > 0
  {
    a.local <= a.capacity && b.local <= b.capacity ==>
      var hi, lo := if Ratio(b) > Ratio(a) then b else a, if Ratio(b) < Ratio(a) then b else a;
      var shed, take := hi.local - hi.capacity / 2, lo.capacity / 2 - lo.local;
      && (p.Some? <==> (Ratio(hi) > cfg.high || Ratio(lo) < cfg.low) && shed >= cfg.minRebal && take >= cfg.minRebal)
      && (p.Some? ==> p.value.lastHop == Some(lo.peer) && p.value.amt <= shed && p.value.amt <= take
                      && (p.value.amt == shed || p.value.amt == take))
  }

  lemma TwoLinesPlan(a: Line, b: Line, cfg: Config)
    requires a.active && b.active && a.capacity > 0 && b.capacity > 0
    ensures PlansBetween(a, b, cfg, Planned([a, b], cfg))
  {
    hide Ratio;
    var data := [a, b];
    assert data[..1] == [a] && [a][..0] == [];
    assert Scan([a]) == Note(NOTHING_SEEN, a) && ActiveCount([a]) == 1;
    assert Scan(data) == Note(Scan([a]), b) && ActiveCount(data) == 2;
    RatioBound(a);
    RatioBound(b);
  }

  // -- the triangle ------------------------------------------------------------

  /**
    Three channels of capacity c. Each field is the balance of the channel's first end:
    x for First in First-Second, y for Second in Second-Third, z for Third in Third-First.
   */
  datatype Triangle = Triangle(c: nat, x: nat, y: nat, z: nat) {
    predicate Valid() {
      c > 0 && x <= c && y <= c && z <= c
    }

    /** A node's balance towards the next node. */
    function Forward(n: Node): nat {
      match n case First => x case Second => y case Third => z
    }

    /** A node's balance towards the previous node. */
    function Backward(n: Node): nat
      requires Valid()
    {
      c - Forward(Prev(n))
    }

    /** All local balances of a node. */
    function Total(n: Node): nat
      requires Valid()
    {
      Forward(n) + Backward(n)
    }

    function Shift(d: int): Triangle
      requires x + d >= 0 && y + d >= 0 && z + d >= 0
    {
      Triangle(c, x + d, y + d, z + d)
    }
  }

  /** A node's listing in one of the two orders lncli may print it in. */
  function Listing(t: Triangle, n: Node, swapped: bool): seq<Line>
    requires t.Valid()
  {
    var ahead := Line(true, Next(n), t.Forward(n), t.c);
    var behind := Line(true, Prev(n), t.Backward(n), t.c);
    if swapped then [behind, ahead] else [ahead, behind]
  }

  /**
    How a circular payment by n moves every channel: coming back in from the previous node
    it runs First-Second-Third and lowers all first ends, the other way round it raises them.
   */
  function Direction(n: Node, p: Payment): int {
    if p.lastHop == Some(Prev(n)) then -p.amt else p.amt
  }

  /** Every hop has the balance to forward the payment. */
  predicate Feasible(t: Triangle, d: int) {
    && 0 <= t.x + d <= t.c && 0 <= t.y + d <= t.c && 0 <= t.z + d <= t.c
  }

  datatype Attempt = Attempt(node: Node, swapped: bool, routed: bool)

  /** A rebalance_node call: a payment that is not routed has no effect. */
  function Attempted(t: Triangle, a: Attempt, cfg: Config): Triangle
    requires t.Valid()
  {
    var p := Planned(Listing(t, a.node, a.swapped), cfg);
    if p.Some? && a.routed && Feasible(t, Direction(a.node, p.value))
    then t.Shift(Direction(a.node, p.value)) else t
  }

  /** The ring as the scripts see it: balances that circular payments change in place. */
  class LiquidityRing {
    var state: Triangle

    ghost predicate Valid()
      reads this
    {
      state.Valid()
    }

    /** Three fresh single-funded channels: each first end owns its whole channel. */
    constructor (chanSat: nat)
      requires chanSat > 0
      ensures Valid() && state == Triangle(chanSat, chanSat, chanSat, chanSat)
    {
      state := Triangle(chanSat, chanSat, chanSat, chanSat);
    }

    /** A circular self-payment; it either goes all the way round or does nothing. */
    method Pay(d: int, routed: bool) returns (paid: bool)
      requires Valid()
      modifies this
      ensures Valid() && paid == (routed && Feasible(old(state), d))
      ensures state == if paid then old(state).Shift(d) else old(state)
    {
      paid := routed && Feasible(state, d);
      if paid {
        state := state.Shift(d);
      }
    }

    method RebalanceNode(n: Node, swapped: bool, routed: bool, cfg: Config)
      requires Valid()
      modifies this
      ensures Valid() && state == Attempted(old(state), Attempt(n, swapped, routed), cfg)
    {
      var p := Plan(Listing(state, n, swapped), cfg);
      if p.Some? {
        var _ := Pay(Direction(n, p.value), routed);
      }
    }

    /** One turn of the endless loop: the three nodes in order. */
    method Cycle(swapped: Node -> bool, routed: Node -> bool, cfg: Config)
      requires Valid()
      modifies this
      ensures Valid()
      ensures state == AfterAll(old(state), [Attempt(First, swapped(First), routed(First)),
                                             Attempt(Second, swapped(Second), routed(Second)),
                                             Attempt(Third, swapped(Third), routed(Third))], cfg)
    {
      ghost var start := state;
      var a1 := Attempt(First, swapped(First), routed(First));
      var a2 := Attempt(Second, swapped(Second), routed(Second));
      var a3 := Attempt(Third, swapped(Third), routed(Third));
      RebalanceNode(First, swapped(First), routed(First), cfg);
      RebalanceNode(Second, swapped(Second), routed(Second), cfg);
      RebalanceNode(Third, swapped(Third), routed(Third), cfg);
      ThreeAttempts(start, a1, a2, a3, cfg);
    }
  }

  lemma ThreeAttempts(t: Triangle, a1: Attempt, a2: Attempt, a3: Attempt, cfg: Config)
    requires t.Valid()
    ensures Attempted(t, a1, cfg).Valid() && Attempted(Attempted(t, a1, cfg), a2, cfg).Valid()
    ensures AfterAll(t, [a1, a2, a3], cfg) == Attempted(Attempted(Attempted(t, a1, cfg), a2, cfg), a3, cfg)
  {
    hide Attempted;
    assert [a1, a2, a3][..2] == [a1, a2] && [a1, a2][..1] == [a1] && [a1][..0] == [];
    assert AfterAll(t, [], cfg) == t;
    assert AfterAll(t, [a1], cfg) == Attempted(t, a1, cfg);
    assert AfterAll(t, [a1, a2], cfg) == Attempted(Attempted(t, a1, cfg), a2, cfg);
  }

  function AfterAll(t: Triangle, attempts: seq<Attempt>, cfg: Config): (t': Triangle)
    requires t.Valid()
    ensures t'.Valid()
  {
    if attempts == [] then t
    else Attempted(AfterAll(t, attempts[..|attempts| - 1], cfg), attempts[|attempts| - 1], cfg)
  }

  /** How many of the attempts moved balance. */
  function Moves(t: Triangle, attempts: seq<Attempt>, cfg: Config): nat
    requires t.Valid()
  {
    if attempts == [] then 0
    else
      var before := attempts[..|attempts| - 1];
      Moves(t, before, cfg) + if AfterAll(t, attempts, cfg) != AfterAll(t, before, cfg) then 1 else 0
  }

  // -- what a node plans --------------------------------------------------------

  lemma RatioAgainstHalf(local: nat, c: nat)
    requires c > 0
    ensures 2 * local >= c ==> local * 100 / c >= 50
    ensures 2 * local < c ==> local * 100 / c < 50
    ensures local <= c ==> local * 100 / c <= 100
  {
    var q := local * 100 / c;
    DivModSum(local * 100, c);
    if q < 50 {
      MulMono(q + 1, 50, c);
      Distribute(q, 1, c);
    } else {
      MulMono(50, q, c);
    }
    if q > 100 {
      MulMono(101, q, c);
    }
  }

  /** Both channels of the node are off balance the same way round the ring by m or more. */
  predicate Excess(t: Triangle, n: Node, m: int) {
    t.Forward(n) >= t.c / 2 + m && t.Forward(Prev(n)) >= t.c - t.c / 2 + m
  }

  predicate Shortage(t: Triangle, n: Node, m: int) {
    t.Forward(n) <= t.c / 2 - m && t.Forward(Prev(n)) <= t.c - t.c / 2 - m
  }

  /**
    The computed amount reaches m > 0 exactly when the node's two channels are both over or
    both under half by m, seen in ring direction, whatever order the listing is in; the last
    hop then makes the payment undo that excess or shortage.
   */
  lemma AmountMeaning(t: Triangle, n: Node, swapped: bool, m: int)
    requires t.Valid() && m > 0
    ensures var e := Scan(Listing(t, n, swapped));
            && (Amount(e) >= m <==> Excess(t, n, m) || Shortage(t, n, m))
            && (Amount(e) >= m ==> (e.loPeer == Some(Prev(n)) <==> Excess(t, n, m)))
            && (Amount(e) >= m ==> e.loPeer == Some(Prev(n)) || e.loPeer == Some(Next(n)))
  {
    hide Ratio;
    ListingScan(t, n, swapped);
    RatioBound(Line(true, Next(n), t.Forward(n), t.c));
    RatioBound(Line(true, Prev(n), t.Backward(n), t.c));
  }

  lemma RatioBound(line: Line)
    requires 0 < line.capacity
    ensures 2 * line.local >= line.capacity ==> Ratio(line) >= 50
    ensures 2 * line.local < line.capacity ==> Ratio(line) < 50
    ensures line.local <= line.capacity ==> Ratio(line) <= 100
  {
    RatioAgainstHalf(line.local, line.capacity);
  }

  /** The scan of a two-line listing. */
  lemma ListingScan(t: Triangle, n: Node, swapped: bool)
    requires t.Valid()
    ensures var data := Listing(t, n, swapped);
            Scan(data) == Note(Note(NOTHING_SEEN, data[0]), data[1]) && ActiveCount(data) == 2
  {
    hide Note;
    var data := Listing(t, n, swapped);
    assert data[..1] == [data[0]] && data[..1][..0] == [];
    assert Scan(data[..1]) == Note(NOTHING_SEEN, data[0]);
    assert ActiveCount(data[..1]) == 1;
  }

  // -- conservation ---------------------------------------------------------------

  /** No attempt changes a capacity or the total balance of any node. */
  lemma {:induction false} Conserved(t: Triangle, attempts: seq<Attempt>, cfg: Config, n: Node)
    requires t.Valid()
    ensures AfterAll(t, attempts, cfg).c == t.c
    ensures AfterAll(t, attempts, cfg).Total(n) == t.Total(n)
  {
    hide Planned;
    if attempts != [] {
      Conserved(t, attempts[..|attempts| - 1], cfg, n);
    }
  }

  // -- termination ------------------------------------------------------------------

  function Abs(v: int): nat {
    if v < 0 then -v else v
  }

  /** Twice the sum of the three channels' distances from half. */
  function Imbalance(t: Triangle): nat {
    Abs(2 * t.x - t.c) + Abs(2 * t.y - t.c) + Abs(2 * t.z - t.c)
  }

  /** What one move is worth at least: twice the amount, less the rounding of an odd half. */
  function Gain(c: nat, amt: int): int {
    2 * amt - 2 * (c % 2)
  }

  /** Every successful payment, by whichever node, brings the ring closer to balance. */
  lemma MoveLowersImbalance(t: Triangle, a: Attempt, cfg: Config)
    requires t.Valid() && cfg.minRebal > 0 && Attempted(t, a, cfg) != t
    ensures var p := Planned(Listing(t, a.node, a.swapped), cfg);
            && p.Some? && p.value.amt >= cfg.minRebal
            && Imbalance(Attempted(t, a, cfg)) + Gain(t.c, p.value.amt) <= Imbalance(t)
  {
    hide Scan, Amount, Imbalance, Excess, Shortage, Gain;
    var p := Planned(Listing(t, a.node, a.swapped), cfg);
    AmountMeaning(t, a.node, a.swapped, p.value.amt);
    ShiftLowers(t, a.node, p.value.amt);
    NextIsNotPrev(a.node);
  }

  lemma NextIsNotPrev(n: Node)
    ensures Next(n) != Prev(n)
  {
  }

  /** Undoing an excess or a shortage of two channels outweighs the shift of the third. */
  lemma ShiftLowers(t: Triangle, n: Node, amt: int)
    requires t.Valid() && amt > 0
    ensures Excess(t, n, amt) && Feasible(t, -amt) ==>
              Imbalance(t.Shift(-amt)) + Gain(t.c, amt) <= Imbalance(t)
    ensures Shortage(t, n, amt) && Feasible(t, amt) ==>
              Imbalance(t.Shift(amt)) + Gain(t.c, amt) <= Imbalance(t)
  {
    hide Abs, Gain, Excess, Shortage;
    var o := if n.First? then t.y else if n.Second? then t.z else t.x;
    DistancesLower(t.c, t.Forward(n), t.Forward(Prev(n)), o, amt);
    OverBothHalves(t, n, amt);
  }

  lemma OverBothHalves(t: Triangle, n: Node, amt: int)
    ensures Excess(t, n, amt) ==> t.Forward(n) >= t.c / 2 + amt && t.Forward(Prev(n)) >= t.c - t.c / 2 + amt
    ensures Shortage(t, n, amt) ==> t.Forward(n) <= t.c / 2 - amt && t.Forward(Prev(n)) <= t.c - t.c / 2 - amt
  {
  }

  lemma DistancesLower(c: nat, f: nat, b: nat, o: nat, amt: int)
    requires amt > 0
    ensures f >= c / 2 + amt && b >= c - c / 2 + amt ==>
              Abs(2 * (f - amt) - c) + Abs(2 * (b - amt) - c) + Abs(2 * (o - amt) - c) + Gain(c, amt)
              <= Abs(2 * f - c) + Abs(2 * b - c) + Abs(2 * o - c)
    ensures f <= c / 2 - amt && b <= c - c / 2 - amt ==>
              Abs(2 * (f + amt) - c) + Abs(2 * (b + amt) - c) + Abs(2 * (o + amt) - c) + Gain(c, amt)
              <= Abs(2 * f - c) + Abs(2 * b - c) + Abs(2 * o - c)
  {
  }

  /**
    Between outside payments only finitely many moves happen, in whatever order the nodes
    act and whichever payments are routed.
   */
  lemma {:induction false} MovesAreBounded(t: Triangle, attempts: seq<Attempt>, cfg: Config)
    requires t.Valid() && cfg.minRebal > 0
    ensures Moves(t, attempts, cfg) * Gain(t.c, cfg.minRebal) + Imbalance(AfterAll(t, attempts, cfg)) <= Imbalance(t)
  {
    hide Imbalance, Planned;
    if attempts != [] {
      var before, last := attempts[..|attempts| - 1], attempts[|attempts| - 1];
      MovesAreBounded(t, before, cfg);
      Conserved(t, before, cfg, First);
      if AfterAll(t, attempts, cfg) != AfterAll(t, before, cfg) {
        MoveLowersImbalance(AfterAll(t, before, cfg), last, cfg);
      }
      Distribute(Moves(t, before, cfg), 1, Gain(t.c, cfg.minRebal));
    }
  }

  // -- fixpoints ----------------------------------------------------------------------

  /** No node computes an amount of m or more, in either listing order. */
  predicate AtRest(t: Triangle, m: int)
    requires t.Valid()
  {
    forall n: Node, swapped :: Amount(Scan(Listing(t, n, swapped))) < m
  }

  predicate High(t: Triangle, v: nat, m: int) {
    v >= t.c - t.c / 2 + m
  }

  predicate Low(t: Triangle, v: nat, m: int) {
    v <= t.c / 2 - m
  }

  /** At most one channel is high by m and at most one is low by m, round the ring. */
  predicate OneEachWay(t: Triangle, m: int) {
    && !(High(t, t.x, m) && High(t, t.y, m)) && !(High(t, t.y, m) && High(t, t.z, m))
    && !(High(t, t.z, m) && High(t, t.x, m))
    && !(Low(t, t.x, m) && Low(t, t.y, m)) && !(Low(t, t.y, m) && Low(t, t.z, m))
    && !(Low(t, t.z, m) && Low(t, t.x, m))
  }

  function Median(a: nat, b: nat, c: nat): nat {
    if (a <= b <= c) || (c <= b <= a) then b
    else if (b <= a <= c) || (c <= a <= b) then a
    else c
  }

  lemma AtRestMeaning(t: Triangle, m: int)
    requires t.Valid() && m > 0
    ensures AtRest(t, m) <==> forall n: Node :: !Excess(t, n, m) && !Shortage(t, n, m)
  {
    hide Scan, Amount, Excess, Shortage;
    forall n: Node, swapped
      ensures Amount(Scan(Listing(t, n, swapped))) >= m <==> Excess(t, n, m) || Shortage(t, n, m)
    {
      AmountMeaning(t, n, swapped, m);
    }
    if AtRest(t, m) {
      forall n: Node ensures !Excess(t, n, m) && !Shortage(t, n, m) {
        assert Amount(Scan(Listing(t, n, false))) < m;
      }
    }
  }

  /**
    When no node's amount reaches m, at most one channel is off by m in each direction and
    the median channel is within m of half; for even capacities the first is the same thing.
   */
  lemma Fixpoint(t: Triangle, m: int)
    requires t.Valid() && m > 0
    ensures AtRest(t, m) ==> OneEachWay(t, m)
    ensures AtRest(t, m) ==> t.c / 2 - m < Median(t.x, t.y, t.z) < t.c - t.c / 2 + m
    ensures t.c % 2 == 0 ==> (AtRest(t, m) <==> OneEachWay(t, m))
  {
    hide AtRest;
    AtRestMeaning(t, m);
    assert Excess(t, First, m) <==> t.x >= t.c / 2 + m && t.z >= t.c - t.c / 2 + m;
    assert Excess(t, Second, m) <==> t.y >= t.c / 2 + m && t.x >= t.c - t.c / 2 + m;
    assert Excess(t, Third, m) <==> t.z >= t.c / 2 + m && t.y >= t.c - t.c / 2 + m;
    assert Shortage(t, First, m) <==> t.x <= t.c / 2 - m && t.z <= t.c - t.c / 2 - m;
    assert Shortage(t, Second, m) <==> t.y <= t.c / 2 - m && t.x <= t.c - t.c / 2 - m;
    assert Shortage(t, Third, m) <==> t.z <= t.c / 2 - m && t.y <= t.c - t.c / 2 - m;
    if AtRest(t, m) {
      assert !Excess(t, First, m) && !Excess(t, Second, m) && !Excess(t, Third, m);
      assert !Shortage(t, First, m) && !Shortage(t, Second, m) && !Shortage(t, Third, m);
    } else {
      var n: Node :| Excess(t, n, m) || Shortage(t, n, m);
    }
  }

  // -- which planned payments can be routed -------------------------------------------

  /** The channel that does not touch node n must carry the amount too. */
  predicate MiddleCarries(t: Triangle, n: Node, d: int) {
    0 <= t.Forward(Next(n)) + d <= t.c
  }

  /**
    A planned payment is limited only by the channel the planning node cannot see.
   */
  lemma FeasibleIffMiddleCarries(t: Triangle, n: Node, swapped: bool, cfg: Config)
    requires t.Valid() && cfg.minRebal > 0
    requires Planned(Listing(t, n, swapped), cfg).Some?
    ensures var d := Direction(n, Planned(Listing(t, n, swapped), cfg).value);
            Feasible(t, d) <==> MiddleCarries(t, n, d)
  {
    hide Scan, Amount;
    var p := Planned(Listing(t, n, swapped), cfg).value;
    AmountMeaning(t, n, swapped, p.amt);
    NextIsNotPrev(n);
    match n {
      case First =>
      case Second =>
      case Third =>
    }
  }

  /** The smallest move the generator configures. */
  function MinRebal(chanSat: nat): nat {
    if chanSat / 1000 > 1000 then chanSat / 1000 else 1000
  }

  /**
    A freshly opened ring that the one-shot payment of the opener left unbalanced is put
    right by the first routed attempt of any node, to the same state the opener aims for.
   */
  lemma FreshRingBalances(c: nat, a: Attempt, cfg: Config)
    requires c >= 2000 && cfg.high < 100 && cfg.minRebal == MinRebal(c) && a.routed
    ensures var start := Triangle(c, c, c, c);
            && Attempted(start, a, cfg) == start.Shift(-(c / 2))
            && Imbalance(start.Shift(-(c / 2))) == 3 * (c % 2)
  {
    hide Ratio;
    var t := Triangle(c, c, c, c);
    ListingScan(t, a.node, a.swapped);
    FullAndEmpty(c);
    NextIsNotPrev(a.node);
  }

  lemma FullAndEmpty(c: nat)
    requires c > 0
    ensures forall peer :: Ratio(Line(true, peer, c, c)) == 100 && Ratio(Line(true, peer, 0, c)) == 0
  {
    DivModUnique(100, c, 0);
    DivModUnique(0, c, 0);
  }

  /**
    The rebalancer can be stuck far from balance: with two full first ends and an empty
    third, First keeps asking for an amount the middle channel cannot carry, and nobody
    else asks at all.
   */
  lemma StuckRing(c: nat, a: Attempt, cfg: Config)
    requires c >= 2 && cfg.minRebal > 0
    ensures Attempted(Triangle(c, c, 0, c), a, cfg) == Triangle(c, c, 0, c)
    ensures Imbalance(Triangle(c, c, 0, c)) == 3 * c
    ensures !AtRest(Triangle(c, c, 0, c), c / 2)
  {
    hide Scan, Amount, AtRest;
    var t := Triangle(c, c, 0, c);
    AtRestMeaning(t, c / 2);
    assert Excess(t, First, c / 2);
    AmountMeaning(t, a.node, a.swapped, cfg.minRebal);
    var p := Planned(Listing(t, a.node, a.swapped), cfg);
    if p.Some? {
      AmountMeaning(t, a.node, a.swapped, p.value.amt);
      FeasibleIffMiddleCarries(t, a.node, a.swapped, cfg);
      NextIsNotPrev(a.node);
      match a.node {
        case First =>
        case Second =>
        case Third =>
      }
    }
  }
}
