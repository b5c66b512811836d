/** Numbers of failures a pool tolerates (provisioning/miniprov/hare_mp/cdf.py), against every way of
    spreading the units of a parity group over nodes, controllers and disks. */
module AllowedFailures {
  import opened Arithmetic
  import opened Fids

  datatype Layout = Layout(data: nat, parity: nat, spare: nat)

  datatype Allowed = Allowed(encl: nat, ctrl: nat, disk: nat)

  function Total(l: Layout): nat {
    l.data + l.parity + l.spare
  }

  function CeilDiv(a: nat, b: nat): nat
    requires b > 0
  {
    (a + b - 1) / b
  }

  function Min(a: nat, b: nat): nat {
    if a < b then a else b
  }

  /** None stands for the exception raised when there is no data node, or no unit. */
  function Calculate(l: Layout, nodes: nat, cvgPerNode: nat): Option<Allowed> {
    if nodes == 0 || Total(l) == 0 then None
    else
      CeilDivPositive(Total(l), nodes);
      var encl := l.parity / CeilDiv(Total(l), nodes);
      Some(Allowed(encl, Min(cvgPerNode * encl, l.parity), l.parity))
  }

  // ---------------------------------------------------------------- placements

  function Sum(units: seq<nat>): nat {
    if units == [] then 0 else units[0] + Sum(units[1..])
  }

  function LostUnits(units: seq<nat>, lost: seq<bool>): nat
    requires |units| == |lost|
  {
    if units == [] then 0 else (if lost[0] then units[0] else 0) + LostUnits(units[1..], lost[1..])
  }

  function Count(lost: seq<bool>): nat {
    if lost == [] then 0 else (if lost[0] then 1 else 0) + Count(lost[1..])
  }

  /** `total` units spread over `places`, at most `most` in each. */
  predicate Placed(units: seq<nat>, places: nat, most: nat, total: nat) {
    |units| == places && Sum(units) == total && forall i :: 0 <= i < places ==> units[i] <= most
  }

  /** However the units are spread, losing `n` places loses no more units than the parity. */
  ghost predicate Survives(places: nat, most: nat, total: nat, n: nat, parity: nat) {
    forall units, lost :: Placed(units, places, most, total) && |lost| == places && Count(lost) <= n ==>
                            LostUnits(units, lost) <= parity
  }

  lemma {:induction false} LossBounded(units: seq<nat>, lost: seq<bool>, most: nat)
    requires |units| == |lost| && forall i :: 0 <= i < |units| ==> units[i] <= most
    ensures LostUnits(units, lost) <= Count(lost) * most
    ensures LostUnits(units, lost) <= Sum(units)
    decreases |units|
  {
    if units != [] {
      LossBounded(units[1..], lost[1..], most);
      MulSuccessor(Count(lost[1..]), most);
    }
  }

  /** Places filled up one after the other. */
  function Filled(places: nat, most: nat, total: nat): (units: seq<nat>)
    ensures |units| == places && forall i :: 0 <= i < places ==> units[i] <= most
  {
    if places == 0 then [] else [Min(most, total)] + Filled(places - 1, most, total - Min(most, total))
  }

  lemma {:induction false} FilledSum(places: nat, most: nat, total: nat)
    requires total <= places * most
    ensures Sum(Filled(places, most, total)) == total
    decreases places
  {
    if places > 0 {
      assert (places - 1) * most == places * most - most;
      FilledSum(places - 1, most, total - Min(most, total));
      assert Filled(places, most, total)[1..] == Filled(places - 1, most, total - Min(most, total));
    }
  }

  function FirstLost(places: nat, n: nat): (lost: seq<bool>)
    ensures |lost| == places
  {
    if places == 0 then [] else [n > 0] + FirstLost(places - 1, if n > 0 then n - 1 else 0)
  }

  lemma {:induction false} FirstLostCount(places: nat, n: nat)
    requires n <= places
    ensures Count(FirstLost(places, n)) == n
  {
    if places > 0 {
      FirstLostCount(places - 1, if n > 0 then n - 1 else 0);
      assert FirstLost(places, n)[1..] == FirstLost(places - 1, if n > 0 then n - 1 else 0);
    }
  }

  lemma LostFirst(x: nat, units: seq<nat>, b: bool, lost: seq<bool>)
    requires |units| == |lost|
    ensures LostUnits([x] + units, [b] + lost) == (if b then x else 0) + LostUnits(units, lost)
  {
    assert ([x] + units)[1..] == units && ([b] + lost)[1..] == lost;
  }

  lemma MinStep(most: nat, total: nat, q: nat)
    ensures Min(most, total) + Min(total - Min(most, total), q) == Min(total, q + most)
  {
  }

  function Times(n: nat, d: nat): nat {
    if n == 0 then 0 else Times(n - 1, d) + d
  }

  lemma {:induction false} TimesIsProduct(n: nat, d: nat)
    ensures Times(n, d) == n * d
  {
    if n > 0 {
      TimesIsProduct(n - 1, d);
      MulSuccessor(n - 1, d);
    }
  }

  lemma {:induction false} NothingLost(units: seq<nat>)
    ensures LostUnits(units, FirstLost(|units|, 0)) == 0
    decreases |units|
  {
    if units != [] {
      NothingLost(units[1..]);
      assert FirstLost(|units|, 0)[1..] == FirstLost(|units| - 1, 0);
    }
  }

  lemma FirstLostStep(places: nat, most: nat, total: nat, n: nat)
    requires 0 < n <= places
    ensures LostUnits(Filled(places, most, total), FirstLost(places, n))
         == Min(most, total) + LostUnits(Filled(places - 1, most, total - Min(most, total)), FirstLost(places - 1, n - 1))
  {
    var x := Min(most, total);
    var units, lost := Filled(places - 1, most, total - x), FirstLost(places - 1, n - 1);
    assert Filled(places, most, total) == [x] + units && FirstLost(places, n) == [true] + lost;
    LostFirst(x, units, true, lost);
  }

  lemma {:induction false} FirstLostTimes(places: nat, most: nat, total: nat, n: nat)
    requires n <= places
    ensures LostUnits(Filled(places, most, total), FirstLost(places, n)) == Min(total, Times(n, most))
    decreases places
  {
    if n == 0 {
      NothingLost(Filled(places, most, total));
    } else {
      FirstLostStep(places, most, total, n);
      FirstLostTimes(places - 1, most, total - Min(most, total), n - 1);
      MinStep(most, total, Times(n - 1, most));
    }
  }

  lemma FirstLostUnits(places: nat, most: nat, total: nat, n: nat)
    requires n <= places
    ensures LostUnits(Filled(places, most, total), FirstLost(places, n)) == Min(total, n * most)
  {
    FirstLostTimes(places, most, total, n);
    TimesIsProduct(n, most);
  }

  lemma SurvivesWhen(places: nat, most: nat, total: nat, n: nat, parity: nat)
    requires Min(total, n * most) <= parity
    ensures Survives(places, most, total, n, parity)
  {
    forall units, lost | Placed(units, places, most, total) && |lost| == places && Count(lost) <= n
      ensures LostUnits(units, lost) <= parity
    {
      LossBounded(units, lost, most);
      MulMonotone(Count(lost), n, most);
    }
  }

  lemma FailsWhen(places: nat, most: nat, total: nat, n: nat, parity: nat)
    requires total <= places * most && n <= places && Min(total, n * most) > parity
    ensures !Survives(places, most, total, n, parity)
  {
    var units, lost := Filled(places, most, total), FirstLost(places, n);
    FilledSum(places, most, total);
    FirstLostCount(places, n);
    FirstLostUnits(places, most, total, n);
    assert Placed(units, places, most, total) && LostUnits(units, lost) > parity;
  }

  /** The worst case is that the places lost are full. */
  lemma SurvivesIff(places: nat, most: nat, total: nat, n: nat, parity: nat)
    requires total <= places * most && n <= places
    ensures Survives(places, most, total, n, parity) <==> Min(total, n * most) <= parity
  {
    if Min(total, n * most) <= parity {
      SurvivesWhen(places, most, total, n, parity);
    } else {
      FailsWhen(places, most, total, n, parity);
    }
  }

  // ---------------------------------------------------------------- nodes

  lemma CeilDivPositive(a: nat, b: nat)
    requires b > 0
    ensures a > 0 ==> CeilDiv(a, b) > 0
    ensures a <= b * CeilDiv(a, b)
  {
    var k := a + b - 1;
    assert k == b * (k / b) + k % b;
    DivIsLargest(k, b, 1);
  }

  /** No more nodes may fail than there are. */
  lemma EnclBelowNodes(l: Layout, nodes: nat)
    requires nodes > 0 && Total(l) > 0
    ensures CeilDiv(Total(l), nodes) > 0 && l.parity / CeilDiv(Total(l), nodes) <= nodes
  {
    CeilDivPositive(Total(l), nodes);
    var c := CeilDiv(Total(l), nodes);
    DivIsLargest(l.parity, c, nodes + 1);
    assert (nodes + 1) * c == nodes * c + c;
  }

  /** The number of nodes that may fail is exact: with no node holding more units than an even spread
      makes necessary, a group survives the loss of any `n` nodes exactly when `n` is at most that number
      or there is nothing but parity. */
  lemma EnclIsExact(l: Layout, nodes: nat, cvg: nat, n: nat)
    requires Calculate(l, nodes, cvg).Some? && n <= nodes
    ensures Survives(nodes, CeilDiv(Total(l), nodes), Total(l), n, l.parity) <==>
              n <= Calculate(l, nodes, cvg).value.encl || l.data + l.spare == 0
  {
    var c := CeilDiv(Total(l), nodes);
    CeilDivPositive(Total(l), nodes);
    SurvivesIff(nodes, c, Total(l), n, l.parity);
    DivIsLargest(l.parity, c, n);
  }

  // ---------------------------------------------------------------- units on controllers of nodes

  function SumAll(units: seq<seq<nat>>): nat {
    if units == [] then 0 else Sum(units[0]) + SumAll(units[1..])
  }

  /** `nodes` rows of `cvg` controllers. */
  predicate Shaped<T>(rows: seq<seq<T>>, nodes: nat, cvg: nat) {
    |rows| == nodes && forall i :: 0 <= i < nodes ==> |rows[i]| == cvg
  }

  function LostAll(units: seq<seq<nat>>, lost: seq<seq<bool>>, cvg: nat): nat
    requires Shaped(units, |lost|, cvg) && Shaped(lost, |lost|, cvg)
  {
    if units == [] then 0 else LostUnits(units[0], lost[0]) + LostAll(units[1..], lost[1..], cvg)
  }

  function CountAll(lost: seq<seq<bool>>): nat {
    if lost == [] then 0 else Count(lost[0]) + CountAll(lost[1..])
  }

  /** At most `c` units on a node and `d` on a controller. */
  predicate Capped(row: seq<nat>, c: nat, d: nat) {
    Sum(row) <= c && forall j :: 0 <= j < |row| ==> row[j] <= d
  }

  predicate PlacedOnNodes(units: seq<seq<nat>>, nodes: nat, cvg: nat, c: nat, d: nat, total: nat) {
    Shaped(units, nodes, cvg) && SumAll(units) == total && forall i :: 0 <= i < nodes ==> Capped(units[i], c, d)
  }

  /** However the units are spread over nodes and controllers, losing `n` controllers loses no more units
      than the parity. */
  ghost predicate SurvivesControllers(nodes: nat, cvg: nat, c: nat, d: nat, total: nat, n: nat, parity: nat) {
    forall units, lost :: PlacedOnNodes(units, nodes, cvg, c, d, total) && Shaped(lost, nodes, cvg) && CountAll(lost) <= n ==>
                            LostAll(units, lost, cvg) <= parity
  }

  /** The most a node loses with `k` of its controllers. */
  function NodeLoss(c: nat, d: nat, k: nat): nat {
    Min(c, k * d)
  }

  /** The most `nodes` nodes lose with `n` controllers: when these are spread evenly over the nodes. */
  function Worst(nodes: nat, c: nat, d: nat, n: nat): nat
    requires nodes > 0
  {
    var a, e := n / nodes, n % nodes;
    (nodes - e) * NodeLoss(c, d, a) + e * NodeLoss(c, d, a + 1)
  }

  // Each further controller of a node costs no more than the one before.

  function Gain(c: nat, d: nat, k: nat): int {
    NodeLoss(c, d, k + 1) - NodeLoss(c, d, k)
  }

  lemma GainFalls(c: nat, d: nat, k: nat)
    ensures 0 <= Gain(c, d, k + 1) <= Gain(c, d, k)
  {
    MulSuccessor(k, d);
    MulSuccessor(k + 1, d);
  }

  lemma {:induction false} GainFallsTo(c: nat, d: nat, j: nat, k: nat)
    requires j <= k
    ensures 0 <= Gain(c, d, k) <= Gain(c, d, j)
    decreases k
  {
    if j < k {
      GainFallsTo(c, d, j, k - 1);
      GainFalls(c, d, k - 1);
    } else {
      MulSuccessor(k, d);
    }
  }

  /** The line through two neighbouring counts lies above all others. */
  lemma {:induction false} Tangent(c: nat, d: nat, a: nat, k: nat)
    ensures NodeLoss(c, d, k) <= NodeLoss(c, d, a) + (k - a) * Gain(c, d, a)
    decreases if k > a then k - a else a - k
  {
    if k > a {
      Tangent(c, d, a, k - 1);
      GainFallsTo(c, d, a, k - 1);
      MulSuccessor(k - 1 - a, Gain(c, d, a));
    } else if k < a {
      Tangent(c, d, a, k + 1);
      GainFallsTo(c, d, k, a);
      MulSuccessor(k - a, Gain(c, d, a));
    }
  }

  lemma RowLoss(row: seq<nat>, lost: seq<bool>, c: nat, d: nat, a: nat)
    requires |row| == |lost| && Capped(row, c, d)
    ensures LostUnits(row, lost) <= NodeLoss(c, d, a) + (Count(lost) - a) * Gain(c, d, a)
  {
    LossBounded(row, lost, d);
    Tangent(c, d, a, Count(lost));
  }

  lemma {:induction false} AllLoss(units: seq<seq<nat>>, lost: seq<seq<bool>>, cvg: nat, c: nat, d: nat, a: nat)
    requires Shaped(units, |lost|, cvg) && Shaped(lost, |lost|, cvg)
    requires forall i :: 0 <= i < |units| ==> Capped(units[i], c, d)
    ensures LostAll(units, lost, cvg) <= |lost| * NodeLoss(c, d, a) + (CountAll(lost) - |lost| * a) * Gain(c, d, a)
    decreases |units|
  {
    if units != [] {
      var n, g, k, r := |lost| - 1, Gain(c, d, a), Count(lost[0]), CountAll(lost[1..]);
      RowLoss(units[0], lost[0], c, d, a);
      AllLoss(units[1..], lost[1..], cvg, c, d, a);
      MulSuccessor(n, NodeLoss(c, d, a));
      MulSuccessor(n, a);
      MulDistributes(k - a, r - n * a, g);
    }
  }

  lemma WorstAsLine(nodes: nat, c: nat, d: nat, n: nat)
    requires nodes > 0
    ensures Worst(nodes, c, d, n) == nodes * NodeLoss(c, d, n / nodes) + (n % nodes) * Gain(c, d, n / nodes)
  {
    var a, e := n / nodes, n % nodes;
    MulDistributes(nodes, e, NodeLoss(c, d, a));
    MulDistributes(NodeLoss(c, d, a + 1), NodeLoss(c, d, a), e);
  }

  /** No spread and no choice of `n` controllers is worse. */
  lemma NoneWorse(units: seq<seq<nat>>, lost: seq<seq<bool>>, nodes: nat, cvg: nat, c: nat, d: nat, total: nat, n: nat)
    requires nodes > 0 && PlacedOnNodes(units, nodes, cvg, c, d, total) && Shaped(lost, nodes, cvg) && CountAll(lost) <= n
    ensures LostAll(units, lost, cvg) <= Min(total, Worst(nodes, c, d, n))
  {
    var a := n / nodes;
    AllLoss(units, lost, cvg, c, d, a);
    AllLostAndKept(units, lost, cvg);
    WorstAsLine(nodes, c, d, n);
    GainFallsTo(c, d, a, a);
    assert n == nodes * a + n % nodes;
    MulMonotone(CountAll(lost) - nodes * a, n % nodes, Gain(c, d, a));
  }

  // ---------------------------------------------------------------- the worst spread exists

  /** Every node full, controller by controller. */
  function FullNodes(nodes: nat, cvg: nat, c: nat, d: nat): (units: seq<seq<nat>>)
    ensures Shaped(units, nodes, cvg)
  {
    if nodes == 0 then [] else [Filled(cvg, d, c)] + FullNodes(nodes - 1, cvg, c, d)
  }

  /** `a` controllers of each node lost, and one more of the first `e`. */
  function Evenly(nodes: nat, cvg: nat, a: nat, e: nat): (lost: seq<seq<bool>>)
    ensures Shaped(lost, nodes, cvg)
  {
    if nodes == 0 then []
    else [FirstLost(cvg, if e > 0 then a + 1 else a)] + Evenly(nodes - 1, cvg, a, if e > 0 then e - 1 else 0)
  }

  lemma {:induction false} FullSum(nodes: nat, cvg: nat, c: nat, d: nat)
    requires c <= cvg * d
    ensures SumAll(FullNodes(nodes, cvg, c, d)) == nodes * c
    ensures forall i :: 0 <= i < nodes ==> Capped(FullNodes(nodes, cvg, c, d)[i], c, d)
  {
    if nodes > 0 {
      FilledSum(cvg, d, c);
      FullSum(nodes - 1, cvg, c, d);
      MulSuccessor(nodes - 1, c);
      assert FullNodes(nodes, cvg, c, d)[1..] == FullNodes(nodes - 1, cvg, c, d);
    }
  }

  lemma {:induction false} EvenlyCount(nodes: nat, cvg: nat, a: nat, e: nat)
    requires e <= nodes && a <= cvg && (e > 0 ==> a < cvg)
    ensures CountAll(Evenly(nodes, cvg, a, e)) == nodes * a + e
  {
    if nodes > 0 {
      var k := if e > 0 then a + 1 else a;
      FirstLostCount(cvg, k);
      EvenlyCount(nodes - 1, cvg, a, if e > 0 then e - 1 else 0);
      MulSuccessor(nodes - 1, a);
      assert Evenly(nodes, cvg, a, e)[1..] == Evenly(nodes - 1, cvg, a, if e > 0 then e - 1 else 0);
    }
  }

  lemma LostAllFirst(row: seq<nat>, units: seq<seq<nat>>, l: seq<bool>, lost: seq<seq<bool>>, cvg: nat)
    requires Shaped(units, |lost|, cvg) && Shaped(lost, |lost|, cvg) && |row| == |l| == cvg
    ensures Shaped([row] + units, |lost| + 1, cvg) && Shaped([l] + lost, |lost| + 1, cvg)
    ensures LostAll([row] + units, [l] + lost, cvg) == LostUnits(row, l) + LostAll(units, lost, cvg)
  {
    assert ([row] + units)[1..] == units && ([l] + lost)[1..] == lost;
  }

  lemma {:induction false} EvenlyLoss(nodes: nat, cvg: nat, c: nat, d: nat, a: nat, e: nat)
    requires e <= nodes && a <= cvg && (e > 0 ==> a < cvg)
    ensures LostAll(FullNodes(nodes, cvg, c, d), Evenly(nodes, cvg, a, e), cvg)
         == (nodes - e) * NodeLoss(c, d, a) + e * NodeLoss(c, d, a + 1)
    decreases nodes
  {
    if nodes > 0 {
      var k, e' := if e > 0 then a + 1 else a, if e > 0 then e - 1 else 0;
      FirstLostUnits(cvg, d, c, k);
      EvenlyLoss(nodes - 1, cvg, c, d, a, e');
      LostAllFirst(Filled(cvg, d, c), FullNodes(nodes - 1, cvg, c, d), FirstLost(cvg, k), Evenly(nodes - 1, cvg, a, e'), cvg);
      if e > 0 {
        MulSuccessor(e - 1, NodeLoss(c, d, a + 1));
      } else {
        MulSuccessor(nodes - 1, NodeLoss(c, d, a));
      }
    }
  }

  /** The row with at most `x` units left on lost controllers and `y` on the others. */
  function Trimmed(row: seq<nat>, lost: seq<bool>, x: nat, y: nat): (r: seq<nat>)
    requires |row| == |lost|
    ensures |r| == |row| && forall j :: 0 <= j < |r| ==> r[j] <= row[j]
  {
    if row == [] then []
    else if lost[0] then [Min(row[0], x)] + Trimmed(row[1..], lost[1..], x - Min(row[0], x), y)
    else [Min(row[0], y)] + Trimmed(row[1..], lost[1..], x, y - Min(row[0], y))
  }

  function KeptUnits(row: seq<nat>, lost: seq<bool>): nat
    requires |row| == |lost|
  {
    if row == [] then 0 else (if lost[0] then 0 else row[0]) + KeptUnits(row[1..], lost[1..])
  }

  lemma {:induction false} LostAndKept(row: seq<nat>, lost: seq<bool>)
    requires |row| == |lost|
    ensures Sum(row) == LostUnits(row, lost) + KeptUnits(row, lost)
    decreases |row|
  {
    if row != [] {
      LostAndKept(row[1..], lost[1..]);
    }
  }

  lemma KeptFirst(x: nat, row: seq<nat>, b: bool, lost: seq<bool>)
    requires |row| == |lost|
    ensures KeptUnits([x] + row, [b] + lost) == (if b then 0 else x) + KeptUnits(row, lost)
  {
    assert ([x] + row)[1..] == row && ([b] + lost)[1..] == lost;
  }

  lemma {:induction false} TrimmedParts(row: seq<nat>, lost: seq<bool>, x: nat, y: nat)
    requires |row| == |lost|
    ensures LostUnits(Trimmed(row, lost, x, y), lost) == Min(x, LostUnits(row, lost))
    ensures KeptUnits(Trimmed(row, lost, x, y), lost) == Min(y, KeptUnits(row, lost))
    decreases |row|
  {
    if row != [] {
      var row', lost' := row[1..], lost[1..];
      var x', y' := if lost[0] then x - Min(row[0], x) else x, if lost[0] then y else y - Min(row[0], y);
      var z, rest := if lost[0] then Min(row[0], x) else Min(row[0], y), Trimmed(row', lost', x', y');
      TrimmedParts(row', lost', x', y');
      LostFirst(z, rest, lost[0], lost');
      KeptFirst(z, rest, lost[0], lost');
      assert Trimmed(row, lost, x, y) == [z] + rest && lost == [lost[0]] + lost';
      MinStep(row[0], if lost[0] then x else y, if lost[0] then LostUnits(row', lost') else KeptUnits(row', lost'));
    }
  }

  function KeptAll(units: seq<seq<nat>>, lost: seq<seq<bool>>, cvg: nat): nat
    requires Shaped(units, |lost|, cvg) && Shaped(lost, |lost|, cvg)
  {
    if units == [] then 0 else KeptUnits(units[0], lost[0]) + KeptAll(units[1..], lost[1..], cvg)
  }

  lemma {:induction false} AllLostAndKept(units: seq<seq<nat>>, lost: seq<seq<bool>>, cvg: nat)
    requires Shaped(units, |lost|, cvg) && Shaped(lost, |lost|, cvg)
    ensures SumAll(units) == LostAll(units, lost, cvg) + KeptAll(units, lost, cvg)
    decreases |units|
  {
    if units != [] {
      LostAndKept(units[0], lost[0]);
      AllLostAndKept(units[1..], lost[1..], cvg);
    }
  }

  function AllTrimmed(units: seq<seq<nat>>, lost: seq<seq<bool>>, cvg: nat, x: nat, y: nat): (r: seq<seq<nat>>)
    requires Shaped(units, |lost|, cvg) && Shaped(lost, |lost|, cvg)
    ensures Shaped(r, |lost|, cvg)
  {
    if units == [] then []
    else
      [Trimmed(units[0], lost[0], x, y)] +
      AllTrimmed(units[1..], lost[1..], cvg, x - Min(LostUnits(units[0], lost[0]), x), y - Min(KeptUnits(units[0], lost[0]), y))
  }

  lemma KeptAllFirst(row: seq<nat>, units: seq<seq<nat>>, l: seq<bool>, lost: seq<seq<bool>>, cvg: nat)
    requires Shaped(units, |lost|, cvg) && Shaped(lost, |lost|, cvg) && |row| == |l| == cvg
    ensures Shaped([row] + units, |lost| + 1, cvg) && Shaped([l] + lost, |lost| + 1, cvg)
    ensures KeptAll([row] + units, [l] + lost, cvg) == KeptUnits(row, l) + KeptAll(units, lost, cvg)
  {
    assert ([row] + units)[1..] == units && ([l] + lost)[1..] == lost;
  }

  lemma {:induction false} AllTrimmedParts(units: seq<seq<nat>>, lost: seq<seq<bool>>, cvg: nat, x: nat, y: nat)
    requires Shaped(units, |lost|, cvg) && Shaped(lost, |lost|, cvg)
    ensures LostAll(AllTrimmed(units, lost, cvg, x, y), lost, cvg) == Min(x, LostAll(units, lost, cvg))
    ensures KeptAll(AllTrimmed(units, lost, cvg, x, y), lost, cvg) == Min(y, KeptAll(units, lost, cvg))
    decreases |units|
  {
    if units != [] {
      var l, k := LostUnits(units[0], lost[0]), KeptUnits(units[0], lost[0]);
      var x', y' := x - Min(l, x), y - Min(k, y);
      var row, rest := Trimmed(units[0], lost[0], x, y), AllTrimmed(units[1..], lost[1..], cvg, x', y');
      TrimmedParts(units[0], lost[0], x, y);
      AllTrimmedParts(units[1..], lost[1..], cvg, x', y');
      assert AllTrimmed(units, lost, cvg, x, y) == [row] + rest && lost == [lost[0]] + lost[1..];
      LostAllFirst(row, rest, lost[0], lost[1..], cvg);
      KeptAllFirst(row, rest, lost[0], lost[1..], cvg);
      MinStep(l, x, LostAll(units[1..], lost[1..], cvg));
      MinStep(k, y, KeptAll(units[1..], lost[1..], cvg));
    }
  }

  lemma {:induction false} SmallerSum(r: seq<nat>, row: seq<nat>)
    requires |r| == |row| && forall j :: 0 <= j < |r| ==> r[j] <= row[j]
    ensures Sum(r) <= Sum(row)
    decreases |row|
  {
    if row != [] {
      SmallerSum(r[1..], row[1..]);
    }
  }

  lemma {:induction false} AllTrimmedCapped(units: seq<seq<nat>>, lost: seq<seq<bool>>, cvg: nat, c: nat, d: nat, x: nat, y: nat)
    requires Shaped(units, |lost|, cvg) && Shaped(lost, |lost|, cvg)
    requires forall i :: 0 <= i < |units| ==> Capped(units[i], c, d)
    ensures forall i :: 0 <= i < |lost| ==> Capped(AllTrimmed(units, lost, cvg, x, y)[i], c, d)
    decreases |units|
  {
    if units != [] {
      var l, k := LostUnits(units[0], lost[0]), KeptUnits(units[0], lost[0]);
      AllTrimmedCapped(units[1..], lost[1..], cvg, c, d, x - Min(l, x), y - Min(k, y));
      SmallerSum(Trimmed(units[0], lost[0], x, y), units[0]);
    }
  }

  /** Units can be taken away, from the controllers that are kept first, until `total` are left. */
  lemma TrimTo(units: seq<seq<nat>>, lost: seq<seq<bool>>, cvg: nat, c: nat, d: nat, total: nat)
    returns (r: seq<seq<nat>>)
    requires Shaped(units, |lost|, cvg) && Shaped(lost, |lost|, cvg) && total <= SumAll(units)
    requires forall i :: 0 <= i < |units| ==> Capped(units[i], c, d)
    ensures PlacedOnNodes(r, |lost|, cvg, c, d, total)
    ensures LostAll(r, lost, cvg) == Min(total, LostAll(units, lost, cvg))
  {
    var x := Min(total, LostAll(units, lost, cvg));
    r := AllTrimmed(units, lost, cvg, x, total - x);
    AllTrimmedParts(units, lost, cvg, x, total - x);
    AllLostAndKept(units, lost, cvg);
    AllLostAndKept(r, lost, cvg);
    AllTrimmedCapped(units, lost, cvg, c, d, x, total - x);
  }

  /** Full nodes of which `n` controllers are lost evenly. */
  lemma WorstSpread(nodes: nat, cvg: nat, c: nat, d: nat, n: nat) returns (full: seq<seq<nat>>, lost: seq<seq<bool>>)
    requires nodes > 0 && c <= cvg * d && n <= nodes * cvg
    ensures Shaped(full, nodes, cvg) && Shaped(lost, nodes, cvg) && forall i :: 0 <= i < nodes ==> Capped(full[i], c, d)
    ensures SumAll(full) == nodes * c && CountAll(lost) == n && LostAll(full, lost, cvg) == Worst(nodes, c, d, n)
  {
    var a, e := n / nodes, n % nodes;
    assert n == nodes * a + e;
    RoomForOneMore(nodes, cvg, a, e);
    full, lost := FullNodes(nodes, cvg, c, d), Evenly(nodes, cvg, a, e);
    FullSum(nodes, cvg, c, d);
    EvenlyCount(nodes, cvg, a, e);
    EvenlyLoss(nodes, cvg, c, d, a, e);
  }

  lemma WorstReached(nodes: nat, cvg: nat, c: nat, d: nat, total: nat, n: nat, parity: nat)
    requires nodes > 0 && c <= cvg * d && total <= nodes * c && n <= nodes * cvg
    requires Min(total, Worst(nodes, c, d, n)) > parity
    ensures !SurvivesControllers(nodes, cvg, c, d, total, n, parity)
  {
    var full, lost := WorstSpread(nodes, cvg, c, d, n);
    var units := TrimTo(full, lost, cvg, c, d, total);
    assert PlacedOnNodes(units, nodes, cvg, c, d, total) && LostAll(units, lost, cvg) > parity;
  }

  lemma RoomForOneMore(nodes: nat, cvg: nat, a: nat, e: nat)
    requires nodes > 0 && e < nodes && nodes * a + e <= nodes * cvg
    ensures a <= cvg && (e > 0 ==> a < cvg)
  {
    if a > cvg {
      MulMonotone(cvg + 1, a, nodes);
    }
  }

  /** The loss of `n` controllers is survived exactly when the worst one is. */
  lemma SurvivesControllersIff(nodes: nat, cvg: nat, c: nat, d: nat, total: nat, n: nat, parity: nat)
    requires nodes > 0 && c <= cvg * d && total <= nodes * c && n <= nodes * cvg
    ensures SurvivesControllers(nodes, cvg, c, d, total, n, parity) <==> Min(total, Worst(nodes, c, d, n)) <= parity
  {
    if Min(total, Worst(nodes, c, d, n)) <= parity {
      forall units, lost | PlacedOnNodes(units, nodes, cvg, c, d, total) && Shaped(lost, nodes, cvg) && CountAll(lost) <= n
        ensures LostAll(units, lost, cvg) <= parity
      {
        NoneWorse(units, lost, nodes, cvg, c, d, total, n);
      }
    } else {
      WorstReached(nodes, cvg, c, d, total, n, parity);
    }
  }

  // ---------------------------------------------------------------- controllers and disks

  /** Units on the fullest controller of a node whose units are spread evenly. */
  function PerController(l: Layout, nodes: nat, cvg: nat): nat
    requires nodes > 0 && cvg > 0
  {
    CeilDiv(CeilDiv(Total(l), nodes), cvg)
  }

  /** With no node and no controller holding more units than an even spread makes necessary, the number of
      controllers that may fail is right exactly when losing that many, evenly over the nodes, loses no
      more than the parity, or there is nothing but parity. */
  lemma CtrlIff(l: Layout, nodes: nat, cvg: nat)
    requires cvg > 0 && Calculate(l, nodes, cvg).Some?
    ensures var ctrl, c, d := Calculate(l, nodes, cvg).value.ctrl, CeilDiv(Total(l), nodes), PerController(l, nodes, cvg);
            SurvivesControllers(nodes, cvg, c, d, Total(l), ctrl, l.parity) <==>
              Worst(nodes, c, d, ctrl) <= l.parity || l.data + l.spare == 0
  {
    var a, c, d := Calculate(l, nodes, cvg).value, CeilDiv(Total(l), nodes), PerController(l, nodes, cvg);
    CeilDivPositive(Total(l), nodes);
    CeilDivPositive(c, cvg);
    EnclBelowNodes(l, nodes);
    MulMonotone(a.encl, nodes, cvg);
    SurvivesControllersIff(nodes, cvg, c, d, Total(l), a.ctrl, l.parity);
  }

  lemma EvenCeil(cvg: nat, d: nat)
    requires cvg > 0
    ensures CeilDiv(cvg * d, cvg) == d
  {
    ModUnique(cvg * d + cvg - 1, cvg, d, cvg - 1);
  }

  /** No more is lost than that many full controllers hold. */
  lemma WorstBounded(nodes: nat, c: nat, d: nat, n: nat)
    requires nodes > 0
    ensures Worst(nodes, c, d, n) <= n * d
  {
    var a, e := n / nodes, n % nodes;
    MulMonotone(NodeLoss(c, d, a), a * d, nodes - e);
    MulMonotone(NodeLoss(c, d, a + 1), (a + 1) * d, e);
    MulAssociates(nodes - e, a, d);
    MulAssociates(e, a + 1, d);
    MulDistributes((nodes - e) * a, e * (a + 1), d);
    MulDistributes(nodes, e, a);
    assert n == nodes * a + e;
    assert e * (a + 1) == e * a + e;
  }

  /** It is right whenever the units of a node divide evenly among its controllers. */
  lemma CtrlWhenEven(l: Layout, nodes: nat, cvg: nat)
    requires cvg > 0 && Calculate(l, nodes, cvg).Some? && CeilDiv(Total(l), nodes) % cvg == 0
    ensures Worst(nodes, CeilDiv(Total(l), nodes), PerController(l, nodes, cvg), Calculate(l, nodes, cvg).value.ctrl) <= l.parity
  {
    var a, c := Calculate(l, nodes, cvg).value, CeilDiv(Total(l), nodes);
    var d := c / cvg;
    CeilDivPositive(Total(l), nodes);
    assert c == cvg * d;
    EvenCeil(cvg, d);
    DivIsLargest(l.parity, c, a.encl);
    MulAssociates(cvg, a.encl, d);
    MulMonotone(a.ctrl, cvg * a.encl, d);
    WorstBounded(nodes, c, d, a.ctrl);
  }

  lemma WorstOfThree(n: nat)
    requires n == 2 || n == 4
    ensures Worst(3, 3, 2, n) == if n == 2 then 4 else 7
  {
  }

  /** It is too high for 6 + 3 units on three nodes of two controllers: two controllers may fail, and may
      hold four units. */
  lemma CtrlTooMany()
    ensures Calculate(Layout(6, 3, 0), 3, 2) == Some(Allowed(1, 2, 3)) && PerController(Layout(6, 3, 0), 3, 2) == 2
    ensures !SurvivesControllers(3, 2, 3, 2, 9, 2, 3)
  {
    WorstOfThree(2);
    SurvivesControllersIff(3, 2, 3, 2, 9, 2, 3);
  }

  /** It is right for 2 + 7 units on the same nodes, although these do not divide evenly either. */
  lemma CtrlRightThough()
    ensures Calculate(Layout(2, 7, 0), 3, 2) == Some(Allowed(2, 4, 7)) && PerController(Layout(2, 7, 0), 3, 2) == 2
    ensures SurvivesControllers(3, 2, 3, 2, 9, 4, 7)
  {
    WorstOfThree(4);
    SurvivesControllersIff(3, 2, 3, 2, 9, 4, 7);
  }

  /** One unit to a disk: as many disks may fail as there are parity units, and no more. */
  lemma DiskIsExact(l: Layout, nodes: nat, cvg: nat, disks: nat, n: nat)
    requires Calculate(l, nodes, cvg).Some? && Total(l) <= disks && n <= disks
    ensures Survives(disks, 1, Total(l), n, l.parity) <==>
              n <= Calculate(l, nodes, cvg).value.disk || l.data + l.spare == 0
  {
    SurvivesIff(disks, 1, Total(l), n, l.parity);
  }

  /** The formula has a result exactly when there is a data node and a unit to place. */
  lemma CalculateIff(l: Layout, nodes: nat, cvg: nat)
    ensures Calculate(l, nodes, cvg).Some? <==> nodes > 0 && (l.data > 0 || l.parity > 0 || l.spare > 0)
  {
  }

  /** Tolerances grow towards smaller parts, and that of controllers is the whole controllers of the nodes
      tolerated unless the parity is less. */
  lemma Ordered(l: Layout, nodes: nat, cvg: nat)
    requires Calculate(l, nodes, cvg).Some? && cvg > 0
    ensures var a := Calculate(l, nodes, cvg).value;
            && a.encl <= a.ctrl <= a.disk
            && a.ctrl <= cvg * a.encl && (a.ctrl == cvg * a.encl || a.ctrl == l.parity)
  {
    CeilDivPositive(Total(l), nodes);
    var c, encl := CeilDiv(Total(l), nodes), Calculate(l, nodes, cvg).value.encl;
    DivIsLargest(l.parity, c, encl);
    MulMonotone(1, c, encl);
    MulMonotone(1, cvg, encl);
  }
}
