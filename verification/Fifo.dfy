/**
 The cost layers of alembic/versions/043_persist_stock_fifo_layers.py and the
 oldest-first consumption of them.

 Quantities and unit costs are Numeric(18, 4): both are counted in ticks of 1e-4,
 so a product of the two is exact in ticks of 1e-8.
 */
module Fifo {
  import opened Wrappers
  import opened Math
  import opened Sums

  datatype Key = Key(tenant: nat, item: nat, warehouse: nat)

  datatype Layer = Layer(id: nat, key: Key, source: Option<nat>, receivedAt: int,
                         receivedQty: int, remainingQty: int, unitCost: int, isCancelled: bool)

  /** What one loop iteration takes from one layer. */
  datatype Draw = Draw(layerId: nat, quantity: int, unitCost: int)

  /** One tick of stock on hand, with the layer it came from. */
  datatype Unit = Unit(layerId: nat, cost: int)

  /** The CHECK constraints of stock_valuation_layers. */
  predicate LayerOk(l: Layer) {
    0 < l.receivedQty && 0 <= l.remainingQty <= l.receivedQty && 0 <= l.unitCost
  }

  predicate AllOk(ls: seq<Layer>) {
    forall i :: 0 <= i < |ls| ==> LayerOk(ls[i])
  }

  predicate UniqueIds(ls: seq<Layer>) {
    forall i, j :: 0 <= i < j < |ls| ==> ls[i].id != ls[j].id
  }

  /** The WHERE clause of the consumption query. */
  predicate Open(l: Layer, k: Key) {
    l.key == k && !l.isCancelled && l.remainingQty > 0
  }

  /** The ORDER BY clause of the consumption query. */
  predicate Before(a: Layer, b: Layer) {
    a.receivedAt < b.receivedAt || (a.receivedAt == b.receivedAt && a.id < b.id)
  }

  predicate Sorted(ls: seq<Layer>) {
    forall i, j :: 0 <= i < j < |ls| ==> Before(ls[i], ls[j])
  }

  /** The rows of the consumption query. The table is kept in the order of its index. */
  function Select(ls: seq<Layer>, k: Key): seq<Layer> {
    if ls == [] then []
    else if Open(ls[0], k) then [ls[0]] + Select(ls[1..], k)
    else Select(ls[1..], k)
  }

  /** UPDATE stock_valuation_layers SET remaining_qty = remaining_qty - q WHERE layer_id = id */
  function Deduct(ls: seq<Layer>, id: nat, q: int): seq<Layer> {
    if ls == [] then []
    else [if ls[0].id == id then ls[0].(remainingQty := ls[0].remainingQty - q) else ls[0]]
         + Deduct(ls[1..], id, q)
  }

  // ---------------------------------------------------------------- the specification

  /** The units on hand for `k`, next to be issued first. */
  function Units(ls: seq<Layer>, k: Key): seq<Unit> {
    if ls == [] then []
    else UnitsOf(ls[0], k) + Units(ls[1..], k)
  }

  function UnitsOf(l: Layer, k: Key): seq<Unit> {
    if Open(l, k) then Copies(Unit(l.id, l.unitCost), l.remainingQty) else []
  }

  function Copies(u: Unit, n: nat): seq<Unit> {
    seq(n, _ => u)
  }

  function DrawUnits(ds: seq<Draw>): seq<Unit> {
    if ds == [] then []
    else Copies(Unit(ds[0].layerId, ds[0].unitCost), Max(0, ds[0].quantity)) + DrawUnits(ds[1..])
  }

  function OpenQty(k: Key): Layer -> int {
    (l: Layer) => if Open(l, k) then l.remainingQty else 0
  }

  /** SUM(remaining_qty) over the uncancelled layers of `k`. */
  function Total(ls: seq<Layer>, k: Key): int {
    SumOf(OpenQty(k), ls)
  }

  function LayerValue(): Layer -> int {
    (l: Layer) => l.remainingQty * l.unitCost
  }

  function DrawQty(): Draw -> int {
    (d: Draw) => d.quantity
  }

  function DrawCost(): Draw -> int {
    (d: Draw) => d.quantity * d.unitCost
  }

  function DrawnFrom(id: nat): Draw -> int {
    (d: Draw) => if d.layerId == id then d.quantity else 0
  }

  function UnitCost(): Unit -> int {
    (u: Unit) => u.cost
  }

  datatype Taken = Taken(layers: seq<Layer>, draws: seq<Draw>, left: int)

  /** Takes `n` from the open layers of `k`, first layer first, as far as they reach. */
  function Take(ls: seq<Layer>, k: Key, n: int): Taken {
    if ls == [] then Taken([], [], n)
    else if n > 0 && Open(ls[0], k) then
      var q := Min(ls[0].remainingQty, n);
      var t := Take(ls[1..], k, n - q);
      Taken([ls[0].(remainingQty := ls[0].remainingQty - q)] + t.layers,
            [Draw(ls[0].id, q, ls[0].unitCost)] + t.draws,
            t.left)
    else
      var t := Take(ls[1..], k, n);
      Taken([ls[0]] + t.layers, t.draws, t.left)
  }

  // ---------------------------------------------------------------- the unit queue

  lemma {:induction false} UnitsLength(ls: seq<Layer>, k: Key)
    ensures |Units(ls, k)| == Total(ls, k)
  {
    if ls != [] {
      UnitsLength(ls[1..], k);
    }
  }

  lemma {:induction false} TakeNothing(ls: seq<Layer>, k: Key, n: int)
    requires n <= 0 || Select(ls, k) == []
    ensures Take(ls, k, n) == Taken(ls, [], n)
  {
    if ls != [] {
      TakeNothing(ls[1..], k, n);
      assert [ls[0]] + ls[1..] == ls;
    }
  }

  lemma CopiesAdd(u: Unit, m: nat, n: nat)
    ensures Copies(u, m) + Copies(u, n) == Copies(u, m + n)
  {
  }

  /** Served units `p` of the first layer, then `d` of the rest; `h` and `r` are what stays. */
  lemma Regroup(p: seq<Unit>, d: seq<Unit>, h: seq<Unit>, r: seq<Unit>)
    requires d == [] || h == []
    ensures (p + d) + (h + r) == (p + h) + (d + r)
  {
  }

  /** What drawing `q` from an open first layer does to the two sides of the queue. */
  lemma TakeFromHead(ls: seq<Layer>, k: Key, n: nat)
    requires ls != [] && Open(ls[0], k) && 0 < n
    ensures var l, q := ls[0], Min(ls[0].remainingQty, n);
            var u, t, s := Unit(ls[0].id, ls[0].unitCost), Take(ls, k, n), Take(ls[1..], k, n - q);
            && DrawUnits(t.draws) == Copies(u, q) + DrawUnits(s.draws)
            && Units(t.layers, k) == Copies(u, l.remainingQty - q) + Units(s.layers, k)
            && t.left == s.left
  {
    var q := Min(ls[0].remainingQty, n);
    var t, s := Take(ls, k, n), Take(ls[1..], k, n - q);
    assert t.layers[1..] == s.layers && t.draws[1..] == s.draws;
  }

  /**
   The loop refines a queue of units: the rows it writes are, unit by unit, the front of the queue,
   what is left in the layers is the back of it, and the front is as long as was asked for or
   as there is stock.
   */
  lemma {:induction false} TakeDequeues(ls: seq<Layer>, k: Key, n: nat)
    ensures var t := Take(ls, k, n);
            && Units(ls, k) == DrawUnits(t.draws) + Units(t.layers, k)
            && |DrawUnits(t.draws)| == Min(n, |Units(ls, k)|)
            && t.left == n - |DrawUnits(t.draws)|
    decreases ls, 1
  {
    if n == 0 {
      TakeNothing(ls, k, n);
    } else if ls != [] {
      if Open(ls[0], k) {
        TakeDequeuesOpen(ls, k, n);
      } else {
        TakeDequeues(ls[1..], k, n);
        assert Take(ls, k, n).layers[1..] == Take(ls[1..], k, n).layers;
      }
    }
  }

  lemma {:induction false} TakeDequeuesOpen(ls: seq<Layer>, k: Key, n: nat)
    requires ls != [] && Open(ls[0], k) && 0 < n
    ensures var t := Take(ls, k, n);
            && Units(ls, k) == DrawUnits(t.draws) + Units(t.layers, k)
            && |DrawUnits(t.draws)| == Min(n, |Units(ls, k)|)
            && t.left == n - |DrawUnits(t.draws)|
    decreases ls, 0
  {
    var l, q := ls[0], Min(ls[0].remainingQty, n);
    var u, s := Unit(l.id, l.unitCost), Take(ls[1..], k, n - q);
    TakeFromHead(ls, k, n);
    TakeDequeues(ls[1..], k, n - q);
    var p, h := Copies(u, q), Copies(u, l.remainingQty - q);
    CopiesAdd(u, q, l.remainingQty - q);
    Regroup(p, DrawUnits(s.draws), h, Units(s.layers, k));
  }

  lemma {:induction false} CopiesCost(u: Unit, n: nat)
    ensures SumOf(UnitCost(), Copies(u, n)) == n * u.cost
  {
    if n > 0 {
      assert Copies(u, n)[1..] == Copies(u, n - 1);
      CopiesCost(u, n - 1);
    }
  }

  lemma {:induction false} DrawsCost(ds: seq<Draw>)
    requires forall d <- ds :: 0 < d.quantity
    ensures SumOf(DrawCost(), ds) == SumOf(UnitCost(), DrawUnits(ds))
    ensures SumOf(DrawQty(), ds) == |DrawUnits(ds)|
  {
    if ds != [] {
      DrawsCost(ds[1..]);
      var head := Copies(Unit(ds[0].layerId, ds[0].unitCost), ds[0].quantity);
      CopiesCost(Unit(ds[0].layerId, ds[0].unitCost), ds[0].quantity);
      SumOfConcat(UnitCost(), head, DrawUnits(ds[1..]));
    }
  }

  lemma TakeDrawsCost(ls: seq<Layer>, k: Key, n: int)
    ensures var t := Take(ls, k, n);
            && SumOf(DrawCost(), t.draws) == SumOf(UnitCost(), DrawUnits(t.draws))
            && SumOf(DrawQty(), t.draws) == |DrawUnits(t.draws)|
  {
    TakeDraws(ls, k, n);
    DrawsCost(Take(ls, k, n).draws);
  }

  lemma TakeQuantity(ls: seq<Layer>, k: Key, n: nat)
    ensures SumOf(DrawQty(), Take(ls, k, n).draws) == Min(n, Total(ls, k))
  {
    TakeDrawsCost(ls, k, n);
    TakeDequeues(ls, k, n);
    UnitsLength(ls, k);
  }

  /** An issue removes exactly the first units of the queue and costs exactly their sum. */
  lemma TakeCostsItsUnits(ls: seq<Layer>, k: Key, n: nat)
    ensures SumOf(DrawCost(), Take(ls, k, n).draws)
         == SumOf(UnitCost(), Units(ls, k)[..Min(n, |Units(ls, k)|)])
    ensures DrawUnits(Take(ls, k, n).draws) == Units(ls, k)[..Min(n, |Units(ls, k)|)]
    ensures Units(Take(ls, k, n).layers, k) == Units(ls, k)[Min(n, |Units(ls, k)|)..]
  {
    TakeDrawsCost(ls, k, n);
    TakeDequeues(ls, k, n);
  }

  // ---------------------------------------------------------------- layer by layer

  /** `d` is written for an open layer of `k`, with that layer's cost. */
  ghost predicate DrawsOn(d: Draw, ls: seq<Layer>, k: Key) {
    0 < d.quantity && exists j :: 0 <= j < |ls| && Open(ls[j], k) && ls[j].id == d.layerId && ls[j].unitCost == d.unitCost
  }

  lemma DrawsOnWider(d: Draw, ls: seq<Layer>, k: Key)
    requires ls != [] && DrawsOn(d, ls[1..], k)
    ensures DrawsOn(d, ls, k)
  {
    var j :| 0 <= j < |ls[1..]| && Open(ls[1..][j], k) && ls[1..][j].id == d.layerId && ls[1..][j].unitCost == d.unitCost;
    assert ls[j + 1] == ls[1..][j];
  }

  lemma {:induction false} TakeDraws(ls: seq<Layer>, k: Key, n: int)
    ensures forall d <- Take(ls, k, n).draws :: DrawsOn(d, ls, k)
  {
    if ls != [] {
      var drew := n > 0 && Open(ls[0], k);
      var m := if drew then n - Min(ls[0].remainingQty, n) else n;
      TakeDraws(ls[1..], k, m);
      var t, r := Take(ls, k, n), Take(ls[1..], k, m);
      forall d <- t.draws
        ensures DrawsOn(d, ls, k)
      {
        if d in r.draws {
          DrawsOnWider(d, ls, k);
        } else {
          assert drew && d == t.draws[0];
          assert ls[0].id == d.layerId;
        }
      }
    }
  }

  predicate DistinctLayers(ds: seq<Draw>) {
    forall i, j :: 0 <= i < j < |ds| ==> ds[i].layerId != ds[j].layerId
  }

  /** No layer is drawn twice: the rows of one entry name pairwise distinct layers. */
  lemma {:induction false} TakeDrawsOnce(ls: seq<Layer>, k: Key, n: int)
    requires UniqueIds(ls)
    ensures DistinctLayers(Take(ls, k, n).draws)
  {
    if ls != [] {
      var drew := n > 0 && Open(ls[0], k);
      var m := if drew then n - Min(ls[0].remainingQty, n) else n;
      TakeDrawsOnce(ls[1..], k, m);
      TakeDraws(ls[1..], k, m);
      var r := Take(ls[1..], k, m).draws;
      forall j | 0 <= j < |r| ensures r[j].layerId != ls[0].id {
        assert r[j] in r && DrawsOn(r[j], ls[1..], k);
      }
    }
  }

  /** Each layer loses exactly what the rows say it lost, and nothing else about it changes. */
  lemma {:induction false} TakeLayers(ls: seq<Layer>, k: Key, n: int)
    requires UniqueIds(ls)
    ensures var t := Take(ls, k, n);
            && |t.layers| == |ls|
            && forall i :: 0 <= i < |ls| ==>
                 && t.layers[i] == ls[i].(remainingQty := ls[i].remainingQty - SumOf(DrawnFrom(ls[i].id), t.draws))
                 && (t.layers[i] == ls[i] || (Open(ls[i], k) && 0 <= t.layers[i].remainingQty < ls[i].remainingQty))
  {
    if ls != [] {
      var drew := n > 0 && Open(ls[0], k);
      var m := if drew then n - Min(ls[0].remainingQty, n) else n;
      var t, r := Take(ls, k, n), Take(ls[1..], k, m);
      TakeLayers(ls[1..], k, m);
      TakeDraws(ls[1..], k, m);
      if drew {
        assert t.draws[1..] == r.draws;
      }
      forall i | 0 <= i < |ls|
        ensures t.layers[i] == ls[i].(remainingQty := ls[i].remainingQty - SumOf(DrawnFrom(ls[i].id), t.draws))
        ensures t.layers[i] == ls[i] || (Open(ls[i], k) && 0 <= t.layers[i].remainingQty < ls[i].remainingQty)
      {
        if i == 0 {
          forall x | 0 <= x < |r.draws| ensures r.draws[x].layerId != ls[0].id {
            assert r.draws[x] in r.draws && DrawsOn(r.draws[x], ls[1..], k);
          }
          SumOfZero(DrawnFrom(ls[0].id), r.draws);
        } else {
          assert t.layers[i] == r.layers[i - 1];
        }
      }
    }
  }

  /** First in, first out: whatever stands before a touched layer of the key is exhausted. */
  lemma {:induction false} TakeOldestFirst(ls: seq<Layer>, k: Key, n: int, i: nat, j: nat)
    requires i < j < |ls| && Open(ls[i], k)
    requires |Take(ls, k, n).layers| == |ls|
    requires Take(ls, k, n).layers[j] != ls[j]
    ensures Take(ls, k, n).layers[i].remainingQty == 0
  {
    var drew := n > 0 && Open(ls[0], k);
    var m := if drew then n - Min(ls[0].remainingQty, n) else n;
    assert Take(ls, k, n).layers[1..] == Take(ls[1..], k, m).layers;
    if i > 0 {
      TakeOldestFirst(ls[1..], k, m, i - 1, j - 1);
    } else if m <= 0 {
      TakeNothing(ls[1..], k, m);
    }
  }

  /** Serving `a` units and then `b` from a queue serves what serving `a + b` does. */
  lemma QueueSplits(q: seq<Unit>, a: nat, b: nat, first: seq<Unit>, rest: seq<Unit>,
                    second: seq<Unit>, last: seq<Unit>, whole: seq<Unit>, end: seq<Unit>)
    requires q == first + rest && |first| == Min(a, |q|)
    requires rest == second + last && |second| == Min(b, |rest|)
    requires q == whole + end && |whole| == Min(a + b, |q|)
    ensures first + second == whole
  {
    assert first + (second + last) == (first + second) + last;
    assert ((first + second) + last)[..|first + second|] == first + second;
    assert (whole + end)[..|whole|] == whole;
  }

  lemma SplitCost(first: seq<Draw>, second: seq<Draw>, whole: seq<Draw>)
    requires forall d <- first :: 0 < d.quantity
    requires forall d <- second :: 0 < d.quantity
    requires forall d <- whole :: 0 < d.quantity
    requires DrawUnits(first) + DrawUnits(second) == DrawUnits(whole)
    ensures SumOf(DrawCost(), first) + SumOf(DrawCost(), second) == SumOf(DrawCost(), whole)
  {
    DrawsCost(first);
    DrawsCost(second);
    DrawsCost(whole);
    SumOfConcat(UnitCost(), DrawUnits(first), DrawUnits(second));
  }

  /** Taking `a` and then `b` is taking `a + b`: same layers, same units in the same order. */
  lemma TakeSplits(ls: seq<Layer>, k: Key, a: nat, b: nat, first: Taken, second: Taken, whole: Taken)
    requires first == Take(ls, k, a) && second == Take(first.layers, k, b) && whole == Take(ls, k, a + b)
    ensures second.layers == whole.layers
    ensures DrawUnits(first.draws) + DrawUnits(second.draws) == DrawUnits(whole.draws)
    ensures SumOf(DrawCost(), first.draws) + SumOf(DrawCost(), second.draws) == SumOf(DrawCost(), whole.draws)
  {
    TakeSplitsLayers(ls, k, a, b);
    assert DrawUnits(first.draws) + DrawUnits(second.draws) == DrawUnits(whole.draws) by {
      TakeDequeues(ls, k, a);
      TakeDequeues(first.layers, k, b);
      TakeDequeues(ls, k, a + b);
      QueueSplits(Units(ls, k), a, b, DrawUnits(first.draws), Units(first.layers, k),
                  DrawUnits(second.draws), Units(second.layers, k), DrawUnits(whole.draws), Units(whole.layers, k));
    }
    TakeDraws(ls, k, a);
    TakeDraws(first.layers, k, b);
    TakeDraws(ls, k, a + b);
    SplitCost(first.draws, second.draws, whole.draws);
  }

  lemma {:induction false} TakeSplitsLayers(ls: seq<Layer>, k: Key, a: nat, b: nat)
    ensures Take(Take(ls, k, a).layers, k, b).layers == Take(ls, k, a + b).layers
  {
    if a == 0 {
      TakeNothing(ls, k, 0);
    } else if ls != [] {
      var m := if Open(ls[0], k) then a - Min(ls[0].remainingQty, a) else a;
      assert Take(ls, k, a).layers[1..] == Take(ls[1..], k, m).layers;
      TakeSplitsLayers(ls[1..], k, m, b);
      if m == 0 {
        TakeNothing(ls[1..], k, 0);
      }
    }
  }

  // ---------------------------------------------------------------- the loop body

  lemma {:induction false} SelectFound(ls: seq<Layer>, k: Key)
    ensures forall i :: 0 <= i < |Select(ls, k)| ==>
              Open(Select(ls, k)[i], k) && exists j :: 0 <= j < |ls| && ls[j] == Select(ls, k)[i]
  {
    if ls != [] {
      SelectFound(ls[1..], k);
      var s, r := Select(ls, k), Select(ls[1..], k);
      forall i | 0 <= i < |s|
        ensures Open(s[i], k) && exists j :: 0 <= j < |ls| && ls[j] == s[i]
      {
        if Open(ls[0], k) && i == 0 {
          assert ls[0] == s[0];
        } else {
          var x := if Open(ls[0], k) then i - 1 else i;
          assert s[i] == r[x];
          var j :| 0 <= j < |ls[1..]| && ls[1..][j] == r[x];
          assert ls[j + 1] == s[i];
        }
      }
    }
  }

  /** The cursor holds exactly the open layers of the key, by received_at and then layer_id. */
  lemma {:induction false} SelectIsTheQuery(ls: seq<Layer>, k: Key)
    requires Sorted(ls)
    ensures Sorted(Select(ls, k))
    ensures forall l :: l in Select(ls, k) <==> l in ls && Open(l, k)
  {
    if ls != [] {
      SelectIsTheQuery(ls[1..], k);
      forall i | 0 <= i < |Select(ls[1..], k)| ensures Before(ls[0], Select(ls[1..], k)[i]) {
        assert Select(ls[1..], k)[i] in ls[1..];
      }
    }
  }

  lemma {:induction false} DeductAbsent(ls: seq<Layer>, id: nat, q: int)
    requires forall i :: 0 <= i < |ls| ==> ls[i].id != id
    ensures Deduct(ls, id, q) == ls
  {
    if ls != [] {
      DeductAbsent(ls[1..], id, q);
    }
  }

  /** Drawing `q` of `n` from `c` and then taking the rest is taking `n`. */
  ghost predicate DrawsFirst(ls: seq<Layer>, k: Key, n: int, c: Layer, q: int) {
    var after := Deduct(ls, c.id, q);
    var t, whole := Take(after, k, n - q), Take(ls, k, n);
    && t.layers == whole.layers
    && [Draw(c.id, q, c.unitCost)] + t.draws == whole.draws
    && t.left == whole.left
    && (n - q > 0 ==> Select(ls, k) == [c] + Select(after, k))
  }

  /** One iteration: drawing from the first selected row leaves the rest of the work unchanged. */
  lemma {:induction false} TakeStep(ls: seq<Layer>, k: Key, n: nat)
    requires 0 < n && UniqueIds(ls) && Select(ls, k) != []
    ensures var c := Select(ls, k)[0];
            var q := Min(c.remainingQty, n);
            0 < q <= n && UniqueIds(Deduct(ls, c.id, q)) && DrawsFirst(ls, k, n, c, q)
    decreases ls, 1
  {
    var c := Select(ls, k)[0];
    SelectFound(ls, k);
    DeductKeeps(ls, c.id, Min(c.remainingQty, n));
    if Open(ls[0], k) {
      StepAtHead(ls, k, n);
    } else {
      StepPastHead(ls, k, n);
    }
  }

  lemma StepAtHead(ls: seq<Layer>, k: Key, n: nat)
    requires 0 < n && UniqueIds(ls) && ls != [] && Open(ls[0], k)
    ensures DrawsFirst(ls, k, n, ls[0], Min(ls[0].remainingQty, n))
  {
    var c, rest := ls[0], ls[1..];
    var q := Min(c.remainingQty, n);
    DeductAbsent(rest, c.id, q);
    var after := Deduct(ls, c.id, q);
    assert after[0] == c.(remainingQty := c.remainingQty - q) && after[1..] == rest;
    if q == n {
      TakeNothing(rest, k, 0);
      TakeNothing(after, k, 0);
    }
  }

  lemma {:induction false} StepPastHead(ls: seq<Layer>, k: Key, n: nat)
    requires 0 < n && UniqueIds(ls) && ls != [] && !Open(ls[0], k) && Select(ls, k) != []
    ensures DrawsFirst(ls, k, n, Select(ls, k)[0], Min(Select(ls, k)[0].remainingQty, n))
    decreases ls, 0
  {
    var c, rest := Select(ls, k)[0], ls[1..];
    var q := Min(c.remainingQty, n);
    SelectFound(rest, k);
    var j :| 0 <= j < |rest| && rest[j] == c;
    assert ls[j + 1] == c;
    TakeStep(rest, k, n);
    var after := Deduct(ls, c.id, q);
    assert after[0] == ls[0] && after[1..] == Deduct(rest, c.id, q);
  }

  lemma {:induction false} DeductKeeps(ls: seq<Layer>, id: nat, q: int)
    ensures |Deduct(ls, id, q)| == |ls|
    ensures forall i :: 0 <= i < |ls| ==>
              Deduct(ls, id, q)[i]
              == if ls[i].id == id then ls[i].(remainingQty := ls[i].remainingQty - q) else ls[i]
  {
    if ls != [] {
      DeductKeeps(ls[1..], id, q);
    }
  }
}
