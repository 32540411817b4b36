/** Receipts and their layers over every run: dates, costs and the order of issue, and what is refused. */
module FifoReceipts {
  import opened Wrappers
  import opened Math
  import opened Sums
  import opened Fifo
  import opened FifoLedger
  import opened FifoRuns

  // ---------------------------------------------------------------- what one insert does to the ledger

  /** SUM(remaining_qty) over the layers of `k` that are not cancelled. */
  function StockOf(k: Key): Layer -> int {
    (l: Layer) => if l.key == k && !l.isCancelled then l.remainingQty else 0
  }

  /**
   An insert is accepted exactly when its id is new, its layer id is new if it receives, and the
   uncancelled layers of its key hold what it issues if it issues.
   */
  lemma AcceptedExactlyWhen(db: Db, c: Command)
    requires AllOk(db.layers)
    ensures var e := c.entry;
            Refusal(db, c).Accepted? <==>
              && (forall x <- db.entries :: x.id != e.id)
              && (!e.isCancelled && 0 < e.actualQty ==> forall l <- db.layers :: l.id != c.layerId)
              && (!e.isCancelled && e.actualQty < 0 ==> -e.actualQty <= SumOf(StockOf(e.key), db.layers))
    ensures Refusal(db, c).Short? ==>
              Refusal(db, c).units == -c.entry.actualQty - SumOf(StockOf(c.entry.key), db.layers) > 0
  {
    SumOfSame(OpenQty(c.entry.key), db.layers, StockOf(c.entry.key), db.layers);
    if HasEntry(db.entries, c.entry.id) {
      var i :| 0 <= i < |db.entries| && db.entries[i].id == c.entry.id;
      assert db.entries[i] in db.entries;
    }
    if HasLayer(db.layers, c.layerId) {
      var i :| 0 <= i < |db.layers| && db.layers[i].id == c.layerId;
      assert db.layers[i] in db.layers;
    }
  }

  /**
   An accepted entry goes to the end of the ledger; only the two booked columns of an issue are
   rewritten. Cancelled entries and entries of no quantity touch nothing else; refused ones nothing at all.
   */
  lemma StepAppendsEntry(db: Db, c: Command)
    ensures var e, after := c.entry, Step(db, c);
            && (!Refusal(db, c).Accepted? ==> after == db)
            && (Refusal(db, c).Accepted? ==>
                  && |after.entries| == |db.entries| + 1 && after.entries[..|db.entries|] == db.entries
                  && var x := after.entries[|db.entries|];
                     && x == e.(outgoingRate := x.outgoingRate, valueDifference := x.valueDifference)
                     && (e.isCancelled || 0 <= e.actualQty ==> x == e && after.consumptions == db.consumptions)
                     && (e.isCancelled || 0 == e.actualQty ==> after.layers == db.layers))
  {
  }

  /** What is booked for an issue: its rows' cost per unit and in all, rounded, halves up. */
  lemma BookedIsRounded(db: Db, e: Entry)
    requires Consistent(db) && e in db.entries && !e.isCancelled && e.actualQty < 0
    ensures var q, cost := -e.actualQty, SumOf(CostFor(e.id), db.consumptions);
            && 0 <= cost
            && -q < 2 * (q * e.outgoingRate) - 2 * cost <= q
            && -5000 < 10000 * -e.valueDifference - cost <= 5000
  {
    forall c <- db.consumptions ensures 0 < c.draw.quantity && 0 <= c.draw.unitCost {
      assert RowOk(c, db);
    }
    CostsAreNotNegative(db.consumptions, e.id);
  }

  lemma {:induction false} CostsAreNotNegative(cs: seq<Consumption>, id: nat)
    requires forall c <- cs :: 0 < c.draw.quantity && 0 <= c.draw.unitCost
    ensures 0 <= SumOf(CostFor(id), cs)
  {
    if cs != [] {
      CostsAreNotNegative(cs[1..], id);
      TimesMonotone(cs[0].draw.quantity, 0, cs[0].draw.unitCost);
    }
  }

  // ---------------------------------------------------------------- layers and their receipts

  /** `l` is the layer of the receipt `e`: its key, date, quantity and cost. */
  predicate LayerOf(l: Layer, e: Entry) {
    && l.source == Some(e.id) && !e.isCancelled && 0 < e.actualQty
    && l.key == e.key && l.receivedAt == e.postedAt && l.receivedQty == e.actualQty && !l.isCancelled
    && (0 < e.incomingRate ==> l.unitCost == e.incomingRate)
    && (e.incomingRate == 0 && 0 < e.valuationRate ==> l.unitCost == e.valuationRate)
    && (e.incomingRate < 0 || (e.incomingRate == 0 && e.valuationRate <= 0) ==> l.unitCost == 0)
  }

  predicate FromReceipt(l: Layer, es: seq<Entry>) {
    exists i :: 0 <= i < |es| && LayerOf(l, es[i])
  }

  predicate HasItsLayer(e: Entry, ls: seq<Layer>) {
    exists i :: 0 <= i < |ls| && LayerOf(ls[i], e)
  }

  /** Layers with a source and receipts belong to each other. */
  predicate ReceiptsOk(db: Db) {
    && (forall i :: 0 <= i < |db.layers| && db.layers[i].source.Some? ==> FromReceipt(db.layers[i], db.entries))
    && (forall i :: 0 <= i < |db.entries| && !db.entries[i].isCancelled && 0 < db.entries[i].actualQty
                    ==> HasItsLayer(db.entries[i], db.layers))
  }

  lemma LongerLedger(l: Layer, es: seq<Entry>, more: seq<Entry>)
    requires FromReceipt(l, es) && es <= more
    ensures FromReceipt(l, more)
  {
    var i :| 0 <= i < |es| && LayerOf(l, es[i]);
    assert LayerOf(l, more[i]);
  }

  /** A layer put in at `p` takes no other from its receipt, nor a receipt from any other. */
  lemma InsertedAt(ls: seq<Layer>, l: Layer, p: nat)
    requires p <= |ls|
    ensures var r := ls[..p] + [l] + ls[p..];
            && r[p] == l
            && (forall i :: 0 <= i < |ls| ==> r[if i < p then i else i + 1] == ls[i])
            && forall x <- r :: x == l || x in ls
  {
  }

  lemma ReceiptKeepsReceipts(db: Db, c: Command)
    requires ReceiptsOk(db) && Refusal(db, c).Accepted? && !c.entry.isCancelled && 0 < c.entry.actualQty
    ensures ReceiptsOk(Step(db, c))
  {
    var l, es := ReceiptLayer(c.entry, c.layerId), db.entries + [c.entry];
    var p, ls := Place(db.layers, l), Insert(db.layers, l);
    InsertedAt(db.layers, l, p);
    assert ls[p] == l && es[|db.entries|] == c.entry && LayerOf(l, c.entry);
    forall i | 0 <= i < |ls| && ls[i].source.Some? ensures FromReceipt(ls[i], es) {
      assert ls[i] in ls;
      if ls[i] != l {
        LongerLedger(ls[i], db.entries, es);
      }
    }
    forall i | 0 <= i < |es| && !es[i].isCancelled && 0 < es[i].actualQty ensures HasItsLayer(es[i], ls) {
      if i < |db.entries| {
        var j :| 0 <= j < |db.layers| && LayerOf(db.layers[j], db.entries[i]);
        assert LayerOf(ls[if j < p then j else j + 1], es[i]);
      }
    }
  }

  lemma SameLayersSameReceipts(before: seq<Layer>, after: seq<Layer>, es: seq<Entry>, e: Entry)
    requires SameButRemaining(before, after)
    requires ReceiptsOk(Db(before, [], es)) && (e.isCancelled || e.actualQty <= 0)
    ensures ReceiptsOk(Db(after, [], es + [e]))
  {
    var more := es + [e];
    forall i | 0 <= i < |after| && after[i].source.Some? ensures FromReceipt(after[i], more) {
      assert FromReceipt(before[i], es);
      var j :| 0 <= j < |es| && LayerOf(before[i], es[j]);
      assert LayerOf(after[i], more[j]);
    }
    forall i | 0 <= i < |more| && !more[i].isCancelled && 0 < more[i].actualQty ensures HasItsLayer(more[i], after) {
      assert HasItsLayer(es[i], before);
      var j :| 0 <= j < |before| && LayerOf(before[j], es[i]);
      assert LayerOf(after[j], more[i]);
    }
  }

  lemma IssueKeepsReceipts(db: Db, c: Command)
    requires UniqueIds(db.layers) && ReceiptsOk(db) && Refusal(db, c).Accepted? && !c.entry.isCancelled && c.entry.actualQty < 0
    ensures ReceiptsOk(Step(db, c))
  {
    IssueChangesRemaining(db.layers, c.entry.key, -c.entry.actualQty);
    StepAppendsEntry(db, c);
    SameLayersSameReceipts(db.layers, Step(db, c).layers, db.entries, Step(db, c).entries[|db.entries|]);
  }

  lemma StepKeepsReceipts(db: Db, c: Command)
    requires Consistent(db) && ReceiptsOk(db)
    ensures ReceiptsOk(Step(db, c))
  {
    if Refusal(db, c).Accepted? {
      if !c.entry.isCancelled && 0 < c.entry.actualQty {
        ReceiptKeepsReceipts(db, c);
      } else if !c.entry.isCancelled && c.entry.actualQty < 0 {
        IssueKeepsReceipts(db, c);
      } else {
        var after := Step(db, c);
        forall i | 0 <= i < |db.layers| && db.layers[i].source.Some? ensures FromReceipt(after.layers[i], after.entries) {
          LongerLedger(db.layers[i], db.entries, after.entries);
        }
      }
    }
  }

  /**
   After every run each layer with a source is the layer of a receipt in the ledger, with its key, posting
   time, quantity and cost, and each receipt in the ledger has such a layer.
   */
  lemma {:induction false} RunKeepsReceipts(db: Db, cs: seq<Command>)
    requires Consistent(db) && ReceiptsOk(db)
    ensures ReceiptsOk(Run(db, cs))
  {
    if cs != [] {
      var n := |cs| - 1;
      RunKeepsReceipts(db, cs[..n]);
      RunKeepsConsistent(db, cs[..n]);
      StepKeepsReceipts(Run(db, cs[..n]), cs[n]);
    }
  }

  /** A receipt posted after everything in stock puts its quantity, at its cost, at the back of its queue. */
  lemma ReceiptPostedLastGoesLast(db: Db, c: Command)
    requires Refusal(db, c).Accepted? && !c.entry.isCancelled && 0 < c.entry.actualQty
    requires forall i :: 0 <= i < |db.layers| ==> db.layers[i].receivedAt < c.entry.postedAt
    ensures var e := c.entry;
            Units(Step(db, c).layers, e.key)
            == Units(db.layers, e.key) + Copies(Unit(c.layerId, ReceiptCost(e)), e.actualQty)
  {
    ReceiptInOrderGoesLast(db.layers, ReceiptLayer(c.entry, c.layerId));
  }

  // ---------------------------------------------------------------- first posted, first issued

  lemma SourceIsItsReceipt(ls: seq<Layer>, es: seq<Entry>, i: nat, e: Entry)
    requires UniqueEntries(es) && e in es && i < |ls| && ls[i].source == Some(e.id)
    requires FromReceipt(ls[i], es)
    ensures LayerOf(ls[i], e)
  {
    var j :| 0 <= j < |es| && LayerOf(ls[i], es[j]);
    var k :| 0 <= k < |es| && es[k] == e;
    assert !(j < k) && !(k < j);
  }

  /** What an issue draws from is what loses stock. */
  lemma DrawnIsTouched(ls: seq<Layer>, k: Key, n: int, j: nat, d: Draw)
    requires UniqueIds(ls) && j < |ls| && d in Take(ls, k, n).draws && d.layerId == ls[j].id
    ensures |Take(ls, k, n).layers| == |ls| && Take(ls, k, n).layers[j] != ls[j]
  {
    TakeLayers(ls, k, n);
    TakeDraws(ls, k, n);
    PositiveSum(Take(ls, k, n).draws, d);
  }

  lemma {:induction false} PositiveSum(ds: seq<Draw>, d: Draw)
    requires d in ds && forall x <- ds :: 0 < x.quantity
    ensures 0 < SumOf(DrawnFrom(d.layerId), ds)
  {
    if ds[0] != d {
      PositiveSum(ds[1..], d);
    } else {
      NotNegative(ds[1..], d.layerId);
    }
  }

  lemma {:induction false} NotNegative(ds: seq<Draw>, id: nat)
    requires forall x <- ds :: 0 < x.quantity
    ensures 0 <= SumOf(DrawnFrom(id), ds)
  {
    if ds != [] {
      NotNegative(ds[1..], id);
    }
  }

  /** Nothing is left in the layer `id`, which is still there. */
  predicate Exhausted(ls: seq<Layer>, id: nat) {
    (exists l <- ls :: l.id == id) && forall l <- ls :: l.id == id ==> l.remainingQty == 0
  }

  lemma DrawExhaustsEarlier(ls: seq<Layer>, k: Key, n: int, i: nat, j: nat, d: Draw, whole: Taken)
    requires UniqueIds(ls) && AllOk(ls) && i < j < |ls| && whole == Take(ls, k, n)
    requires ls[i].key == k && !ls[i].isCancelled && d in whole.draws && d.layerId == ls[j].id
    ensures Exhausted(whole.layers, ls[i].id)
  {
    var t := whole.layers;
    DrawnIsTouched(ls, k, n, j, d);
    TakeLayers(ls, k, n);
    if 0 < ls[i].remainingQty {
      TakeOldestFirst(ls, k, n, i, j);
    }
    assert LayerOk(ls[i]) && t[i] in t && t[i].id == ls[i].id && t[i].remainingQty == 0;
    forall l <- t | l.id == ls[i].id ensures l.remainingQty == 0 {
      var m :| 0 <= m < |t| && t[m] == l;
      assert t[m].id == ls[m].id && !(m < i) && !(i < m);
    }
  }

  lemma BeforeStandsBefore(ls: seq<Layer>, i: nat, j: nat)
    requires Sorted(ls) && i < |ls| && j < |ls| && i != j
    ensures Fifo.Before(ls[i], ls[j]) ==> i < j
  {
  }

  /** `a` and `b` are the layers of `x` and `y`, and `x` was posted earlier, or at one time under a smaller layer id. */
  predicate Older(db: Db, x: Entry, y: Entry, a: Layer, b: Layer) {
    && x in db.entries && y in db.entries && a in db.layers && b in db.layers
    && a.source == Some(x.id) && b.source == Some(y.id)
    && (x.postedAt < y.postedAt || (x.postedAt == y.postedAt && a.id < b.id))
  }

  lemma OlderStandsBefore(db: Db, x: Entry, y: Entry, a: Layer, b: Layer) returns (i: nat, j: nat)
    requires UniqueEntries(db.entries) && Sorted(db.layers) && ReceiptsOk(db) && Older(db, x, y, a, b)
    ensures i < j < |db.layers| && db.layers[i] == a && db.layers[j] == b && a.key == x.key && !a.isCancelled
  {
    i :| 0 <= i < |db.layers| && db.layers[i] == a;
    j :| 0 <= j < |db.layers| && db.layers[j] == b;
    SourceIsItsReceipt(db.layers, db.entries, i, x);
    SourceIsItsReceipt(db.layers, db.entries, j, y);
    BeforeStandsBefore(db.layers, i, j);
  }

  lemma DrawExhaustsOlder(db: Db, x: Entry, y: Entry, a: Layer, b: Layer, d: Draw, whole: Taken)
    requires UniqueEntries(db.entries) && LayersOk(db.layers) && ReceiptsOk(db) && Older(db, x, y, a, b)
    requires IsTaken(db.layers, x.key, whole) && d in whole.draws && d.layerId == b.id
    ensures Exhausted(whole.layers, a.id)
  {
    var n :| whole == Take(db.layers, x.key, n);
    var i, j := OlderStandsBefore(db, x, y, a, b);
    DrawExhaustsEarlier(db.layers, x.key, n, i, j, d, whole);
  }

  /** `t` is what taking some quantity for `k` comes to. */
  ghost predicate IsTaken(ls: seq<Layer>, k: Key, t: Taken) {
    exists n :: t == Take(ls, k, n)
  }

  lemma RowIsNew(db: Db, c: Command, r: Consumption) returns (whole: Taken)
    requires Consistent(db) && Refusal(db, c).Accepted? && r in Step(db, c).consumptions && r.entryId == c.entry.id
    ensures IsTaken(db.layers, c.entry.key, whole) && whole.layers == Step(db, c).layers && r.draw in whole.draws
  {
    whole := Take(db.layers, c.entry.key, -c.entry.actualQty);
    forall q <- db.consumptions ensures q.entryId != c.entry.id {
      assert RowOk(q, db);
    }
  }

  /** The insert draws from `l`. */
  predicate DrawsFrom(db: Db, c: Command, l: Layer) {
    exists r <- Step(db, c).consumptions :: r.entryId == c.entry.id && r.draw.layerId == l.id
  }

  /**
   An accepted issue that draws from the layer of one receipt leaves nothing in the layer of any receipt of
   its key that was posted earlier.
   */
  lemma FirstPostedFirstIssued(db: Db, c: Command, x: Entry, y: Entry, a: Layer, b: Layer)
    requires Consistent(db) && ReceiptsOk(db) && Refusal(db, c).Accepted?
    requires Older(db, x, y, a, b) && x.key == c.entry.key && DrawsFrom(db, c, b)
    ensures Exhausted(Step(db, c).layers, a.id)
  {
    var r :| r in Step(db, c).consumptions && r.entryId == c.entry.id && r.draw.layerId == b.id;
    var whole := RowIsNew(db, c, r);
    DrawExhaustsOlder(db, x, y, a, b, r.draw, whole);
  }

  /** So over every run from an opening stock. */
  lemma RunIssuesInOrder(levels: seq<StockLevel>, ids: seq<nat>, now: int, cs: seq<Command>, db: Db, c: Command,
                         x: Entry, y: Entry, a: Layer, b: Layer)
    requires |ids| == |levels| && forall i, j :: 0 <= i < j < |ids| ==> ids[i] != ids[j]
    requires db == Run(Db(Seed(levels, ids, now), [], []), cs)
    requires Refusal(db, c).Accepted? && Older(db, x, y, a, b) && x.key == c.entry.key && DrawsFrom(db, c, b)
    ensures Exhausted(Step(db, c).layers, a.id)
  {
    var db0 := Db(Seed(levels, ids, now), [], []);
    SeedLayersOk(levels, ids, now);
    SeedHasNoSource(levels, ids, now);
    RunKeepsConsistent(db0, cs);
    RunKeepsReceipts(db0, cs);
    FirstPostedFirstIssued(db, c, x, y, a, b);
  }

  lemma SeedHasNoSource(levels: seq<StockLevel>, ids: seq<nat>, now: int)
    requires |ids| == |levels|
    ensures ReceiptsOk(Db(Seed(levels, ids, now), [], []))
  {
    var seeded := Seed(levels, ids, now);
    SeedIsOpeningStock(levels, ids, now);
    forall i | 0 <= i < |seeded| ensures seeded[i].source == None {
      assert seeded[i] in seeded && OpensOne(seeded[i], levels, ids, now);
    }
  }

  // ---------------------------------------------------------------- the opening stock

  /** `l` opens the stock of `s`: dated by its creation, or by `now` without one. */
  predicate Opens(l: Layer, s: StockLevel, id: nat, now: int) {
    && l.id == id && l.key == s.key && l.source == None && !l.isCancelled
    && l.receivedQty == l.remainingQty == s.currentQty
    && (if s.createdAt.Some? then l.receivedAt == s.createdAt.value else l.receivedAt == now)
    && (if 0 < s.valuationRate then l.unitCost == s.valuationRate else l.unitCost == 0)
  }

  predicate OpensOne(l: Layer, levels: seq<StockLevel>, ids: seq<nat>, now: int)
    requires |ids| == |levels|
  {
    exists i :: 0 <= i < |levels| && 0 < levels[i].currentQty && Opens(l, levels[i], ids[i], now)
  }

  /** The seeded layers are exactly those that open the positive stock levels. */
  lemma {:induction false} SeedIsOpeningStock(levels: seq<StockLevel>, ids: seq<nat>, now: int)
    requires |ids| == |levels|
    ensures forall l <- Seed(levels, ids, now) :: OpensOne(l, levels, ids, now)
    ensures forall i :: 0 <= i < |levels| && 0 < levels[i].currentQty ==>
              exists l <- Seed(levels, ids, now) :: Opens(l, levels[i], ids[i], now)
  {
    if levels != [] {
      var rest, own := Seed(levels[1..], ids[1..], now), OpeningLayer(levels[0], ids[0], now);
      var all := Seed(levels, ids, now);
      SeedIsOpeningStock(levels[1..], ids[1..], now);
      assert 0 < levels[0].currentQty ==> forall l :: l in all <==> l in rest || l == own;
      forall l <- all ensures OpensOne(l, levels, ids, now) {
        if 0 < levels[0].currentQty && l == own {
          assert Opens(l, levels[0], ids[0], now);
        } else {
          var i :| 0 <= i < |levels| - 1 && 0 < levels[1..][i].currentQty && Opens(l, levels[1..][i], ids[1..][i], now);
          assert levels[i + 1] == levels[1..][i] && ids[i + 1] == ids[1..][i];
        }
      }
      forall i | 0 <= i < |levels| && 0 < levels[i].currentQty ensures exists l <- all :: Opens(l, levels[i], ids[i], now) {
        if i == 0 {
          assert own in all && Opens(own, levels[0], ids[0], now);
        } else {
          var l :| l in rest && Opens(l, levels[1..][i - 1], ids[1..][i - 1], now);
          assert l in all;
        }
      }
    }
  }
}
