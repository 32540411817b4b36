/**
 The stock ledger with the trigger of alembic/versions/043_persist_stock_fifo_layers.py:
 every inserted entry either adds a cost layer, consumes layers, or is refused as a whole.
 */
module FifoLedger {
  import opened Wrappers
  import opened Math
  import opened Sums
  import opened Fifo

  datatype Entry = Entry(id: nat, key: Key, postedAt: int, actualQty: int,
                         incomingRate: int, outgoingRate: int, valuationRate: int,
                         valueDifference: int, isCancelled: bool)

  /** A row of stock_layer_consumptions. */
  datatype Consumption = Consumption(entryId: nat, draw: Draw)

  datatype Db = Db(layers: seq<Layer>, consumptions: seq<Consumption>, entries: seq<Entry>)

  datatype Outcome = Accepted | DuplicateEntry | DuplicateLayer | Short(units: int)

  /** An insert into the ledger, with the layer id the database generates for it. */
  datatype Command = Command(entry: Entry, layerId: nat)

  // ---------------------------------------------------------------- rounding

  /** round(a / b, 0): to the nearest integer, halves away from zero. */
  function RoundHalfAway(a: int, b: int): (r: int)
    requires 0 < b
    ensures -b <= 2 * (b * r) - 2 * a <= b
    ensures 0 <= a ==> 2 * a - 2 * (b * r) < b
    ensures a <= 0 ==> 2 * (b * r) - 2 * a < b
  {
    if a >= 0 then RoundUpHalf(a, b) else -RoundUpHalf(-a, b)
  }

  function RoundUpHalf(a: nat, b: int): (r: int)
    requires 0 < b
    ensures -b < 2 * (b * r) - 2 * a <= b
  {
    var q := a / b;
    assert a == b * q + a % b;
    assert b * (q + 1) == b * q + b;
    if 2 * (a % b) < b then q else q + 1
  }

  /** An amount in ticks of 1e-4, in ticks of 1e-8. */
  function Exact(amount: int): int {
    10000 * amount
  }

  /** round(total, 4) of an amount in ticks of 1e-8. */
  function RoundTotal(total: int): (r: int)
    ensures -5000 <= Exact(r) - total <= 5000
    ensures 0 <= total ==> total - Exact(r) < 5000
    ensures total <= 0 ==> Exact(r) - total < 5000
  {
    RoundHalfAway(total, 10000)
  }

  lemma TimesMonotone(q: int, x: int, y: int)
    requires 0 <= q && x <= y
    ensures q * x <= q * y
  {
  }

  lemma QuotientAtLeast(q: int, r: int, lo: int, total: int)
    requires 0 < q && q * lo <= total && -q <= 2 * (q * r) - 2 * total
    ensures lo <= r
  {
    assert q * (r + 1) == q * r + q;
    if r + 1 <= lo {
      TimesMonotone(q, r + 1, lo);
    }
  }

  lemma QuotientAtMost(q: int, r: int, hi: int, total: int)
    requires 0 < q && total <= q * hi && 2 * (q * r) - 2 * total <= q
    ensures r <= hi
  {
    assert q * (r - 1) == q * r - q;
    if hi <= r - 1 {
      TimesMonotone(q, hi, r - 1);
    }
  }

  lemma RateStaysWithin(total: int, qty: int, lo: int, hi: int)
    requires 0 < qty && qty * lo <= total <= qty * hi
    ensures lo <= RoundHalfAway(total, qty) <= hi
  {
    QuotientAtLeast(qty, RoundHalfAway(total, qty), lo, total);
    QuotientAtMost(qty, RoundHalfAway(total, qty), hi, total);
  }

  // ---------------------------------------------------------------- one insert

  /** GREATEST(COALESCE(NULLIF(incoming_rate, 0), valuation_rate), 0) */
  function ReceiptCost(e: Entry): (cost: int)
    ensures 0 <= cost
    ensures 0 < e.incomingRate ==> cost == e.incomingRate
    ensures e.incomingRate == 0 && 0 < e.valuationRate ==> cost == e.valuationRate
    ensures e.incomingRate == 0 && e.valuationRate <= 0 ==> cost == 0
    ensures e.incomingRate < 0 ==> cost == 0
  {
    Max(if e.incomingRate != 0 then e.incomingRate else e.valuationRate, 0)
  }

  function ReceiptLayer(e: Entry, layerId: nat): Layer {
    Layer(layerId, e.key, Some(e.id), e.postedAt, e.actualQty, e.actualQty, ReceiptCost(e), false)
  }

  predicate IsReceipt(e: Entry) { !e.isCancelled && e.actualQty > 0 }
  predicate IsIssue(e: Entry) { !e.isCancelled && e.actualQty < 0 }

  predicate HasEntry(es: seq<Entry>, id: nat) {
    exists i :: 0 <= i < |es| && es[i].id == id
  }

  predicate HasLayer(ls: seq<Layer>, id: nat) {
    exists i :: 0 <= i < |ls| && ls[i].id == id
  }

  /** Where the index keeps a new layer: before the first one it precedes. */
  function Place(ls: seq<Layer>, l: Layer): (p: nat)
    ensures p <= |ls|
    ensures forall i :: 0 <= i < p ==> !Before(l, ls[i])
    ensures p < |ls| ==> Before(l, ls[p])
  {
    if ls == [] || Before(l, ls[0]) then 0 else 1 + Place(ls[1..], l)
  }

  function Insert(ls: seq<Layer>, l: Layer): seq<Layer> {
    ls[..Place(ls, l)] + [l] + ls[Place(ls, l)..]
  }

  function Tag(id: nat, ds: seq<Draw>): seq<Consumption> {
    seq(|ds|, i requires 0 <= i < |ds| => Consumption(id, ds[i]))
  }

  /** The entry as the trigger rewrites it after an issue that cost `total`. */
  function Booked(e: Entry, total: int): Entry
    requires e.actualQty < 0
  {
    e.(outgoingRate := RoundHalfAway(total, -e.actualQty), valueDifference := -RoundTotal(total))
  }

  function Refusal(db: Db, c: Command): Outcome {
    var e := c.entry;
    if HasEntry(db.entries, e.id) then DuplicateEntry
    else if IsReceipt(e) && HasLayer(db.layers, c.layerId) then DuplicateLayer
    else if IsIssue(e) && Total(db.layers, e.key) < -e.actualQty then Short(-e.actualQty - Total(db.layers, e.key))
    else Accepted
  }

  /** The database after a command that is not refused. */
  function Post(db: Db, c: Command): Db {
    var e := c.entry;
    if IsReceipt(e) then
      Db(Insert(db.layers, ReceiptLayer(e, c.layerId)), db.consumptions, db.entries + [e])
    else if IsIssue(e) then
      var t := Take(db.layers, e.key, -e.actualQty);
      Db(t.layers, db.consumptions + Tag(e.id, t.draws), db.entries + [Booked(e, SumOf(DrawCost(), t.draws))])
    else
      db.(entries := db.entries + [e])
  }

  function Step(db: Db, c: Command): Db {
    if Refusal(db, c).Accepted? then Post(db, c) else db
  }

  function Run(db: Db, cs: seq<Command>): Db {
    if cs == [] then db else Step(Run(db, cs[..|cs| - 1]), cs[|cs| - 1])
  }

  /** UPDATE stock_ledger_entries SET outgoing_rate, stock_value_difference WHERE entry_id = id */
  function Rebook(es: seq<Entry>, id: nat, rate: int, difference: int): seq<Entry> {
    seq(|es|, i requires 0 <= i < |es| =>
      if es[i].id == id then es[i].(outgoingRate := rate, valueDifference := difference) else es[i])
  }

  class StockDatabase {
    var layers: seq<Layer>
    var consumptions: seq<Consumption>
    var entries: seq<Entry>

    ghost function State(): Db
      reads this
    {
      Db(layers, consumptions, entries)
    }

    constructor (opening: seq<Layer>)
      ensures State() == Db(opening, [], [])
    {
      layers, consumptions, entries := opening, [], [];
    }

    /** INSERT INTO stock_ledger_entries; a raised exception rolls the whole insert back. */
    method InsertEntry(e: Entry, layerId: nat) returns (outcome: Outcome)
      requires UniqueIds(layers)
      modifies this
      ensures outcome == Refusal(old(State()), Command(e, layerId))
      ensures State() == Step(old(State()), Command(e, layerId))
    {
      if HasEntry(entries, e.id) {
        return DuplicateEntry;
      }
      var savedLayers, savedConsumptions, savedEntries := layers, consumptions, entries;
      entries := entries + [e];
      outcome := ApplyFifoLayer(e, layerId, Db(savedLayers, savedConsumptions, savedEntries));
      if !outcome.Accepted? {
        layers, consumptions, entries := savedLayers, savedConsumptions, savedEntries;
      }
    }

    /** The trigger erp_apply_stock_fifo_layer, run after the row `e` went in. */
    method ApplyFifoLayer(e: Entry, layerId: nat, ghost before: Db) returns (outcome: Outcome)
      requires UniqueIds(layers) && State() == before.(entries := before.entries + [e])
      requires !HasEntry(before.entries, e.id)
      modifies this
      ensures outcome == Refusal(before, Command(e, layerId))
      ensures outcome.Accepted? ==> State() == Post(before, Command(e, layerId))
    {
      if e.isCancelled {
        return Accepted;
      }
      if e.actualQty > 0 {
        if HasLayer(layers, layerId) {
          return DuplicateLayer;
        }
        layers := Insert(layers, ReceiptLayer(e, layerId));
      } else if e.actualQty < 0 {
        var shortage := IssueFifo(e, before.entries);
        if shortage > 0 {
          return Short(shortage);
        }
      }
      return Accepted;
    }

    /** The issue branch of the trigger; a positive result is the shortage it raises. */
    method IssueFifo(e: Entry, ghost others: seq<Entry>) returns (shortage: int)
      requires UniqueIds(layers) && e.actualQty < 0
      requires entries == others + [e] && !HasEntry(others, e.id)
      modifies this
      ensures shortage == Max(0, -e.actualQty - Total(old(layers), e.key))
      ensures var t := Take(old(layers), e.key, -e.actualQty);
              shortage <= 0 ==>
                && layers == t.layers
                && consumptions == old(consumptions) + Tag(e.id, t.draws)
                && entries == others + [Booked(e, SumOf(DrawCost(), t.draws))]
    {
      TakeFallsShort(layers, e.key, -e.actualQty);
      var qtyLeft, totalCost := ConsumeLayers(e);
      if qtyLeft > 0 {
        return qtyLeft;
      }
      var rate, difference := RoundHalfAway(totalCost, -e.actualQty), -RoundTotal(totalCost);
      RebookLast(others, e, rate, difference);
      entries := Rebook(entries, e.id, rate, difference);
      return 0;
    }

    /** The loop of the trigger: the selected layers one by one until nothing is left to take. */
    method ConsumeLayers(e: Entry) returns (qtyLeft: int, totalCost: int)
      requires UniqueIds(layers) && e.actualQty < 0
      modifies this`layers, this`consumptions
      ensures var t := Take(old(layers), e.key, -e.actualQty);
              && layers == t.layers
              && consumptions == old(consumptions) + Tag(e.id, t.draws)
              && qtyLeft == t.left
              && totalCost == SumOf(DrawCost(), t.draws)
    {
      qtyLeft, totalCost := -e.actualQty, 0;
      ghost var whole, ds := Take(layers, e.key, qtyLeft), [];
      var cursor := Select(layers, e.key);
      var i := 0;
      while i < |cursor| && qtyLeft > 0
        invariant 0 <= i <= |cursor| && 0 <= qtyLeft && UniqueIds(layers)
        invariant qtyLeft > 0 ==> Select(layers, e.key) == cursor[i..]
        invariant Ahead(Take(layers, e.key, qtyLeft), ds, whole)
        invariant consumptions == old(consumptions) + Tag(e.id, ds)
        invariant totalCost == SumOf(DrawCost(), ds)
      {
        var layer := cursor[i];
        var taken := Min(layer.remainingQty, qtyLeft);
        ghost var d := Draw(layer.id, taken, layer.unitCost);
        AheadStep(layers, e.key, qtyLeft, ds, whole);
        RowsGrow(old(consumptions), e.id, ds, d);
        layers := Deduct(layers, layer.id, taken);
        consumptions := consumptions + [Consumption(e.id, Draw(layer.id, taken, layer.unitCost))];
        totalCost := totalCost + taken * layer.unitCost;
        qtyLeft := qtyLeft - taken;
        ds := ds + [d];
        i := i + 1;
      }
      AheadDone(layers, e.key, qtyLeft, ds, whole);
    }
  }

  /** What an issue leaves to be taken is what its key lacks. */
  lemma TakeFallsShort(ls: seq<Layer>, k: Key, n: nat)
    ensures Take(ls, k, n).left == Max(0, n - Total(ls, k))
  {
    TakeDequeues(ls, k, n);
    UnitsLength(ls, k);
  }

  lemma RowsGrow(rows: seq<Consumption>, id: nat, ds: seq<Draw>, d: Draw)
    ensures rows + Tag(id, ds + [d]) == (rows + Tag(id, ds)) + [Consumption(id, d)]
    ensures SumOf(DrawCost(), ds + [d]) == SumOf(DrawCost(), ds) + d.quantity * d.unitCost
  {
    SumOfLast(DrawCost(), ds, d);
    assert Tag(id, ds + [d]) == Tag(id, ds) + [Consumption(id, d)];
  }

  /** After the draws `ds`, what remains to be done completes `whole`. */
  ghost predicate Ahead(rest: Taken, ds: seq<Draw>, whole: Taken) {
    rest.layers == whole.layers && ds + rest.draws == whole.draws && rest.left == whole.left
  }

  lemma AheadDone(ls: seq<Layer>, k: Key, n: int, ds: seq<Draw>, whole: Taken)
    requires Ahead(Take(ls, k, n), ds, whole) && (n <= 0 || Select(ls, k) == [])
    ensures whole == Taken(ls, ds, n)
  {
    TakeNothing(ls, k, n);
    assert ds + [] == ds;
  }

  lemma AheadStep(ls: seq<Layer>, k: Key, n: nat, ds: seq<Draw>, whole: Taken)
    requires 0 < n && UniqueIds(ls) && Select(ls, k) != []
    requires Ahead(Take(ls, k, n), ds, whole)
    ensures var c := Select(ls, k)[0];
            var q := Min(c.remainingQty, n);
            var after := Deduct(ls, c.id, q);
            && 0 < q <= n && UniqueIds(after)
            && Ahead(Take(after, k, n - q), ds + [Draw(c.id, q, c.unitCost)], whole)
            && (n - q > 0 ==> Select(after, k) == Select(ls, k)[1..])
  {
    TakeStep(ls, k, n);
    var c := Select(ls, k)[0];
    var q := Min(c.remainingQty, n);
    var later := Take(Deduct(ls, c.id, q), k, n - q).draws;
    assert ds + ([Draw(c.id, q, c.unitCost)] + later) == (ds + [Draw(c.id, q, c.unitCost)]) + later;
  }

  lemma RebookLast(es: seq<Entry>, e: Entry, rate: int, difference: int)
    requires !HasEntry(es, e.id)
    ensures Rebook(es + [e], e.id, rate, difference)
         == es + [e.(outgoingRate := rate, valueDifference := difference)]
  {
  }
}
