/** What every run of ledger inserts keeps: lineage, stock and value. */
module FifoRuns {
  import opened Wrappers
  import opened Math
  import opened Sums
  import opened Fifo
  import opened FifoLedger

  // ---------------------------------------------------------------- measures

  function FromLayer(id: nat): Consumption -> int {
    (c: Consumption) => if c.draw.layerId == id then c.draw.quantity else 0
  }

  function ForEntry(id: nat): Consumption -> int {
    (c: Consumption) => if c.entryId == id then c.draw.quantity else 0
  }

  function CostFor(id: nat): Consumption -> int {
    (c: Consumption) => if c.entryId == id then c.draw.quantity * c.draw.unitCost else 0
  }

  function ConsumedCost(): Consumption -> int {
    (c: Consumption) => c.draw.quantity * c.draw.unitCost
  }

  function IssuedQty(e: Entry): int {
    if IsIssue(e) then -e.actualQty else 0
  }

  /** The quantity an entry moves for `k`. */
  function Moved(k: Key): Entry -> int {
    (e: Entry) => if e.key == k && !e.isCancelled then e.actualQty else 0
  }

  function ReceivedValue(): Entry -> int {
    (e: Entry) => if IsReceipt(e) then e.actualQty * ReceiptCost(e) else 0
  }

  function BookedValue(): Entry -> int {
    (e: Entry) => if IsIssue(e) then e.valueDifference else 0
  }

  function IssueCount(): Entry -> int {
    (e: Entry) => if IsIssue(e) then 1 else 0
  }

  // ---------------------------------------------------------------- the invariant

  predicate LayersOk(ls: seq<Layer>) {
    AllOk(ls) && UniqueIds(ls) && Sorted(ls)
  }

  predicate UniqueEntries(es: seq<Entry>) {
    forall i, j :: 0 <= i < j < |es| ==> es[i].id != es[j].id
  }

  /** The unique index over (outgoing_entry_id, layer_id). */
  predicate UniquePairs(cs: seq<Consumption>) {
    forall i, j :: 0 <= i < j < |cs| ==> cs[i].entryId != cs[j].entryId || cs[i].draw.layerId != cs[j].draw.layerId
  }

  /** Every row takes something from a layer of its entry's key, at that layer's cost. */
  ghost predicate RowOk(c: Consumption, db: Db) {
    && 0 < c.draw.quantity
    && exists l, e :: l in db.layers && e in db.entries && l.id == c.draw.layerId && e.id == c.entryId
                   && l.unitCost == c.draw.unitCost && l.key == e.key && !l.isCancelled && IsIssue(e)
  }

  /** Per layer, received - remaining is what its consumption rows took. */
  predicate LayerLineage(db: Db) {
    forall l <- db.layers :: l.receivedQty - l.remainingQty == SumOf(FromLayer(l.id), db.consumptions)
  }

  /** Per entry, the consumption rows sum to the issued quantity, and cost what was booked. */
  predicate EntryLineage(db: Db) {
    forall e <- db.entries ::
      && SumOf(ForEntry(e.id), db.consumptions) == IssuedQty(e)
      && (IsIssue(e) ==> e == Booked(e, SumOf(CostFor(e.id), db.consumptions)))
  }

  ghost predicate Consistent(db: Db) {
    && LayersOk(db.layers)
    && UniqueEntries(db.entries)
    && UniquePairs(db.consumptions)
    && (forall c <- db.consumptions :: RowOk(c, db))
    && LayerLineage(db)
    && EntryLineage(db)
  }

  // ---------------------------------------------------------------- receipts

  lemma InsertKeepsLayersOk(ls: seq<Layer>, l: Layer)
    requires LayersOk(ls) && LayerOk(l) && !HasLayer(ls, l.id)
    ensures LayersOk(Insert(ls, l))
  {
    var p := Place(ls, l);
    forall i | 0 <= i < |ls| ensures ls[i].id != l.id {
    }
    forall i | 0 <= i < p ensures Before(ls[i], l) {
      assert !Before(l, ls[i]);
    }
    forall i | p <= i < |ls| ensures Before(l, ls[i]) {
      assert Before(l, ls[p]);
    }
  }

  lemma {:induction false} UnitsConcat(a: seq<Layer>, b: seq<Layer>, k: Key)
    ensures Units(a + b, k) == Units(a, k) + Units(b, k)
  {
    if a == [] {
      assert a + b == b;
    } else {
      UnitsConcat(a[1..], b, k);
      var h, t := UnitsOf(a[0], k), Units(a[1..], k);
      assert (a + b)[1..] == a[1..] + b && (a + b)[0] == a[0];
      assert h + (t + Units(b, k)) == (h + t) + Units(b, k);
    }
  }

  /**
   A receipt puts its units behind those of every layer dated before it and ahead of those dated
   after it.
   */
  lemma ReceiptEnqueues(ls: seq<Layer>, l: Layer, k: Key)
    ensures var p := Place(ls, l);
            && Units(ls, k) == Units(ls[..p], k) + Units(ls[p..], k)
            && Units(Insert(ls, l), k) == Units(ls[..p], k) + (UnitsOf(l, k) + Units(ls[p..], k))
  {
    var p := Place(ls, l);
    UnitsSplitAt(ls, p, l, k);
  }

  lemma UnitsSplitAt(ls: seq<Layer>, p: nat, l: Layer, k: Key)
    requires p <= |ls|
    ensures Units(ls, k) == Units(ls[..p], k) + Units(ls[p..], k)
    ensures Units(ls[..p] + [l] + ls[p..], k) == Units(ls[..p], k) + (UnitsOf(l, k) + Units(ls[p..], k))
  {
    UnitsConcat(ls[..p], ls[p..], k);
    assert ls[..p] + ls[p..] == ls;
    var tail := [l] + ls[p..];
    UnitsConcat(ls[..p], tail, k);
    assert ls[..p] + tail == ls[..p] + [l] + ls[p..];
    assert tail[0] == l && tail[1..] == ls[p..];
  }

  lemma OrderAround(ls: seq<Layer>, l: Layer, p: nat, i: nat)
    requires Sorted(ls) && i < |ls| && p <= |ls|
    requires forall j :: 0 <= j < p ==> !Before(l, ls[j])
    requires p < |ls| ==> Before(l, ls[p])
    ensures i < p <==> !Before(l, ls[i])
  {
    if p < i {
      assert Before(ls[p], ls[i]);
    }
  }

  /** The index keeps a new layer behind exactly the layers that do not come after it. */
  lemma PlaceIsByDate(ls: seq<Layer>, l: Layer, i: nat)
    requires Sorted(ls) && i < |ls|
    ensures i < Place(ls, l) <==> !Before(l, ls[i])
  {
    OrderAround(ls, l, Place(ls, l), i);
  }

  /** No unit of any other key moves. */
  lemma ReceiptLeavesOtherKeys(ls: seq<Layer>, l: Layer, other: Key)
    requires l.key != other
    ensures Units(Insert(ls, l), other) == Units(ls, other)
  {
    ReceiptEnqueues(ls, l, other);
  }

  /** A receipt dated after every layer goes to the back of the queue. */
  lemma ReceiptInOrderGoesLast(ls: seq<Layer>, l: Layer)
    requires LayerOk(l) && !l.isCancelled && l.remainingQty == l.receivedQty
    requires forall i :: 0 <= i < |ls| ==> Before(ls[i], l)
    ensures Units(Insert(ls, l), l.key) == Units(ls, l.key) + Copies(Unit(l.id, l.unitCost), l.receivedQty)
  {
    ReceiptEnqueues(ls, l, l.key);
    var p := Place(ls, l);
    assert p < |ls| ==> Before(ls[p], l);
    assert ls[p..] == [];
  }

  lemma InsertSums(f: Layer -> int, ls: seq<Layer>, l: Layer)
    ensures SumOf(f, Insert(ls, l)) == SumOf(f, ls) + f(l)
  {
    var p := Place(ls, l);
    SumOfConcat(f, ls[..p] + [l], ls[p..]);
    SumOfLast(f, ls[..p], l);
    SumOfConcat(f, ls[..p], ls[p..]);
    assert ls[..p] + ls[p..] == ls;
  }

  // ---------------------------------------------------------------- issues

  /** A measure over the rows an entry adds is one over its draws. */
  lemma TagAfter(cs: seq<Consumption>, id: nat, ds: seq<Draw>, f: Consumption -> int, g: Draw -> int)
    requires forall d :: f(Consumption(id, d)) == g(d)
    ensures SumOf(f, cs + Tag(id, ds)) == SumOf(f, cs) + SumOf(g, ds)
  {
    SumOfConcat(f, cs, Tag(id, ds));
    SumOfSame(f, Tag(id, ds), g, ds);
  }

  /** Rows of one entry leave the sums of another alone. */
  lemma TagOtherEntry(cs: seq<Consumption>, id: nat, ds: seq<Draw>, other: nat)
    requires other != id
    ensures SumOf(ForEntry(other), cs + Tag(id, ds)) == SumOf(ForEntry(other), cs)
    ensures SumOf(CostFor(other), cs + Tag(id, ds)) == SumOf(CostFor(other), cs)
  {
    SumOfConcat(ForEntry(other), cs, Tag(id, ds));
    SumOfConcat(CostFor(other), cs, Tag(id, ds));
    SumOfZero(ForEntry(other), Tag(id, ds));
    SumOfZero(CostFor(other), Tag(id, ds));
  }

  /** An issue for one key leaves the queue of every other key alone. */
  lemma {:induction false} TakeOtherKeys(ls: seq<Layer>, k: Key, n: int, other: Key)
    requires other != k
    ensures Units(Take(ls, k, n).layers, other) == Units(ls, other)
  {
    if ls != [] {
      var m := if n > 0 && Open(ls[0], k) then n - Min(ls[0].remainingQty, n) else n;
      assert Take(ls, k, n).layers[1..] == Take(ls[1..], k, m).layers;
      TakeOtherKeys(ls[1..], k, m, other);
    }
  }

  /** The value of the layers falls by exactly the cost of what was drawn. */
  lemma {:induction false} TakeConservesValue(ls: seq<Layer>, k: Key, n: int)
    ensures SumOf(LayerValue(), Take(ls, k, n).layers) + SumOf(DrawCost(), Take(ls, k, n).draws)
         == SumOf(LayerValue(), ls)
  {
    if ls != [] {
      var drew := n > 0 && Open(ls[0], k);
      var m := if drew then n - Min(ls[0].remainingQty, n) else n;
      var t, r := Take(ls, k, n), Take(ls[1..], k, m);
      TakeConservesValue(ls[1..], k, m);
      assert t.layers[1..] == r.layers;
      if drew {
        assert t.draws[1..] == r.draws;
        var q, l := Min(ls[0].remainingQty, n), ls[0];
        assert (l.remainingQty - q) * l.unitCost == l.remainingQty * l.unitCost - q * l.unitCost;
      }
    }
  }

  lemma TakeKeepsLayersOk(ls: seq<Layer>, k: Key, n: int)
    requires LayersOk(ls)
    ensures LayersOk(Take(ls, k, n).layers)
  {
    TakeLayers(ls, k, n);
    var t := Take(ls, k, n).layers;
    forall i | 0 <= i < |t| ensures LayerOk(t[i]) && t[i].id == ls[i].id && t[i].receivedAt == ls[i].receivedAt {
      assert LayerOk(ls[i]);
    }
    forall i, j | 0 <= i < j < |t| ensures Before(t[i], t[j]) {
      assert Before(ls[i], ls[j]);
    }
  }

  // ---------------------------------------------------------------- one step keeps the invariant

  lemma NoRowsYet(db: Db, id: nat)
    requires Consistent(db) && !HasEntry(db.entries, id)
    ensures SumOf(ForEntry(id), db.consumptions) == 0 && SumOf(CostFor(id), db.consumptions) == 0
  {
    forall c <- db.consumptions ensures c.entryId != id {
      assert RowOk(c, db);
    }
    SumOfZero(ForEntry(id), db.consumptions);
    SumOfZero(CostFor(id), db.consumptions);
  }

  lemma PlainKeeps(db: Db, c: Command)
    requires Consistent(db) && Refusal(db, c).Accepted?
    requires !IsReceipt(c.entry) && !IsIssue(c.entry)
    ensures Consistent(Post(db, c))
  {
    var after := Post(db, c);
    NoRowsYet(db, c.entry.id);
    forall r <- after.consumptions ensures RowOk(r, after) {
      assert RowOk(r, db);
    }
  }

  lemma ReceiptKeeps(db: Db, c: Command)
    requires Consistent(db) && Refusal(db, c).Accepted? && IsReceipt(c.entry)
    ensures Consistent(Post(db, c))
  {
    var after, l := Post(db, c), ReceiptLayer(c.entry, c.layerId);
    InsertKeepsLayersOk(db.layers, l);
    NoRowsYet(db, c.entry.id);
    assert forall x :: x in after.layers <==> x in db.layers || x == l;
    forall r <- after.consumptions ensures RowOk(r, after) && r.draw.layerId != c.layerId {
      assert RowOk(r, db);
    }
    SumOfZero(FromLayer(c.layerId), db.consumptions);
  }

  lemma IssueKeeps(db: Db, c: Command)
    requires Consistent(db) && Refusal(db, c).Accepted? && IsIssue(c.entry)
    ensures Consistent(Post(db, c))
  {
    TakeKeepsLayersOk(db.layers, c.entry.key, -c.entry.actualQty);
    IssueRowsOk(db, c);
    IssuePairs(db, c);
    IssueLayerLineage(db, c);
    IssueEntryLineage(db, c);
  }

  lemma OldRowStaysOk(r: Consumption, db: Db, after: Db)
    requires RowOk(r, db)
    requires SameButRemaining(db.layers, after.layers)
    requires forall x <- db.entries :: x in after.entries
    ensures RowOk(r, after)
  {
    var l, x :| l in db.layers && x in db.entries && l.id == r.draw.layerId && x.id == r.entryId
             && l.unitCost == r.draw.unitCost && l.key == x.key && !l.isCancelled && IsIssue(x);
    var i :| 0 <= i < |db.layers| && db.layers[i] == l;
    assert after.layers[i] in after.layers && x in after.entries;
  }

  lemma NewRowIsOk(d: Draw, ls: seq<Layer>, e: Entry, after: Db)
    requires DrawsOn(d, ls, e.key) && e in after.entries && IsIssue(e)
    requires SameButRemaining(ls, after.layers)
    ensures RowOk(Consumption(e.id, d), after)
  {
    var j :| 0 <= j < |ls| && Open(ls[j], e.key) && ls[j].id == d.layerId && ls[j].unitCost == d.unitCost;
    assert after.layers[j] in after.layers;
  }

  /** Only remaining quantities differ between `before` and `after`. */
  predicate SameButRemaining(before: seq<Layer>, after: seq<Layer>) {
    |after| == |before| && forall i :: 0 <= i < |before| ==> after[i] == before[i].(remainingQty := after[i].remainingQty)
  }

  lemma IssueChangesRemaining(ls: seq<Layer>, k: Key, n: int)
    requires UniqueIds(ls)
    ensures SameButRemaining(ls, Take(ls, k, n).layers)
  {
    TakeLayers(ls, k, n);
  }

  lemma IssueRowsOk(db: Db, c: Command)
    requires Consistent(db) && Refusal(db, c).Accepted? && IsIssue(c.entry)
    ensures forall r <- Post(db, c).consumptions :: RowOk(r, Post(db, c))
  {
    var after, e := Post(db, c), c.entry;
    var draws := Take(db.layers, e.key, -e.actualQty).draws;
    var booked := Booked(e, SumOf(DrawCost(), draws));
    IssueChangesRemaining(db.layers, e.key, -e.actualQty);
    TakeDraws(db.layers, e.key, -e.actualQty);
    assert after.entries[|db.entries|] == booked;
    forall r <- after.consumptions ensures RowOk(r, after) {
      if r in db.consumptions {
        OldRowStaysOk(r, db, after);
      } else {
        assert r.draw in draws && r.entryId == booked.id;
        NewRowIsOk(r.draw, db.layers, booked, after);
      }
    }
  }

  lemma PairsStayUnique(cs: seq<Consumption>, id: nat, ds: seq<Draw>)
    requires UniquePairs(cs) && DistinctLayers(ds)
    requires forall r <- cs :: r.entryId != id
    ensures UniquePairs(cs + Tag(id, ds))
  {
  }

  lemma IssuePairs(db: Db, c: Command)
    requires Consistent(db) && Refusal(db, c).Accepted? && IsIssue(c.entry)
    ensures UniquePairs(Post(db, c).consumptions)
  {
    var e := c.entry;
    TakeDrawsOnce(db.layers, e.key, -e.actualQty);
    forall r <- db.consumptions ensures r.entryId != e.id {
      assert RowOk(r, db);
    }
    PairsStayUnique(db.consumptions, e.id, Take(db.layers, e.key, -e.actualQty).draws);
  }

  lemma IssueLayerLineage(db: Db, c: Command)
    requires Consistent(db) && Refusal(db, c).Accepted? && IsIssue(c.entry)
    ensures LayerLineage(Post(db, c))
  {
    var after, e := Post(db, c), c.entry;
    var t := Take(db.layers, e.key, -e.actualQty);
    assert after.layers == t.layers && after.consumptions == db.consumptions + Tag(e.id, t.draws);
    TakeLayers(db.layers, e.key, -e.actualQty);
    forall l <- t.layers
      ensures l.receivedQty - l.remainingQty == SumOf(FromLayer(l.id), db.consumptions + Tag(e.id, t.draws))
    {
      var i :| 0 <= i < |t.layers| && t.layers[i] == l;
      assert db.layers[i] in db.layers;
      TagAfter(db.consumptions, e.id, t.draws, FromLayer(l.id), DrawnFrom(l.id));
    }
  }

  lemma IssueEntryLineage(db: Db, c: Command)
    requires Consistent(db) && Refusal(db, c).Accepted? && IsIssue(c.entry)
    ensures UniqueEntries(Post(db, c).entries) && EntryLineage(Post(db, c))
  {
    var after, e := Post(db, c), c.entry;
    var ds := Take(db.layers, e.key, -e.actualQty).draws;
    IssueOwnRows(db, e);
    forall x <- db.entries
      ensures x.id != e.id
      ensures SumOf(ForEntry(x.id), after.consumptions) == SumOf(ForEntry(x.id), db.consumptions)
      ensures SumOf(CostFor(x.id), after.consumptions) == SumOf(CostFor(x.id), db.consumptions)
    {
      var i :| 0 <= i < |db.entries| && db.entries[i] == x;
      TagOtherEntry(db.consumptions, e.id, ds, x.id);
    }
    EntryIsNew(db.entries, Booked(e, SumOf(DrawCost(), ds)));
  }

  lemma EntryIsNew(es: seq<Entry>, e: Entry)
    requires UniqueEntries(es) && forall x <- es :: x.id != e.id
    ensures UniqueEntries(es + [e])
  {
  }

  lemma IssueOwnRows(db: Db, e: Entry)
    requires Consistent(db) && !HasEntry(db.entries, e.id) && IsIssue(e) && -e.actualQty <= Total(db.layers, e.key)
    ensures var ds := Take(db.layers, e.key, -e.actualQty).draws;
            && SumOf(ForEntry(e.id), db.consumptions + Tag(e.id, ds)) == -e.actualQty
            && SumOf(CostFor(e.id), db.consumptions + Tag(e.id, ds)) == SumOf(DrawCost(), ds)
  {
    var ds := Take(db.layers, e.key, -e.actualQty).draws;
    NoRowsYet(db, e.id);
    TagAfter(db.consumptions, e.id, ds, ForEntry(e.id), DrawQty());
    TagAfter(db.consumptions, e.id, ds, CostFor(e.id), DrawCost());
    TakeQuantity(db.layers, e.key, -e.actualQty);
  }

  lemma StepKeeps(db: Db, c: Command)
    requires Consistent(db)
    ensures Consistent(Step(db, c))
  {
    if Refusal(db, c).Accepted? {
      if IsReceipt(c.entry) {
        ReceiptKeeps(db, c);
      } else if IsIssue(c.entry) {
        IssueKeeps(db, c);
      } else {
        PlainKeeps(db, c);
      }
    }
  }

  // ---------------------------------------------------------------- every run

  /** The CHECK constraints, the unique indexes and both lineages hold after every run. */
  lemma {:induction false} RunKeepsConsistent(db: Db, cs: seq<Command>)
    requires Consistent(db)
    ensures Consistent(Run(db, cs))
  {
    if cs != [] {
      RunKeepsConsistent(db, cs[..|cs| - 1]);
      StepKeeps(Run(db, cs[..|cs| - 1]), cs[|cs| - 1]);
    }
  }

  /** The unique index over (tenant_id, source_entry_id): no entry is the source of two layers. */
  predicate SourcesOk(db: Db) {
    && (forall l <- db.layers :: l.source.Some? ==> HasEntry(db.entries, l.source.value))
    && forall i, j :: 0 <= i < j < |db.layers| && db.layers[i].source.Some? ==> db.layers[i].source != db.layers[j].source
  }

  lemma StepKeepsSources(db: Db, c: Command)
    requires Consistent(db) && SourcesOk(db)
    ensures SourcesOk(Step(db, c))
  {
    if Refusal(db, c).Accepted? {
      var after := Post(db, c);
      assert after.entries[..|db.entries|] == db.entries;
      forall id | HasEntry(db.entries, id) || id == c.entry.id ensures HasEntry(after.entries, id) {
        assert after.entries[|db.entries|].id == c.entry.id;
        if HasEntry(db.entries, id) {
          var i :| 0 <= i < |db.entries| && db.entries[i].id == id;
          assert after.entries[i].id == id;
        }
      }
      if IsReceipt(c.entry) {
        InsertKeepsSources(db.layers, ReceiptLayer(c.entry, c.layerId), db.entries);
      } else if IsIssue(c.entry) {
        IssueChangesRemaining(db.layers, c.entry.key, -c.entry.actualQty);
        SourcesSame(db.layers, after.layers);
      }
    }
  }

  lemma InsertKeepsSources(ls: seq<Layer>, l: Layer, es: seq<Entry>)
    requires forall x <- ls :: x.source.Some? ==> HasEntry(es, x.source.value)
    requires forall i, j :: 0 <= i < j < |ls| && ls[i].source.Some? ==> ls[i].source != ls[j].source
    requires l.source.Some? && !HasEntry(es, l.source.value)
    ensures var r := Insert(ls, l);
            && (forall x :: x in r <==> x in ls || x == l)
            && forall i, j :: 0 <= i < j < |r| && r[i].source.Some? ==> r[i].source != r[j].source
  {
    forall i | 0 <= i < |ls| ensures ls[i].source != l.source {
      assert ls[i] in ls;
    }
  }

  lemma SourcesSame(before: seq<Layer>, after: seq<Layer>)
    requires SameButRemaining(before, after)
    ensures forall l <- after :: exists i :: 0 <= i < |before| && before[i].source == l.source
    ensures forall i :: 0 <= i < |before| ==> after[i].source == before[i].source
  {
  }

  lemma {:induction false} RunKeepsSources(db: Db, cs: seq<Command>)
    requires Consistent(db) && SourcesOk(db)
    ensures SourcesOk(Run(db, cs))
  {
    if cs != [] {
      RunKeepsSources(db, cs[..|cs| - 1]);
      RunKeepsConsistent(db, cs[..|cs| - 1]);
      StepKeepsSources(Run(db, cs[..|cs| - 1]), cs[|cs| - 1]);
    }
  }

  /** An insert for one key leaves the queue of every other key as it was. */
  lemma StepLeavesOtherKeys(db: Db, c: Command, other: Key)
    requires c.entry.key != other
    ensures Units(Step(db, c).layers, other) == Units(db.layers, other)
  {
    if Refusal(db, c).Accepted? {
      if IsReceipt(c.entry) {
        ReceiptLeavesOtherKeys(db.layers, ReceiptLayer(c.entry, c.layerId), other);
      } else if IsIssue(c.entry) {
        TakeOtherKeys(db.layers, c.entry.key, -c.entry.actualQty, other);
      }
    }
  }

  /** An accepted issue serves the front of its own queue, at the cost of those units. */
  lemma StepServesTheQueue(db: Db, c: Command)
    requires IsIssue(c.entry) && Refusal(db, c).Accepted?
    ensures var n, q := -c.entry.actualQty, Units(db.layers, c.entry.key);
            && n <= |q|
            && Units(Step(db, c).layers, c.entry.key) == q[n..]
            && exists ds :: && Step(db, c).consumptions == db.consumptions + Tag(c.entry.id, ds)
                            && DrawUnits(ds) == q[..n]
                            && Step(db, c).entries == db.entries + [Booked(c.entry, SumOf(UnitCost(), q[..n]))]
  {
    var n := -c.entry.actualQty;
    UnitsLength(db.layers, c.entry.key);
    TakeDequeues(db.layers, c.entry.key, n);
    TakeCostsItsUnits(db.layers, c.entry.key, n);
    assert DrawUnits(Take(db.layers, c.entry.key, n).draws) == Units(db.layers, c.entry.key)[..n];
  }

  lemma StepConservesStock(db: Db, c: Command, k: Key)
    ensures Total(Step(db, c).layers, k) - SumOf(Moved(k), Step(db, c).entries)
         == Total(db.layers, k) - SumOf(Moved(k), db.entries)
  {
    var e, after := c.entry, Step(db, c);
    if Refusal(db, c).Accepted? {
      SumOfLast(Moved(k), db.entries, after.entries[|db.entries|]);
      UnitsLength(db.layers, k);
      UnitsLength(after.layers, k);
      if IsReceipt(e) {
        InsertSums(OpenQty(k), db.layers, ReceiptLayer(e, c.layerId));
      } else if IsIssue(e) {
        if e.key == k {
          StepServesTheQueue(db, c);
        } else {
          StepLeavesOtherKeys(db, c, k);
        }
      }
    }
  }

  /** Stock on hand in the layers is what was there plus every accepted movement, key by key. */
  lemma {:induction false} RunConservesStock(db: Db, cs: seq<Command>, k: Key)
    ensures Total(Run(db, cs).layers, k) - SumOf(Moved(k), Run(db, cs).entries)
         == Total(db.layers, k) - SumOf(Moved(k), db.entries)
  {
    if cs != [] {
      RunConservesStock(db, cs[..|cs| - 1], k);
      StepConservesStock(Run(db, cs[..|cs| - 1]), cs[|cs| - 1], k);
    }
  }

  // ---------------------------------------------------------------- value

  /** Value in the layers plus value consumed, less value received: constant over a run. */
  function ValueBalance(db: Db): int {
    SumOf(LayerValue(), db.layers) + SumOf(ConsumedCost(), db.consumptions) - SumOf(ReceivedValue(), db.entries)
  }

  /** What the ledger booked for issues, plus what they exactly cost, in ticks of 1e-8. */
  function BookingDrift(db: Db): int {
    Exact(SumOf(BookedValue(), db.entries)) + SumOf(ConsumedCost(), db.consumptions)
  }

  function Issues(db: Db): int {
    SumOf(IssueCount(), db.entries)
  }

  lemma StepConservesValue(db: Db, c: Command)
    ensures ValueBalance(Step(db, c)) == ValueBalance(db)
  {
    var e, after := c.entry, Step(db, c);
    if Refusal(db, c).Accepted? {
      SumOfLast(ReceivedValue(), db.entries, after.entries[|db.entries|]);
      if IsReceipt(e) {
        InsertSums(LayerValue(), db.layers, ReceiptLayer(e, c.layerId));
      } else if IsIssue(e) {
        TakeConservesValue(db.layers, e.key, -e.actualQty);
        IssueStep(db, c);
      }
    }
  }

  lemma StepDrifts(db: Db, c: Command)
    ensures Issues(Step(db, c)) == Issues(db)
            ==> BookingDrift(Step(db, c)) == BookingDrift(db)
    ensures Issues(Step(db, c)) != Issues(db)
            ==> Issues(Step(db, c)) == Issues(db) + 1
                && -5000 <= BookingDrift(Step(db, c)) - BookingDrift(db) <= 5000
  {
    var e, after := c.entry, Step(db, c);
    if Refusal(db, c).Accepted? {
      SumOfLast(BookedValue(), db.entries, after.entries[|db.entries|]);
      SumOfLast(IssueCount(), db.entries, after.entries[|db.entries|]);
      if IsIssue(e) {
        IssueStep(db, c);
      }
    }
  }

  /**
   Over a run, no value is lost between layers, receipts and consumption rows, and the rounded
   amounts booked for k issues stay within k halves of a tick of their exact cost.
   */
  lemma {:induction false} RunValue(db: Db, cs: seq<Command>)
    ensures ValueBalance(Run(db, cs)) == ValueBalance(db)
    ensures Issues(db) <= Issues(Run(db, cs))
    ensures -5000 * (Issues(Run(db, cs)) - Issues(db))
         <= BookingDrift(Run(db, cs)) - BookingDrift(db)
         <= 5000 * (Issues(Run(db, cs)) - Issues(db))
  {
    if cs != [] {
      RunValue(db, cs[..|cs| - 1]);
      StepConservesValue(Run(db, cs[..|cs| - 1]), cs[|cs| - 1]);
      StepDrifts(Run(db, cs[..|cs| - 1]), cs[|cs| - 1]);
    }
  }

  lemma BoundsAdd(q: int, u: int, rest: int, cost: int, lo: int, hi: int)
    requires 0 < q && lo <= u <= hi && rest * lo <= cost <= rest * hi
    ensures (q + rest) * lo <= q * u + cost <= (q + rest) * hi
  {
    TimesMonotone(q, lo, u);
    TimesMonotone(q, u, hi);
    assert (q + rest) * lo == q * lo + rest * lo;
    assert (q + rest) * hi == q * hi + rest * hi;
  }

  lemma {:induction false} EntryCostWithin(cs: seq<Consumption>, id: nat, lo: int, hi: int)
    requires forall c <- cs :: c.entryId == id ==> 0 < c.draw.quantity && lo <= c.draw.unitCost <= hi
    ensures SumOf(ForEntry(id), cs) * lo <= SumOf(CostFor(id), cs) <= SumOf(ForEntry(id), cs) * hi
  {
    if cs != [] {
      EntryCostWithin(cs[1..], id, lo, hi);
      if cs[0].entryId == id {
        BoundsAdd(cs[0].draw.quantity, cs[0].draw.unitCost,
                  SumOf(ForEntry(id), cs[1..]), SumOf(CostFor(id), cs[1..]), lo, hi);
      }
    }
  }

  /** The rate booked for an issue lies between the least and the greatest cost it consumed. */
  lemma BookedRateWithinConsumed(db: Db, e: Entry, lo: int, hi: int)
    requires Consistent(db) && e in db.entries && IsIssue(e)
    requires forall c <- db.consumptions :: c.entryId == e.id ==> lo <= c.draw.unitCost <= hi
    ensures lo <= e.outgoingRate <= hi
  {
    forall c <- db.consumptions ensures 0 < c.draw.quantity {
      assert RowOk(c, db);
    }
    EntryCostWithin(db.consumptions, e.id, lo, hi);
    RateStaysWithin(SumOf(CostFor(e.id), db.consumptions), -e.actualQty, lo, hi);
  }

  // ---------------------------------------------------------------- splitting an issue

  predicate SplitsInto(db: Db, one: Command, two: Command, whole: Command) {
    && IsIssue(one.entry) && IsIssue(two.entry) && IsIssue(whole.entry)
    && one.entry.key == two.entry.key == whole.entry.key
    && one.entry.actualQty + two.entry.actualQty == whole.entry.actualQty
    && one.entry.id != two.entry.id && !HasEntry(db.entries, one.entry.id)
    && !HasEntry(db.entries, two.entry.id) && !HasEntry(db.entries, whole.entry.id)
  }

  /**
   Issuing in two entries or in one: both are accepted together, leave the same layers behind
   and cost the same in all.
   */
  lemma SplitIssue(db: Db, one: Command, two: Command, whole: Command)
    requires SplitsInto(db, one, two, whole)
    ensures Refusal(db, whole).Accepted? <==>
            Refusal(db, one).Accepted? && Refusal(Step(db, one), two).Accepted?
    ensures Refusal(db, whole).Accepted? ==>
            var apart, joint := Step(Step(db, one), two), Step(db, whole);
            && apart.layers == joint.layers
            && SumOf(ConsumedCost(), apart.consumptions) == SumOf(ConsumedCost(), joint.consumptions)
  {
    SplitAccepted(db, one, two, whole);
    if Refusal(db, whole).Accepted? {
      var mid := Step(db, one);
      IssueStep(db, one);
      IssueStep(mid, two);
      IssueStep(db, whole);
      var k, a, b := one.entry.key, -one.entry.actualQty, -two.entry.actualQty;
      TakeSplits(db.layers, k, a, b, Take(db.layers, k, a), Take(mid.layers, k, b), Take(db.layers, k, a + b));
    }
  }

  lemma IssueStep(db: Db, c: Command)
    requires IsIssue(c.entry) && Refusal(db, c).Accepted?
    ensures var t := Take(db.layers, c.entry.key, -c.entry.actualQty);
            && Step(db, c).layers == t.layers
            && SumOf(ConsumedCost(), Step(db, c).consumptions)
               == SumOf(ConsumedCost(), db.consumptions) + SumOf(DrawCost(), t.draws)
  {
    var ds := Take(db.layers, c.entry.key, -c.entry.actualQty).draws;
    TagAfter(db.consumptions, c.entry.id, ds, ConsumedCost(), DrawCost());
  }

  lemma SplitAccepted(db: Db, one: Command, two: Command, whole: Command)
    requires SplitsInto(db, one, two, whole)
    ensures Refusal(db, whole).Accepted? <==>
            Refusal(db, one).Accepted? && Refusal(Step(db, one), two).Accepted?
  {
    if Refusal(db, one).Accepted? {
      var mid := Step(db, one);
      assert mid.entries == db.entries + [mid.entries[|db.entries|]] && mid.entries[|db.entries|].id == one.entry.id;
      assert !HasEntry(mid.entries, two.entry.id);
      StepConservesStock(db, one, one.entry.key);
      SumOfLast(Moved(one.entry.key), db.entries, mid.entries[|db.entries|]);
    }
  }

  // ---------------------------------------------------------------- the opening seed

  datatype StockLevel = StockLevel(key: Key, createdAt: Option<int>, currentQty: int, valuationRate: int)

  function OpeningLayer(s: StockLevel, id: nat, now: int): Layer {
    Layer(id, s.key, None, if s.createdAt.Some? then s.createdAt.value else now,
          s.currentQty, s.currentQty, Max(s.valuationRate, 0), false)
  }

  /** INSERT INTO stock_valuation_layers SELECT ... FROM stock_levels WHERE current_qty > 0 */
  function Seed(levels: seq<StockLevel>, ids: seq<nat>, now: int): seq<Layer>
    requires |ids| == |levels|
  {
    if levels == [] then []
    else
      var rest := Seed(levels[1..], ids[1..], now);
      if levels[0].currentQty > 0 then Insert(rest, OpeningLayer(levels[0], ids[0], now)) else rest
  }

  function OnHand(k: Key): StockLevel -> int {
    (s: StockLevel) => if s.key == k then Max(s.currentQty, 0) else 0
  }

  lemma {:induction false} SeedLayersOk(levels: seq<StockLevel>, ids: seq<nat>, now: int)
    requires |ids| == |levels|
    requires forall i, j :: 0 <= i < j < |ids| ==> ids[i] != ids[j]
    ensures LayersOk(Seed(levels, ids, now))
    ensures forall l <- Seed(levels, ids, now) :: l.id in ids && l.remainingQty == l.receivedQty
  {
    if levels != [] {
      SeedLayersOk(levels[1..], ids[1..], now);
      var rest, l := Seed(levels[1..], ids[1..], now), OpeningLayer(levels[0], ids[0], now);
      if levels[0].currentQty > 0 {
        forall i | 0 <= i < |rest| ensures rest[i].id != l.id {
          assert rest[i] in rest && rest[i].id in ids[1..];
        }
        InsertKeepsLayersOk(rest, l);
        assert forall x :: x in Insert(rest, l) <==> x in rest || x == l;
      }
    }
  }

  lemma {:induction false} SeedTotal(levels: seq<StockLevel>, ids: seq<nat>, now: int, k: Key)
    requires |ids| == |levels|
    ensures Total(Seed(levels, ids, now), k) == SumOf(OnHand(k), levels)
  {
    if levels != [] {
      SeedTotal(levels[1..], ids[1..], now, k);
      InsertSums(OpenQty(k), Seed(levels[1..], ids[1..], now), OpeningLayer(levels[0], ids[0], now));
    }
  }

  /** From the seed on, stock on hand equals opening stock plus accepted movements, for every key. */
  lemma RunFromSeed(levels: seq<StockLevel>, ids: seq<nat>, now: int, cs: seq<Command>, k: Key)
    requires |ids| == |levels|
    requires forall i, j :: 0 <= i < j < |ids| ==> ids[i] != ids[j]
    ensures var db := Run(Db(Seed(levels, ids, now), [], []), cs);
            && Consistent(db)
            && Total(db.layers, k) == SumOf(OnHand(k), levels) + SumOf(Moved(k), db.entries)
            && 0 <= Total(db.layers, k)
  {
    var db0 := Db(Seed(levels, ids, now), [], []);
    SeedLayersOk(levels, ids, now);
    SeedTotal(levels, ids, now, k);
    RunKeepsConsistent(db0, cs);
    RunConservesStock(db0, cs, k);
    UnitsLength(Run(db0, cs).layers, k);
  }
}
