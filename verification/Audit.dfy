/**
 The per-tenant audit chain of src/erp/audit/hasher.py and src/erp/audit/logger.py, its first block
 in src/erp/auth/provisioning.py, and the verifier of src/erp/mesh/soc2_auditor.py.

 The hash function is a parameter. A payload is its canonical JSON text. Timestamps come from one
 clock and grow from append to append of a tenant.
 */
module Audit {
  import opened Wrappers
  import opened Text

  /** GENESIS_BLOCK_HASH: 64 zeros. */
  const GENESIS: string := Zeros(64)

  function Zeros(n: nat): string {
    seq(n, _ => '0')
  }

  type Hash = string -> string

  datatype Entry = Entry(tenant: nat, trace: string, agent: string, payload: string,
                         previous: Option<string>, hash: string, timestamp: int)

  /** An append; the provisioner writes GENESIS where the logger leaves the previous hash null. */
  datatype Action = Action(tenant: nat, trace: string, agent: string, payload: string, timestamp: int, provisions: bool)

  function Encode(prev: string, trace: string, agent: string, payload: string): string {
    prev + ":" + (trace + ":" + (agent + ":" + payload))
  }

  /** previous_hash or GENESIS_BLOCK_HASH */
  function OrGenesis(previous: Option<string>): string {
    if previous.None? || previous.value == "" then GENESIS else previous.value
  }

  function RecordHash(h: Hash, previous: Option<string>, trace: string, agent: string, payload: string): string {
    h(Encode(OrGenesis(previous), trace, agent, payload))
  }

  // ---------------------------------------------------------------- the table

  /** ORDER BY timestamp DESC LIMIT 1 among the tenant's rows. */
  function Latest(rows: seq<Entry>, tenant: nat): (r: Option<Entry>)
    ensures r.Some? ==> r.value in rows && r.value.tenant == tenant
    ensures r.Some? ==> forall e <- rows :: e.tenant == tenant ==> e.timestamp <= r.value.timestamp
    ensures r.None? ==> forall e <- rows :: e.tenant != tenant
  {
    if rows == [] then None
    else
      var n := |rows| - 1;
      var r := Latest(rows[..n], tenant);
      if rows[n].tenant == tenant && (r.None? || r.value.timestamp <= rows[n].timestamp) then Some(rows[n]) else r
  }

  function LatestHash(rows: seq<Entry>, tenant: nat): Option<string> {
    match Latest(rows, tenant)
    case None => None
    case Some(e) => Some(e.hash)
  }

  /** The row an action appends. */
  function NewEntry(h: Hash, rows: seq<Entry>, a: Action): Entry {
    var latest := LatestHash(rows, a.tenant);
    var previous := if latest.None? && a.provisions then Some(GENESIS) else latest;
    Entry(a.tenant, a.trace, a.agent, a.payload, previous,
          RecordHash(h, previous, a.trace, a.agent, a.payload), a.timestamp)
  }

  function Run(h: Hash, actions: seq<Action>): (rows: seq<Entry>)
    ensures |rows| == |actions|
  {
    if actions == [] then []
    else
      var rows := Run(h, actions[..|actions| - 1]);
      rows + [NewEntry(h, rows, actions[|actions| - 1])]
  }

  /** One tenant's rows, oldest first. */
  function Log(rows: seq<Entry>, tenant: nat): seq<Entry> {
    if rows == [] then []
    else
      var n := |rows| - 1;
      Log(rows[..n], tenant) + if rows[n].tenant == tenant then [rows[n]] else []
  }

  class AuditStore {
    var rows: seq<Entry>
    const h: Hash

    constructor (h: Hash)
      ensures rows == [] && this.h == h
    {
      rows := [];
      this.h := h;
    }

    /** log_agent_action, and the append that closes tenant provisioning. */
    method Append(a: Action) returns (e: Entry)
      modifies this
      ensures e == NewEntry(h, old(rows), a)
      ensures rows == old(rows) + [e]
      ensures Records(e, a)
      ensures (forall r <- old(rows) :: r.tenant != a.tenant) ==> e.previous == if a.provisions then Some(GENESIS) else None
      ensures (exists r <- old(rows) :: r.tenant == a.tenant) ==>
                exists r <- old(rows) :: r.tenant == a.tenant && e.previous == Some(r.hash)
                                         && forall x <- old(rows) :: x.tenant == a.tenant ==> x.timestamp <= r.timestamp
      ensures forall actions :: old(rows) == Run(h, actions) ==> rows == Run(h, actions + [a])
    {
      var previous := LatestHash(rows, a.tenant);
      if a.provisions && previous.None? {
        previous := Some(GENESIS);
      }
      var hash := RecordHash(h, previous, a.trace, a.agent, a.payload);
      e := Entry(a.tenant, a.trace, a.agent, a.payload, previous, hash, a.timestamp);
      forall actions | rows == Run(h, actions) ensures rows + [e] == Run(h, actions + [a]) {
        assert (actions + [a])[..|actions|] == actions;
      }
      rows := rows + [e];
    }
  }

  // ---------------------------------------------------------------- the chain

  function Head(log: seq<Entry>): string {
    if log == [] then GENESIS else log[|log| - 1].hash
  }

  predicate LinkOk(e: Entry, expected: string) {
    OrGenesis(e.previous) == expected
  }

  predicate HashOk(h: Hash, e: Entry) {
    e.hash == RecordHash(h, Some(OrGenesis(e.previous)), e.trace, e.agent, e.payload)
  }

  /** Every block names the hash of the one before it and recomputes. */
  predicate Chained(h: Hash, log: seq<Entry>) {
    log == [] ||
    var n := |log| - 1;
    Chained(h, log[..n]) && LinkOk(log[n], Head(log[..n])) && HashOk(h, log[n])
  }

  /**
   Block i names the hash of the one before it, the first 64 zeros, null or nothing; and its hash is that of
   the previous hash, the trace, the agent and the payload, joined by ':'.
   */
  predicate BlockOk(h: Hash, log: seq<Entry>, i: int)
    requires 0 <= i < |log|
  {
    var e, zeros := log[i], seq(64, _ => '0');
    var own := if e.previous == None || e.previous == Some("") then zeros else e.previous.value;
    && own == (if i == 0 then zeros else log[i - 1].hash)
    && e.hash == h(own + ":" + e.trace + ":" + e.agent + ":" + e.payload)
  }

  predicate LastOk(h: Hash, log: seq<Entry>)
    requires log != []
  {
    var n := |log| - 1;
    LinkOk(log[n], Head(log[..n])) && HashOk(h, log[n])
  }

  lemma LastOkMeansBlockOk(h: Hash, log: seq<Entry>)
    requires log != []
    ensures LastOk(h, log) <==> BlockOk(h, log, |log| - 1)
  {
    var e := log[|log| - 1];
    var own := OrGenesis(e.previous);
    assert GENESIS == seq(64, _ => '0');
    assert own + ":" + e.trace + ":" + e.agent + ":" + e.payload == own + ":" + (e.trace + ":" + (e.agent + ":" + e.payload));
  }

  lemma SameBlock(h: Hash, log: seq<Entry>, n: nat, i: int)
    requires 0 <= i < n <= |log|
    ensures BlockOk(h, log[..n], i) <==> BlockOk(h, log, i)
  {
  }

  lemma {:induction false} ChainedMeansBlocksOk(h: Hash, log: seq<Entry>)
    ensures Chained(h, log) <==> forall i :: 0 <= i < |log| ==> BlockOk(h, log, i)
  {
    if log != [] {
      var n := |log| - 1;
      ChainedMeansBlocksOk(h, log[..n]);
      LastOkMeansBlockOk(h, log);
      forall i | 0 <= i < n ensures BlockOk(h, log[..n], i) <==> BlockOk(h, log, i) {
        SameBlock(h, log, n, i);
      }
    }
  }

  function FaultyBlocks(h: Hash, log: seq<Entry>): set<int> {
    set i | 0 <= i < |log| && !BlockOk(h, log, i)
  }

  lemma {:induction false} FaultyCountsBlocks(h: Hash, log: seq<Entry>)
    ensures Faulty(h, log) == |FaultyBlocks(h, log)|
  {
    if log != [] {
      var n := |log| - 1;
      FaultyCountsBlocks(h, log[..n]);
      LastOkMeansBlockOk(h, log);
      OneMoreBlock(h, log, n);
    }
  }

  lemma OneMoreBlock(h: Hash, log: seq<Entry>, n: nat)
    requires |log| == n + 1
    ensures n !in FaultyBlocks(h, log[..n])
    ensures FaultyBlocks(h, log) == FaultyBlocks(h, log[..n]) + if BlockOk(h, log, n) then {} else {n}
  {
    forall i | 0 <= i < n ensures i in FaultyBlocks(h, log) <==> i in FaultyBlocks(h, log[..n]) {
      SameBlock(h, log, n, i);
    }
  }

  function Faulty(h: Hash, log: seq<Entry>): nat {
    if log == [] then 0
    else
      var n := |log| - 1;
      Faulty(h, log[..n]) + if LinkOk(log[n], Head(log[..n])) && HashOk(h, log[n]) then 0 else 1
  }

  lemma {:induction false} NoFaultMeansChained(h: Hash, log: seq<Entry>)
    ensures Faulty(h, log) == 0 <==> Chained(h, log)
  {
    if log != [] {
      NoFaultMeansChained(h, log[..|log| - 1]);
    }
  }

  datatype Report = Report(blocks: nat, tampered: nat, unbroken: bool, root: string)

  /** verify_in_memory_chain */
  method VerifyChain(h: Hash, log: seq<Entry>) returns (report: Report)
    ensures report.blocks == |log| && report.tampered == |FaultyBlocks(h, log)|
    ensures report.unbroken <==> log != [] && forall i :: 0 <= i < |log| ==> BlockOk(h, log, i)
    ensures report.root == if log == [] then GENESIS else log[|log| - 1].hash
  {
    var expected, tampered := GENESIS, 0;
    for i := 0 to |log|
      invariant expected == Head(log[..i])
      invariant tampered == Faulty(h, log[..i])
    {
      var e := log[i];
      assert log[..i + 1][..i] == log[..i];
      var prev := OrGenesis(e.previous);
      var recomputed := RecordHash(h, Some(prev), e.trace, e.agent, e.payload);
      if prev != expected {
        tampered := tampered + 1;
      } else if e.hash != recomputed {
        tampered := tampered + 1;
      }
      expected := e.hash;
    }
    assert log[..|log|] == log;
    NoFaultMeansChained(h, log);
    FaultyCountsBlocks(h, log);
    ChainedMeansBlocksOk(h, log);
    return Report(|log|, tampered, tampered == 0 && |log| > 0, expected);
  }

  // ---------------------------------------------------------------- every run is chained

  predicate Increasing(actions: seq<Action>) {
    forall i, j :: 0 <= i < j < |actions| && actions[i].tenant == actions[j].tenant ==>
      actions[i].timestamp < actions[j].timestamp
  }

  /** SHA-256 digests are hexadecimal: never empty, and without ':'. */
  ghost predicate HexDigests(h: Hash) {
    forall s :: h(s) != "" && NoColon(h(s))
  }

  predicate ByTime(log: seq<Entry>, tenant: nat) {
    forall i, j :: 0 <= i < j < |log| && log[i].tenant == tenant && log[j].tenant == tenant ==>
      log[i].timestamp < log[j].timestamp
  }

  /** With growing timestamps, the row found by timestamp is the last of the tenant's rows. */
  lemma {:induction false} LatestIsLast(rows: seq<Entry>, tenant: nat)
    requires ByTime(rows, tenant)
    ensures var log := Log(rows, tenant);
            Latest(rows, tenant) == if log == [] then None else Some(log[|log| - 1])
  {
    if rows != [] {
      var n := |rows| - 1;
      LatestIsLast(rows[..n], tenant);
      var r := Latest(rows[..n], tenant);
      if r.Some? {
        var k :| 0 <= k < n && rows[..n][k] == r.value;
        assert rows[k] == r.value;
      }
    }
  }

  /** Read oldest first, as the verifier reads them, the tenant's rows are in the order of insertion. */
  lemma {:induction false} LogIsByTime(rows: seq<Entry>, tenant: nat)
    requires ByTime(rows, tenant)
    ensures ByTime(Log(rows, tenant), tenant)
  {
    if rows != [] {
      var n := |rows| - 1;
      var before := Log(rows[..n], tenant);
      LogIsByTime(rows[..n], tenant);
      LogRows(rows[..n], tenant);
      forall i | 0 <= i < |before| && before[i].tenant == tenant && rows[n].tenant == tenant
        ensures before[i].timestamp < rows[n].timestamp
      {
        assert before[i] in rows[..n];
        var k :| 0 <= k < n && rows[k] == before[i];
      }
    }
  }

  predicate Records(e: Entry, a: Action) {
    && e.tenant == a.tenant && e.timestamp == a.timestamp
    && e.trace == a.trace && e.agent == a.agent && e.payload == a.payload
  }

  lemma LogLast(rows: seq<Entry>, e: Entry, tenant: nat)
    ensures Log(rows + [e], tenant) == Log(rows, tenant) + if e.tenant == tenant then [e] else []
  {
    assert (rows + [e])[..|rows|] == rows;
  }

  predicate AllRecord(rows: seq<Entry>, actions: seq<Action>) {
    |rows| == |actions| && forall i :: 0 <= i < |actions| ==> Records(rows[i], actions[i])
  }

  lemma OneMoreRecord(rows: seq<Entry>, actions: seq<Action>, e: Entry, a: Action)
    requires AllRecord(rows, actions) && Records(e, a)
    ensures AllRecord(rows + [e], actions + [a])
  {
  }

  lemma {:induction false} RunRows(h: Hash, actions: seq<Action>)
    ensures AllRecord(Run(h, actions), actions)
  {
    if actions != [] {
      var n := |actions| - 1;
      var before, a := actions[..n], actions[n];
      RunRows(h, before);
      OneMoreRecord(Run(h, before), before, NewEntry(h, Run(h, before), a), a);
      assert before + [a] == actions;
    }
  }

  lemma LatestIsHead(h: Hash, actions: seq<Action>, tenant: nat)
    requires Increasing(actions)
    ensures var rows := Run(h, actions);
            LatestHash(rows, tenant) == if Log(rows, tenant) == [] then None else Some(Head(Log(rows, tenant)))
  {
    var rows := Run(h, actions);
    RunRows(h, actions);
    forall i, j | 0 <= i < j < |rows| && rows[i].tenant == tenant && rows[j].tenant == tenant
      ensures rows[i].timestamp < rows[j].timestamp
    {
      assert Records(rows[i], actions[i]) && Records(rows[j], actions[j]);
    }
    LatestIsLast(rows, tenant);
  }

  lemma ChainedOneMore(h: Hash, log: seq<Entry>, e: Entry)
    requires Chained(h, log) && LinkOk(e, Head(log)) && HashOk(h, e)
    ensures Chained(h, log + [e])
  {
    assert (log + [e])[..|log|] == log;
  }

  lemma {:induction false} HeadIsADigest(h: Hash, log: seq<Entry>)
    requires Chained(h, log) && HexDigests(h)
    ensures Head(log) != "" && NoColon(Head(log))
  {
    if log != [] {
      var e := log[|log| - 1];
      var text := Encode(OrGenesis(e.previous), e.trace, e.agent, e.payload);
      assert HashOk(h, e) && e.hash == h(text);
      assert h(text) != "" && NoColon(h(text));
    }
  }

  /** Under any interleaving of appends, each tenant's log is one chain from GENESIS that recomputes. */
  lemma {:induction false} RunIsChained(h: Hash, actions: seq<Action>, tenant: nat)
    requires HexDigests(h) && Increasing(actions)
    ensures Chained(h, Log(Run(h, actions), tenant))
    ensures forall i :: 0 <= i < |Log(Run(h, actions), tenant)| ==> BlockOk(h, Log(Run(h, actions), tenant), i)
  {
    ChainedMeansBlocksOk(h, Log(Run(h, actions), tenant));
    if actions != [] {
      var n := |actions| - 1;
      var rows, a := Run(h, actions[..n]), actions[n];
      IncreasingPrefix(actions, n);
      RunIsChained(h, actions[..n], tenant);
      assert Log(rows, tenant) + [] == Log(rows, tenant);
      if a.tenant == tenant {
        AppendKeepsChain(h, actions[..n], a, tenant);
      }
      LogLast(rows, NewEntry(h, rows, a), tenant);
    }
  }

  lemma IncreasingPrefix(actions: seq<Action>, n: nat)
    requires Increasing(actions) && n <= |actions|
    ensures Increasing(actions[..n])
  {
  }

  lemma AppendKeepsChain(h: Hash, before: seq<Action>, a: Action, tenant: nat)
    requires HexDigests(h) && Increasing(before) && a.tenant == tenant
    requires Chained(h, Log(Run(h, before), tenant))
    ensures Chained(h, Log(Run(h, before), tenant) + [NewEntry(h, Run(h, before), a)])
  {
    var rows := Run(h, before);
    LatestIsHead(h, before, tenant);
    HeadIsADigest(h, Log(rows, tenant));
    ChainedOneMore(h, Log(rows, tenant), NewEntry(h, rows, a));
  }

  // ---------------------------------------------------------------- what the head commits to

  datatype Content = Content(trace: string, agent: string, payload: string)

  function Contents(log: seq<Entry>): seq<Content> {
    if log == [] then []
    else
      var e := log[|log| - 1];
      Contents(log[..|log| - 1]) + [Content(e.trace, e.agent, e.payload)]
  }

  predicate Plain(e: Entry) {
    NoColon(e.trace) && NoColon(e.agent)
  }

  /** Without ':' in the first three parts, the hashed text determines all four. */
  lemma EncodeInjective(p: string, t: string, a: string, x: string, p': string, t': string, a': string, x': string)
    requires NoColon(p) && NoColon(t) && NoColon(a) && NoColon(p') && NoColon(t') && NoColon(a')
    requires Encode(p, t, a, x) == Encode(p', t', a', x')
    ensures p == p' && t == t' && a == a' && x == x'
  {
    FirstPartInjective(p, t + ":" + (a + ":" + x), p', t' + ":" + (a' + ":" + x'));
    FirstPartInjective(t, a + ":" + x, t', a' + ":" + x');
    FirstPartInjective(a, x, a', x');
  }

  /** A concrete failure of the hash function. */
  datatype Break = NoBreak | Collision(x: string, y: string) | GenesisPreimage(z: string)

  /** The text whose hash the entry stores. */
  function TextOf(e: Entry): string {
    Encode(OrGenesis(e.previous), e.trace, e.agent, e.payload)
  }

  /** `x` is the hashed text of an entry of `log`. */
  predicate Hashed(log: seq<Entry>, x: string) {
    exists e <- log :: TextOf(e) == x
  }

  /** The failure shows in texts that the two logs hashed. */
  predicate Breaks(h: Hash, a: seq<Entry>, b: seq<Entry>, w: Break) {
    match w
    case NoBreak => false
    case Collision(x, y) => x != y && h(x) == h(y) && Hashed(a, x) && Hashed(b, y)
    case GenesisPreimage(z) => h(z) == GENESIS && (Hashed(a, z) || Hashed(b, z))
  }

  lemma BreaksStay(h: Hash, a: seq<Entry>, b: seq<Entry>, m: nat, n: nat, w: Break)
    requires m <= |a| && n <= |b| && Breaks(h, a[..m], b[..n], w)
    ensures Breaks(h, a, b, w)
  {
  }

  /** The last entries of two chains with one head break the hash, or say the same after the same head. */
  lemma LastEntriesAgree(h: Hash, a: seq<Entry>, b: seq<Entry>, m: nat, n: nat) returns (w: Break)
    requires Chained(h, a) && Chained(h, b) && Head(a) == Head(b) && HexDigests(h)
    requires |a| == m + 1 && |b| == n + 1 && Plain(a[m]) && Plain(b[n])
    ensures if w != NoBreak then Breaks(h, a, b, w)
            else Head(a[..m]) == Head(b[..n])
                 && a[m].trace == b[n].trace && a[m].agent == b[n].agent && a[m].payload == b[n].payload
  {
    w := NoBreak;
    var x := Encode(Head(a[..m]), a[m].trace, a[m].agent, a[m].payload);
    var y := Encode(Head(b[..n]), b[n].trace, b[n].agent, b[n].payload);
    assert TextOf(a[m]) == x && TextOf(b[n]) == y && a[m] in a && b[n] in b;
    if x != y {
      w := Collision(x, y);
    } else {
      HeadIsADigest(h, a[..m]);
      HeadIsADigest(h, b[..n]);
      EncodeInjective(Head(a[..m]), a[m].trace, a[m].agent, a[m].payload,
                      Head(b[..n]), b[n].trace, b[n].agent, b[n].payload);
    }
  }

  lemma FirstEntryBreaks(h: Hash, log: seq<Entry>) returns (w: Break)
    requires Chained(h, log) && log != [] && Head(log) == GENESIS
    ensures Breaks(h, log, [], w) && Breaks(h, [], log, w)
  {
    assert log[|log| - 1] in log;
    w := GenesisPreimage(TextOf(log[|log| - 1]));
  }

  /**
   The head hash commits to the whole log: from two chains with one head and different contents one
   computes a collision between texts the two hashed, or such a text that hashes to GENESIS.
   */
  lemma {:induction false} HeadCommits(h: Hash, a: seq<Entry>, b: seq<Entry>) returns (w: Break)
    requires Chained(h, a) && Chained(h, b) && Head(a) == Head(b)
    requires (forall e <- a :: Plain(e)) && (forall e <- b :: Plain(e))
    requires HexDigests(h)
    ensures Breaks(h, a, b, w) || Contents(a) == Contents(b)
    decreases |a|
  {
    w := NoBreak;
    if a == [] && b != [] {
      w := FirstEntryBreaks(h, b);
    } else if a != [] && b == [] {
      w := FirstEntryBreaks(h, a);
    } else if a != [] {
      var m, n := |a| - 1, |b| - 1;
      assert Plain(a[m]) && Plain(b[n]);
      w := LastEntriesAgree(h, a, b, m, n);
      if w == NoBreak {
        w := HeadCommits(h, a[..m], b[..n]);
        if Breaks(h, a[..m], b[..n], w) {
          BreaksStay(h, a, b, m, n, w);
        }
      }
    }
  }

  predicate PlainActions(actions: seq<Action>) {
    forall a <- actions :: NoColon(a.trace) && NoColon(a.agent)
  }

  /** So two runs that end in one head recorded the same, or the hash function is broken. */
  lemma EqualHeadsMeanEqualRuns(h: Hash, xs: seq<Action>, ys: seq<Action>, tenant: nat) returns (w: Break)
    requires HexDigests(h) && Increasing(xs) && Increasing(ys) && PlainActions(xs) && PlainActions(ys)
    requires Head(Log(Run(h, xs), tenant)) == Head(Log(Run(h, ys), tenant))
    ensures var a, b := Log(Run(h, xs), tenant), Log(Run(h, ys), tenant);
            Breaks(h, a, b, w) || Contents(a) == Contents(b)
  {
    RunIsChained(h, xs, tenant);
    RunIsChained(h, ys, tenant);
    RunIsPlain(h, xs, tenant);
    RunIsPlain(h, ys, tenant);
    w := HeadCommits(h, Log(Run(h, xs), tenant), Log(Run(h, ys), tenant));
  }

  lemma {:induction false} LogRows(rows: seq<Entry>, tenant: nat)
    ensures forall e <- Log(rows, tenant) :: e in rows
  {
    if rows != [] {
      LogRows(rows[..|rows| - 1], tenant);
    }
  }

  lemma RunIsPlain(h: Hash, actions: seq<Action>, tenant: nat)
    requires PlainActions(actions)
    ensures forall e <- Log(Run(h, actions), tenant) :: Plain(e)
  {
    RunRows(h, actions);
    LogRows(Run(h, actions), tenant);
    forall e <- Log(Run(h, actions), tenant) ensures Plain(e) {
      var i :| 0 <= i < |actions| && Run(h, actions)[i] == e;
      assert actions[i] in actions && Records(e, actions[i]);
    }
  }

  // ---------------------------------------------------------------- where the encoding is ambiguous

  ghost predicate Ambiguous(prev: string, trace: string, agent: string, payload: string) {
    exists t, a :: (t != trace || a != agent) && Encode(prev, t, a, payload) == Encode(prev, trace, agent, payload)
  }

  lemma AlsoEncodedBy(prev: string, t: string, a: string, trace: string, agent: string, payload: string)
    requires t + ":" + a == trace + ":" + agent && t != trace
    ensures Ambiguous(prev, trace, agent, payload)
  {
    calc {
      Encode(prev, t, a, payload);
      prev + ":" + ((t + ":" + a) + (":" + payload));
      prev + ":" + ((trace + ":" + agent) + (":" + payload));
      Encode(prev, trace, agent, payload);
    }
  }

  /**
   The hashed text of a record is also that of another trace and agent, with the same previous hash
   and payload, exactly when the trace or the agent contains a ':'.
   */
  lemma AmbiguousExactlyWhen(prev: string, trace: string, agent: string, payload: string)
    ensures Ambiguous(prev, trace, agent, payload) <==> ':' in trace || ':' in agent
  {
    if ':' in trace {
      var i :| 0 <= i < |trace| && trace[i] == ':';
      var t, a := trace[..i], trace[i + 1..] + ":" + agent;
      assert t + ":" + a == trace + ":" + agent;
      AlsoEncodedBy(prev, t, a, trace, agent, payload);
    } else if ':' in agent {
      var i :| 0 <= i < |agent| && agent[i] == ':';
      var t, a := trace + ":" + agent[..i], agent[i + 1..];
      assert t + ":" + a == trace + ":" + agent;
      AlsoEncodedBy(prev, t, a, trace, agent, payload);
    } else if Ambiguous(prev, trace, agent, payload) {
      var t, a :| (t != trace || a != agent) && Encode(prev, t, a, payload) == Encode(prev, trace, agent, payload);
      OnlyOneSplit(prev, t, a, trace, agent, payload);
    }
  }

  lemma OnlyOneSplit(prev: string, t: string, a: string, trace: string, agent: string, payload: string)
    requires NoColon(trace) && NoColon(agent)
    requires Encode(prev, t, a, payload) == Encode(prev, trace, agent, payload)
    ensures t == trace && a == agent
  {
    var x, y := t + ":" + (a + ":" + payload), trace + ":" + (agent + ":" + payload);
    assert (prev + ":" + x)[|prev| + 1..] == x && (prev + ":" + y)[|prev| + 1..] == y;
    var u, v := t + ":" + a, trace + ":" + agent;
    assert x == u + (":" + payload) && y == v + (":" + payload);
    assert |u| == |v| && x[..|u|] == u && y[..|v|] == v;
    FirstColonOfJoin(trace, agent);
    assert v[|t|] == ':' && v[|trace| + 1..] == agent;
    assert forall i :: |trace| < i < |v| ==> v[i] == agent[i - |trace| - 1];
    assert |t| == |trace|;
    assert u[..|t|] == t && v[..|trace|] == trace && u[|t| + 1..] == a && v[|trace| + 1..] == agent;
  }
}
