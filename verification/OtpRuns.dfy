/** What every run of sends, checks, flushes and ends of turns keeps. */
module OtpRuns {
  import opened Wrappers
  import opened Sums
  import opened Otp

  datatype Event =
    | OnSend(send: Send)
    | OnCheck(check: Check)
    | OnDrop(conv: Conv, now: int)
    | OnFlush(conv: Conv, commits: bool, refused: bool, now: int)
    | OnEnd(conv: Conv, aborts: bool, now: int)

  /** How far the count of a comparison has got; it is Lost when the transaction rolls back. */
  datatype Fate = Fresh | Flushed | Kept | Lost

  /** A code that was compared with the hash of challenge `index`. */
  datatype Guess = Guess(conv: Conv, index: nat, code: string, at: int, matched: bool, fate: Fate)

  /** The desk, with what it forgets: the codes sent out and the guesses compared. */
  datatype World = World(desk: Desk, codes: seq<string>, guesses: seq<Guess>)

  function Next(f: Fate, how: Settling): Fate {
    if f.Lost? || f.Kept? then f
    else match how
      case Flushes => Flushed
      case Commits => Kept
      case RollsBack => Lost
  }

  /** The guesses of `conv` share the fate of its transaction. */
  function Fated(gs: seq<Guess>, conv: Conv, how: Settling): seq<Guess> {
    seq(|gs|, i requires 0 <= i < |gs| =>
      if gs[i].conv == conv then gs[i].(fate := Next(gs[i].fate, how)) else gs[i])
  }

  /** What an event does to the transaction of its conversation. */
  function Effect(d: Desk, e: Event): Option<Settling> {
    match e
    case OnSend(s) =>
      var r := SendOutcome(d, s);
      if r.NoLead? || r.LimitReached? then None else FlushSettling(d, s.conv, true, false)
    case OnFlush(conv, commits, refused, _) => FlushSettling(d, conv, commits, refused)
    case OnEnd(conv, aborts, _) => Some(EndSettling(d, conv, aborts))
    case _ => None
  }

  function ConvOf(e: Event): Conv {
    match e
    case OnSend(s) => s.conv
    case OnCheck(k) => k.conv
    case OnDrop(conv, _) => conv
    case OnFlush(conv, _, _, _) => conv
    case OnEnd(conv, _, _) => conv
  }

  function AfterEvent(mac: Mac, d: Desk, e: Event): Desk {
    match e
    case OnSend(s) => AfterSend(mac, d, s)
    case OnCheck(k) => AfterCheck(mac, d, k)
    case OnDrop(conv, _) => AfterDrop(d, conv)
    case OnFlush(conv, commits, refused, _) => AfterFlush(d, conv, commits, refused)
    case OnEnd(conv, aborts, _) => AfterEnd(d, conv, aborts)
  }

  /** The database refuses what a tool, or the end of the turn, writes besides one-time codes. */
  predicate Refused(e: Event) {
    (e.OnFlush? && e.refused) || (e.OnEnd? && e.aborts)
  }

  predicate Issues(d: Desk, e: Event) {
    e.OnSend? && var r := SendOutcome(d, e.send); r.Sent? || r.SendFailed?
  }

  predicate Compares(mac: Mac, d: Desk, e: Event) {
    e.OnCheck? && var r := CheckOutcome(mac, d, e.check); r.Incorrect? || r.Verified?
  }

  function GuessOf(mac: Mac, d: Desk, k: Check): Guess
    requires Compares(mac, d, OnCheck(k))
  {
    var r := CheckOutcome(mac, d, k);
    Guess(k.conv, r.index, k.code.value, k.now, r.Verified?, Fresh)
  }

  function Step(mac: Mac, w: World, e: Event): World {
    var effect := Effect(w.desk, e);
    var gs := if effect.Some? then Fated(w.guesses, ConvOf(e), effect.value) else w.guesses;
    World(AfterEvent(mac, w.desk, e),
          if Issues(w.desk, e) then w.codes + [e.send.code] else w.codes,
          if Compares(mac, w.desk, e) then gs + [GuessOf(mac, w.desk, e.check)] else gs)
  }

  function Run(mac: Mac, es: seq<Event>): World {
    if es == [] then World(Desk([], map[], map[], {}), [], [])
    else Step(mac, Run(mac, es[..|es| - 1]), es[|es| - 1])
  }

  // ---------------------------------------------------------------- the clock

  function Start(e: Event): int {
    match e
    case OnSend(s) => s.now
    case OnCheck(k) => k.now
    case OnDrop(_, now) => now
    case OnFlush(_, _, _, now) => now
    case OnEnd(_, _, now) => now
  }

  function End(e: Event): int {
    if e.OnSend? then (if e.send.delivery.Failed? then e.send.delivery.at else e.send.createdAt) else Start(e)
  }

  /** Within a send, the row is stamped after `now` was read, and a failure is noticed later still. */
  predicate WellTimed(e: Event) {
    e.OnSend? ==> e.send.now <= e.send.createdAt <= End(e)
  }

  /** One clock: events follow one another. */
  predicate Chronological(es: seq<Event>) {
    && (forall e <- es :: WellTimed(e))
    && (forall i :: 0 < i < |es| ==> End(es[i - 1]) <= Start(es[i]))
  }

  // ---------------------------------------------------------------- the invariant

  predicate InKept(f: Fate) { f.Kept? }
  predicate InStored(f: Fate) { f.Kept? || f.Flushed? }
  predicate InHeld(f: Fate) { !f.Lost? }

  /** Guesses on challenge `i` whose count is committed, at least flushed, or at least in memory. */
  function KeptOn(i: nat): Guess -> int {
    (g: Guess) => if g.index == i && InKept(g.fate) then 1 else 0
  }

  function StoredOn(i: nat): Guess -> int {
    (g: Guess) => if g.index == i && InStored(g.fate) then 1 else 0
  }

  function HeldOn(i: nat): Guess -> int {
    (g: Guess) => if g.index == i && InHeld(g.fate) then 1 else 0
  }

  predicate ColsOk(c: Cols) {
    c.usedAt.None? ==> c.attempts < MAX_ATTEMPTS
  }

  /** A use that has been flushed, or committed, leaves nothing pending on its row. */
  predicate ChallengeOk(c: Challenge, clock: int) {
    && c.createdAt <= clock && c.expiresAt <= c.createdAt + CODE_LIFE
    && 0 <= c.kept.attempts <= c.stored.attempts <= c.held.attempts
    && c.stored.attempts <= MAX_ATTEMPTS
    && ColsOk(c.kept) && ColsOk(c.stored) && ColsOk(c.held)
    && (c.kept.usedAt.Some? ==> c.stored == c.kept)
    && (c.stored.usedAt.Some? ==> c.held == c.stored)
  }

  predicate AtMostOneUnused(cs: seq<Challenge>) {
    forall i, j :: 0 <= i < j < |cs| && cs[i].conv == cs[j].conv ==> cs[i].kept.usedAt.Some? || cs[j].kept.usedAt.Some?
  }

  predicate RowsOk(cs: seq<Challenge>, clock: int) {
    (forall i :: 0 <= i < |cs| ==> ChallengeOk(cs[i], clock)) && AtMostOneUnused(cs)
  }

  /** Challenges of `conv` created within the hour that starts at `lo`, both ends included. */
  function InHour(cs: seq<Challenge>, conv: Conv, lo: int): int {
    Created(cs, conv, lo, lo + HOUR)
  }

  ghost predicate WindowsOk(cs: seq<Challenge>) {
    forall conv, lo :: InHour(cs, conv, lo) <= MAX_RECENT
  }

  /** The three states of `attempts` count the comparisons that have reached them. */
  predicate CountersAt(c: Challenge, gs: seq<Guess>, i: nat) {
    && c.kept.attempts == SumOf(KeptOn(i), gs)
    && c.stored.attempts == SumOf(StoredOn(i), gs)
    && c.held.attempts == SumOf(HeldOn(i), gs)
  }

  predicate CountersOk(cs: seq<Challenge>, gs: seq<Guess>) {
    forall i :: 0 <= i < |cs| ==> CountersAt(cs[i], gs, i)
  }

  predicate UsedSince(c: Cols, at: int) {
    c.usedAt.Some? && at <= c.usedAt.value
  }

  /** A guess was made in its challenge's life, and a match marks the row wherever it is counted. */
  predicate GuessOk(mac: Mac, cs: seq<Challenge>, g: Guess, clock: int) {
    && g.index < |cs|
    && var c := cs[g.index];
       && c.conv == g.conv && c.createdAt <= g.at < c.expiresAt && g.at <= clock
       && (g.matched <==> c.codeHash == Digest(mac, c.conv, c.leadId, g.code))
       && (g.matched && InKept(g.fate) ==> UsedSince(c.kept, g.at))
       && (g.matched && InStored(g.fate) ==> UsedSince(c.stored, g.at))
       && (g.matched && InHeld(g.fate) ==> UsedSince(c.held, g.at))
  }

  predicate GuessesOk(mac: Mac, cs: seq<Challenge>, gs: seq<Guess>, clock: int) {
    forall i :: 0 <= i < |gs| ==> GuessOk(mac, cs, gs[i], clock)
  }

  predicate HashesOk(mac: Mac, cs: seq<Challenge>, codes: seq<string>) {
    && |codes| == |cs|
    && forall i :: 0 <= i < |codes| ==> cs[i].codeHash == Digest(mac, cs[i].conv, cs[i].leadId, codes[i])
  }

  /** A matched guess, made when the verification was granted, against its lead's challenge. */
  predicate Backs(x: Guess, cs: seq<Challenge>, conv: Conv, g: Grant) {
    && x.matched && x.conv == conv && x.at == g.until - GRANT_LIFE
    && x.index < |cs| && cs[x.index].leadId == g.leadId
  }

  predicate Backed(cs: seq<Challenge>, gs: seq<Guess>, conv: Conv, g: Grant, kept: bool) {
    exists i :: 0 <= i < |gs| && Backs(gs[i], cs, conv, g) && (if kept then InKept(gs[i].fate) else InHeld(gs[i].fate))
  }

  predicate GrantsOk(cs: seq<Challenge>, gs: seq<Guess>, grants: map<Conv, Grant>, kept: bool) {
    forall conv <- grants :: Backed(cs, gs, conv, grants[conv], kept)
  }

  ghost predicate Inv(mac: Mac, w: World, clock: int) {
    && RowsOk(w.desk.challenges, clock)
    && WindowsOk(w.desk.challenges)
    && CountersOk(w.desk.challenges, w.guesses)
    && HashesOk(mac, w.desk.challenges, w.codes)
    && GuessesOk(mac, w.desk.challenges, w.guesses, clock)
    && GrantsOk(w.desk.challenges, w.guesses, w.desk.grants, false)
    && GrantsOk(w.desk.challenges, w.guesses, w.desk.keptGrants, true)
  }

  // ---------------------------------------------------------------- issue windows

  lemma CreatedSame(a: seq<Challenge>, b: seq<Challenge>, conv: Conv, lo: int, hi: int)
    requires |a| == |b|
    requires forall i :: 0 <= i < |a| ==> a[i].conv == b[i].conv && a[i].createdAt == b[i].createdAt
    ensures Created(a, conv, lo, hi) == Created(b, conv, lo, hi)
  {
    SumOfSame(CountsIn(conv, lo, hi), a, CountsIn(conv, lo, hi), b);
  }

  lemma WindowsSame(a: seq<Challenge>, b: seq<Challenge>)
    requires WindowsOk(a) && |a| == |b|
    requires forall i :: 0 <= i < |a| ==> a[i].conv == b[i].conv && a[i].createdAt == b[i].createdAt
    ensures WindowsOk(b)
  {
    forall conv, lo ensures InHour(b, conv, lo) <= MAX_RECENT {
      CreatedSame(a, b, conv, lo, lo + HOUR);
      assert InHour(a, conv, lo) <= MAX_RECENT;
    }
  }

  /** The limit counts back from `now`, which is no later than the row it admits. */
  lemma NewRowKeepsWindows(cs: seq<Challenge>, now: int, c: Challenge)
    requires WindowsOk(cs) && now <= c.createdAt
    requires SumOf(CountsSince(c.conv, now - HOUR), cs) < MAX_RECENT
    ensures WindowsOk(cs + [c])
  {
    forall conv, lo ensures InHour(cs + [c], conv, lo) <= MAX_RECENT {
      SumOfLast(CountsIn(conv, lo, lo + HOUR), cs, c);
      assert InHour(cs, conv, lo) <= MAX_RECENT;
      if CreatedIn(c, conv, lo, lo + HOUR) {
        SumOfLe(CountsIn(conv, lo, lo + HOUR), cs, CountsSince(conv, now - HOUR), cs);
      }
    }
  }

  // ---------------------------------------------------------------- settling a transaction

  /** Only a row whose pending attempts fit the table is flushed. */
  predicate MaySettle(cs: seq<Challenge>, conv: Conv, how: Settling) {
    how.RollsBack? || Flushable(cs, conv)
  }

  lemma SettleKeepsRows(cs: seq<Challenge>, conv: Conv, how: Settling, clock: int)
    requires RowsOk(cs, clock) && MaySettle(cs, conv, how)
    ensures RowsOk(SettledRows(cs, conv, how), clock)
  {
    var after := SettledRows(cs, conv, how);
    forall i | 0 <= i < |cs| ensures ChallengeOk(after[i], clock) && (cs[i].kept.usedAt.Some? ==> after[i].kept.usedAt.Some?) {
      assert ChallengeOk(cs[i], clock);
    }
  }

  /** Settling moves the counts of a challenge along with its columns. */
  lemma SettleMovesCounts(c: Challenge, gs: seq<Guess>, i: nat, conv: Conv, how: Settling)
    requires CountersAt(c, gs, i)
    requires forall j :: 0 <= j < |gs| && gs[j].index == i ==> gs[j].conv == c.conv
    ensures CountersAt(if c.conv == conv then SettledRow(c, how) else c, Fated(gs, conv, how), i)
  {
    var after := Fated(gs, conv, how);
    if c.conv != conv {
      SumOfSame(KeptOn(i), gs, KeptOn(i), after);
      SumOfSame(StoredOn(i), gs, StoredOn(i), after);
      SumOfSame(HeldOn(i), gs, HeldOn(i), after);
    } else {
      match how {
        case Flushes =>
          SumOfSame(KeptOn(i), gs, KeptOn(i), after);
          SumOfSame(HeldOn(i), gs, StoredOn(i), after);
          SumOfSame(HeldOn(i), gs, HeldOn(i), after);
        case Commits =>
          SumOfSame(HeldOn(i), gs, KeptOn(i), after);
          SumOfSame(HeldOn(i), gs, StoredOn(i), after);
          SumOfSame(HeldOn(i), gs, HeldOn(i), after);
        case RollsBack =>
          SumOfSame(KeptOn(i), gs, KeptOn(i), after);
          SumOfSame(KeptOn(i), gs, StoredOn(i), after);
          SumOfSame(KeptOn(i), gs, HeldOn(i), after);
      }
    }
  }

  lemma SettleKeepsCounters(mac: Mac, cs: seq<Challenge>, gs: seq<Guess>, conv: Conv, how: Settling, clock: int)
    requires CountersOk(cs, gs) && GuessesOk(mac, cs, gs, clock)
    ensures CountersOk(SettledRows(cs, conv, how), Fated(gs, conv, how))
  {
    forall i | 0 <= i < |cs| ensures CountersAt(SettledRows(cs, conv, how)[i], Fated(gs, conv, how), i) {
      forall j | 0 <= j < |gs| && gs[j].index == i ensures gs[j].conv == cs[i].conv {
        assert GuessOk(mac, cs, gs[j], clock);
      }
      assert CountersAt(cs[i], gs, i);
      SettleMovesCounts(cs[i], gs, i, conv, how);
    }
  }

  lemma SettleKeepsGuesses(mac: Mac, cs: seq<Challenge>, gs: seq<Guess>, conv: Conv, how: Settling, clock: int)
    requires GuessesOk(mac, cs, gs, clock)
    ensures GuessesOk(mac, SettledRows(cs, conv, how), Fated(gs, conv, how), clock)
  {
    forall i | 0 <= i < |gs| ensures GuessOk(mac, SettledRows(cs, conv, how), Fated(gs, conv, how)[i], clock) {
      assert GuessOk(mac, cs, gs[i], clock);
    }
  }

  /** A backing guess goes on backing, once committed as a committed one. */
  lemma SettleKeepsBacking(cs: seq<Challenge>, gs: seq<Guess>, conv: Conv, how: Settling, c: Conv, g: Grant, kept: bool)
    requires Backed(cs, gs, c, g, kept)
    requires !kept && how.RollsBack? ==> c != conv
    ensures Backed(SettledRows(cs, conv, how), Fated(gs, conv, how), c, g, kept || (c == conv && how.Commits?))
    ensures Backed(SettledRows(cs, conv, how), Fated(gs, conv, how), c, g, false)
  {
    var i :| 0 <= i < |gs| && Backs(gs[i], cs, c, g) && (if kept then InKept(gs[i].fate) else InHeld(gs[i].fate));
    var fated := Fated(gs, conv, how);
    assert Backs(fated[i], SettledRows(cs, conv, how), c, g) && InHeld(fated[i].fate);
    assert kept || (c == conv && how.Commits?) ==> InKept(fated[i].fate);
  }

  /** The verifications before and after settling stand on the same guesses. */
  lemma SettleKeepsGrants(d: Desk, gs: seq<Guess>, conv: Conv, how: Settling)
    requires GrantsOk(d.challenges, gs, d.grants, false) && GrantsOk(d.challenges, gs, d.keptGrants, true)
    ensures GrantsOk(SettledRows(d.challenges, conv, how), Fated(gs, conv, how), Settled(d, conv, how).grants, false)
    ensures GrantsOk(SettledRows(d.challenges, conv, how), Fated(gs, conv, how), Settled(d, conv, how).keptGrants, true)
  {
    var cs, after, fated := SettledRows(d.challenges, conv, how), Settled(d, conv, how), Fated(gs, conv, how);
    forall c | c in after.grants ensures Backed(cs, fated, c, after.grants[c], false) {
      SettleKeepsBacking(d.challenges, gs, conv, how, c, after.grants[c], c == conv && how.RollsBack?);
    }
    forall c | c in after.keptGrants ensures Backed(cs, fated, c, after.keptGrants[c], true) {
      SettleKeepsBacking(d.challenges, gs, conv, how, c, after.keptGrants[c], c != conv || !how.Commits?);
    }
  }

  lemma SettleKeeps(mac: Mac, w: World, conv: Conv, how: Settling, clock: int)
    requires Inv(mac, w, clock) && MaySettle(w.desk.challenges, conv, how)
    ensures Inv(mac, World(Settled(w.desk, conv, how), w.codes, Fated(w.guesses, conv, how)), clock)
  {
    var cs, gs := w.desk.challenges, w.guesses;
    SettleKeepsRows(cs, conv, how, clock);
    WindowsSame(cs, SettledRows(cs, conv, how));
    SettleKeepsCounters(mac, cs, gs, conv, how, clock);
    SettleKeepsGuesses(mac, cs, gs, conv, how, clock);
    SettleKeepsGrants(w.desk, gs, conv, how);
  }

  // ---------------------------------------------------------------- sends

  /** A row with every use, pending or new, committed. */
  function RetiredRow(c: Challenge, now: int): Challenge {
    var u := Retired(c.held, now);
    c.(kept := u, stored := u, held := u)
  }

  function RetiredRows(cs: seq<Challenge>, conv: Conv, now: int): seq<Challenge> {
    seq(|cs|, i requires 0 <= i < |cs| => if cs[i].conv == conv then RetiredRow(cs[i], now) else cs[i])
  }

  /** Retiring and then committing a conversation's rows is retiring them once they are committed. */
  lemma RetireThenCommit(cs: seq<Challenge>, conv: Conv, now: int)
    ensures SettledRows(Retire(cs, conv, now), conv, Commits) == RetiredRows(SettledRows(cs, conv, Commits), conv, now)
  {
  }

  lemma RetireKeepsRows(cs: seq<Challenge>, conv: Conv, now: int, clock: int)
    requires RowsOk(cs, clock) && Flushable(cs, conv)
    ensures RowsOk(RetiredRows(cs, conv, now), clock)
    ensures forall i :: 0 <= i < |cs| && cs[i].conv == conv ==> RetiredRows(cs, conv, now)[i].kept.usedAt.Some?
  {
    forall i | 0 <= i < |cs| ensures ChallengeOk(RetiredRows(cs, conv, now)[i], clock) {
      assert ChallengeOk(cs[i], clock);
    }
  }

  /** `conv` has nothing pending. */
  predicate Clean(cs: seq<Challenge>, conv: Conv) {
    forall i :: 0 <= i < |cs| && cs[i].conv == conv ==> cs[i].kept == cs[i].stored == cs[i].held
  }

  lemma RetireKeeps(mac: Mac, w: World, conv: Conv, now: int, clock: int)
    requires Inv(mac, w, clock) && Clean(w.desk.challenges, conv) && Flushable(w.desk.challenges, conv)
    ensures Inv(mac, w.(desk := w.desk.(challenges := RetiredRows(w.desk.challenges, conv, now))), clock)
  {
    var cs, after := w.desk.challenges, RetiredRows(w.desk.challenges, conv, now);
    RetireKeepsRows(cs, conv, now, clock);
    WindowsSame(cs, after);
    forall i | 0 <= i < |cs| ensures CountersAt(after[i], w.guesses, i) {
      assert CountersAt(cs[i], w.guesses, i);
    }
    forall i | 0 <= i < |w.guesses| ensures GuessOk(mac, after, w.guesses[i], clock) {
      assert GuessOk(mac, cs, w.guesses[i], clock);
    }
    GrantsStay(cs, w.guesses, w.desk.grants, false, after, w.guesses, w.desk.grants);
    GrantsStay(cs, w.guesses, w.desk.keptGrants, true, after, w.guesses, w.desk.keptGrants);
  }

  /** A grant stays backed while no guess and no challenge is forgotten. */
  lemma GrantsStay(cs: seq<Challenge>, gs: seq<Guess>, grants: map<Conv, Grant>, kept: bool,
                   cs': seq<Challenge>, gs': seq<Guess>, grants': map<Conv, Grant>)
    requires GrantsOk(cs, gs, grants, kept)
    requires forall c <- grants' :: c in grants && grants'[c] == grants[c]
    requires |cs| <= |cs'| && forall i :: 0 <= i < |cs| ==> cs'[i].leadId == cs[i].leadId
    requires |gs| <= |gs'| && forall i :: 0 <= i < |gs| ==> gs'[i] == gs[i]
    ensures GrantsOk(cs', gs', grants', kept)
  {
    forall c | c in grants' ensures Backed(cs', gs', c, grants'[c], kept) {
      assert Backed(cs, gs, c, grants[c], kept);
      var i :| 0 <= i < |gs| && Backs(gs[i], cs, c, grants[c]) && (if kept then InKept(gs[i].fate) else InHeld(gs[i].fate));
      assert Backs(gs'[i], cs', c, grants'[c]);
    }
  }

  lemma NoGuessesYet(gs: seq<Guess>, i: nat)
    requires forall j :: 0 <= j < |gs| ==> gs[j].index != i
    ensures SumOf(KeptOn(i), gs) == SumOf(StoredOn(i), gs) == SumOf(HeldOn(i), gs) == 0
  {
    SumOfZero(KeptOn(i), gs);
    SumOfZero(StoredOn(i), gs);
    SumOfZero(HeldOn(i), gs);
  }

  /** A row without a guess, whose conversation has no other unused one. */
  predicate Appendable(mac: Mac, cs: seq<Challenge>, c: Challenge, code: string, clock: int) {
    && ChallengeOk(c, clock) && c.held.attempts == 0
    && c.codeHash == Digest(mac, c.conv, c.leadId, code)
    && forall i :: 0 <= i < |cs| && cs[i].conv == c.conv ==> cs[i].kept.usedAt.Some?
  }

  lemma AppendKeepsGuesses(mac: Mac, cs: seq<Challenge>, gs: seq<Guess>, c: Challenge, clock: int)
    requires GuessesOk(mac, cs, gs, clock)
    ensures GuessesOk(mac, cs + [c], gs, clock)
    ensures forall i :: 0 <= i < |gs| ==> gs[i].index != |cs|
  {
    forall i | 0 <= i < |gs| ensures GuessOk(mac, cs + [c], gs[i], clock) && gs[i].index != |cs| {
      assert GuessOk(mac, cs, gs[i], clock);
    }
  }

  lemma AppendKeepsCounters(cs: seq<Challenge>, gs: seq<Guess>, c: Challenge)
    requires CountersOk(cs, gs) && c.kept.attempts == c.stored.attempts == c.held.attempts == 0
    requires forall i :: 0 <= i < |gs| ==> gs[i].index != |cs|
    ensures CountersOk(cs + [c], gs)
  {
    NoGuessesYet(gs, |cs|);
    forall i | 0 <= i < |cs + [c]| ensures CountersAt((cs + [c])[i], gs, i) {
      assert i < |cs| ==> CountersAt(cs[i], gs, i);
    }
  }

  lemma AppendKeeps(mac: Mac, w: World, c: Challenge, code: string, clock: int)
    requires Inv(mac, w, clock) && Appendable(mac, w.desk.challenges, c, code, clock)
    requires WindowsOk(w.desk.challenges + [c])
    ensures Inv(mac, World(w.desk.(challenges := w.desk.challenges + [c]), w.codes + [code], w.guesses), clock)
  {
    var cs, after := w.desk.challenges, w.desk.challenges + [c];
    AppendKeepsGuesses(mac, cs, w.guesses, c, clock);
    AppendKeepsCounters(cs, w.guesses, c);
    GrantsStay(cs, w.guesses, w.desk.grants, false, after, w.guesses, w.desk.grants);
    GrantsStay(cs, w.guesses, w.desk.keptGrants, true, after, w.guesses, w.desk.keptGrants);
  }

  lemma LaterClock(mac: Mac, w: World, clock: int, later: int)
    requires Inv(mac, w, clock) && clock <= later
    ensures Inv(mac, w, later)
  {
    var cs := w.desk.challenges;
    forall i | 0 <= i < |w.guesses| ensures GuessOk(mac, cs, w.guesses[i], later) {
      assert GuessOk(mac, cs, w.guesses[i], clock);
    }
    forall i | 0 <= i < |cs| ensures ChallengeOk(cs[i], later) {
      assert ChallengeOk(cs[i], clock);
    }
  }

  /** The limit still holds once the older codes are settled and retired. */
  lemma IssueKeepsLimit(cs: seq<Challenge>, after: seq<Challenge>, mac: Mac, s: Send, leadId: string)
    requires WindowsOk(cs) && s.now <= s.createdAt
    requires SumOf(CountsSince(s.conv, s.now - HOUR), cs) < MAX_RECENT
    requires |after| == |cs|
    requires forall i :: 0 <= i < |cs| ==> after[i].conv == cs[i].conv && after[i].createdAt == cs[i].createdAt
    ensures WindowsOk(after + [NewChallenge(mac, s, leadId)])
  {
    WindowsSame(cs, after);
    SumOfSame(CountsSince(s.conv, s.now - HOUR), cs, CountsSince(s.conv, s.now - HOUR), after);
    NewRowKeepsWindows(after, s.now, NewChallenge(mac, s, leadId));
  }

  /** The world once a conversation's transaction is committed. */
  function Committed(w: World, conv: Conv): World {
    World(Settled(w.desk, conv, Commits), w.codes, Fated(w.guesses, conv, Commits))
  }

  function Issued(w: World, c: Challenge, code: string): World {
    World(w.desk.(challenges := w.desk.challenges + [c]), w.codes + [code], w.guesses)
  }

  function AllRetired(w: World, conv: Conv, now: int): World {
    w.(desk := w.desk.(challenges := RetiredRows(w.desk.challenges, conv, now)))
  }

  /** A send commits, retires the older codes and issues a new one. */
  lemma SendIssues(mac: Mac, w: World, s: Send)
    requires Issues(w.desk, OnSend(s))
    ensures Step(mac, w, OnSend(s))
         == Issued(AllRetired(Committed(w, s.conv), s.conv, s.now), NewChallenge(mac, s, s.leadId.value), s.code)
  {
    RetireThenCommit(w.desk.challenges, s.conv, s.now);
  }

  lemma CommittedIsClean(cs: seq<Challenge>, conv: Conv)
    requires Flushable(cs, conv)
    ensures Clean(SettledRows(cs, conv, Commits), conv) && Flushable(SettledRows(cs, conv, Commits), conv)
  {
    assert forall i :: 0 <= i < |cs| && cs[i].conv == conv ==> SettledRows(cs, conv, Commits)[i].held == cs[i].held;
  }

  lemma CommitAndRetireKeeps(mac: Mac, w: World, conv: Conv, now: int, clock: int)
    requires Inv(mac, w, clock) && Flushable(w.desk.challenges, conv)
    ensures Inv(mac, AllRetired(Committed(w, conv), conv, now), clock)
    ensures var cs := AllRetired(Committed(w, conv), conv, now).desk.challenges;
            forall i :: 0 <= i < |cs| && cs[i].conv == conv ==> cs[i].kept.usedAt.Some?
  {
    SettleKeeps(mac, w, conv, Commits, clock);
    CommittedIsClean(w.desk.challenges, conv);
    RetireKeeps(mac, Committed(w, conv), conv, now, clock);
    RetireKeepsRows(Committed(w, conv).desk.challenges, conv, now, clock);
  }

  lemma NewRowIsAppendable(cs: seq<Challenge>, mac: Mac, s: Send, leadId: string)
    requires WellTimed(OnSend(s))
    requires forall i :: 0 <= i < |cs| && cs[i].conv == s.conv ==> cs[i].kept.usedAt.Some?
    ensures Appendable(mac, cs, NewChallenge(mac, s, leadId), s.code, End(OnSend(s)))
  {
  }

  lemma RetiredAndAppendedKeep(mac: Mac, w: World, retired: World, s: Send, clock: int)
    requires Inv(mac, w, clock) && clock <= s.now && WellTimed(OnSend(s)) && Issues(w.desk, OnSend(s))
    requires retired == AllRetired(Committed(w, s.conv), s.conv, s.now)
    ensures Inv(mac, Issued(retired, NewChallenge(mac, s, s.leadId.value), s.code), End(OnSend(s)))
  {
    var later, cs := End(OnSend(s)), retired.desk.challenges;
    LaterClock(mac, w, clock, later);
    CommitAndRetireKeeps(mac, w, s.conv, s.now, later);
    IssueKeepsLimit(w.desk.challenges, cs, mac, s, s.leadId.value);
    NewRowIsAppendable(cs, mac, s, s.leadId.value);
    AppendKeeps(mac, retired, NewChallenge(mac, s, s.leadId.value), s.code, later);
  }

  lemma IssueKeeps(mac: Mac, w: World, s: Send, clock: int)
    requires Inv(mac, w, clock) && clock <= s.now && WellTimed(OnSend(s)) && Issues(w.desk, OnSend(s))
    ensures Inv(mac, Step(mac, w, OnSend(s)), End(OnSend(s)))
  {
    RetiredAndAppendedKeep(mac, w, AllRetired(Committed(w, s.conv), s.conv, s.now), s, clock);
    SendIssues(mac, w, s);
  }

  // ---------------------------------------------------------------- checks

  /** The row a check compares with, and what it holds afterwards. */
  function Compared(mac: Mac, d: Desk, k: Check): nat
    requires Compares(mac, d, OnCheck(k))
  {
    CheckOutcome(mac, d, k).index
  }

  function Checked(mac: Mac, d: Desk, k: Check): Challenge
    requires Compares(mac, d, OnCheck(k))
  {
    AfterCheck(mac, d, k).challenges[Compared(mac, d, k)]
  }

  /** A check changes what one active row holds in memory: one attempt more, and used with a match. */
  lemma CheckChangesHeld(mac: Mac, d: Desk, k: Check)
    requires Compares(mac, d, OnCheck(k))
    ensures var i, c, matched := Compared(mac, d, k), Checked(mac, d, k), GuessOf(mac, d, k).matched;
            && AfterCheck(mac, d, k).challenges == d.challenges[i := c]
            && Active(d.challenges[i], k.conv, k.now)
            && c == d.challenges[i].(held := c.held)
            && c.held.attempts == d.challenges[i].held.attempts + 1
            && (c.held.usedAt == d.challenges[i].held.usedAt || c.held.usedAt == Some(k.now))
            && (matched || c.held.attempts >= 5 ==> c.held.usedAt == Some(k.now))
            && (!matched && c.held.attempts < 5 ==> c.held.usedAt == d.challenges[i].held.usedAt)
            && (matched <==> c.codeHash == Digest(mac, c.conv, c.leadId, k.code.value))
  {
  }

  lemma HeldKeepsRows(cs: seq<Challenge>, i: nat, held: Cols, clock: int, now: int)
    requires RowsOk(cs, clock) && WindowsOk(cs) && clock <= now && i < |cs| && cs[i].stored.usedAt.None?
    requires ColsOk(held) && cs[i].held.attempts <= held.attempts
    ensures RowsOk(cs[i := cs[i].(held := held)], now) && WindowsOk(cs[i := cs[i].(held := held)])
  {
    var after := cs[i := cs[i].(held := held)];
    WindowsSame(cs, after);
    forall j | 0 <= j < |cs| ensures ChallengeOk(after[j], now) {
      assert ChallengeOk(cs[j], clock);
    }
  }

  lemma CheckKeepsRows(mac: Mac, w: World, k: Check, clock: int)
    requires RowsOk(w.desk.challenges, clock) && WindowsOk(w.desk.challenges)
    requires clock <= k.now && Compares(mac, w.desk, OnCheck(k))
    ensures RowsOk(AfterCheck(mac, w.desk, k).challenges, k.now)
    ensures WindowsOk(AfterCheck(mac, w.desk, k).challenges)
  {
    CheckChangesHeld(mac, w.desk, k);
    var i := Compared(mac, w.desk, k);
    assert ChallengeOk(w.desk.challenges[i], clock);
    HeldKeepsRows(w.desk.challenges, i, Checked(mac, w.desk, k).held, clock, k.now);
  }

  /** A fresh guess is counted in memory alone. */
  lemma FreshGuessCounts(c: Challenge, gs: seq<Guess>, i: nat, g: Guess, held: Cols)
    requires CountersAt(c, gs, i) && g.fate.Fresh?
    requires held.attempts == c.held.attempts + 1
    ensures CountersAt(if g.index == i then c.(held := held) else c, gs + [g], i)
  {
    SumOfLast(KeptOn(i), gs, g);
    SumOfLast(StoredOn(i), gs, g);
    SumOfLast(HeldOn(i), gs, g);
  }

  lemma CheckKeepsCounters(mac: Mac, w: World, k: Check)
    requires CountersOk(w.desk.challenges, w.guesses) && Compares(mac, w.desk, OnCheck(k))
    ensures CountersOk(AfterCheck(mac, w.desk, k).challenges, w.guesses + [GuessOf(mac, w.desk, k)])
  {
    var cs, before, g := AfterCheck(mac, w.desk, k).challenges, w.desk.challenges, GuessOf(mac, w.desk, k);
    CheckChangesHeld(mac, w.desk, k);
    forall i | 0 <= i < |cs| ensures CountersAt(cs[i], w.guesses + [g], i) {
      FreshGuessCounts(before[i], w.guesses, i, g,
                       if i == g.index then cs[i].held else Cols(before[i].held.attempts + 1, None));
    }
  }

  lemma CheckKeepsGuesses(mac: Mac, w: World, k: Check, clock: int)
    requires RowsOk(w.desk.challenges, clock) && GuessesOk(mac, w.desk.challenges, w.guesses, clock)
    requires clock <= k.now && Compares(mac, w.desk, OnCheck(k))
    ensures GuessesOk(mac, AfterCheck(mac, w.desk, k).challenges, w.guesses + [GuessOf(mac, w.desk, k)], k.now)
  {
    var cs, gs := AfterCheck(mac, w.desk, k).challenges, w.guesses + [GuessOf(mac, w.desk, k)];
    CheckChangesHeld(mac, w.desk, k);
    forall i | 0 <= i < |gs| ensures GuessOk(mac, cs, gs[i], k.now) {
      if i < |w.guesses| {
        assert GuessOk(mac, w.desk.challenges, w.guesses[i], clock);
      } else {
        assert ChallengeOk(w.desk.challenges[gs[i].index], clock);
      }
    }
  }

  lemma CheckKeepsGrants(mac: Mac, w: World, k: Check)
    requires GrantsOk(w.desk.challenges, w.guesses, w.desk.grants, false)
    requires GrantsOk(w.desk.challenges, w.guesses, w.desk.keptGrants, true)
    requires Compares(mac, w.desk, OnCheck(k))
    ensures var after, gs := AfterCheck(mac, w.desk, k), w.guesses + [GuessOf(mac, w.desk, k)];
            && GrantsOk(after.challenges, gs, after.grants, false)
            && GrantsOk(after.challenges, gs, after.keptGrants, true)
  {
    var after, gs := AfterCheck(mac, w.desk, k), w.guesses + [GuessOf(mac, w.desk, k)];
    var cs := after.challenges;
    GrantsStay(w.desk.challenges, w.guesses, w.desk.keptGrants, true, cs, gs, after.keptGrants);
    GrantsStay(w.desk.challenges, w.guesses, w.desk.grants, false, cs, gs, w.desk.grants);
    if CheckOutcome(mac, w.desk, k).Verified? {
      var g := after.grants[k.conv];
      assert Backs(gs[|gs| - 1], cs, k.conv, g) && InHeld(gs[|gs| - 1].fate);
      assert Backed(cs, gs, k.conv, g, false);
    }
  }

  lemma CheckKeepsHashes(mac: Mac, w: World, k: Check)
    requires HashesOk(mac, w.desk.challenges, w.codes) && Compares(mac, w.desk, OnCheck(k))
    ensures HashesOk(mac, AfterCheck(mac, w.desk, k).challenges, w.codes)
    ensures Step(mac, w, OnCheck(k)) == World(AfterCheck(mac, w.desk, k), w.codes, w.guesses + [GuessOf(mac, w.desk, k)])
  {
    CheckChangesHeld(mac, w.desk, k);
  }

  lemma CheckKeeps(mac: Mac, w: World, k: Check, clock: int)
    requires Inv(mac, w, clock) && clock <= k.now && Compares(mac, w.desk, OnCheck(k))
    ensures Inv(mac, Step(mac, w, OnCheck(k)), k.now)
  {
    CheckKeepsHashes(mac, w, k);
    CheckKeepsRows(mac, w, k, clock);
    CheckKeepsCounters(mac, w, k);
    CheckKeepsGuesses(mac, w, k, clock);
    CheckKeepsGrants(mac, w, k);
  }

  // ---------------------------------------------------------------- every event

  /** An event that neither issues nor compares settles its transaction, or at most drops a verification. */
  lemma OtherEvents(mac: Mac, w: World, e: Event)
    requires !Issues(w.desk, e) && !Compares(mac, w.desk, e)
    ensures var after, effect := Step(mac, w, e), Effect(w.desk, e);
            && (effect.Some? ==>
                && MaySettle(w.desk.challenges, ConvOf(e), effect.value)
                && after == World(Settled(w.desk, ConvOf(e), effect.value).(broken := after.desk.broken), w.codes,
                                  Fated(w.guesses, ConvOf(e), effect.value)))
            && (effect.None? ==>
                && after.desk.grants.Keys <= w.desk.grants.Keys
                && (forall c <- after.desk.grants :: after.desk.grants[c] == w.desk.grants[c])
                && after == w.(desk := w.desk.(grants := after.desk.grants)))
  {
  }

  lemma OtherEventsKeep(mac: Mac, w: World, e: Event, clock: int)
    requires Inv(mac, w, clock) && !Issues(w.desk, e) && !Compares(mac, w.desk, e)
    ensures Inv(mac, Step(mac, w, e), clock)
  {
    OtherEvents(mac, w, e);
    var cs, effect := w.desk.challenges, Effect(w.desk, e);
    if effect.Some? {
      SettleKeeps(mac, w, ConvOf(e), effect.value, clock);
    } else {
      GrantsStay(cs, w.guesses, w.desk.grants, false, cs, w.guesses, Step(mac, w, e).desk.grants);
    }
  }

  lemma StepKeeps(mac: Mac, w: World, e: Event, clock: int)
    requires Inv(mac, w, clock) && clock <= Start(e) && WellTimed(e)
    ensures Inv(mac, Step(mac, w, e), End(e))
  {
    if Issues(w.desk, e) {
      IssueKeeps(mac, w, e.send, clock);
    } else if Compares(mac, w.desk, e) {
      CheckKeeps(mac, w, e.check, clock);
    } else {
      OtherEventsKeep(mac, w, e, clock);
      LaterClock(mac, Step(mac, w, e), clock, End(e));
    }
  }

  /** Every run of events on one clock keeps the invariant. */
  lemma {:induction false} RunKeeps(mac: Mac, es: seq<Event>, clock: int)
    requires Chronological(es)
    requires es != [] ==> End(es[|es| - 1]) <= clock
    ensures Inv(mac, Run(mac, es), clock)
  {
    if es != [] {
      var before, e := es[..|es| - 1], es[|es| - 1];
      assert e in es;
      RunKeeps(mac, before, Start(e));
      StepKeeps(mac, Run(mac, before), e, Start(e));
      LaterClock(mac, Run(mac, es), End(e), clock);
    } else {
      forall conv, lo ensures InHour([], conv, lo) <= MAX_RECENT {
      }
    }
  }

  // ---------------------------------------------------------------- used rows are final

  /** Once its use is committed, a challenge is never touched again, by any event. */
  lemma UsedIsFinal(mac: Mac, w: World, e: Event, clock: int, i: nat)
    requires RowsOk(w.desk.challenges, clock)
    requires i < |w.desk.challenges| && w.desk.challenges[i].kept.usedAt.Some?
    ensures i < |Step(mac, w, e).desk.challenges|
    ensures Step(mac, w, e).desk.challenges[i] == w.desk.challenges[i]
  {
    assert ChallengeOk(w.desk.challenges[i], clock);
  }

  /** Once its use is flushed, a challenge is not compared again until its transaction rolls back. */
  lemma FlushedUseLasts(mac: Mac, w: World, e: Event, clock: int, i: nat)
    requires RowsOk(w.desk.challenges, clock)
    requires i < |w.desk.challenges| && w.desk.challenges[i].stored.usedAt.Some?
    ensures i < |Step(mac, w, e).desk.challenges|
    ensures var c, after := w.desk.challenges[i], Step(mac, w, e).desk.challenges[i];
            && (after.held == after.stored == c.stored <==>
                !(ConvOf(e) == c.conv && Effect(w.desk, e) == Some(RollsBack) && c.kept.usedAt.None?))
  {
    assert ChallengeOk(w.desk.challenges[i], clock);
  }
}
