/** Turns whose checks are compared and then forgotten, and runs of them. */
module OtpForgotten {
  import opened Wrappers
  import opened Sums
  import opened Otp
  import opened OtpRuns
  import opened OtpBounds
  import opened OtpTurns
  import Turn

  // ---------------------------------------------------------------- turns that are forgotten

  /** The code is wrong for challenge `i`, the one that the check finds. */
  predicate WrongFor(mac: Mac, d: Desk, k: Check, i: nat) {
    && k.code.Some? && k.conv !in d.broken
    && OnlyActive(d.challenges, k.conv, k.now, i)
    && d.challenges[i].codeHash != Digest(mac, k.conv, d.challenges[i].leadId, k.code.value)
  }

  function WrongGuess(k: Check, i: nat): Guess
    requires k.code.Some?
  {
    Guess(k.conv, i, k.code.value, k.now, false, Fresh)
  }

  function WrongGuesses(k: Check, i: nat, n: nat): seq<Guess>
    requires k.code.Some?
  {
    seq(n, _ => WrongGuess(k, i))
  }

  /** `after` is `before` with other columns in memory for challenge `i`. */
  predicate HoldsOther(before: Desk, after: Desk, i: nat, held: Cols) {
    i < |before.challenges| && after == before.(challenges := before.challenges[i := before.challenges[i].(held := held)])
  }

  lemma WrongCheck(mac: Mac, w: World, k: Check, i: nat) returns (held: Cols)
    requires WrongFor(mac, w.desk, k, i)
    ensures var after := Step(mac, w, OnCheck(k));
            && HoldsOther(w.desk, after.desk, i, held) && held.attempts == w.desk.challenges[i].held.attempts + 1
            && after.codes == w.codes && after.guesses == w.guesses + [WrongGuess(k, i)]
  {
    assert CheckOutcome(mac, w.desk, k) == Incorrect(i);
    held := Checked(mac, w.desk, k).held;
  }

  /** `n` checks with one code at one time. */
  function Checks(mac: Mac, w: World, k: Check, n: nat): World {
    if n == 0 then w else Step(mac, Checks(mac, w, k, n - 1), OnCheck(k))
  }

  lemma HoldsOtherTwice(mac: Mac, a: Desk, b: Desk, c: Desk, k: Check, i: nat, u: Cols, v: Cols)
    requires HoldsOther(a, b, i, u)
    ensures HoldsOther(b, c, i, v) ==> HoldsOther(a, c, i, v)
    ensures WrongFor(mac, a, k, i) ==> WrongFor(mac, b, k, i)
    ensures b.challenges[i].held == u
  {
  }

  lemma OneMoreWrong(gs: seq<Guess>, k: Check, i: nat, n: nat)
    requires k.code.Some?
    ensures (gs + WrongGuesses(k, i, n)) + [WrongGuess(k, i)] == gs + WrongGuesses(k, i, n + 1)
  {
  }

  lemma AnotherWrongCheck(mac: Mac, w: World, before: World, k: Check, i: nat, n: nat, u: Cols) returns (held: Cols)
    requires WrongFor(mac, w.desk, k, i)
    requires HoldsOther(w.desk, before.desk, i, u) && u.attempts == w.desk.challenges[i].held.attempts + n
    requires before.codes == w.codes && before.guesses == w.guesses + WrongGuesses(k, i, n)
    ensures var after := Step(mac, before, OnCheck(k));
            && HoldsOther(w.desk, after.desk, i, held) && held.attempts == u.attempts + 1
            && after.codes == w.codes && after.guesses == w.guesses + WrongGuesses(k, i, n + 1)
  {
    HoldsOtherTwice(mac, w.desk, before.desk, before.desk, k, i, u, u);
    held := WrongCheck(mac, before, k, i);
    HoldsOtherTwice(mac, w.desk, before.desk, Step(mac, before, OnCheck(k)).desk, k, i, u, held);
    OneMoreWrong(w.guesses, k, i, n);
  }

  /** However many, wrong checks change only what the challenge holds in memory, and all are compared. */
  lemma {:induction false} WrongChecks(mac: Mac, w: World, k: Check, i: nat, n: nat) returns (held: Cols)
    requires WrongFor(mac, w.desk, k, i)
    ensures var after := Checks(mac, w, k, n);
            && HoldsOther(w.desk, after.desk, i, held) && held.attempts == w.desk.challenges[i].held.attempts + n
            && after.codes == w.codes && after.guesses == w.guesses + WrongGuesses(k, i, n)
  {
    if n == 0 {
      held := w.desk.challenges[i].held;
    } else {
      held := WrongChecks(mac, w, k, i, n - 1);
      held := AnotherWrongCheck(mac, w, Checks(mac, w, k, n - 1), k, i, n - 1, held);
    }
  }

  /**
   A turn whose wrong checks bring the attempts in memory above five leaves the desk as if it had
   aborted before them, although each was compared.
   */
  lemma ForgottenTurn(mac: Mac, w: World, k: Check, i: nat, n: nat, now: int)
    requires WrongFor(mac, w.desk, k, i)
    requires w.desk.challenges[i].held.attempts + n > MAX_ATTEMPTS
    ensures Step(mac, Checks(mac, w, k, n), OnEnd(k.conv, false, now))
         == World(AfterEnd(w.desk, k.conv, true), w.codes, Fated(w.guesses + WrongGuesses(k, i, n), k.conv, RollsBack))
  {
    var held := WrongChecks(mac, w, k, i, n);
    HeldIsRolledBack(w.desk, Checks(mac, w, k, n).desk, k.conv, i, held);
  }

  lemma HeldIsRolledBack(before: Desk, after: Desk, conv: Conv, i: nat, held: Cols)
    requires HoldsOther(before, after, i, held) && before.challenges[i].conv == conv && held.attempts > MAX_ATTEMPTS
    ensures AfterEnd(after, conv, false) == AfterEnd(before, conv, true)
    ensures EndSettling(after, conv, false) == RollsBack
  {
    assert after.challenges[i].conv == conv && after.challenges[i].held == held;
    assert SettledRows(after.challenges, conv, RollsBack) == SettledRows(before.challenges, conv, RollsBack);
  }

  /** One wrong check is forgotten, as any number is, if the next flush of the turn is refused. */
  lemma RefusedTurn(mac: Mac, w: World, k: Check, i: nat, n: nat, commits: bool, now: int)
    requires WrongFor(mac, w.desk, k, i)
    ensures var refused := Step(mac, Checks(mac, w, k, n), OnFlush(k.conv, commits, true, now));
            && refused.desk.broken == w.desk.broken + {k.conv}
            && refused.desk.challenges == SettledRows(w.desk.challenges, k.conv, RollsBack)
            && Step(mac, refused, OnEnd(k.conv, false, now))
            == World(AfterEnd(w.desk, k.conv, true), w.codes, Fated(w.guesses + WrongGuesses(k, i, n), k.conv, RollsBack))
  {
    var held := WrongChecks(mac, w, k, i, n);
    var checked := Checks(mac, w, k, n);
    HeldIsForgotten(w.desk, checked.desk, k.conv, i, held);
    RollsBackOnce(mac, checked, k.conv, commits, now);
  }

  /** What is held in memory alone does not survive a rollback. */
  lemma HeldIsForgotten(before: Desk, after: Desk, conv: Conv, i: nat, held: Cols)
    requires HoldsOther(before, after, i, held) && before.challenges[i].conv == conv
    ensures AfterEnd(after, conv, true) == AfterEnd(before, conv, true)
    ensures SettledRows(after.challenges, conv, RollsBack) == SettledRows(before.challenges, conv, RollsBack)
  {
    assert after.challenges[i].conv == conv;
    assert SettledRows(after.challenges, conv, RollsBack) == SettledRows(before.challenges, conv, RollsBack);
  }

  /** A refused flush rolls back; nothing is left for the end of the turn. */
  lemma RollsBackOnce(mac: Mac, w: World, conv: Conv, commits: bool, now: int)
    requires conv !in w.desk.broken
    ensures var refused := Step(mac, w, OnFlush(conv, commits, true, now));
            && refused.desk.broken == w.desk.broken + {conv}
            && refused.desk.challenges == SettledRows(w.desk.challenges, conv, RollsBack)
            && Step(mac, refused, OnEnd(conv, false, now))
            == World(AfterEnd(w.desk, conv, true), w.codes, Fated(w.guesses, conv, RollsBack))
  {
    var d := w.desk;
    var rows, gs := SettledRows(d.challenges, conv, RollsBack), Fated(w.guesses, conv, RollsBack);
    assert SettledRows(rows, conv, RollsBack) == rows;
    assert Fated(gs, conv, RollsBack) == gs;
    var grants := CopyGrant(d.keptGrants, d.grants, conv);
    assert CopyGrant(d.keptGrants, grants, conv) == grants;
    assert d.broken + {conv} - {conv} == d.broken - {conv};
  }

  // ---------------------------------------------------------------- no bound on comparisons

  /** Tool calls since the last turn ended. */
  function Calls(es: seq<Event>): nat {
    if es == [] || es[|es| - 1].OnEnd? then 0 else Calls(es[..|es| - 1]) + 1
  }

  /** No turn runs more tools than it may, and none aborts. */
  predicate Ordinary(es: seq<Event>) {
    && (forall e <- es :: !(e.OnEnd? && e.aborts))
    && (forall m :: 0 <= m <= |es| ==> CallsAt(es, m) <= Turn.MAX_TOOL_CALLS)
  }

  function CallsAt(es: seq<Event>, m: nat): nat
    requires m <= |es|
  {
    Calls(es[..m])
  }

  lemma AddEvent(mac: Mac, es: seq<Event>, e: Event)
    ensures Run(mac, es + [e]) == Step(mac, Run(mac, es), e)
  {
    assert (es + [e])[..|es|] == es;
  }

  lemma AddOrdinary(es: seq<Event>, e: Event)
    requires Ordinary(es) && !(e.OnEnd? && e.aborts) && (Calls(es) < Turn.MAX_TOOL_CALLS || e.OnEnd?)
    ensures Ordinary(es + [e]) && Calls(es + [e]) == if e.OnEnd? then 0 else Calls(es) + 1
  {
    var more := es + [e];
    assert more[..|es|] == es;
    forall m | 0 <= m <= |more| ensures CallsAt(more, m) <= Turn.MAX_TOOL_CALLS {
      if m <= |es| {
        assert more[..m] == es[..m] && CallsAt(es, m) <= Turn.MAX_TOOL_CALLS;
      } else {
        assert more[..m] == more;
      }
    }
  }

  lemma AddNoneRefused(es: seq<Event>, e: Event, conv: Conv)
    requires NoneRefused(es, conv) && !Refused(e)
    ensures NoneRefused(es + [e], conv)
  {
  }

  /** `es`, followed by `n` checks. */
  function WithChecks(es: seq<Event>, k: Check, n: nat): seq<Event> {
    if n == 0 then es else WithChecks(es, k, n - 1) + [OnCheck(k)]
  }

  /** `es`, followed by a turn of `n` checks and, if `refusing`, a tool whose flush is refused. */
  function WithTurn(es: seq<Event>, k: Check, n: nat, refusing: bool): seq<Event> {
    var checked := WithChecks(es, k, n);
    (if refusing then checked + [OnFlush(k.conv, true, true, k.now)] else checked) + [OnEnd(k.conv, false, k.now)]
  }

  /** `es`, followed by such turns at the given times. */
  function WithTurns(es: seq<Event>, k: Check, n: nat, refusing: bool, times: seq<int>): seq<Event> {
    if times == [] then es
    else
      var last := |times| - 1;
      WithTurn(WithTurns(es, k, n, refusing, times[..last]), k.(now := times[last]), n, refusing)
  }

  /** A run that is over by `t`. */
  predicate OverBy(es: seq<Event>, t: int) {
    Chronological(es) && (es != [] ==> Clock(es) <= t)
  }

  lemma {:induction false} ChecksAreTimed(es: seq<Event>, k: Check, n: nat)
    requires OverBy(es, k.now)
    ensures OverBy(WithChecks(es, k, n), k.now)
  {
    if n > 0 {
      ChecksAreTimed(es, k, n - 1);
    }
  }

  lemma TurnIsTimed(es: seq<Event>, k: Check, n: nat, refusing: bool)
    requires OverBy(es, k.now)
    ensures OverBy(WithTurn(es, k, n, refusing), k.now)
  {
    ChecksAreTimed(es, k, n);
  }

  lemma {:induction false} ChecksAreOrdinary(es: seq<Event>, k: Check, n: nat)
    requires Ordinary(es) && Calls(es) + n <= Turn.MAX_TOOL_CALLS
    ensures Ordinary(WithChecks(es, k, n)) && Calls(WithChecks(es, k, n)) == Calls(es) + n
  {
    if n > 0 {
      var before := WithChecks(es, k, n - 1);
      ChecksAreOrdinary(es, k, n - 1);
      AddOrdinary(before, OnCheck(k));
      assert WithChecks(es, k, n) == before + [OnCheck(k)];
    }
  }

  lemma TurnIsOrdinary(es: seq<Event>, k: Check, n: nat, refusing: bool)
    requires Ordinary(es) && Calls(es) == 0 && n + (if refusing then 1 else 0) <= Turn.MAX_TOOL_CALLS
    ensures Ordinary(WithTurn(es, k, n, refusing)) && Calls(WithTurn(es, k, n, refusing)) == 0
  {
    var checked, flush := WithChecks(es, k, n), OnFlush(k.conv, true, true, k.now);
    ChecksAreOrdinary(es, k, n);
    if refusing {
      AddOrdinary(checked, flush);
    }
    AddOrdinary(if refusing then checked + [flush] else checked, OnEnd(k.conv, false, k.now));
  }

  /** Ascending times from `lo` on and before `hi`. */
  predicate TimesWithin(times: seq<int>, lo: int, hi: int) {
    && (forall a :: 0 <= a < |times| ==> lo <= times[a] < hi)
    && (forall a, b :: 0 <= a < b < |times| ==> times[a] <= times[b])
  }

  lemma EarlierTimes(times: seq<int>, lo: int, hi: int)
    requires TimesWithin(times, lo, hi) && times != []
    ensures var n := |times| - 1;
            TimesWithin(times[..n], lo, hi) && LastTime(times[..n], lo) <= times[n]
  {
  }

  function LastTime(times: seq<int>, lo: int): int {
    if times == [] then lo else times[|times| - 1]
  }

  lemma {:induction false} TurnsAreTimed(es: seq<Event>, k: Check, n: nat, refusing: bool, times: seq<int>, hi: int)
    requires OverBy(es, k.now) && TimesWithin(times, k.now, hi)
    ensures OverBy(WithTurns(es, k, n, refusing, times), LastTime(times, k.now))
  {
    if times != [] {
      var last := |times| - 1;
      EarlierTimes(times, k.now, hi);
      TurnsAreTimed(es, k, n, refusing, times[..last], hi);
      TurnIsTimed(WithTurns(es, k, n, refusing, times[..last]), k.(now := times[last]), n, refusing);
    }
  }

  lemma {:induction false} TurnsAreOrdinary(es: seq<Event>, k: Check, n: nat, refusing: bool, times: seq<int>)
    requires Ordinary(es) && Calls(es) == 0 && n + (if refusing then 1 else 0) <= Turn.MAX_TOOL_CALLS
    ensures Ordinary(WithTurns(es, k, n, refusing, times)) && Calls(WithTurns(es, k, n, refusing, times)) == 0
  {
    if times != [] {
      var last := |times| - 1;
      TurnsAreOrdinary(es, k, n, refusing, times[..last]);
      TurnIsOrdinary(WithTurns(es, k, n, refusing, times[..last]), k.(now := times[last]), n, refusing);
    }
  }

  lemma {:induction false} ChecksAreNotRefused(es: seq<Event>, k: Check, n: nat)
    requires NoneRefused(es, k.conv)
    ensures NoneRefused(WithChecks(es, k, n), k.conv)
  {
    if n > 0 {
      ChecksAreNotRefused(es, k, n - 1);
      AddNoneRefused(WithChecks(es, k, n - 1), OnCheck(k), k.conv);
    }
  }

  lemma TurnIsNotRefused(es: seq<Event>, k: Check, n: nat)
    requires NoneRefused(es, k.conv)
    ensures NoneRefused(WithTurn(es, k, n, false), k.conv)
  {
    ChecksAreNotRefused(es, k, n);
    AddNoneRefused(WithChecks(es, k, n), OnEnd(k.conv, false, k.now), k.conv);
  }

  lemma {:induction false} TurnsAreNotRefused(es: seq<Event>, k: Check, n: nat, times: seq<int>)
    requires NoneRefused(es, k.conv)
    ensures NoneRefused(WithTurns(es, k, n, false, times), k.conv)
  {
    if times != [] {
      var last := |times| - 1;
      TurnsAreNotRefused(es, k, n, times[..last]);
      TurnIsNotRefused(WithTurns(es, k, n, false, times[..last]), k.(now := times[last]), n);
    }
  }

  lemma {:induction false} RunOfChecks(mac: Mac, es: seq<Event>, k: Check, n: nat)
    ensures Run(mac, WithChecks(es, k, n)) == Checks(mac, Run(mac, es), k, n)
  {
    if n > 0 {
      RunOfChecks(mac, es, k, n - 1);
      AddEvent(mac, WithChecks(es, k, n - 1), OnCheck(k));
    }
  }

  lemma HeldFits(before: Desk, after: Desk, conv: Conv, i: nat, held: Cols)
    requires HoldsOther(before, after, i, held) && Flushable(before.challenges, conv) && held.attempts <= MAX_ATTEMPTS
    ensures Flushable(after.challenges, conv)
  {
    forall j | 0 <= j < |after.challenges| && after.challenges[j].conv == conv
      ensures after.challenges[j].held.attempts <= MAX_ATTEMPTS
    {
      assert j != i ==> after.challenges[j] == before.challenges[j];
    }
  }

  /** With `n` checks more the challenge stays within five. */
  predicate Fits(d: Desk, conv: Conv, i: nat, n: nat) {
    i < |d.challenges| && Flushable(d.challenges, conv) && d.challenges[i].held.attempts + n <= MAX_ATTEMPTS
  }

  lemma {:induction false} PrefixOfChecks(es: seq<Event>, k: Check, n: nat, m: nat)
    requires m <= |es| + n
    ensures |WithChecks(es, k, n)| == |es| + n
    ensures WithChecks(es, k, n)[..m] == if m <= |es| then es[..m] else WithChecks(es, k, m - |es|)
  {
    if n > 0 {
      var before := WithChecks(es, k, n - 1);
      PrefixOfChecks(es, k, n - 1, if m == |es| + n then m - 1 else m);
      if m == |es| + n {
        assert WithChecks(es, k, n)[..m] == WithChecks(es, k, n);
      } else {
        assert (before + [OnCheck(k)])[..m] == before[..m];
      }
    }
  }

  /** No row is over five after `n` checks more. */
  predicate FlushableAfter(mac: Mac, es: seq<Event>, k: Check, n: nat) {
    Flushable(Run(mac, WithChecks(es, k, n)).desk.challenges, k.conv)
  }

  lemma SamePrefix(mac: Mac, es: seq<Event>, more: seq<Event>, conv: Conv, m: nat)
    requires m <= |es| && m <= |more| && more[..m] == es[..m] && NeverOverFive(mac, es, conv)
    ensures FlushableAt(mac, more, conv, m)
  {
    assert FlushableAt(mac, es, conv, m);
  }

  lemma ChecksPassPrefix(mac: Mac, es: seq<Event>, k: Check, n: nat, m: nat)
    requires NeverOverFive(mac, es, k.conv) && (forall j :: 0 <= j <= n ==> FlushableAfter(mac, es, k, j))
    requires m <= |es| + n
    ensures m <= |WithChecks(es, k, n)| && FlushableAt(mac, WithChecks(es, k, n), k.conv, m)
  {
    PrefixOfChecks(es, k, n, m);
    if m <= |es| {
      SamePrefix(mac, es, WithChecks(es, k, n), k.conv, m);
    } else {
      assert FlushableAfter(mac, es, k, m - |es|);
    }
  }

  lemma ChecksNeverOverFive(mac: Mac, es: seq<Event>, k: Check, n: nat)
    requires NeverOverFive(mac, es, k.conv) && (forall j :: 0 <= j <= n ==> FlushableAfter(mac, es, k, j))
    ensures NeverOverFive(mac, WithChecks(es, k, n), k.conv)
  {
    PrefixOfChecks(es, k, n, 0);
    forall m | 0 <= m <= |es| + n ensures FlushableAt(mac, WithChecks(es, k, n), k.conv, m) {
      ChecksPassPrefix(mac, es, k, n, m);
    }
  }

  /** While the checks fit, no row is over five. */
  lemma ChecksFit(mac: Mac, es: seq<Event>, w: World, k: Check, i: nat, n: nat)
    requires NeverOverFive(mac, es, k.conv) && Run(mac, es) == w
    requires WrongFor(mac, w.desk, k, i) && Fits(w.desk, k.conv, i, n)
    ensures NeverOverFive(mac, WithChecks(es, k, n), k.conv)
  {
    forall j | 0 <= j <= n ensures FlushableAfter(mac, es, k, j) {
      AfterChecksFits(mac, es, w, k, i, j);
    }
    ChecksNeverOverFive(mac, es, k, n);
  }

  lemma AfterChecksFits(mac: Mac, es: seq<Event>, w: World, k: Check, i: nat, n: nat)
    requires Run(mac, es) == w && WrongFor(mac, w.desk, k, i) && Fits(w.desk, k.conv, i, n)
    ensures FlushableAfter(mac, es, k, n)
  {
    RunOfChecks(mac, es, k, n);
    CheckedIsFlushable(mac, w, k, i, n);
  }

  lemma CheckedIsFlushable(mac: Mac, w: World, k: Check, i: nat, n: nat)
    requires WrongFor(mac, w.desk, k, i) && Fits(w.desk, k.conv, i, n)
    ensures Flushable(Checks(mac, w, k, n).desk.challenges, k.conv)
  {
    var held := WrongChecks(mac, w, k, i, n);
    HeldFits(w.desk, Checks(mac, w, k, n).desk, k.conv, i, held);
  }

  lemma {:induction false} CountWrong(k: Check, i: nat, n: nat, lo: int, hi: int)
    requires k.code.Some? && lo <= k.now <= hi
    ensures SumOf(GuessIn(k.conv, lo, hi, true), WrongGuesses(k, i, n)) == n
  {
    if n > 0 {
      CountWrong(k, i, n - 1, lo, hi);
      OneMoreWrong([], k, i, n - 1);
      assert [] + WrongGuesses(k, i, n - 1) == WrongGuesses(k, i, n - 1) && [] + WrongGuesses(k, i, n) == WrongGuesses(k, i, n);
      SumOfLast(GuessIn(k.conv, lo, hi, true), WrongGuesses(k, i, n - 1), WrongGuess(k, i));
    }
  }

  lemma CountForgotten(gs: seq<Guess>, k: Check, i: nat, n: nat, lo: int, hi: int)
    requires k.code.Some? && lo <= k.now <= hi
    ensures SumOf(GuessIn(k.conv, lo, hi, true), Fated(gs + WrongGuesses(k, i, n), k.conv, RollsBack))
         == SumOf(GuessIn(k.conv, lo, hi, true), gs) + n
  {
    var all, f := gs + WrongGuesses(k, i, n), GuessIn(k.conv, lo, hi, true);
    SumOfSame(f, Fated(all, k.conv, RollsBack), f, all);
    SumOfConcat(f, gs, WrongGuesses(k, i, n));
    CountWrong(k, i, n, lo, hi);
  }

  /** `conv` has nothing pending, so a turn of it that is rolled back changes nothing. */
  predicate Settles(d: Desk, conv: Conv) {
    AfterEnd(d, conv, true) == d && Flushable(d.challenges, conv)
  }

  /** A turn of `n` wrong checks would be forgotten: it ends over five, or some other tool has its flush refused. */
  predicate Forgets(mac: Mac, d: Desk, k: Check, i: nat, n: nat, refusing: bool) {
    && WrongFor(mac, d, k, i) && Settles(d, k.conv)
    && if refusing then d.challenges[i].held.attempts + n <= MAX_ATTEMPTS && n < Turn.MAX_TOOL_CALLS
       else d.challenges[i].held.attempts + n > MAX_ATTEMPTS && n <= Turn.MAX_TOOL_CALLS
  }

  lemma ForgetsLater(mac: Mac, d: Desk, k: Check, i: nat, n: nat, refusing: bool, t: int)
    requires Forgets(mac, d, k, i, n, refusing) && k.now <= t < d.challenges[i].expiresAt
    ensures Forgets(mac, d, k.(now := t), i, n, refusing)
  {
  }

  /** A turn that is forgotten leaves the desk as it was, and its comparisons lost. */
  lemma RunOfTurn(mac: Mac, es: seq<Event>, w: World, k: Check, i: nat, n: nat, refusing: bool)
    requires Run(mac, es) == w && Forgets(mac, w.desk, k, i, n, refusing)
    ensures Run(mac, WithTurn(es, k, n, refusing))
         == World(w.desk, w.codes, Fated(w.guesses + WrongGuesses(k, i, n), k.conv, RollsBack))
  {
    var checked, flush, end := WithChecks(es, k, n), OnFlush(k.conv, true, true, k.now), OnEnd(k.conv, false, k.now);
    RunOfChecks(mac, es, k, n);
    if refusing {
      RefusedTurn(mac, w, k, i, n, true, k.now);
      AddEvent(mac, checked, flush);
      AddEvent(mac, checked + [flush], end);
    } else {
      ForgottenTurn(mac, w, k, i, n, k.now);
      AddEvent(mac, checked, end);
    }
  }

  lemma TurnFits(mac: Mac, es: seq<Event>, w: World, k: Check, i: nat, n: nat)
    requires Run(mac, es) == w && Forgets(mac, w.desk, k, i, n, true) && NeverOverFive(mac, es, k.conv)
    ensures NeverOverFive(mac, WithTurn(es, k, n, true), k.conv)
  {
    var checked, flush, end := WithChecks(es, k, n), OnFlush(k.conv, true, true, k.now), OnEnd(k.conv, false, k.now);
    ChecksFit(mac, es, w, k, i, n);
    RunOfChecks(mac, es, k, n);
    RefusedTurn(mac, w, k, i, n, true, k.now);
    AddEvent(mac, checked, flush);
    AddNeverOverFive(mac, checked, flush, k.conv);
    AddEvent(mac, checked + [flush], end);
    AddNeverOverFive(mac, checked + [flush], end, k.conv);
  }

  /** How many codes the run compares for `conv` from `lo` to `hi`, counted or not. */
  function ComparedIn(mac: Mac, es: seq<Event>, conv: Conv, lo: int, hi: int): int {
    SumOf(GuessIn(conv, lo, hi, true), Run(mac, es).guesses)
  }

  /** However many turns are forgotten, at whatever times in the code's life, the desk stays as it is. */
  lemma {:induction false} ForgottenTurns(mac: Mac, es: seq<Event>, d: Desk, k: Check, i: nat, n: nat, refusing: bool,
                                          times: seq<int>, hi: int)
    requires Run(mac, es).desk == d && Forgets(mac, d, k, i, n, refusing)
    requires hi == d.challenges[i].expiresAt && TimesWithin(times, k.now, hi)
    ensures Run(mac, WithTurns(es, k, n, refusing, times)).desk == d
    ensures ComparedIn(mac, WithTurns(es, k, n, refusing, times), k.conv, k.now, hi)
         == ComparedIn(mac, es, k.conv, k.now, hi) + n * |times|
  {
    if times != [] {
      var last := |times| - 1;
      var before, later := WithTurns(es, k, n, refusing, times[..last]), k.(now := times[last]);
      EarlierTimes(times, k.now, hi);
      ForgottenTurns(mac, es, d, k, i, n, refusing, times[..last], hi);
      ForgetsLater(mac, d, k, i, n, refusing, times[last]);
      RunOfTurn(mac, before, Run(mac, before), later, i, n, refusing);
      CountForgotten(Run(mac, before).guesses, later, i, n, k.now, hi);
      assert n * |times| == n * last + n;
    }
  }

  lemma {:induction false} RefusedTurnsFit(mac: Mac, es: seq<Event>, d: Desk, k: Check, i: nat, n: nat, times: seq<int>, hi: int)
    requires Run(mac, es).desk == d && Forgets(mac, d, k, i, n, true) && NeverOverFive(mac, es, k.conv)
    requires hi == d.challenges[i].expiresAt && TimesWithin(times, k.now, hi)
    ensures NeverOverFive(mac, WithTurns(es, k, n, true, times), k.conv)
  {
    if times != [] {
      var last := |times| - 1;
      var before := WithTurns(es, k, n, true, times[..last]);
      EarlierTimes(times, k.now, hi);
      RefusedTurnsFit(mac, es, d, k, i, n, times[..last], hi);
      ForgottenTurns(mac, es, d, k, i, n, true, times[..last], hi);
      ForgetsLater(mac, d, k, i, n, true, times[last]);
      TurnFits(mac, before, Run(mac, before), k.(now := times[last]), i, n);
    }
  }

  predicate FirstCode(mac: Mac, s: Send, k: Check) {
    && s.leadId.Some? && s.delivery.Delivered? && s.now <= s.createdAt
    && k.conv == s.conv && s.createdAt <= k.now < s.now + CODE_LIFE
    && k.code.Some?
    && Digest(mac, s.conv, s.leadId.value, k.code.value) != Digest(mac, s.conv, s.leadId.value, s.code)
  }

  /** The desk with one code issued, some checks of it counted and some of them pending. */
  function OneCode(mac: Mac, s: Send, counted: int, held: int): Desk
    requires s.leadId.Some?
  {
    var c, h := Cols(counted, None), Cols(held, None);
    Desk([NewChallenge(mac, s, s.leadId.value).(kept := c, stored := c, held := h)], map[], map[], {})
  }

  lemma FirstIsSent(mac: Mac, s: Send, k: Check)
    requires FirstCode(mac, s, k)
    ensures Step(mac, World(Desk([], map[], map[], {}), [], []), OnSend(s)) == World(OneCode(mac, s, 0, 0), [s.code], [])
  {
  }

  lemma FirstIsWrong(mac: Mac, s: Send, k: Check, counted: int)
    requires FirstCode(mac, s, k) && counted < MAX_ATTEMPTS
    ensures WrongFor(mac, OneCode(mac, s, counted, counted), k, 0)
  {
  }

  lemma FirstIsChecked(mac: Mac, s: Send, k: Check, w: World)
    requires FirstCode(mac, s, k) && w == World(OneCode(mac, s, 0, 0), [s.code], [])
    ensures Step(mac, w, OnCheck(k)) == World(OneCode(mac, s, 0, 1), [s.code], [WrongGuess(k, 0)])
  {
    FirstIsWrong(mac, s, k, 0);
    var c := w.desk.challenges[0];
    assert CheckOutcome(mac, w.desk, k) == Incorrect(0);
    assert w.desk.challenges[0 := c.(held := Cols(1, None))] == [c.(held := Cols(1, None))];
    assert w.guesses + [WrongGuess(k, 0)] == [WrongGuess(k, 0)];
  }

  lemma FirstIsKept(mac: Mac, s: Send, k: Check, w: World)
    requires FirstCode(mac, s, k) && w == World(OneCode(mac, s, 0, 1), [s.code], [WrongGuess(k, 0)])
    ensures Step(mac, w, OnEnd(k.conv, false, k.now)) == World(OneCode(mac, s, 1, 1), [s.code], [WrongGuess(k, 0).(fate := Kept)])
  {
    assert Flushable(w.desk.challenges, k.conv);
    assert SettledRows(w.desk.challenges, k.conv, Commits) == OneCode(mac, s, 1, 1).challenges;
    assert Fated(w.guesses, k.conv, Commits) == [WrongGuess(k, 0).(fate := Kept)];
  }

  lemma OneCodeSettles(mac: Mac, s: Send, conv: Conv, counted: int)
    requires s.leadId.Some? && counted <= MAX_ATTEMPTS
    ensures Settles(OneCode(mac, s, counted, counted), conv)
    ensures SettledRows(OneCode(mac, s, counted, counted).challenges, conv, Commits)
         == OneCode(mac, s, counted, counted).challenges
  {
    var d := OneCode(mac, s, counted, counted);
    assert SettledRows(d.challenges, conv, RollsBack) == d.challenges;
  }

  lemma FirstIsSettled(mac: Mac, s: Send, k: Check, w: World)
    requires FirstCode(mac, s, k) && w == World(OneCode(mac, s, 0, 0), [s.code], [])
    ensures Step(mac, w, OnEnd(k.conv, false, s.createdAt)) == w
  {
    OneCodeSettles(mac, s, k.conv, 0);
    assert Fated([], k.conv, Commits) == [];
  }

  /** A code is sent, and its turn ends. */
  function SendingTurn(s: Send): seq<Event> {
    [OnSend(s)] + [OnEnd(s.conv, false, s.createdAt)]
  }

  lemma RunOfSending(mac: Mac, s: Send, k: Check)
    requires FirstCode(mac, s, k)
    ensures Run(mac, SendingTurn(s)) == World(OneCode(mac, s, 0, 0), [s.code], [])
    ensures NeverOverFive(mac, SendingTurn(s), s.conv)
  {
    AddEvent(mac, [], OnSend(s));
    FirstIsSent(mac, s, k);
    assert [] + [OnSend(s)] == [OnSend(s)];
    OneCodeSettles(mac, s, k.conv, 0);
    assert FlushableAt(mac, [], s.conv, 0);
    AddNeverOverFive(mac, [], OnSend(s), s.conv);
    FirstIsSettled(mac, s, k, Run(mac, [OnSend(s)]));
    AddEvent(mac, [OnSend(s)], OnEnd(s.conv, false, s.createdAt));
    AddNeverOverFive(mac, [OnSend(s)], OnEnd(s.conv, false, s.createdAt), s.conv);
  }

  lemma SendingIsOrdinary(s: Send)
    ensures Ordinary(SendingTurn(s)) && Calls(SendingTurn(s)) == 0
    ensures NoneRefused(SendingTurn(s), s.conv)
  {
    assert [] + [OnSend(s)] == [OnSend(s)];
    AddOrdinary([], OnSend(s));
    AddOrdinary([OnSend(s)], OnEnd(s.conv, false, s.createdAt));
    AddNoneRefused([], OnSend(s), s.conv);
    AddNoneRefused([OnSend(s)], OnEnd(s.conv, false, s.createdAt), s.conv);
  }

  /** A code is sent in one turn, and checked in the next with a wrong code, which is counted. */
  function CheckingTurn(s: Send, k: Check): seq<Event> {
    WithTurn(SendingTurn(s), k, 1, false)
  }

  lemma RunOfChecking(mac: Mac, s: Send, k: Check)
    requires FirstCode(mac, s, k)
    ensures Run(mac, CheckingTurn(s, k)) == World(OneCode(mac, s, 1, 1), [s.code], [WrongGuess(k, 0).(fate := Kept)])
  {
    var sent, end := SendingTurn(s), OnEnd(k.conv, false, k.now);
    RunOfSending(mac, s, k);
    FirstIsChecked(mac, s, k, Run(mac, sent));
    RunOfChecks(mac, sent, k, 1);
    assert Checks(mac, Run(mac, sent), k, 1) == Step(mac, Checks(mac, Run(mac, sent), k, 0), OnCheck(k));
    FirstIsKept(mac, s, k, Run(mac, WithChecks(sent, k, 1)));
    AddEvent(mac, WithChecks(sent, k, 1), end);
  }

  /** A run whose last turn has ended by `k.now`, none of them out of the ordinary. */
  predicate BetweenTurns(es: seq<Event>, k: Check) {
    OverBy(es, k.now) && Ordinary(es) && Calls(es) == 0
  }

  lemma TurnsAreBetweenTurns(es: seq<Event>, k: Check, n: nat, refusing: bool, times: seq<int>, hi: int)
    requires BetweenTurns(es, k) && TimesWithin(times, k.now, hi)
    requires n + (if refusing then 1 else 0) <= Turn.MAX_TOOL_CALLS
    ensures Chronological(WithTurns(es, k, n, refusing, times)) && Ordinary(WithTurns(es, k, n, refusing, times))
  {
    TurnsAreTimed(es, k, n, refusing, times, hi);
    TurnsAreOrdinary(es, k, n, refusing, times);
  }

  /**
   Nothing but the time that turns take bounds the codes compared with one challenge in its five minutes,
   even if no turn runs more tools than it may and nothing is refused: once one attempt is counted, every
   turn of five wrong checks, at whatever times, compares five codes and is rolled back.
   */
  lemma ComparisonsHaveNoBound(mac: Mac, es: seq<Event>, d: Desk, k: Check, i: nat, times: seq<int>, hi: int)
    requires BetweenTurns(es, k) && NoneRefused(es, k.conv) && Run(mac, es).desk == d
    requires WrongFor(mac, d, k, i) && Settles(d, k.conv) && d.challenges[i].kept.attempts >= 1
    requires hi == d.challenges[i].expiresAt && TimesWithin(times, k.now, hi)
    ensures var more := WithTurns(es, k, 5, false, times);
            && Chronological(more) && Ordinary(more) && NoneRefused(more, k.conv)
            && Run(mac, more).desk == d
            && ComparedIn(mac, more, k.conv, k.now, hi) == ComparedIn(mac, es, k.conv, k.now, hi) + 5 * |times|
  {
    TurnsAreBetweenTurns(es, k, 5, false, times, hi);
    TurnsAreNotRefused(es, k, 5, times);
    SettledIsKept(d, k.conv, i);
    ForgottenTurns(mac, es, d, k, i, 5, false, times, hi);
  }

  /**
   Nor are they bounded if no row ever holds more than five attempts: with one attempt counted at most,
   every turn of four wrong checks and a tool whose flush is refused, at whatever times, compares four
   codes and is rolled back.
   */
  lemma RefusalsHaveNoBound(mac: Mac, es: seq<Event>, d: Desk, k: Check, i: nat, times: seq<int>, hi: int)
    requires BetweenTurns(es, k) && NeverOverFive(mac, es, k.conv) && Run(mac, es).desk == d
    requires WrongFor(mac, d, k, i) && Settles(d, k.conv) && d.challenges[i].kept.attempts <= 1
    requires hi == d.challenges[i].expiresAt && TimesWithin(times, k.now, hi)
    ensures var more := WithTurns(es, k, 4, true, times);
            && Chronological(more) && Ordinary(more) && NeverOverFive(mac, more, k.conv)
            && Run(mac, more).desk == d
            && ComparedIn(mac, more, k.conv, k.now, hi) == ComparedIn(mac, es, k.conv, k.now, hi) + 4 * |times|
  {
    TurnsAreBetweenTurns(es, k, 4, true, times, hi);
    SettledIsKept(d, k.conv, i);
    ForgottenTurns(mac, es, d, k, i, 4, true, times, hi);
    RefusedTurnsFit(mac, es, d, k, i, 4, times, hi);
  }

  lemma SettledIsKept(d: Desk, conv: Conv, i: nat)
    requires Settles(d, conv) && i < |d.challenges| && d.challenges[i].conv == conv
    ensures d.challenges[i].held == d.challenges[i].kept
  {
    assert SettledRows(d.challenges, conv, RollsBack)[i] == d.challenges[i];
  }

  /** Runs to begin with: a code is sent, and in a second turn checked wrongly. */
  lemma SuchRunsExist(mac: Mac, s: Send, k: Check)
    requires FirstCode(mac, s, k)
    ensures BetweenTurns(SendingTurn(s), k) && NoneRefused(SendingTurn(s), k.conv) && NeverOverFive(mac, SendingTurn(s), k.conv)
    ensures BetweenTurns(CheckingTurn(s, k), k) && NoneRefused(CheckingTurn(s, k), k.conv)
    ensures Run(mac, SendingTurn(s)).desk == OneCode(mac, s, 0, 0)
    ensures Run(mac, CheckingTurn(s, k)).desk == OneCode(mac, s, 1, 1)
    ensures forall n | 0 <= n <= 1 :: WrongFor(mac, OneCode(mac, s, n, n), k, 0) && Settles(OneCode(mac, s, n, n), k.conv)
  {
    SendingIsOrdinary(s);
    TurnIsTimed(SendingTurn(s), k, 1, false);
    TurnIsOrdinary(SendingTurn(s), k, 1, false);
    TurnIsNotRefused(SendingTurn(s), k, 1);
    RunOfSending(mac, s, k);
    RunOfChecking(mac, s, k);
    forall n | 0 <= n <= 1 ensures WrongFor(mac, OneCode(mac, s, n, n), k, 0) && Settles(OneCode(mac, s, n, n), k.conv) {
      FirstIsWrong(mac, s, k, n);
      OneCodeSettles(mac, s, k.conv, n);
    }
  }
}
