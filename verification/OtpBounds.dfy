/** How many codes are issued, compared and counted, over every run. */
module OtpBounds {
  import opened Wrappers
  import opened Sums
  import opened Otp
  import opened OtpRuns

  // ---------------------------------------------------------------- when checks are counted

  /** Checks of challenge `i` since its transaction was last flushed. */
  function FreshOn(i: nat): Guess -> int {
    (g: Guess) => if g.index == i && g.fate.Fresh? then 1 else 0
  }

  /** Every fresh guess on `i` fares as `fate` in `after`. */
  predicate FreshFare(before: seq<Guess>, after: seq<Guess>, i: nat, fate: Fate) {
    |before| <= |after| && forall j :: 0 <= j < |before| && before[j].index == i && before[j].fate.Fresh? ==> after[j].fate == fate
  }

  lemma HeldIsStoredAndFresh(c: Challenge, gs: seq<Guess>, i: nat)
    requires CountersAt(c, gs, i)
    ensures c.held.attempts == c.stored.attempts + SumOf(FreshOn(i), gs)
  {
    SumOfSplit(HeldOn(i), StoredOn(i), FreshOn(i), gs);
  }

  /** The challenge that queries can find is the only one of its conversation with anything pending. */
  lemma FlushableExactlyWhen(mac: Mac, w: World, clock: int, i: nat)
    requires Inv(mac, w, clock) && i < |w.desk.challenges| && w.desk.challenges[i].stored.usedAt.None?
    ensures Flushable(w.desk.challenges, w.desk.challenges[i].conv)
       <==> w.desk.challenges[i].stored.attempts + SumOf(FreshOn(i), w.guesses) <= MAX_ATTEMPTS
  {
    var cs := w.desk.challenges;
    assert ChallengeOk(cs[i], clock) && CountersAt(cs[i], w.guesses, i);
    HeldIsStoredAndFresh(cs[i], w.guesses, i);
    forall j | 0 <= j < |cs| && cs[j].conv == cs[i].conv && j != i ensures cs[j].held.attempts <= MAX_ATTEMPTS {
      assert ChallengeOk(cs[j], clock) && AtMostOneUnused(cs);
    }
  }

  /**
   The checks of an open challenge since the last flush are all counted, at the next flush and at the end
   of a turn, exactly when that is not refused and they and the stored attempts are at most five together.
   Otherwise every one of them is forgotten, and the challenge is as it was when it was last committed.
   */
  lemma CountedExactlyWhen(mac: Mac, w: World, clock: int, i: nat, e: Event)
    requires Inv(mac, w, clock) && i < |w.desk.challenges| && w.desk.challenges[i].stored.usedAt.None?
    requires e.OnFlush? || e.OnEnd?
    requires ConvOf(e) == w.desk.challenges[i].conv && ConvOf(e) !in w.desk.broken
    ensures var c, after, n := w.desk.challenges[i], Step(mac, w, e), SumOf(FreshOn(i), w.guesses);
            var fate := if e.OnEnd? || e.commits then Kept else Flushed;
            var counted := !Refused(e) && c.stored.attempts + n <= MAX_ATTEMPTS;
            && |after.desk.challenges| == |w.desk.challenges|
            && (counted ==>
                  && FreshFare(w.guesses, after.guesses, i, fate)
                  && after.desk.challenges[i].stored == after.desk.challenges[i].held == c.held
                  && c.held.attempts == c.stored.attempts + n)
            && (!counted ==>
                  && FreshFare(w.guesses, after.guesses, i, Lost)
                  && after.desk.challenges[i] == SettledRow(c, RollsBack))
            && (n > 0 ==>
                  && (counted <==> FreshFare(w.guesses, after.guesses, i, fate))
                  && (counted <==> after.desk.challenges[i].stored.attempts == c.stored.attempts + n))
  {
    var c, how := w.desk.challenges[i], Effect(w.desk, e).value;
    FlushableExactlyWhen(mac, w, clock, i);
    OtherEvents(mac, w, e);
    SameConversation(mac, w, clock, i);
    SettledFares(w.desk.challenges, w.guesses, i, how);
    assert ChallengeOk(c, clock) && CountersAt(c, w.guesses, i);
    HeldIsStoredAndFresh(c, w.guesses, i);
  }

  /** Settling gives every fresh guess on `i` the same fate, and the row its columns. */
  lemma {:induction false} SettledFares(cs: seq<Challenge>, gs: seq<Guess>, i: nat, how: Settling)
    requires i < |cs|
    requires forall j :: 0 <= j < |gs| && gs[j].index == i ==> gs[j].conv == cs[i].conv
    ensures SettledRows(cs, cs[i].conv, how)[i] == SettledRow(cs[i], how)
    ensures FreshFare(gs, Fated(gs, cs[i].conv, how), i, Next(Fresh, how))
    ensures SumOf(FreshOn(i), gs) > 0 ==>
              forall fate :: FreshFare(gs, Fated(gs, cs[i].conv, how), i, fate) ==> fate == Next(Fresh, how)
  {
    if SumOf(FreshOn(i), gs) > 0 {
      var j := SumOfPositive(FreshOn(i), gs);
      assert gs[j].index == i && gs[j].fate.Fresh?;
    }
  }

  lemma SameConversation(mac: Mac, w: World, clock: int, i: nat)
    requires GuessesOk(mac, w.desk.challenges, w.guesses, clock) && i < |w.desk.challenges|
    ensures forall j :: 0 <= j < |w.guesses| && w.guesses[j].index == i ==> w.guesses[j].conv == w.desk.challenges[i].conv
  {
    forall j | 0 <= j < |w.guesses| && w.guesses[j].index == i ensures w.guesses[j].conv == w.desk.challenges[i].conv {
      assert GuessOk(mac, w.desk.challenges, w.guesses[j], clock);
    }
  }

  // ---------------------------------------------------------------- at most three codes and 15 counted guesses

  /** Comparisons of a window: those whose count was flushed, or all. */
  function GuessIn(conv: Conv, lo: int, hi: int, all: bool): Guess -> int {
    (g: Guess) => if g.conv == conv && lo <= g.at <= hi && (all || InStored(g.fate)) then 1 else 0
  }

  function On(i: nat, all: bool): Guess -> int {
    (g: Guess) => if g.index == i && (all || InStored(g.fate)) then 1 else 0
  }

  /** The guesses made on those of the first `n` challenges that `conv` was issued in a window. */
  function GuessesOnIssued(cs: seq<Challenge>, n: nat, conv: Conv, lo: int, hi: int, gs: seq<Guess>, all: bool): int
    requires n <= |cs|
  {
    if n == 0 then 0
    else GuessesOnIssued(cs, n - 1, conv, lo, hi, gs, all)
         + if CreatedIn(cs[n - 1], conv, lo, hi) then SumOf(On(n - 1, all), gs) else 0
  }

  lemma {:induction false} OneMoreGuess(cs: seq<Challenge>, n: nat, conv: Conv, lo: int, hi: int, gs: seq<Guess>, g: Guess,
                                        all: bool)
    requires n <= |cs|
    ensures GuessesOnIssued(cs, n, conv, lo, hi, gs + [g], all)
         == GuessesOnIssued(cs, n, conv, lo, hi, gs, all)
          + if g.index < n && CreatedIn(cs[g.index], conv, lo, hi) && (all || InStored(g.fate)) then 1 else 0
  {
    if n > 0 {
      OneMoreGuess(cs, n - 1, conv, lo, hi, gs, g, all);
      SumOfLast(On(n - 1, all), gs, g);
    }
  }

  lemma {:induction false} NoGuesses(cs: seq<Challenge>, n: nat, conv: Conv, lo: int, hi: int, all: bool)
    requires n <= |cs|
    ensures GuessesOnIssued(cs, n, conv, lo, hi, [], all) == 0
  {
    if n > 0 {
      NoGuesses(cs, n - 1, conv, lo, hi, all);
    }
  }

  /** A guess in a window falls on a challenge issued at most a code's life before the window. */
  lemma {:induction false} GuessesFallOnIssued(mac: Mac, w: World, clock: int, n: nat, conv: Conv, lo: int, hi: int, all: bool)
    requires RowsOk(w.desk.challenges, clock) && GuessesOk(mac, w.desk.challenges, w.guesses, clock) && n <= |w.guesses|
    ensures SumOf(GuessIn(conv, lo, hi, all), w.guesses[..n])
         <= GuessesOnIssued(w.desk.challenges, |w.desk.challenges|, conv, lo - CODE_LIFE, hi, w.guesses[..n], all)
  {
    var cs := w.desk.challenges;
    if n == 0 {
      NoGuesses(cs, |cs|, conv, lo - CODE_LIFE, hi, all);
    } else {
      GuessesFallOnIssued(mac, w, clock, n - 1, conv, lo, hi, all);
      var g := w.guesses[n - 1];
      assert GuessOk(mac, cs, g, clock) && ChallengeOk(cs[g.index], clock);
      assert w.guesses[..n] == w.guesses[..n - 1] + [g];
      SumOfLast(GuessIn(conv, lo, hi, all), w.guesses[..n - 1], g);
      OneMoreGuess(cs, |cs|, conv, lo - CODE_LIFE, hi, w.guesses[..n - 1], g, all);
    }
  }

  /** No challenge of `conv` has more than five of those guesses. */
  predicate FiveAtMost(cs: seq<Challenge>, gs: seq<Guess>, conv: Conv, all: bool) {
    forall i :: 0 <= i < |cs| && cs[i].conv == conv ==> SumOf(On(i, all), gs) <= MAX_ATTEMPTS
  }

  lemma {:induction false} FiveEach(cs: seq<Challenge>, gs: seq<Guess>, n: nat, conv: Conv, lo: int, hi: int, all: bool)
    requires n <= |cs| && FiveAtMost(cs, gs, conv, all)
    ensures GuessesOnIssued(cs, n, conv, lo, hi, gs, all) <= MAX_ATTEMPTS * Created(cs[..n], conv, lo, hi)
  {
    if n > 0 {
      FiveEach(cs, gs, n - 1, conv, lo, hi, all);
      assert cs[..n] == cs[..n - 1] + [cs[n - 1]];
      SumOfLast(CountsIn(conv, lo, hi), cs[..n - 1], cs[n - 1]);
    }
  }

  function Clock(es: seq<Event>): int {
    if es == [] then 0 else End(es[|es| - 1])
  }

  /** The challenges of `conv` created from `lo` to `hi`. */
  function CodesIn(cs: seq<Challenge>, conv: Conv, lo: int, hi: int): set<int> {
    set j | 0 <= j < |cs| && cs[j].conv == conv && lo <= cs[j].createdAt <= hi
  }

  /** No hour of any run issues a conversation more than three codes. */
  lemma AtMostThreeCodesAnHour(mac: Mac, es: seq<Event>, conv: Conv, lo: int)
    requires Chronological(es)
    ensures |CodesIn(Run(mac, es).desk.challenges, conv, lo, lo + 3_600_000_000)| <= 3
    ensures Created(Run(mac, es).desk.challenges, conv, lo, lo + HOUR) <= 3
  {
    var cs := Run(mac, es).desk.challenges;
    SumOfMarks(CountsIn(conv, lo, lo + HOUR), cs, CodesIn(cs, conv, lo, lo + 3_600_000_000));
    RunKeeps(mac, es, Clock(es));
    assert InHour(Run(mac, es).desk.challenges, conv, lo) <= MAX_RECENT;
  }

  lemma FiveEachMeansFifteen(mac: Mac, es: seq<Event>, conv: Conv, lo: int, all: bool)
    requires Chronological(es) && FiveAtMost(Run(mac, es).desk.challenges, Run(mac, es).guesses, conv, all)
    ensures SumOf(GuessIn(conv, lo, lo + 3_300_000_000, all), Run(mac, es).guesses) <= 15
  {
    var w := Run(mac, es);
    var cs, gs := w.desk.challenges, w.guesses;
    RunKeeps(mac, es, Clock(es));
    GuessesFallOnIssued(mac, w, Clock(es), |gs|, conv, lo, lo + 3_300_000_000, all);
    assert gs[..|gs|] == gs && cs[..|cs|] == cs;
    FiveEach(cs, gs, |cs|, conv, lo - CODE_LIFE, lo + 3_300_000_000, all);
    AtMostThreeCodesAnHour(mac, es, conv, lo - CODE_LIFE);
  }

  /** No 55 minutes of any run compare and count more than fifteen codes for a conversation. */
  lemma AtMostFifteenCounted(mac: Mac, es: seq<Event>, conv: Conv, lo: int)
    requires Chronological(es)
    ensures SumOf(GuessIn(conv, lo, lo + 3_300_000_000, false), Run(mac, es).guesses) <= 15
  {
    RunKeeps(mac, es, Clock(es));
    var cs, gs := Run(mac, es).desk.challenges, Run(mac, es).guesses;
    forall i | 0 <= i < |cs| && cs[i].conv == conv ensures SumOf(On(i, false), gs) <= MAX_ATTEMPTS {
      SumOfSame(On(i, false), gs, StoredOn(i), gs);
      assert CountersAt(cs[i], gs, i) && ChallengeOk(cs[i], Clock(es));
    }
    FiveEachMeansFifteen(mac, es, conv, lo, false);
  }

  // ---------------------------------------------------------------- all guesses, when none is forgotten

  /** Nothing that `conv` or its tools write is refused, but for its one-time codes. */
  predicate NoneRefused(es: seq<Event>, conv: Conv) {
    forall e <- es :: !(ConvOf(e) == conv && Refused(e))
  }

  /** No row of `conv` holds more than five attempts after the first `m` events. */
  predicate FlushableAt(mac: Mac, es: seq<Event>, conv: Conv, m: nat)
    requires m <= |es|
  {
    Flushable(Run(mac, es[..m]).desk.challenges, conv)
  }

  /** At no point of the run does a row of `conv` hold more than five attempts. */
  predicate NeverOverFive(mac: Mac, es: seq<Event>, conv: Conv) {
    forall m :: 0 <= m <= |es| ==> FlushableAt(mac, es, conv, m)
  }

  lemma NeverOverFiveBefore(mac: Mac, es: seq<Event>, conv: Conv, n: nat)
    requires NeverOverFive(mac, es, conv) && n <= |es|
    ensures NeverOverFive(mac, es[..n], conv)
  {
    forall m | 0 <= m <= n ensures FlushableAt(mac, es[..n], conv, m) {
      assert es[..n][..m] == es[..m] && FlushableAt(mac, es, conv, m);
    }
  }

  lemma NeverOverFiveNow(mac: Mac, es: seq<Event>, conv: Conv)
    requires NeverOverFive(mac, es, conv)
    ensures Flushable(Run(mac, es).desk.challenges, conv)
  {
    assert es[..|es|] == es && FlushableAt(mac, es, conv, |es|);
  }

  lemma AddNeverOverFive(mac: Mac, es: seq<Event>, e: Event, conv: Conv)
    requires NeverOverFive(mac, es, conv) && Flushable(Run(mac, es + [e]).desk.challenges, conv)
    ensures NeverOverFive(mac, es + [e], conv)
  {
    var more := es + [e];
    forall m | 0 <= m <= |more| ensures FlushableAt(mac, more, conv, m) {
      if m <= |es| {
        assert more[..m] == es[..m] && FlushableAt(mac, es, conv, m);
      } else {
        assert more[..m] == more;
      }
    }
  }

  /** Whatever the run has pending for `conv` can be flushed, and is not rolled back for another's sake. */
  predicate AlwaysCounts(mac: Mac, es: seq<Event>, conv: Conv) {
    NoneRefused(es, conv) && NeverOverFive(mac, es, conv)
  }

  predicate NothingLost(w: World, conv: Conv) {
    conv !in w.desk.broken && forall i :: 0 <= i < |w.guesses| && w.guesses[i].conv == conv ==> !w.guesses[i].fate.Lost?
  }

  lemma StepLosesNothing(mac: Mac, w: World, e: Event, conv: Conv)
    requires NothingLost(w, conv) && Flushable(w.desk.challenges, conv)
    requires !(ConvOf(e) == conv && Refused(e))
    ensures NothingLost(Step(mac, w, e), conv)
  {
  }

  lemma {:induction false} CountingRunsLoseNothing(mac: Mac, es: seq<Event>, conv: Conv)
    requires AlwaysCounts(mac, es, conv)
    ensures NothingLost(Run(mac, es), conv)
  {
    if es != [] {
      var before, e := es[..|es| - 1], es[|es| - 1];
      NeverOverFiveBefore(mac, es, conv, |es| - 1);
      NeverOverFiveNow(mac, before, conv);
      CountingRunsLoseNothing(mac, before, conv);
      StepLosesNothing(mac, Run(mac, before), e, conv);
    }
  }

  /** While nothing is lost, every comparison is among the attempts held. */
  lemma NothingLostMeansHeld(mac: Mac, w: World, clock: int, conv: Conv)
    requires Inv(mac, w, clock) && NothingLost(w, conv) && Flushable(w.desk.challenges, conv)
    ensures FiveAtMost(w.desk.challenges, w.guesses, conv, true)
  {
    var cs, gs := w.desk.challenges, w.guesses;
    forall i | 0 <= i < |cs| && cs[i].conv == conv ensures SumOf(On(i, true), gs) <= MAX_ATTEMPTS {
      SameConversation(mac, w, clock, i);
      SumOfSame(On(i, true), gs, HeldOn(i), gs);
      assert CountersAt(cs[i], gs, i);
    }
  }

  /** If nothing is refused or left over five, no 55 minutes compare more than fifteen codes, counted or not. */
  lemma AtMostFifteenCompared(mac: Mac, es: seq<Event>, conv: Conv, lo: int)
    requires Chronological(es) && AlwaysCounts(mac, es, conv)
    ensures SumOf(GuessIn(conv, lo, lo + 3_300_000_000, true), Run(mac, es).guesses) <= 15
  {
    RunKeeps(mac, es, Clock(es));
    CountingRunsLoseNothing(mac, es, conv);
    NeverOverFiveNow(mac, es, conv);
    NothingLostMeansHeld(mac, Run(mac, es), Clock(es), conv);
    FiveEachMeansFifteen(mac, es, conv, lo, true);
  }

  /** After the first `m` events no challenge of `conv` has more than five comparisons, counted or not. */
  predicate FiveComparedAt(mac: Mac, es: seq<Event>, conv: Conv, m: nat)
    requires m <= |es|
  {
    FiveAtMost(Run(mac, es[..m]).desk.challenges, Run(mac, es[..m]).guesses, conv, true)
  }

  predicate FiveComparedThroughout(mac: Mac, es: seq<Event>, conv: Conv) {
    forall m :: 0 <= m <= |es| ==> FiveComparedAt(mac, es, conv, m)
  }

  /** What is held is at most what was compared. */
  lemma FiveComparedMeansFlushable(mac: Mac, w: World, clock: int, conv: Conv)
    requires Inv(mac, w, clock) && FiveAtMost(w.desk.challenges, w.guesses, conv, true)
    ensures Flushable(w.desk.challenges, conv)
  {
    var cs, gs := w.desk.challenges, w.guesses;
    forall i | 0 <= i < |cs| && cs[i].conv == conv ensures cs[i].held.attempts <= MAX_ATTEMPTS {
      SumOfLe(HeldOn(i), gs, On(i, true), gs);
      assert CountersAt(cs[i], gs, i);
    }
  }

  lemma ChronologicalBefore(es: seq<Event>, n: nat)
    requires Chronological(es) && n <= |es|
    ensures Chronological(es[..n])
  {
  }

  lemma CountingMeansFiveCompared(mac: Mac, es: seq<Event>, conv: Conv, m: nat)
    requires Chronological(es) && AlwaysCounts(mac, es, conv) && m <= |es|
    ensures FiveComparedAt(mac, es, conv, m)
  {
    var before := es[..m];
    ChronologicalBefore(es, m);
    NeverOverFiveBefore(mac, es, conv, m);
    NeverOverFiveNow(mac, before, conv);
    RunKeeps(mac, before, Clock(before));
    CountingRunsLoseNothing(mac, before, conv);
    NothingLostMeansHeld(mac, Run(mac, before), Clock(before), conv);
  }

  /**
   In a run that has nothing refused, no challenge ever has more than five comparisons, counted or not,
   exactly when no row ever holds more than five attempts.
   */
  lemma FiveComparedExactlyWhen(mac: Mac, es: seq<Event>, conv: Conv)
    requires Chronological(es) && NoneRefused(es, conv)
    ensures FiveComparedThroughout(mac, es, conv) <==> AlwaysCounts(mac, es, conv)
  {
    if AlwaysCounts(mac, es, conv) {
      forall m | 0 <= m <= |es| ensures FiveComparedAt(mac, es, conv, m) {
        CountingMeansFiveCompared(mac, es, conv, m);
      }
    }
    if FiveComparedThroughout(mac, es, conv) {
      forall m | 0 <= m <= |es| ensures FlushableAt(mac, es, conv, m) {
        ChronologicalBefore(es, m);
        RunKeeps(mac, es[..m], Clock(es[..m]));
        assert FiveComparedAt(mac, es, conv, m);
        FiveComparedMeansFlushable(mac, Run(mac, es[..m]), Clock(es[..m]), conv);
      }
    }
  }
}
