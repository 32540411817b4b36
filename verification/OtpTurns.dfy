/** What a verification means, and how often a code can match. */
module OtpTurns {
  import opened Wrappers
  import opened Sums
  import opened Otp
  import opened OtpRuns
  import opened OtpBounds
  import opened Text

  // ---------------------------------------------------------------- what a verification means

  /** Two texts that show the digest to fail. */
  predicate Collide(mac: Mac, x: string, y: string) {
    x != y && mac(x) == mac(y)
  }

  /** Codes of one digest are one code, or their two texts collide. */
  lemma SameDigestSameCode(mac: Mac, conv: Conv, leadId: string, a: string, b: string)
    ensures Digest(mac, conv, leadId, a) == Digest(mac, conv, leadId, b)
       <==> a == b || Collide(mac, DigestText(conv, leadId, a), DigestText(conv, leadId, b))
  {
    var p := conv.tenant + ":" + conv.id + ":" + leadId + ":";
    assert (p + a)[|p|..] == a && (p + b)[|p|..] == b;
  }

  /**
   Whoever is verified at `now` presented, less than 30 minutes earlier, the very code that was sent
   for that conversation and lead, before it expired, or one that collides with it. The match has not
   been forgotten.
   */
  lemma VerifiedMeansCodePresented(mac: Mac, es: seq<Event>, conv: Conv, now: int) returns (g: Guess)
    requires Chronological(es) && (es != [] ==> End(es[|es| - 1]) <= now)
    requires IsVerified(Run(mac, es).desk, conv, now)
    ensures var w := Run(mac, es);
            && g in w.guesses && g.conv == conv && g.matched && !g.fate.Lost?
            && g.at <= now < g.at + 1_800_000_000
            && g.index < |w.desk.challenges| && |w.codes| == |w.desk.challenges|
            && var c := w.desk.challenges[g.index];
               && c.conv == conv && c.leadId == w.desk.grants[conv].leadId
               && UsedSince(c.held, g.at) && c.createdAt <= g.at < c.createdAt + 300_000_000
               && (g.code == w.codes[g.index]
                   || Collide(mac, DigestText(conv, c.leadId, g.code), DigestText(conv, c.leadId, w.codes[g.index])))
  {
    var w := Run(mac, es);
    RunKeeps(mac, es, now);
    var cs, gs, grant := w.desk.challenges, w.guesses, w.desk.grants[conv];
    assert Backed(cs, gs, conv, grant, false);
    var i :| 0 <= i < |gs| && Backs(gs[i], cs, conv, grant) && InHeld(gs[i].fate);
    g := gs[i];
    assert GuessOk(mac, cs, gs[i], now) && ChallengeOk(cs[g.index], now);
    SameDigestSameCode(mac, conv, grant.leadId, g.code, w.codes[g.index]);
  }

  /**
   A code verifies exactly when it is the code of the challenge that is active for the conversation, or
   its text collides with that of this code.
   */
  lemma VerifiesExactlyWhen(mac: Mac, w: World, clock: int, k: Check, i: nat)
    requires Inv(mac, w, clock) && i < |w.desk.challenges|
    ensures CheckOutcome(mac, w.desk, k) == Verified(i)
        <==> k.code.Some? && k.conv !in w.desk.broken && Active(w.desk.challenges[i], k.conv, k.now)
             && var text := DigestText(k.conv, w.desk.challenges[i].leadId, k.code.value);
                w.codes[i] == k.code.value
                || Collide(mac, text, DigestText(k.conv, w.desk.challenges[i].leadId, w.codes[i]))
  {
    VerifiedByDigest(mac, w.desk, clock, k, i);
    if k.code.Some? && Active(w.desk.challenges[i], k.conv, k.now) {
      SameDigestSameCode(mac, k.conv, w.desk.challenges[i].leadId, k.code.value, w.codes[i]);
    }
  }

  /** The check finds challenge `i`, and its code has that digest. */
  predicate MatchesDigest(mac: Mac, d: Desk, k: Check, i: nat) {
    && k.code.Some? && k.conv !in d.broken
    && i < |d.challenges| && Active(d.challenges[i], k.conv, k.now)
    && d.challenges[i].codeHash == Digest(mac, k.conv, d.challenges[i].leadId, k.code.value)
  }

  lemma VerifiedByDigest(mac: Mac, d: Desk, clock: int, k: Check, i: nat)
    requires RowsOk(d.challenges, clock)
    ensures CheckOutcome(mac, d, k) == Verified(i) <==> MatchesDigest(mac, d, k, i)
  {
    if MatchesDigest(mac, d, k, i) {
      OneActive(d.challenges, clock, k.conv, k.now, i);
    }
  }

  /** A check at `now` finds challenge `i` and no other. */
  predicate OnlyActive(cs: seq<Challenge>, conv: Conv, now: int, i: nat) {
    i < |cs| && Active(cs[i], conv, now) && forall j :: 0 <= j < |cs| && j != i ==> !Active(cs[j], conv, now)
  }

  lemma OneActive(cs: seq<Challenge>, clock: int, conv: Conv, now: int, i: nat)
    requires RowsOk(cs, clock) && i < |cs| && Active(cs[i], conv, now)
    ensures OnlyActive(cs, conv, now, i) && Latest(cs, conv, now) == Some(i)
  {
    forall j | 0 <= j < |cs| && j != i && cs[j].conv == conv ensures !Active(cs[j], conv, now) {
      assert ChallengeOk(cs[i], clock) && ChallengeOk(cs[j], clock) && AtMostOneUnused(cs);
    }
  }

  /** A code that was delivered verifies for five minutes, and then the conversation for thirty. */
  lemma SentCodeVerifies(mac: Mac, w: World, clock: int, s: Send, k: Check)
    requires Inv(mac, w, clock) && clock <= s.now && WellTimed(OnSend(s)) && SendOutcome(w.desk, s).Sent?
    requires k.conv == s.conv && k.code == Some(s.code) && s.createdAt <= k.now < s.now + 300_000_000
    ensures var sent := Step(mac, w, OnSend(s)).desk;
            && CheckOutcome(mac, sent, k) == Verified(|w.desk.challenges|)
            && forall t :: IsVerified(AfterCheck(mac, sent, k), s.conv, t) <==> t < k.now + 1_800_000_000
  {
    SentRowsOk(mac, w, clock, s);
    SentMatches(mac, w.desk, s, k);
    VerifiedByDigest(mac, AfterSend(mac, w.desk, s), End(OnSend(s)), k, |w.desk.challenges|);
    VerifiedGrants(mac, AfterSend(mac, w.desk, s), k, |w.desk.challenges|);
  }

  lemma SentRowsOk(mac: Mac, w: World, clock: int, s: Send)
    requires Inv(mac, w, clock) && clock <= s.now && WellTimed(OnSend(s)) && SendOutcome(w.desk, s).Sent?
    ensures RowsOk(AfterSend(mac, w.desk, s).challenges, End(OnSend(s)))
  {
    IssueKeeps(mac, w, s, clock);
  }

  lemma VerifiedGrants(mac: Mac, d: Desk, k: Check, i: nat)
    requires CheckOutcome(mac, d, k) == Verified(i)
    ensures forall t :: IsVerified(AfterCheck(mac, d, k), k.conv, t) <==> t < k.now + GRANT_LIFE
  {
  }

  lemma SentMatches(mac: Mac, d: Desk, s: Send, k: Check)
    requires SendOutcome(d, s).Sent?
    requires k.conv == s.conv && k.code == Some(s.code) && k.now < s.now + CODE_LIFE
    ensures MatchesDigest(mac, AfterSend(mac, d, s), k, |d.challenges|)
  {
  }

  lemma OthersFit(cs: seq<Challenge>, clock: int, i: nat)
    requires RowsOk(cs, clock) && i < |cs| && cs[i].stored.usedAt.None?
    ensures forall j :: 0 <= j < |cs| && j != i && cs[j].conv == cs[i].conv ==> cs[j].held.attempts <= MAX_ATTEMPTS
  {
    forall j | 0 <= j < |cs| && j != i && cs[j].conv == cs[i].conv ensures cs[j].held.attempts <= MAX_ATTEMPTS {
      assert ChallengeOk(cs[i], clock) && ChallengeOk(cs[j], clock) && AtMostOneUnused(cs);
    }
  }

  /**
   A verification and the use of its code are committed by the end of the turn exactly when fewer than
   five attempts were pending or counted before it. Otherwise both are taken back.
   */
  lemma VerificationLastsExactlyWhen(mac: Mac, w: World, clock: int, k: Check, i: nat, now: int)
    requires Inv(mac, w, clock) && CheckOutcome(mac, w.desk, k) == Verified(i)
    ensures var c, d := w.desk.challenges[i], AfterEnd(AfterCheck(mac, w.desk, k), k.conv, false);
            && |d.challenges| == |w.desk.challenges|
            && (c.held.attempts < MAX_ATTEMPTS ==>
                  && d.challenges[i].kept == Cols(c.held.attempts + 1, Some(k.now))
                  && k.conv in d.keptGrants && d.keptGrants[k.conv] == Grant(c.leadId, k.now + GRANT_LIFE)
                  && (IsVerified(d, k.conv, now) <==> now < k.now + GRANT_LIFE))
            && (c.held.attempts >= MAX_ATTEMPTS ==>
                  && d.challenges[i] == SettledRow(c, RollsBack)
                  && d.keptGrants == w.desk.keptGrants
                  && (IsVerified(d, k.conv, now) <==> k.conv in w.desk.keptGrants && now < w.desk.keptGrants[k.conv].until))
  {
    var cs, checked := w.desk.challenges, AfterCheck(mac, w.desk, k).challenges;
    OthersFit(cs, clock, i);
    CheckChangesHeld(mac, w.desk, k);
    assert checked[i].conv == k.conv;
    assert Flushable(checked, k.conv) <==> cs[i].held.attempts < MAX_ATTEMPTS;
  }

  /** With ids free of ':' the digest is bound to tenant, conversation, lead and code alike, or two texts collide. */
  lemma DigestIsBound(mac: Mac, a: Conv, leadA: string, codeA: string, b: Conv, leadB: string, codeB: string)
    requires NoColon(a.tenant) && NoColon(a.id) && NoColon(leadA) && NoColon(b.tenant) && NoColon(b.id) && NoColon(leadB)
    ensures Digest(mac, a, leadA, codeA) == Digest(mac, b, leadB, codeB)
        <==> (a == b && leadA == leadB && codeA == codeB)
             || Collide(mac, DigestText(a, leadA, codeA), DigestText(b, leadB, codeB))
  {
    if DigestText(a, leadA, codeA) == DigestText(b, leadB, codeB) {
      var x, y := a.id + ":" + (leadA + ":" + codeA), b.id + ":" + (leadB + ":" + codeB);
      assert a.tenant + ":" + x == a.tenant + ":" + a.id + ":" + leadA + ":" + codeA;
      assert b.tenant + ":" + y == b.tenant + ":" + b.id + ":" + leadB + ":" + codeB;
      FirstPartInjective(a.tenant, x, b.tenant, y);
      FirstPartInjective(a.id, leadA + ":" + codeA, b.id, leadB + ":" + codeB);
      FirstPartInjective(leadA, codeA, leadB, codeB);
    }
  }

  // ---------------------------------------------------------------- one match a challenge, exactly when

  /** Matches of challenge `i` that have not been forgotten, and those still to be flushed. */
  function MatchedOn(i: nat): Guess -> int {
    (g: Guess) => if g.index == i && g.matched && !g.fate.Lost? then 1 else 0
  }

  function FreshMatchedOn(i: nat): Guess -> int {
    (g: Guess) => if g.index == i && g.matched && g.fate.Fresh? then 1 else 0
  }

  predicate OneMatchThroughout(mac: Mac, es: seq<Event>, i: nat) {
    SumOf(MatchedOn(i), Run(mac, es).guesses) <= 1 && (es != [] ==> OneMatchThroughout(mac, es[..|es| - 1], i))
  }

  /** A check finds `i` with a code of its digest, while an earlier match still waits to be flushed. */
  predicate MatchesAgain(mac: Mac, w: World, e: Event, i: nat) {
    e.OnCheck? && MatchesDigest(mac, w.desk, e.check, i) && SumOf(FreshMatchedOn(i), w.guesses) > 0
  }

  predicate NeverMatchesAgain(mac: Mac, es: seq<Event>, i: nat) {
    es != [] ==> !MatchesAgain(mac, Run(mac, es[..|es| - 1]), es[|es| - 1], i) && NeverMatchesAgain(mac, es[..|es| - 1], i)
  }

  /** While a challenge can be found, no match of it has been flushed. */
  lemma FoundMeansNotFlushed(mac: Mac, w: World, clock: int, i: nat)
    requires Inv(mac, w, clock) && i < |w.desk.challenges| && w.desk.challenges[i].stored.usedAt.None?
    ensures SumOf(MatchedOn(i), w.guesses) == SumOf(FreshMatchedOn(i), w.guesses)
  {
    forall j | 0 <= j < |w.guesses| ensures MatchedOn(i)(w.guesses[j]) == FreshMatchedOn(i)(w.guesses[j]) {
      assert GuessOk(mac, w.desk.challenges, w.guesses[j], clock);
    }
    SumOfSame(MatchedOn(i), w.guesses, FreshMatchedOn(i), w.guesses);
  }

  /** Only a check that verifies adds a match. */
  lemma StepAddsMatches(mac: Mac, w: World, e: Event, i: nat)
    ensures var before, after := SumOf(MatchedOn(i), w.guesses), SumOf(MatchedOn(i), Step(mac, w, e).guesses);
            if e.OnCheck? && CheckOutcome(mac, w.desk, e.check) == Verified(i) then after == before + 1 else after <= before
  {
    if Compares(mac, w.desk, e) {
      SumOfLast(MatchedOn(i), w.guesses, GuessOf(mac, w.desk, e.check));
    } else {
      var gs, after := w.guesses, Step(mac, w, e).guesses;
      SumOfLe(MatchedOn(i), after, MatchedOn(i), gs);
    }
  }

  lemma StepMatches(mac: Mac, w: World, e: Event, clock: int, i: nat)
    requires Inv(mac, w, clock) && SumOf(MatchedOn(i), w.guesses) <= 1
    ensures SumOf(MatchedOn(i), Step(mac, w, e).guesses) <= 1 <==> !MatchesAgain(mac, w, e, i)
  {
    StepAddsMatches(mac, w, e, i);
    if e.OnCheck? {
      VerifiedByDigest(mac, w.desk, clock, e.check, i);
      if MatchesDigest(mac, w.desk, e.check, i) {
        FoundMeansNotFlushed(mac, w, clock, i);
      }
    }
  }

  /**
   At no point of a run has a challenge two matches, exactly when no check matches it while an
   earlier match still waits to be flushed.
   */
  lemma {:induction false} OneMatchExactlyWhen(mac: Mac, es: seq<Event>, i: nat)
    requires Chronological(es)
    ensures OneMatchThroughout(mac, es, i) <==> NeverMatchesAgain(mac, es, i)
  {
    if es != [] {
      var before := es[..|es| - 1];
      OneMatchExactlyWhen(mac, before, i);
      RunKeeps(mac, before, Clock(before));
      if OneMatchThroughout(mac, before, i) {
        LastOfThroughout(mac, before, i);
        StepMatches(mac, Run(mac, before), es[|es| - 1], Clock(before), i);
      }
    }
  }

  lemma LastOfThroughout(mac: Mac, es: seq<Event>, i: nat)
    requires OneMatchThroughout(mac, es, i)
    ensures SumOf(MatchedOn(i), Run(mac, es).guesses) <= 1
  {
  }

  /** A check leaves the challenge it found to be found again. */
  lemma StillFound(mac: Mac, w: World, clock: int, k: Check, i: nat, now: int)
    requires RowsOk(w.desk.challenges, clock) && CheckOutcome(mac, w.desk, k) == Verified(i)
    requires now < w.desk.challenges[i].expiresAt
    ensures OnlyActive(AfterCheck(mac, w.desk, k).challenges, k.conv, now, i)
  {
    OneActive(w.desk.challenges, clock, k.conv, now, i);
    CheckChangesHeld(mac, w.desk, k);
  }

  /** A code that has just verified verifies again until something is flushed, and renews the grant. */
  lemma MatchRepeats(mac: Mac, w: World, clock: int, k: Check, again: Check, i: nat)
    requires RowsOk(w.desk.challenges, clock) && CheckOutcome(mac, w.desk, k) == Verified(i)
    requires again == k.(now := again.now) && again.now < w.desk.challenges[i].expiresAt
    ensures MatchesAgain(mac, Step(mac, w, OnCheck(k)), OnCheck(again), i)
    ensures var twice := AfterCheck(mac, AfterCheck(mac, w.desk, k), again);
            && i < |twice.challenges|
            && twice.challenges[i].held == Cols(w.desk.challenges[i].held.attempts + 2, Some(again.now))
            && forall t :: IsVerified(twice, k.conv, t) <==> t < again.now + GRANT_LIFE
  {
    StillFound(mac, w, clock, k, i, again.now);
    SumOfLast(FreshMatchedOn(i), w.guesses, GuessOf(mac, w.desk, k));
    NotNegative(w.guesses, i);
    assert Step(mac, w, OnCheck(k)).guesses == w.guesses + [GuessOf(mac, w.desk, k)];
  }

  lemma {:induction false} NotNegative(gs: seq<Guess>, i: nat)
    ensures SumOf(FreshMatchedOn(i), gs) >= 0
  {
    if gs != [] {
      NotNegative(gs[1..], i);
    }
  }
}
