/** When a code is sent, how long it can be used, and what ends its use, over every run. */
module OtpUsable {
  import opened Wrappers
  import opened Sums
  import opened Otp
  import opened OtpRuns
  import opened OtpBounds
  import opened OtpTurns

  // ---------------------------------------------------------------- the row of a send

  /** The send that is event `p` of the run issues challenge `i`. */
  predicate IssuedAt(mac: Mac, es: seq<Event>, p: nat, s: Send, i: nat) {
    && p < |es| && es[p] == OnSend(s) && Issues(Run(mac, es[..p]).desk, es[p])
    && i == |Run(mac, es[..p]).desk.challenges|
  }

  /** What a challenge is made of never changes: conversation, lead, times and the digest of the code sent. */
  predicate RowOfSend(mac: Mac, c: Challenge, code: string, s: Send) {
    && s.leadId.Some? && code == s.code
    && c.conv == s.conv && c.leadId == s.leadId.value
    && c.createdAt == s.createdAt && c.expiresAt == s.now + 300_000_000
    && c.codeHash == mac(s.conv.tenant + ":" + s.conv.id + ":" + s.leadId.value + ":" + s.code)
  }

  /**
   A use of the row, where it shows in `cols`, has a reason: a later challenge of the conversation, a match
   counted as far, or five wrong codes counted as far.
   */
  predicate UsedForReason(cs: seq<Challenge>, gs: seq<Guess>, i: nat, cols: Cols, how: Fate -> bool)
    requires i < |cs|
  {
    cols.usedAt.Some? ==>
      || (exists j :: i < j < |cs| && cs[j].conv == cs[i].conv)
      || (exists g :: 0 <= g < |gs| && gs[g].index == i && gs[g].matched && how(gs[g].fate))
      || 5 <= cols.attempts
  }

  predicate Reasoned(cs: seq<Challenge>, gs: seq<Guess>, i: nat) {
    && i < |cs|
    && UsedForReason(cs, gs, i, cs[i].kept, InKept)
    && UsedForReason(cs, gs, i, cs[i].stored, InStored)
    && UsedForReason(cs, gs, i, cs[i].held, InHeld)
  }

  lemma SettleKeepsReason(mac: Mac, cs: seq<Challenge>, gs: seq<Guess>, i: nat, conv: Conv, how: Settling, clock: int)
    requires Reasoned(cs, gs, i) && GuessesOk(mac, cs, gs, clock)
    ensures Reasoned(SettledRows(cs, conv, how), Fated(gs, conv, how), i)
  {
    var after, fated := SettledRows(cs, conv, how), Fated(gs, conv, how);
    forall j | i < j < |cs| && cs[j].conv == cs[i].conv ensures after[j].conv == after[i].conv {
    }
    forall g | 0 <= g < |gs| && gs[g].index == i && gs[g].matched
      ensures fated[g].index == i && fated[g].matched && gs[g].conv == cs[i].conv
      ensures cs[i].conv != conv ==> fated[g].fate == gs[g].fate
    {
      assert GuessOk(mac, cs, gs[g], clock);
    }
  }

  lemma CheckKeepsReason(mac: Mac, w: World, k: Check, i: nat)
    requires Reasoned(w.desk.challenges, w.guesses, i) && Compares(mac, w.desk, OnCheck(k))
    ensures Reasoned(AfterCheck(mac, w.desk, k).challenges, w.guesses + [GuessOf(mac, w.desk, k)], i)
  {
    var cs, gs := w.desk.challenges, w.guesses + [GuessOf(mac, w.desk, k)];
    var after := AfterCheck(mac, w.desk, k).challenges;
    CheckChangesHeld(mac, w.desk, k);
    assert forall j :: 0 <= j < |cs| ==> after[j].conv == cs[j].conv;
    assert forall g :: 0 <= g < |w.guesses| ==> gs[g] == w.guesses[g];
    assert gs[|w.guesses|] == GuessOf(mac, w.desk, k);
  }

  lemma IssueKeepsReason(mac: Mac, w: World, s: Send, i: nat, clock: int)
    requires Reasoned(w.desk.challenges, w.guesses, i) && GuessesOk(mac, w.desk.challenges, w.guesses, clock)
    requires Issues(w.desk, OnSend(s))
    ensures Reasoned(Step(mac, w, OnSend(s)).desk.challenges, Step(mac, w, OnSend(s)).guesses, i)
  {
    var after := Step(mac, w, OnSend(s));
    SendIssues(mac, w, s);
    SettleKeepsReason(mac, w.desk.challenges, w.guesses, i, s.conv, Commits, clock);
    var settled := SettledRows(w.desk.challenges, s.conv, Commits);
    assert after.desk.challenges[|settled|].conv == s.conv;
    assert forall j :: 0 <= j < |settled| ==> after.desk.challenges[j].conv == settled[j].conv;
    assert settled[i].conv != s.conv ==> after.desk.challenges[i] == settled[i];
  }

  lemma StepKeepsReason(mac: Mac, w: World, e: Event, i: nat, clock: int)
    requires Inv(mac, w, clock) && Reasoned(w.desk.challenges, w.guesses, i)
    ensures Reasoned(Step(mac, w, e).desk.challenges, Step(mac, w, e).guesses, i)
  {
    if Issues(w.desk, e) {
      IssueKeepsReason(mac, w, e.send, i, clock);
    } else if Compares(mac, w.desk, e) {
      CheckKeepsReason(mac, w, e.check, i);
    } else {
      OtherEvents(mac, w, e);
      if Effect(w.desk, e).Some? {
        SettleKeepsReason(mac, w.desk.challenges, w.guesses, i, ConvOf(e), Effect(w.desk, e).value, clock);
      }
    }
  }

  /** Challenges keep what they are made of, and codes are only added. */
  lemma StepKeepsRow(mac: Mac, w: World, e: Event, i: nat)
    requires i < |w.desk.challenges| && |w.codes| == |w.desk.challenges|
    ensures var before, after := w.desk.challenges, Step(mac, w, e).desk.challenges;
            && |before| <= |after| && |Step(mac, w, e).codes| == |after|
            && Step(mac, w, e).codes[i] == w.codes[i]
            && after[i] == before[i].(kept := after[i].kept, stored := after[i].stored, held := after[i].held)
  {
    if Issues(w.desk, e) {
      SendIssues(mac, w, e.send);
    } else if Compares(mac, w.desk, e) {
      CheckChangesHeld(mac, w.desk, e.check);
    } else {
      OtherEvents(mac, w, e);
    }
  }

  /** What is so of challenge `i` from its send on: a delivered one is used for a reason, a failed one from the start. */
  ghost predicate Stands(mac: Mac, w: World, s: Send, i: nat) {
    && i < |w.desk.challenges| && |w.codes| == |w.desk.challenges|
    && RowOfSend(mac, w.desk.challenges[i], w.codes[i], s)
    && (s.delivery.Delivered? ==> Reasoned(w.desk.challenges, w.guesses, i))
    && (s.delivery.Failed? ==> w.desk.challenges[i].kept.usedAt.Some?)
  }

  lemma SendStands(mac: Mac, w: World, s: Send)
    requires Issues(w.desk, OnSend(s)) && |w.codes| == |w.desk.challenges|
    ensures Stands(mac, Step(mac, w, OnSend(s)), s, |w.desk.challenges|)
  {
    SendIssues(mac, w, s);
  }

  lemma StepStands(mac: Mac, w: World, e: Event, s: Send, i: nat, clock: int)
    requires Inv(mac, w, clock) && Stands(mac, w, s, i)
    ensures Stands(mac, Step(mac, w, e), s, i)
  {
    StepKeepsRow(mac, w, e, i);
    if s.delivery.Delivered? {
      StepKeepsReason(mac, w, e, i, clock);
    } else {
      UsedIsFinal(mac, w, e, clock, i);
    }
  }

  ghost predicate StandsAfter(mac: Mac, es: seq<Event>, s: Send, i: nat) {
    Stands(mac, Run(mac, es), s, i)
  }

  lemma LastSendStands(mac: Mac, es: seq<Event>, s: Send)
    requires Chronological(es) && Issues(Run(mac, es).desk, OnSend(s))
    ensures StandsAfter(mac, es + [OnSend(s)], s, |Run(mac, es).desk.challenges|)
  {
    assert (es + [OnSend(s)])[..|es|] == es;
    RunKeeps(mac, es, Clock(es));
    SendStands(mac, Run(mac, es), s);
  }

  lemma NextStands(mac: Mac, es: seq<Event>, e: Event, s: Send, i: nat)
    requires Chronological(es) && StandsAfter(mac, es, s, i)
    ensures StandsAfter(mac, es + [e], s, i)
  {
    assert (es + [e])[..|es|] == es;
    RunKeeps(mac, es, Clock(es));
    StepStands(mac, Run(mac, es), e, s, i, Clock(es));
  }

  lemma {:induction false} PrefixStands(mac: Mac, es: seq<Event>, p: nat, s: Send, i: nat, n: nat)
    requires Chronological(es) && p < n <= |es| && StandsAfter(mac, es[..p + 1], s, i)
    ensures StandsAfter(mac, es[..n], s, i)
    decreases n
  {
    if p + 1 < n {
      PrefixStands(mac, es, p, s, i, n - 1);
      NextPrefixStands(mac, es, n - 1, s, i);
    }
  }

  lemma NextPrefixStands(mac: Mac, es: seq<Event>, n: nat, s: Send, i: nat)
    requires Chronological(es) && n < |es| && StandsAfter(mac, es[..n], s, i)
    ensures StandsAfter(mac, es[..n + 1], s, i)
  {
    ChronologicalBefore(es, n);
    NextStands(mac, es[..n], es[n], s, i);
    assert es[..n + 1] == es[..n] + [es[n]];
  }

  lemma RunStands(mac: Mac, es: seq<Event>, p: nat, s: Send, i: nat)
    requires Chronological(es) && IssuedAt(mac, es, p, s, i)
    ensures StandsAfter(mac, es, s, i)
  {
    ChronologicalBefore(es, p);
    LastSendStands(mac, es[..p], s);
    assert es[..p + 1] == es[..p] + [es[p]];
    PrefixStands(mac, es, p, s, i, |es|);
    assert es[..|es|] == es;
  }

  // ---------------------------------------------------------------- how long a code can be used

  /** Wrong codes compared with challenge `i` whose count was flushed. */
  function WrongFlushedOn(i: nat): Guess -> int {
    (g: Guess) => if g.index == i && !g.matched && (g.fate.Kept? || g.fate.Flushed?) then 1 else 0
  }

  predicate MatchFlushed(gs: seq<Guess>, i: nat) {
    exists g :: 0 <= g < |gs| && gs[g].index == i && gs[g].matched && InStored(gs[g].fate)
  }

  lemma StoredIsWrongFlushed(c: Challenge, gs: seq<Guess>, i: nat)
    requires CountersAt(c, gs, i) && !MatchFlushed(gs, i)
    ensures c.stored.attempts == SumOf(WrongFlushedOn(i), gs)
  {
    SumOfSame(StoredOn(i), gs, WrongFlushedOn(i), gs);
  }

  /** The check compares its code with challenge `i`. */
  predicate Finds(mac: Mac, d: Desk, k: Check, i: nat) {
    CheckOutcome(mac, d, k) == Verified(i) || CheckOutcome(mac, d, k) == Incorrect(i)
  }

  lemma FoundExactlyWhenActive(mac: Mac, d: Desk, clock: int, k: Check, i: nat)
    requires RowsOk(d.challenges, clock) && i < |d.challenges| && k.code.Some? && k.conv !in d.broken
    ensures Finds(mac, d, k, i) <==> Active(d.challenges[i], k.conv, k.now)
  {
    if Active(d.challenges[i], k.conv, k.now) {
      OneActive(d.challenges, clock, k.conv, k.now, i);
    }
  }

  /**
   After every run, a delivered challenge that is the last of its conversation and has no match flushed is
   found by a check exactly within its five minutes and while fewer than five wrong codes of it have been
   flushed. Its own code then verifies, and no other does without a collision.
   */
  lemma UsableExactlyWhen(mac: Mac, es: seq<Event>, p: nat, s: Send, i: nat, k: Check)
    requires Chronological(es) && IssuedAt(mac, es, p, s, i) && s.delivery.Delivered?
    requires forall j :: i < j < |Run(mac, es).desk.challenges| ==> Run(mac, es).desk.challenges[j].conv != s.conv
    requires !MatchFlushed(Run(mac, es).guesses, i)
    requires k.conv == s.conv && k.code.Some? && k.conv !in Run(mac, es).desk.broken
    ensures Finds(mac, Run(mac, es).desk, k, i) <==>
              k.now < s.now + 300_000_000 && SumOf(WrongFlushedOn(i), Run(mac, es).guesses) < 5
    ensures Finds(mac, Run(mac, es).desk, k, i) ==>
              (CheckOutcome(mac, Run(mac, es).desk, k) == Verified(i) <==>
                 k.code.value == s.code
                 || Collide(mac, DigestText(s.conv, s.leadId.value, k.code.value), DigestText(s.conv, s.leadId.value, s.code)))
  {
    var w := Run(mac, es);
    RunKeeps(mac, es, Clock(es));
    RunStands(mac, es, p, s, i);
    FoundExactlyWhenActive(mac, w.desk, Clock(es), k, i);
    StoredIsWrongFlushed(w.desk.challenges[i], w.guesses, i);
    if Finds(mac, w.desk, k, i) {
      SameDigestSameCode(mac, s.conv, s.leadId.value, k.code.value, s.code);
    }
  }

  /** A code whose delivery failed is never compared with anything. */
  lemma FailedCodeIsNeverFound(mac: Mac, es: seq<Event>, p: nat, s: Send, i: nat, k: Check)
    requires Chronological(es) && IssuedAt(mac, es, p, s, i) && s.delivery.Failed?
    ensures !Finds(mac, Run(mac, es).desk, k, i)
  {
    RunKeeps(mac, es, Clock(es));
    RunStands(mac, es, p, s, i);
    var c := Run(mac, es).desk.challenges[i];
    assert ChallengeOk(c, Clock(es));
  }

  // ---------------------------------------------------------------- when a code is sent

  function RecentCodes(cs: seq<Challenge>, conv: Conv, since: int): set<int> {
    set j | 0 <= j < |cs| && cs[j].conv == conv && since <= cs[j].createdAt
  }

  predicate OverFive(cs: seq<Challenge>, conv: Conv) {
    exists j :: 0 <= j < |cs| && cs[j].conv == conv && cs[j].held.attempts > 5
  }

  /**
   A send in a working session issues a code exactly when the number belongs to a lead, fewer than three codes
   were issued in the last hour, and no row of the conversation holds more than five attempts.
   */
  lemma SendsExactlyWhen(d: Desk, s: Send)
    ensures var r, recent := SendOutcome(d, s), |RecentCodes(d.challenges, s.conv, s.now - 3_600_000_000)|;
            && (r.NoLead? <==> s.conv !in d.broken && s.leadId == None)
            && (r.LimitReached? <==> s.conv !in d.broken && s.leadId != None && 3 <= recent)
            && (r.Unavailable? <==>
                  s.conv in d.broken || (s.leadId != None && recent < 3 && OverFive(d.challenges, s.conv)))
            && (Issues(d, OnSend(s)) <==>
                  s.conv !in d.broken && s.leadId != None && recent < 3 && !OverFive(d.challenges, s.conv))
            && (r.SendFailed? ==> s.delivery.Failed?) && (r.Sent? ==> s.delivery.Delivered?)
  {
    SumOfMarks(CountsSince(s.conv, s.now - HOUR), d.challenges, RecentCodes(d.challenges, s.conv, s.now - 3_600_000_000));
  }
}
