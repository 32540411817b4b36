/** The zero-sum validator of crates/ledger_core/src/lib.rs, with exact amounts. */
module ZeroSum {

  datatype Line = Line(account: string, debit: real, credit: real)

  datatype LedgerError =
    | EmptyEntry
    | ZeroSumViolation(debitSum: real, creditSum: real, diff: real)
    | NegativeAmount(debit: real, credit: real)
    | SingleSidedViolation(account: string)

  datatype Verdict = Ok(total: real) | Err(error: LedgerError)

  /** The CHECK constraints of general_ledger_entries. */
  predicate LineOk(l: Line) {
    && l.debit >= 0.0 && l.credit >= 0.0
    && ((l.debit > 0.0 && l.credit == 0.0) || (l.credit > 0.0 && l.debit == 0.0))
  }

  predicate AllLinesOk(ls: seq<Line>) {
    forall i :: 0 <= i < |ls| ==> LineOk(ls[i])
  }

  function Debits(ls: seq<Line>): real {
    if ls == [] then 0.0 else Debits(ls[..|ls| - 1]) + ls[|ls| - 1].debit
  }

  function Credits(ls: seq<Line>): real {
    if ls == [] then 0.0 else Credits(ls[..|ls| - 1]) + ls[|ls| - 1].credit
  }

  predicate Accepted(ls: seq<Line>) {
    ls != [] && AllLinesOk(ls) && Debits(ls) == Credits(ls)
  }

  /** A negative amount is complained of as such, and any other fault of a line as its account's. */
  predicate Complains(error: LedgerError, l: Line) {
    && (l.debit < 0.0 || l.credit < 0.0 ==> error == NegativeAmount(l.debit, l.credit))
    && (l.debit >= 0.0 && l.credit >= 0.0 ==> error == SingleSidedViolation(l.account))
  }

  method ValidateZeroSum(ls: seq<Line>) returns (r: Verdict)
    ensures r.Ok? <==> Accepted(ls)
    ensures r.Ok? ==> r.total == Debits(ls) == Credits(ls)
    ensures r == Err(EmptyEntry) <==> ls == []
    ensures !AllLinesOk(ls) ==>
              exists i :: 0 <= i < |ls| && !LineOk(ls[i]) && AllLinesOk(ls[..i]) && r.Err? && Complains(r.error, ls[i])
    ensures AllLinesOk(ls) && Debits(ls) != Credits(ls) ==>
              r == Err(ZeroSumViolation(Debits(ls), Credits(ls), Debits(ls) - Credits(ls)))
  {
    if ls == [] {
      return Err(EmptyEntry);
    }
    var totalDebits, totalCredits := 0.0, 0.0;
    for i := 0 to |ls|
      invariant AllLinesOk(ls[..i])
      invariant totalDebits == Debits(ls[..i]) && totalCredits == Credits(ls[..i])
    {
      var l := ls[i];
      if l.debit < 0.0 || l.credit < 0.0 {
        return Err(NegativeAmount(l.debit, l.credit));
      }
      var hasDebit, hasCredit := l.debit > 0.0, l.credit > 0.0;
      if (hasDebit && hasCredit) || (!hasDebit && !hasCredit) {
        return Err(SingleSidedViolation(l.account));
      }
      assert ls[..i + 1][..i] == ls[..i];
      totalDebits := totalDebits + l.debit;
      totalCredits := totalCredits + l.credit;
    }
    assert ls[..|ls|] == ls;
    var diff := totalDebits - totalCredits;
    if diff != 0.0 {
      return Err(ZeroSumViolation(totalDebits, totalCredits, diff));
    }
    return Ok(totalDebits);
  }

  // ---------------------------------------------------------------- what acceptance means

  lemma {:induction false} SumsConcat(a: seq<Line>, b: seq<Line>)
    ensures Debits(a + b) == Debits(a) + Debits(b) && Credits(a + b) == Credits(a) + Credits(b)
  {
    if b == [] {
      assert a + b == a;
    } else {
      SumsConcat(a, b[..|b| - 1]);
      assert (a + b)[..|a + b| - 1] == a + b[..|b| - 1];
    }
  }

  lemma SumsOfOne(l: Line)
    ensures Debits([l]) == l.debit && Credits([l]) == l.credit
  {
    assert [l][..0] == [];
  }

  lemma {:induction false} SumsBounds(ls: seq<Line>)
    requires AllLinesOk(ls)
    ensures 0.0 <= Debits(ls) && 0.0 <= Credits(ls)
    ensures Debits(ls) == 0.0 <==> forall i :: 0 <= i < |ls| ==> ls[i].debit == 0.0
    ensures Credits(ls) == 0.0 <==> forall i :: 0 <= i < |ls| ==> ls[i].credit == 0.0
  {
    if ls != [] {
      var n := |ls| - 1;
      SumsBounds(ls[..n]);
      assert forall i :: 0 <= i < n ==> ls[..n][i] == ls[i];
      assert LineOk(ls[n]);
    }
  }

  /** Double entry: an accepted entry moves a positive total and has a debit line and a credit line. */
  lemma AcceptedIsDoubleEntry(ls: seq<Line>)
    requires Accepted(ls)
    ensures 0.0 < Debits(ls)
    ensures exists i, j :: 0 <= i < |ls| && 0 <= j < |ls| && ls[i].debit > 0.0 && ls[j].credit > 0.0
  {
    SumsBounds(ls);
    assert LineOk(ls[0]);
    var i :| 0 <= i < |ls| && ls[i].debit != 0.0;
    var j :| 0 <= j < |ls| && ls[j].credit != 0.0;
    assert LineOk(ls[i]) && LineOk(ls[j]);
  }

  lemma RemoveBoth(x: multiset<Line>, y: multiset<Line>, l: Line)
    requires x + multiset{l} == y + multiset{l}
    ensures x == y
  {
    assert (x + multiset{l}) - multiset{l} == x;
    assert (y + multiset{l}) - multiset{l} == y;
  }

  lemma SumsAround(before: seq<Line>, l: Line, after: seq<Line>)
    ensures Debits(before + [l] + after) == Debits(before + after) + l.debit
    ensures Credits(before + [l] + after) == Credits(before + after) + l.credit
  {
    SumsConcat(before + [l], after);
    SumsConcat(before, after);
    assert (before + [l])[..|before|] == before;
  }

  lemma SameRest(a: seq<Line>, l: Line, before: seq<Line>, after: seq<Line>)
    requires multiset(a + [l]) == multiset(before + [l] + after)
    ensures multiset(a) == multiset(before + after)
  {
    assert multiset(before + [l] + after) == multiset(before + after) + multiset{l};
    RemoveBoth(multiset(a), multiset(before + after), l);
  }

  lemma {:induction false} SumsPermute(a: seq<Line>, b: seq<Line>)
    requires multiset(a) == multiset(b)
    ensures Debits(a) == Debits(b) && Credits(a) == Credits(b)
    decreases |a|
  {
    if a == [] {
      assert |multiset(b)| == 0;
    } else {
      var rest, l := a[..|a| - 1], a[|a| - 1];
      assert a == rest + [l] && l in multiset(b);
      var i :| 0 <= i < |b| && b[i] == l;
      assert b == b[..i] + [l] + b[i + 1..];
      SameRest(rest, l, b[..i], b[i + 1..]);
      SumsPermute(rest, b[..i] + b[i + 1..]);
      SumsAround(b[..i], l, b[i + 1..]);
    }
  }

  /** The order of the lines does not matter. */
  lemma AcceptedPermutes(a: seq<Line>, b: seq<Line>)
    requires multiset(a) == multiset(b)
    ensures Accepted(a) <==> Accepted(b)
  {
    SumsPermute(a, b);
    assert |multiset(a)| == |multiset(b)|;
    forall l ensures l in a <==> l in b {
      assert l in multiset(a) <==> l in multiset(b);
    }
    assert (forall l <- a :: LineOk(l)) <==> (forall l <- b :: LineOk(l));
  }

  function Flat(entries: seq<seq<Line>>): seq<Line> {
    if entries == [] then [] else Flat(entries[..|entries| - 1]) + entries[|entries| - 1]
  }

  /** A ledger posted from accepted entries only always balances, and each of its lines is well formed. */
  lemma {:induction false} LedgerBalances(entries: seq<seq<Line>>)
    requires forall i :: 0 <= i < |entries| ==> Accepted(entries[i])
    ensures Debits(Flat(entries)) == Credits(Flat(entries)) && AllLinesOk(Flat(entries))
    ensures entries != [] ==> Accepted(Flat(entries))
  {
    if entries != [] {
      var n := |entries| - 1;
      LedgerBalances(entries[..n]);
      SumsConcat(Flat(entries[..n]), entries[n]);
      assert Flat(entries) == Flat(entries[..n]) + entries[n];
    }
  }
}
