/** What the chart reads in texts: the type of an account, the words of a slug, the renaming of a code. */
module ChartText {
  import opened Wrappers
  import opened Math
  import opened Text
  import opened Chart

  // ---------------------------------------------------------------- account types

  predicate OccursAt(word: string, s: string, i: int) {
    0 <= i <= |s| && word <= s[i..]
  }

  ghost predicate Occurs(word: string, s: string) {
    exists i :: OccursAt(word, s, i)
  }

  lemma {:induction false} ContainsMeansOccurs(s: string, word: string)
    ensures Contains(s, word) <==> Occurs(word, s)
  {
    assert s[0..] == s;
    if s != "" {
      ContainsMeansOccurs(s[1..], word);
      forall i | 0 < i <= |s| ensures OccursAt(word, s, i) <==> OccursAt(word, s[1..], i - 1) {
        assert s[1..][i - 1..] == s[i..];
      }
      if Contains(s, word) && !(word <= s) {
        var i :| OccursAt(word, s[1..], i);
        assert OccursAt(word, s, i + 1);
      }
      if word <= s {
        assert OccursAt(word, s, 0);
      } else if Occurs(word, s) {
        var i :| OccursAt(word, s, i);
        assert OccursAt(word, s[1..], i - 1);
      }
    } else if Contains(s, word) {
      assert OccursAt(word, s, 0);
    }
  }

  ghost predicate SaysAsset(v: string) { Occurs("ASSET", v) || Occurs("APPLICATION OF FUNDS", v) }
  ghost predicate SaysLiability(v: string) { Occurs("LIABILITY", v) || Occurs("SOURCE OF FUNDS", v) }
  ghost predicate SaysEquity(v: string) { Occurs("EQUITY", v) }
  ghost predicate SaysRevenue(v: string) { Occurs("INCOME", v) || Occurs("REVENUE", v) }
  ghost predicate SaysExpense(v: string) { Occurs("EXPENSE", v) }

  /** The type of the upper-cased text `v`, by the words that occur in it. */
  ghost predicate TypeIs(v: string, t: AccountType) {
    && (t == LIABILITY <==> SaysLiability(v) && !SaysAsset(v))
    && (t == EQUITY <==> SaysEquity(v) && !SaysAsset(v) && !SaysLiability(v))
    && (t == REVENUE <==> SaysRevenue(v) && !SaysAsset(v) && !SaysLiability(v) && !SaysEquity(v))
    && (t == EXPENSE <==> SaysExpense(v) && !SaysAsset(v) && !SaysLiability(v) && !SaysEquity(v) && !SaysRevenue(v))
    && (t == ASSET <==>
          SaysAsset(v) || !(SaysLiability(v) || SaysEquity(v) || SaysRevenue(v) || SaysExpense(v)))
  }

  lemma TypeOfText(rootType: string, ops: TextOps)
    ensures TypeIs(ops.upper(rootType), NormalizeAccountType(rootType, ops))
  {
    var v := ops.upper(rootType);
    ContainsMeansOccurs(v, "ASSET");
    ContainsMeansOccurs(v, "APPLICATION OF FUNDS");
    ContainsMeansOccurs(v, "LIABILITY");
    ContainsMeansOccurs(v, "SOURCE OF FUNDS");
    ContainsMeansOccurs(v, "EQUITY");
    ContainsMeansOccurs(v, "INCOME");
    ContainsMeansOccurs(v, "REVENUE");
    ContainsMeansOccurs(v, "EXPENSE");
  }

  lemma OccursNeeds(word: string, v: string, k: nat)
    requires Occurs(word, v) && k < |word|
    ensures word[k] in v
  {
    var i :| OccursAt(word, v, i);
    assert v[i..][k] == v[i + k];
  }

  /** A word is in no text that lacks one of its letters. */
  lemma DoesNotOccur(word: string, k: nat, v: string)
    requires k < |word| && word[k] !in v
    ensures !Occurs(word, v)
  {
    if Occurs(word, v) {
      OccursNeeds(word, v, k);
    }
  }

  lemma NoAsset(v: string)
    requires 'S' !in v || 'A' !in v
    requires ' ' !in v
    ensures !SaysAsset(v)
  {
    DoesNotOccur("ASSET", if 'A' !in v then 0 else 1, v);
    DoesNotOccur("APPLICATION OF FUNDS", 11, v);
  }

  lemma NoLiability(v: string)
    requires 'L' !in v && ' ' !in v
    ensures !SaysLiability(v)
  {
    DoesNotOccur("LIABILITY", 0, v);
    DoesNotOccur("SOURCE OF FUNDS", 6, v);
  }

  lemma NoEquity(v: string)
    requires 'Q' !in v
    ensures !SaysEquity(v)
  {
    DoesNotOccur("EQUITY", 1, v);
  }

  lemma NoRevenue(v: string)
    requires 'I' !in v && 'R' !in v
    ensures !SaysRevenue(v)
  {
    DoesNotOccur("INCOME", 0, v);
    DoesNotOccur("REVENUE", 0, v);
  }

  lemma OccursInItself(v: string)
    ensures Occurs(v, v)
  {
    assert OccursAt(v, v, 0);
  }

  /** The five root types of ERPNext. */
  lemma RootTypes(ops: TextOps)
    ensures ops.upper("Asset") == "ASSET" ==> NormalizeAccountType("Asset", ops) == ASSET
    ensures ops.upper("Liability") == "LIABILITY" ==> NormalizeAccountType("Liability", ops) == LIABILITY
    ensures ops.upper("Equity") == "EQUITY" ==> NormalizeAccountType("Equity", ops) == EQUITY
    ensures ops.upper("Income") == "INCOME" ==> NormalizeAccountType("Income", ops) == REVENUE
    ensures ops.upper("Expense") == "EXPENSE" ==> NormalizeAccountType("Expense", ops) == EXPENSE
  {
    AssetType(ops);
    LiabilityType(ops);
    EquityType(ops);
    IncomeType(ops);
    ExpenseType(ops);
  }

  lemma AssetType(ops: TextOps)
    ensures ops.upper("Asset") == "ASSET" ==> NormalizeAccountType("Asset", ops) == ASSET
  {
    TypeOfText("Asset", ops);
    OccursInItself("ASSET");
  }

  lemma LiabilityType(ops: TextOps)
    ensures ops.upper("Liability") == "LIABILITY" ==> NormalizeAccountType("Liability", ops) == LIABILITY
  {
    TypeOfText("Liability", ops);
    OccursInItself("LIABILITY");
    NoAsset("LIABILITY");
  }

  lemma EquityType(ops: TextOps)
    ensures ops.upper("Equity") == "EQUITY" ==> NormalizeAccountType("Equity", ops) == EQUITY
  {
    TypeOfText("Equity", ops);
    OccursInItself("EQUITY");
    NoAsset("EQUITY");
    NoLiability("EQUITY");
  }

  lemma IncomeType(ops: TextOps)
    ensures ops.upper("Income") == "INCOME" ==> NormalizeAccountType("Income", ops) == REVENUE
  {
    TypeOfText("Income", ops);
    OccursInItself("INCOME");
    NoAsset("INCOME");
    NoLiability("INCOME");
    NoEquity("INCOME");
  }

  lemma ExpenseType(ops: TextOps)
    ensures ops.upper("Expense") == "EXPENSE" ==> NormalizeAccountType("Expense", ops) == EXPENSE
  {
    TypeOfText("Expense", ops);
    OccursInItself("EXPENSE");
    NoAsset("EXPENSE");
    NoLiability("EXPENSE");
    NoEquity("EXPENSE");
    NoRevenue("EXPENSE");
  }

  predicate CodesApart(accts: seq<Account>) {
    forall i, j :: 0 <= i < j < |accts| ==> accts[i].code != accts[j].code
  }

  /** `a` has no parent, the type `t` and a code that starts with `digit`. */
  predicate TopAccount(a: Account, t: AccountType, digit: char) {
    a.parent == None && a.accountType == t && a.code != "" && a.code[0] == digit
  }

  lemma AssetAccounts(country: string, currency: string)
    ensures |StandardGaapTree(country, currency)| == 17
    ensures forall i :: 0 <= i < 7 ==> TopAccount(StandardGaapTree(country, currency)[i], ASSET, '1')
  {
  }

  lemma LiabilityAccounts(country: string, currency: string)
    ensures forall i :: 7 <= i < 11 ==> TopAccount(StandardGaapTree(country, currency)[i], LIABILITY, '2')
    ensures TopAccount(StandardGaapTree(country, currency)[11], EQUITY, '3')
  {
  }

  lemma ResultAccounts(country: string, currency: string)
    ensures forall i :: 12 <= i < 14 ==> TopAccount(StandardGaapTree(country, currency)[i], REVENUE, '4')
    ensures forall i :: 14 <= i < 17 ==> TopAccount(StandardGaapTree(country, currency)[i], EXPENSE, '5')
  {
  }

  /** The seventeen standard accounts have no parents, and their codes start with the digit of their type. */
  lemma StandardAccountsAreTyped(country: string, currency: string)
    ensures var accts := StandardGaapTree(country, currency);
            && |accts| == 17
            && (forall i :: 0 <= i < 7 ==> TopAccount(accts[i], ASSET, '1'))
            && (forall i :: 7 <= i < 11 ==> TopAccount(accts[i], LIABILITY, '2'))
            && TopAccount(accts[11], EQUITY, '3')
            && (forall i :: 12 <= i < 14 ==> TopAccount(accts[i], REVENUE, '4'))
            && (forall i :: 14 <= i < 17 ==> TopAccount(accts[i], EXPENSE, '5'))
  {
    AssetAccounts(country, currency);
    LiabilityAccounts(country, currency);
    ResultAccounts(country, currency);
  }

  lemma AssetCodesApart(country: string, currency: string)
    ensures CodesApart(StandardGaapTree(country, currency)[..7])
  {
  }

  lemma OtherCodesApart(country: string, currency: string)
    ensures CodesApart(StandardGaapTree(country, currency)[7..11])
    ensures CodesApart(StandardGaapTree(country, currency)[12..14])
    ensures CodesApart(StandardGaapTree(country, currency)[14..])
  {
  }

  /** No two of the standard accounts have one code. */
  lemma StandardCodesApart(country: string, currency: string)
    ensures CodesApart(StandardGaapTree(country, currency))
  {
    var accts := StandardGaapTree(country, currency);
    StandardAccountsAreTyped(country, currency);
    AssetCodesApart(country, currency);
    OtherCodesApart(country, currency);
    PartsApart(accts);
  }

  lemma PartsApart(accts: seq<Account>)
    requires |accts| == 17
    requires CodesApart(accts[..7]) && CodesApart(accts[7..11]) && CodesApart(accts[12..14]) && CodesApart(accts[14..])
    requires forall i :: 0 <= i < 17 ==> accts[i].code != "" && accts[i].code[0] == DigitAt(i)
    ensures CodesApart(accts)
  {
    forall i, j | 0 <= i < j < 17 ensures accts[i].code != accts[j].code {
      if DigitAt(i) == DigitAt(j) {
        if i < 7 {
          assert accts[..7][i] == accts[i] && accts[..7][j] == accts[j];
        } else if i < 11 {
          assert accts[7..11][i - 7] == accts[i] && accts[7..11][j - 7] == accts[j];
        } else if i < 14 {
          assert accts[12..14][i - 12] == accts[i] && accts[12..14][j - 12] == accts[j];
        } else {
          assert accts[14..][i - 14] == accts[i] && accts[14..][j - 14] == accts[j];
        }
      }
    }
  }

  function DigitAt(i: int): char {
    if i < 7 then '1' else if i < 11 then '2' else if i < 12 then '3' else if i < 14 then '4' else '5'
  }

  // ---------------------------------------------------------------- slugs

  /** The code points of the digits and of the capital letters. */
  lemma CodeAlphabet(c: char)
    ensures IsAlnum(c) <==> 48 <= c as int <= 57 || 65 <= c as int <= 90
  {
  }

  /** The maximal runs of letters and digits of `s`. */
  function Words(s: string): (ws: seq<string>)
    ensures s != "" && IsAlnum(s[0]) ==> ws != []
  {
    if s == "" then []
    else
      var rest := Words(s[1..]);
      if !IsAlnum(s[0]) then rest
      else if |s| > 1 && IsAlnum(s[1]) then [[s[0]] + rest[0]] + rest[1..]
      else [[s[0]]] + rest
  }

  function Joined(ws: seq<string>): string {
    if ws == [] then "" else if |ws| == 1 then ws[0] else ws[0] + "-" + Joined(ws[1..])
  }

  lemma {:induction false} WordsAreNotEmpty(s: string)
    ensures forall w <- Words(s) :: w != "" && forall i :: 0 <= i < |w| ==> IsAlnum(w[i])
  {
    if s != "" {
      WordsAreNotEmpty(s[1..]);
      var rest := Words(s[1..]);
      forall w <- Words(s) ensures w != "" && forall i :: 0 <= i < |w| ==> IsAlnum(w[i]) {
        if IsAlnum(s[0]) && |s| > 1 && IsAlnum(s[1]) && w == [s[0]] + rest[0] {
          assert rest[0] in rest;
        }
      }
    }
  }

  function Trail(s: string): string {
    if Words(s) != [] && !IsAlnum(s[|s| - 1]) then "-" else ""
  }

  /** A letter more on the first word. */
  lemma JoinedLonger(c: char, rest: seq<string>)
    requires rest != []
    ensures Joined([[c] + rest[0]] + rest[1..]) == [c] + Joined(rest)
  {
    var a := [[c] + rest[0]] + rest[1..];
    assert a[0] == [c] + rest[0] && a[1..] == rest[1..];
    if |rest| > 1 {
      Regroup([c], rest[0], Joined(rest[1..]));
    }
  }

  lemma Regroup(a: string, b: string, c: string)
    ensures (a + b) + "-" + c == a + (b + "-" + c)
  {
  }

  /** A word more of one letter. */
  lemma JoinedMore(c: char, rest: seq<string>)
    ensures Joined([[c]] + rest) == [c] + if rest == [] then "" else "-" + Joined(rest)
  {
    var b := [[c]] + rest;
    assert b[1..] == rest;
  }

  /** Inside a run, what is dashed is the words joined by dashes, with a dash for what follows the last. */
  lemma {:induction false} DashedIsJoined(s: string)
    ensures Dashed(s, true) == Joined(Words(s)) + Trail(s)
    ensures Dashed(s, false) == (if s != "" && !IsAlnum(s[0]) then "-" else "") + Dashed(s, true)
  {
    if s != "" {
      var t := s[1..];
      DashedIsJoined(t);
      TrailOf(s);
      if IsAlnum(s[0]) && t != "" && IsAlnum(t[0]) {
        JoinedLonger(s[0], Words(t));
        assert Dashed(s, true) == [s[0]] + (Joined(Words(t)) + Trail(t));
      } else if IsAlnum(s[0]) {
        JoinedMore(s[0], Words(t));
        if t != "" {
          assert Dashed(s, true) == [s[0]] + ("-" + (Joined(Words(t)) + Trail(t)));
        }
      }
    }
  }

  lemma TrailOf(s: string)
    requires s != ""
    ensures var t := s[1..];
            && (Words(t) != [] ==> Trail(s) == Trail(t))
            && (Words(t) == [] && IsAlnum(s[0]) ==> Trail(s) == if t == "" then "" else "-")
            && (Words(t) == [] && !IsAlnum(s[0]) ==> Trail(s) == "")
  {
    var t := s[1..];
    if t != "" {
      assert t[|t| - 1] == s[|s| - 1];
      if IsAlnum(t[|t| - 1]) {
        LastAlnumIsAWord(t);
      }
    }
  }

  lemma {:induction false} LastAlnumIsAWord(s: string)
    requires s != "" && IsAlnum(s[|s| - 1])
    ensures Words(s) != []
  {
    if |s| > 1 {
      LastAlnumIsAWord(s[1..]);
    }
  }

  function Dashes(n: nat): string {
    seq(n, _ => '-')
  }

  predicate Bare(t: string) {
    t == "" || (t[0] != '-' && t[|t| - 1] != '-')
  }

  lemma MoreDashes(n: nat, t: string)
    ensures "-" + (Dashes(n) + t) == Dashes(n + 1) + t
    ensures (t + Dashes(n)) + "-" == t + Dashes(n + 1)
  {
  }

  /** Stripping takes off exactly the outer dashes. */
  lemma {:induction false} StripTakesDashes(s: string) returns (a: nat, b: nat)
    ensures s == Dashes(a) + StripDashes(s) + Dashes(b) && Bare(StripDashes(s))
  {
    if s != "" && s[0] == '-' {
      a, b := StripTakesDashes(s[1..]);
      MoreDashes(a, StripDashes(s) + Dashes(b));
      assert s == "-" + s[1..] && s[1..] == Dashes(a) + (StripDashes(s) + Dashes(b));
      a := a + 1;
    } else if s != "" && s[|s| - 1] == '-' {
      a, b := StripTakesDashes(s[..|s| - 1]);
      MoreDashes(b, Dashes(a) + StripDashes(s));
      assert s == s[..|s| - 1] + "-";
      b := b + 1;
    } else {
      a, b := 0, 0;
    }
  }

  /** A bare text is what stripping gives back from it and any outer dashes. */
  lemma {:induction false} StripGivesBare(a: nat, t: string, b: nat)
    requires Bare(t)
    ensures StripDashes(Dashes(a) + t + Dashes(b)) == t
    decreases a + b
  {
    var s := Dashes(a) + t + Dashes(b);
    if a > 0 {
      StripGivesBare(a - 1, t, b);
      assert s[1..] == Dashes(a - 1) + t + Dashes(b);
    } else if b > 0 {
      if t == "" {
        StripGivesBare(0, t, b - 1);
        assert s[1..] == Dashes(0) + t + Dashes(b - 1);
      } else {
        StripGivesBare(0, t, b - 1);
        assert s[..|s| - 1] == Dashes(0) + t + Dashes(b - 1);
        assert s[0] == t[0];
      }
    } else {
      assert s == t;
    }
  }

  lemma {:induction false} JoinedIsBare(ws: seq<string>)
    requires forall w <- ws :: w != "" && forall i :: 0 <= i < |w| ==> IsAlnum(w[i])
    ensures Bare(Joined(ws)) && (ws != [] ==> Joined(ws) != "")
  {
    if |ws| == 1 {
      assert ws[0] in ws;
    } else if ws != [] {
      assert ws[0] in ws && IsAlnum(ws[0][0]);
      JoinedIsBare(ws[1..]);
      var rest := Joined(ws[1..]);
      assert Joined(ws)[|Joined(ws)| - 1] == rest[|rest| - 1];
    }
  }

  /** What remains of a name are its words, joined by single dashes. */
  lemma CleanIsJoinedWords(s: string)
    ensures StripDashes(Dashed(s, false)) == Joined(Words(s))
  {
    DashedIsJoined(s);
    WordsAreNotEmpty(s);
    JoinedIsBare(Words(s));
    var a, b := if s != "" && !IsAlnum(s[0]) then 1 else 0, |Trail(s)|;
    assert Dashes(0) == "" && Dashes(1) == "-";
    assert Dashed(s, false) == Dashes(a) + Joined(Words(s)) + Dashes(b);
    StripGivesBare(a, Joined(Words(s)), b);
  }

  /** `t` is the first `n` characters of `s`, or all of it. */
  predicate Cut(t: string, s: string, n: nat) {
    t <= s && |t| == if |s| <= n then |s| else n
  }

  /**
   The slug of a name: without a number, the first 32 characters of its words joined by dashes; with one,
   what the number keeps of letters, digits and dashes, a dash, and the first 16 characters of the joined
   words, without outer dashes.
   */
  ghost predicate SlugIs(slug: string, name: string, number: Option<string>, ops: TextOps) {
    var clean := Joined(Words(ops.upper(name)));
    if number == None || ops.strip(number.value) == "" then Cut(slug, clean, 32)
    else
      exists kept, short :: KeptOf(kept, ops.upper(ops.strip(number.value))) && Cut(short, clean, 16)
                            && Stripped(slug, kept + "-" + short)
  }

  ghost predicate Stripped(t: string, s: string) {
    Bare(t) && exists a, b :: s == Dashes(a) + t + Dashes(b)
  }

  /** `t` is `s` without everything but letters, digits and dashes. */
  predicate KeptOf(t: string, s: string) {
    if s == "" then t == ""
    else if IsAlnum(s[|s| - 1]) || s[|s| - 1] == '-' then
      t != "" && t[|t| - 1] == s[|s| - 1] && KeptOf(t[..|t| - 1], s[..|s| - 1])
    else KeptOf(t, s[..|s| - 1])
  }

  lemma {:induction false} KeptIsKept(s: string)
    ensures KeptOf(Kept(s), s)
  {
    if s != "" {
      var n := |s| - 1;
      KeptIsKept(s[..n]);
      KeptLast(s[..n], s[n]);
      assert s == s[..n] + [s[n]] && Kept(s[..n]) + "" == Kept(s[..n]);
      assert IsAlnum(s[n]) || s[n] == '-' ==> Kept(s)[..|Kept(s)| - 1] == Kept(s[..n]);
    }
  }

  lemma {:induction false} KeptLast(s: string, c: char)
    ensures Kept(s + [c]) == Kept(s) + if IsAlnum(c) || c == '-' then [c] else ""
  {
    if s == "" {
      assert s + [c] == [c] && Kept("") == "";
    } else {
      KeptLast(s[1..], c);
      assert (s + [c])[1..] == s[1..] + [c];
    }
  }

  lemma SlugOfName(name: string, number: Option<string>, ops: TextOps)
    ensures SlugIs(SlugifyCode(name, number, ops), name, number, ops)
  {
    var clean := Joined(Words(ops.upper(name)));
    CleanIsJoinedWords(ops.upper(name));
    if number.Some? && ops.strip(number.value) != "" {
      NumberedSlug(ops.upper(ops.strip(number.value)), clean);
      assert SlugifyCode(name, number, ops) == StripDashes(Kept(ops.upper(ops.strip(number.value))) + "-" + Take(clean, 16));
    }
  }

  lemma NumberedSlug(number: string, clean: string)
    ensures var kept, short := Kept(number), Take(clean, 16);
            KeptOf(kept, number) && Cut(short, clean, 16) && Stripped(StripDashes(kept + "-" + short), kept + "-" + short)
  {
    KeptIsKept(number);
    var a, b := StripTakesDashes(Kept(number) + "-" + Take(clean, 16));
  }

  // ---------------------------------------------------------------- renamed codes

  /** The n-th other name of a code: its first 28 characters, a dash and the number. */
  ghost predicate OtherName(code: string, orig: string, n: nat) {
    exists short :: Cut(short, orig, 28) && code == short + "-" + Decimal(n)
  }

  /** `code` is `orig`, or where that is taken the first of its other names that is not. */
  ghost predicate Renamed(orig: string, seen: set<string>, code: string) {
    && code !in seen
    && (orig !in seen ==> code == orig)
    && (orig in seen ==>
          exists n: nat :: 1 <= n && OtherName(code, orig, n)
                           && forall m: nat, other :: 1 <= m < n && OtherName(other, orig, m) ==> other in seen)
  }

  lemma FreshIsRenamed(orig: string, seen: set<string>, code: string)
    requires IsFreshCode(orig, seen, code)
    ensures Renamed(orig, seen, code)
  {
    if orig in seen {
      var n: nat :| 1 <= n <= |seen| + 1 && code == Candidate(orig, n) && Tried(orig, n - 1) <= seen;
      assert Cut(Take(orig, 28), orig, 28) && OtherName(code, orig, n);
      forall m: nat, other | 1 <= m < n && OtherName(other, orig, m) ensures other in seen {
        var short :| Cut(short, orig, 28) && other == short + "-" + Decimal(m);
        assert short == Take(orig, 28) && other == Candidate(orig, m);
        assert other in Tried(orig, n - 1);
      }
    }
  }
}
