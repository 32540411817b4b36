/**
 The chart-of-accounts flattener of src/erp/auth/chart_of_accounts_loader.py.

 A template is a tree of accounts; it becomes a flat list with unique codes and parent codes.
 Unicode upper-casing and stripping are parameters.
 */
module Chart {
  import opened Wrappers
  import opened Math
  import opened Text

  datatype Node = Node(name: string, rootType: Option<string>, number: Option<string>, children: seq<Node>)

  datatype AccountType = ASSET | LIABILITY | EQUITY | REVENUE | EXPENSE

  datatype Account = Account(code: string, name: string, accountType: AccountType, parent: Option<string>)

  datatype TextOps = TextOps(upper: string -> string, strip: string -> string)

  // ---------------------------------------------------------------- types and codes

  predicate Contains(s: string, word: string) {
    word <= s || (s != "" && Contains(s[1..], word))
  }

  function NormalizeAccountType(rootType: string, ops: TextOps): AccountType {
    var v := ops.upper(rootType);
    if Contains(v, "ASSET") || Contains(v, "APPLICATION OF FUNDS") then ASSET
    else if Contains(v, "LIABILITY") || Contains(v, "SOURCE OF FUNDS") then LIABILITY
    else if Contains(v, "EQUITY") then EQUITY
    else if Contains(v, "INCOME") || Contains(v, "REVENUE") then REVENUE
    else if Contains(v, "EXPENSE") then EXPENSE
    else ASSET
  }

  predicate IsAlnum(c: char) {
    'A' <= c <= 'Z' || '0' <= c <= '9'
  }

  /** re.sub("[^A-Z0-9]+", "-", s); `inRun` holds inside a run already replaced. */
  function Dashed(s: string, inRun: bool): string {
    if s == "" then ""
    else if IsAlnum(s[0]) then [s[0]] + Dashed(s[1..], false)
    else (if inRun then "" else "-") + Dashed(s[1..], true)
  }

  /** re.sub("[^0-9A-Z-]", "", s) */
  function Kept(s: string): string {
    if s == "" then ""
    else (if IsAlnum(s[0]) || s[0] == '-' then [s[0]] else "") + Kept(s[1..])
  }

  /** s.strip("-") */
  function StripDashes(s: string): string {
    if s != "" && s[0] == '-' then StripDashes(s[1..])
    else if s != "" && s[|s| - 1] == '-' then StripDashes(s[..|s| - 1])
    else s
  }

  function Take(s: string, n: nat): string {
    s[..Min(|s|, n)]
  }

  function SlugifyCode(name: string, number: Option<string>, ops: TextOps): string {
    var clean := StripDashes(Dashed(ops.upper(name), false));
    if number.Some? && ops.strip(number.value) != "" then
      StripDashes(Kept(ops.upper(ops.strip(number.value))) + "-" + Take(clean, 16))
    else
      Take(clean, 32)
  }

  // ---------------------------------------------------------------- the renaming loop

  function Candidate(orig: string, counter: nat): string {
    Take(orig, 28) + "-" + Decimal(counter)
  }

  lemma CandidateInjective(orig: string, i: nat, j: nat)
    requires Candidate(orig, i) == Candidate(orig, j)
    ensures i == j
  {
    var p := Take(orig, 28) + "-";
    assert Candidate(orig, i)[|p|..] == Decimal(i) && Candidate(orig, j)[|p|..] == Decimal(j);
    DecimalInjective(i, j);
  }

  /** The candidates with counters 1 to n. */
  function Tried(orig: string, n: nat): set<string> {
    set i | 1 <= i <= n :: Candidate(orig, i)
  }

  lemma NextIsUntried(orig: string, n: nat)
    requires 0 < n
    ensures Candidate(orig, n) !in Tried(orig, n - 1)
    ensures Tried(orig, n) == Tried(orig, n - 1) + {Candidate(orig, n)}
  {
    if Candidate(orig, n) in Tried(orig, n - 1) {
      var i :| 1 <= i <= n - 1 && Candidate(orig, i) == Candidate(orig, n);
      CandidateInjective(orig, i, n);
    }
  }

  /** Distinct counters give distinct candidates, so a set that holds n of them has n elements. */
  lemma {:induction false} TriedCount(orig: string, n: nat)
    ensures |Tried(orig, n)| == n
  {
    if n == 0 {
      assert Tried(orig, 0) == {};
    } else {
      TriedCount(orig, n - 1);
      NextIsUntried(orig, n);
    }
  }

  lemma {:induction false} SubsetSize(a: set<string>, b: set<string>)
    requires a <= b
    ensures |a| <= |b|
  {
    if a != {} {
      var x :| x in a;
      SubsetSize(a - {x}, b - {x});
    }
  }

  /** `code` is what the renaming of `orig` must give: `orig` itself or the first free candidate. */
  predicate IsFreshCode(orig: string, seen: set<string>, code: string) {
    && code !in seen
    && (orig !in seen ==> code == orig)
    && (orig in seen ==> exists n: nat :: 1 <= n <= |seen| + 1 && code == Candidate(orig, n) && Tried(orig, n - 1) <= seen)
  }

  /** The first free candidate from `counter` on, all before it being taken. */
  function Probe(orig: string, counter: nat, seen: set<string>): (code: string)
    requires 1 <= counter && Tried(orig, counter - 1) <= seen
    ensures code !in seen
    ensures exists n: nat :: 1 <= n <= |seen| + 1 && code == Candidate(orig, n) && Tried(orig, n - 1) <= seen
    decreases |seen| + 1 - counter
  {
    TriedCount(orig, counter - 1);
    SubsetSize(Tried(orig, counter - 1), seen);
    if Candidate(orig, counter) in seen then
      assert Tried(orig, counter) == Tried(orig, counter - 1) + {Candidate(orig, counter)};
      TriedCount(orig, counter);
      SubsetSize(Tried(orig, counter), seen);
      Probe(orig, counter + 1, seen)
    else
      Candidate(orig, counter)
  }

  function FreshCode(orig: string, seen: set<string>): (code: string)
    ensures IsFreshCode(orig, seen, code)
  {
    if orig in seen then
      assert Tried(orig, 0) == {};
      Probe(orig, 1, seen)
    else orig
  }

  /** The rules leave no choice of code. */
  lemma FreshCodeIsUnique(orig: string, seen: set<string>, a: string, b: string)
    requires IsFreshCode(orig, seen, a) && IsFreshCode(orig, seen, b)
    ensures a == b
  {
    if orig in seen {
      var m: nat :| 1 <= m <= |seen| + 1 && a == Candidate(orig, m) && Tried(orig, m - 1) <= seen;
      var n: nat :| 1 <= n <= |seen| + 1 && b == Candidate(orig, n) && Tried(orig, n - 1) <= seen;
      assert forall i: nat, k: nat :: 1 <= i <= k ==> Candidate(orig, i) in Tried(orig, k);
    }
  }

  /** The loop: try counters until a code is free; at most |seen| + 1 tries. */
  method MakeFresh(orig: string, seen: set<string>) returns (code: string)
    ensures IsFreshCode(orig, seen, code)
  {
    code := orig;
    var counter := 1;
    assert Tried(orig, 0) == {};
    while code in seen
      invariant 1 <= counter <= |seen| + 2
      invariant counter == 1 ==> code == orig
      invariant counter > 1 ==> orig in seen && code == Candidate(orig, counter - 1)
      invariant counter > 1 ==> Tried(orig, counter - 2) <= seen
      decreases |seen| + 2 - counter
    {
      if counter > 1 {
        assert Tried(orig, counter - 1) == Tried(orig, counter - 2) + {Candidate(orig, counter - 1)};
      }
      TriedCount(orig, counter - 1);
      SubsetSize(Tried(orig, counter - 1), seen);
      code := Candidate(orig, counter);
      counter := counter + 1;
    }
    if counter > 1 {
      TriedCount(orig, counter - 2);
      SubsetSize(Tried(orig, counter - 2), seen);
      assert code == Candidate(orig, counter - 1) && Tried(orig, (counter - 1) - 1) <= seen;
    }
  }

  // ---------------------------------------------------------------- the traversal

  datatype Chart = Chart(accounts: seq<Account>, seen: set<string>)

  function Inherit(own: Option<string>, inherited: string): string {
    if own.Some? then own.value else inherited
  }

  function Add(c: Chart, a: Account): Chart {
    Chart(c.accounts + [a], c.seen + {a.code})
  }

  function Flatten(nodes: seq<Node>, parent: string, rootType: string, c: Chart, ops: TextOps): Chart
    decreases nodes
  {
    if nodes == [] then c
    else
      var n := nodes[0];
      var own := Inherit(n.rootType, rootType);
      var code := FreshCode(SlugifyCode(n.name, n.number, ops), c.seen);
      var below := Flatten(n.children, code, own,
                           Add(c, Account(code, n.name, NormalizeAccountType(own, ops), Some(parent))), ops);
      Flatten(nodes[1..], parent, rootType, below, ops)
  }

  function RootAccount(n: Node, ops: TextOps): Account {
    Account(SlugifyCode(n.name, n.number, ops), n.name, NormalizeAccountType(Inherit(n.rootType, n.name), ops), None)
  }

  /** Roots take their slug as it is. */
  function FlattenRoots(roots: seq<Node>, c: Chart, ops: TextOps): Chart {
    if roots == [] then c
    else
      var n, a := roots[0], RootAccount(roots[0], ops);
      FlattenRoots(roots[1..], Flatten(n.children, a.code, Inherit(n.rootType, n.name), Add(c, a), ops), ops)
  }

  function AddMissing(core: seq<Account>, c: Chart): Chart {
    if core == [] then c
    else AddMissing(core[1..], if core[0].code in c.seen then c else Add(c, core[0]))
  }

  function StandardGaapTree(country: string, currency: string): seq<Account> {
    [Account("1010-CASH", "Operating Cash (" + currency + ")", ASSET, None),
     Account("1020-BANK-OPERATING", "Primary Operating Bank Account (" + currency + ")", ASSET, None),
     Account("1200-AR-CUSTOMERS", "Accounts Receivable - Trade Customers", ASSET, None),
     Account("1300-RAW-MATERIALS", "Raw Materials & Components Inventory", ASSET, None),
     Account("1350-FINISHED-GOODS", "Finished Goods Valuation", ASSET, None),
     Account("1400-FINISHED-GOODS", "Finished Goods Inventory Valuation", ASSET, None),
     Account("1500-TAX-ASSETS", "Input VAT / Sales Tax Recoverable (" + country + ")", ASSET, None),
     Account("2100-AP-VENDORS", "Accounts Payable - Trade Vendors", LIABILITY, None),
     Account("2110-AP-EMPLOYEES", "Accounts Payable - Employee Expense Claims", LIABILITY, None),
     Account("2150-CUSTOMER-ADVANCES", "Customer Advances and Deposits", LIABILITY, None),
     Account("2200-TAX-PAYABLE", "Output VAT / Sales Tax Payable (" + country + ")", LIABILITY, None),
     Account("3000-EQUITY-CAPITAL", "Shareholders Paid-In Capital", EQUITY, None),
     Account("4000-REV-SALES", "Commercial Sales Revenue", REVENUE, None),
     Account("4000-SALES-REVENUE", "Commercial Sales Revenue Standard", REVENUE, None),
     Account("5000-COGS-MATERIALS", "Cost of Goods Sold - Materials", EXPENSE, None),
     Account("5100-EXP-TRAVEL", "Employee Travel & Operational Expenses", EXPENSE, None),
     Account("5200-DEP-MACHINERY", "Machine Depreciation Expense", EXPENSE, None)]
  }

  const EMPTY := Chart([], {})

  /** The accounts of a template, with those of `core` it lacks. */
  function BuildWith(core: seq<Account>, roots: seq<Node>, ops: TextOps): seq<Account> {
    AddMissing(core, FlattenRoots(roots, EMPTY, ops)).accounts
  }

  /** None and the empty tree both fall back to the standard accounts. */
  function BuildAccounts(tree: Option<seq<Node>>, country: string, currency: string, ops: TextOps): seq<Account> {
    if tree.None? || tree.value == [] then StandardGaapTree(country, currency)
    else BuildWith(StandardGaapTree(country, currency), tree.value, ops)
  }

  class ChartBuilder {
    var accounts: seq<Account>
    var seen: set<string>
    const ops: TextOps

    ghost function State(): Chart
      reads this
    {
      Chart(accounts, seen)
    }

    constructor (ops: TextOps)
      ensures State() == EMPTY && this.ops == ops
    {
      accounts, seen := [], {};
      this.ops := ops;
    }

    method Traverse(nodes: seq<Node>, parent: string, rootType: string)
      modifies this
      ensures State() == Flatten(nodes, parent, rootType, old(State()), ops)
      decreases nodes
    {
      for i := 0 to |nodes|
        invariant Flatten(nodes[i..], parent, rootType, State(), ops) == Flatten(nodes, parent, rootType, old(State()), ops)
      {
        var n := nodes[i];
        var own := Inherit(n.rootType, rootType);
        var orig := SlugifyCode(n.name, n.number, ops);
        var code := MakeFresh(orig, seen);
        FreshCodeIsUnique(orig, seen, code, FreshCode(orig, seen));
        seen := seen + {code};
        accounts := accounts + [Account(code, n.name, NormalizeAccountType(own, ops), Some(parent))];
        assert nodes[i..][0] == n && nodes[i..][1..] == nodes[i + 1..];
        Traverse(n.children, code, own);
      }
    }

    method Build(tree: Option<seq<Node>>, country: string, currency: string) returns (r: seq<Account>)
      requires State() == EMPTY
      modifies this
      ensures r == BuildAccounts(tree, country, currency, ops)
      ensures tree == None || tree == Some([]) ==> r == StandardGaapTree(country, currency)
    {
      if tree.None? || tree.value == [] {
        return StandardGaapTree(country, currency);
      }
      var core := StandardGaapTree(country, currency);
      r := BuildFrom(tree.value, core);
    }

    method BuildFrom(roots: seq<Node>, core: seq<Account>) returns (r: seq<Account>)
      requires State() == EMPTY
      modifies this
      ensures r == BuildWith(core, roots, ops)
    {
      for i := 0 to |roots|
        invariant FlattenRoots(roots[i..], State(), ops) == FlattenRoots(roots, EMPTY, ops)
      {
        var n := roots[i];
        var rootType := Inherit(n.rootType, n.name);
        var code := SlugifyCode(n.name, n.number, ops);
        seen := seen + {code};
        accounts := accounts + [Account(code, n.name, NormalizeAccountType(rootType, ops), None)];
        assert roots[i..][0] == n && roots[i..][1..] == roots[i + 1..];
        Traverse(n.children, code, rootType);
      }
      ghost var flat := State();
      for i := 0 to |core|
        invariant AddMissing(core[i..], State()) == AddMissing(core, flat)
      {
        assert core[i..][0] == core[i] && core[i..][1..] == core[i + 1..];
        if core[i].code !in seen {
          accounts := accounts + [core[i]];
          seen := seen + {core[i].code};
        }
      }
      return accounts;
    }
  }
}
