/** What the flat chart keeps of the tree: codes, pre-order, types and parents. */
module ChartProps {
  import opened Wrappers
  import opened Math
  import opened Chart
  import opened ChartText

  predicate Distinct(accts: seq<Account>) {
    forall i, j :: 0 <= i < j < |accts| ==> accts[i].code != accts[j].code
  }

  predicate HasCode(accts: seq<Account>, code: string) {
    exists i :: 0 <= i < |accts| && accts[i].code == code
  }

  /** `seen` holds exactly the codes emitted so far. */
  ghost predicate SeenIsCodes(c: Chart) {
    forall code :: code in c.seen <==> HasCode(c.accounts, code)
  }

  // ---------------------------------------------------------------- slugs

  predicate SlugChar(c: char) {
    IsAlnum(c) || c == '-'
  }

  predicate SlugText(s: string) {
    forall i :: 0 <= i < |s| ==> SlugChar(s[i])
  }

  /** No run of other characters is replaced by more than one dash. */
  predicate NoDoubleDash(s: string) {
    forall i :: 0 < i < |s| ==> s[i - 1] != '-' || s[i] != '-'
  }

  /** The letters and digits of a text, in order. */
  function Alnum(s: string): string {
    if s == "" then "" else (if IsAlnum(s[0]) then [s[0]] else "") + Alnum(s[1..])
  }

  lemma {:induction false} DashedShape(s: string, inRun: bool)
    ensures var d := Dashed(s, inRun);
            SlugText(d) && NoDoubleDash(d) && Alnum(d) == Alnum(s) && (inRun && d != "" ==> d[0] != '-')
  {
    if s != "" {
      var d, rest := Dashed(s, inRun), Dashed(s[1..], !IsAlnum(s[0]));
      DashedShape(s[1..], !IsAlnum(s[0]));
      if IsAlnum(s[0]) {
        assert d == [s[0]] + rest && d[1..] == rest;
      } else if !inRun {
        assert d == "-" + rest && d[1..] == rest;
      } else {
        assert d == rest;
      }
    }
  }

  lemma {:induction false} AlnumConcat(a: string, b: string)
    ensures Alnum(a + b) == Alnum(a) + Alnum(b)
  {
    if a == "" {
      assert a + b == b;
    } else {
      AlnumConcat(a[1..], b);
      assert (a + b)[1..] == a[1..] + b && (a + b)[0] == a[0];
      var head := if IsAlnum(a[0]) then [a[0]] else "";
      assert head + (Alnum(a[1..]) + Alnum(b)) == (head + Alnum(a[1..])) + Alnum(b);
    }
  }

  lemma PrefixOfConcat(a: string, b: string)
    ensures a <= a + b
  {
  }

  lemma AlnumPrefix(a: string, b: string)
    ensures Alnum(a) <= Alnum(a + b)
  {
    AlnumConcat(a, b);
    PrefixOfConcat(Alnum(a), Alnum(b));
  }

  lemma {:induction false} StripShape(s: string)
    requires SlugText(s)
    ensures var t := StripDashes(s);
            && SlugText(t) && Alnum(t) == Alnum(s)
            && (t != "" ==> t[0] != '-' && t[|t| - 1] != '-')
  {
    if s != "" && s[0] == '-' {
      StripShape(s[1..]);
    } else if s != "" && s[|s| - 1] == '-' {
      var n := |s| - 1;
      StripShape(s[..n]);
      AlnumConcat(s[..n], [s[n]]);
      assert s == s[..n] + [s[n]] && Alnum([s[n]]) == "";
    }
  }

  lemma {:induction false} StripKeepsSingleDashes(s: string)
    requires NoDoubleDash(s)
    ensures NoDoubleDash(StripDashes(s))
  {
    if s != "" && s[0] == '-' {
      StripKeepsSingleDashes(s[1..]);
    } else if s != "" && s[|s| - 1] == '-' {
      StripKeepsSingleDashes(s[..|s| - 1]);
    }
  }

  lemma JoinIsSlugText(a: string, b: string)
    requires SlugText(a) && SlugText(b)
    ensures SlugText(a + "-" + b)
  {
  }

  lemma AlnumOfJoin(a: string, b: string)
    ensures Alnum(a + "-" + b) == Alnum(a) + Alnum(b)
  {
    AlnumConcat(a + "-", b);
    AlnumConcat(a, "-");
    assert Alnum("-") == Alnum("-"[1..]);
    assert Alnum(a) + "" == Alnum(a);
  }

  lemma JoinShape(a: string, b: string)
    requires SlugText(a) && SlugText(b)
    ensures var t := StripDashes(a + "-" + b);
            && SlugText(t) && Alnum(t) == Alnum(a) + Alnum(b)
            && (t != "" ==> t[0] != '-' && t[|t| - 1] != '-')
  {
    JoinIsSlugText(a, b);
    StripShape(a + "-" + b);
    AlnumOfJoin(a, b);
  }

  lemma {:induction false} KeptShape(s: string)
    ensures SlugText(Kept(s)) && Alnum(Kept(s)) == Alnum(s)
  {
    if s != "" {
      KeptShape(s[1..]);
      var k := Kept(s);
      if SlugChar(s[0]) {
        assert k == [s[0]] + Kept(s[1..]) && k[1..] == Kept(s[1..]);
      } else {
        assert k == Kept(s[1..]);
      }
    }
  }

  lemma CleanShape(name: string, ops: TextOps)
    ensures var clean := StripDashes(Dashed(ops.upper(name), false));
            && SlugText(clean) && NoDoubleDash(clean) && Alnum(clean) == Alnum(ops.upper(name))
            && (clean != "" ==> clean[0] != '-')
  {
    var d := Dashed(ops.upper(name), false);
    DashedShape(ops.upper(name), false);
    StripShape(d);
    StripKeepsSingleDashes(d);
  }

  /**
   The slug of an unnumbered name has at most 32 characters, all of [A-Z0-9-], starts with none and
   doubles no dash; its letters and digits are the first ones of the upper-cased name.
   */
  lemma SlugShape(name: string, ops: TextOps)
    ensures var slug := SlugifyCode(name, None, ops);
            && |slug| <= 32 && SlugText(slug) && NoDoubleDash(slug)
            && (slug != "" ==> slug[0] != '-')
            && Alnum(slug) <= Alnum(ops.upper(name))
  {
    var clean := StripDashes(Dashed(ops.upper(name), false));
    CleanShape(name, ops);
    var n := Min(|clean|, 32);
    assert clean[..n] + clean[n..] == clean;
    AlnumPrefix(clean[..n], clean[n..]);
  }

  /**
   The slug of a numbered name is of [A-Z0-9-] too, starts and ends with no dash, and its letters and
   digits are those of the number followed by at most the first 16 characters of the cleaned name.
   */
  lemma NumberedSlugShape(name: string, number: string, ops: TextOps)
    requires ops.strip(number) != ""
    ensures var slug, clean := SlugifyCode(name, Some(number), ops), StripDashes(Dashed(ops.upper(name), false));
            && SlugText(slug)
            && (slug != "" ==> slug[0] != '-' && slug[|slug| - 1] != '-')
            && Alnum(slug) == Alnum(ops.upper(ops.strip(number))) + Alnum(Take(clean, 16))
  {
    var clean := StripDashes(Dashed(ops.upper(name), false));
    CleanShape(name, ops);
    KeptShape(ops.upper(ops.strip(number)));
    JoinShape(Kept(ops.upper(ops.strip(number))), Take(clean, 16));
  }

  // ---------------------------------------------------------------- unique codes

  lemma AddKeeps(c: Chart, a: Account)
    requires SeenIsCodes(c)
    ensures SeenIsCodes(Add(c, a))
    ensures c.accounts <= Add(c, a).accounts
    ensures Distinct(Add(c, a).accounts) <==> Distinct(c.accounts) && a.code !in c.seen
  {
    var b := Add(c, a).accounts;
    forall code ensures HasCode(b, code) <==> HasCode(c.accounts, code) || code == a.code {
      assert b[|c.accounts|].code == a.code;
      if HasCode(c.accounts, code) {
        var i :| 0 <= i < |c.accounts| && c.accounts[i].code == code;
        assert b[i].code == code;
      }
    }
    if Distinct(b) {
      forall i, j | 0 <= i < j < |c.accounts| ensures c.accounts[i].code != c.accounts[j].code {
        assert b[i].code != b[j].code;
      }
      forall i | 0 <= i < |c.accounts| ensures c.accounts[i].code != a.code {
        assert b[i].code != b[|c.accounts|].code;
      }
      assert a.code in c.seen <==> HasCode(c.accounts, a.code);
    }
  }

  /** Below a root no code is ever repeated. */
  lemma {:induction false} FlattenKeeps(nodes: seq<Node>, parent: string, rootType: string, c: Chart, ops: TextOps)
    requires SeenIsCodes(c)
    ensures var r := Flatten(nodes, parent, rootType, c, ops);
            && SeenIsCodes(r)
            && c.accounts <= r.accounts
            && (Distinct(r.accounts) <==> Distinct(c.accounts))
    decreases nodes
  {
    if nodes != [] {
      var n := nodes[0];
      var own := Inherit(n.rootType, rootType);
      var code := FreshCode(SlugifyCode(n.name, n.number, ops), c.seen);
      var a := Account(code, n.name, NormalizeAccountType(own, ops), Some(parent));
      AddKeeps(c, a);
      FlattenKeeps(n.children, code, own, Add(c, a), ops);
      FlattenKeeps(nodes[1..], parent, rootType, Flatten(n.children, code, own, Add(c, a), ops), ops);
    }
  }

  /** The chart once a root and all below it are flattened. */
  function AfterRoot(n: Node, c: Chart, ops: TextOps): Chart {
    var a := RootAccount(n, ops);
    Flatten(n.children, a.code, Inherit(n.rootType, n.name), Add(c, a), ops)
  }

  /** Every root's slug is new when its turn comes. */
  predicate RootsFresh(roots: seq<Node>, c: Chart, ops: TextOps) {
    roots == [] ||
    (RootAccount(roots[0], ops).code !in c.seen && RootsFresh(roots[1..], AfterRoot(roots[0], c, ops), ops))
  }

  lemma {:induction false} RootsKeep(roots: seq<Node>, c: Chart, ops: TextOps)
    requires SeenIsCodes(c)
    ensures var r := FlattenRoots(roots, c, ops);
            && SeenIsCodes(r)
            && c.accounts <= r.accounts
            && (Distinct(r.accounts) <==> Distinct(c.accounts) && RootsFresh(roots, c, ops))
  {
    if roots != [] {
      var n, a := roots[0], RootAccount(roots[0], ops);
      AddKeeps(c, a);
      var below := Flatten(n.children, a.code, Inherit(n.rootType, n.name), Add(c, a), ops);
      FlattenKeeps(n.children, a.code, Inherit(n.rootType, n.name), Add(c, a), ops);
      RootsKeep(roots[1..], below, ops);
      if Distinct(FlattenRoots(roots[1..], below, ops).accounts) {
        PrefixDistinct(below.accounts, FlattenRoots(roots[1..], below, ops).accounts);
      }
    }
  }

  lemma PrefixDistinct(a: seq<Account>, b: seq<Account>)
    requires a <= b && Distinct(b)
    ensures Distinct(a)
  {
    assert forall i :: 0 <= i < |a| ==> a[i] == b[i];
  }

  lemma {:induction false} AddMissingKeeps(core: seq<Account>, c: Chart)
    requires SeenIsCodes(c)
    ensures var r := AddMissing(core, c);
            && SeenIsCodes(r)
            && c.accounts <= r.accounts
            && (Distinct(r.accounts) <==> Distinct(c.accounts))
            && (forall i :: 0 <= i < |core| ==> HasCode(r.accounts, core[i].code))
            && (forall i :: |c.accounts| <= i < |r.accounts| ==> r.accounts[i] in core)
  {
    if core != [] {
      var d := if core[0].code in c.seen then c else Add(c, core[0]);
      AddKeeps(c, core[0]);
      assert HasCode(d.accounts, core[0].code);
      AddMissingKeeps(core[1..], d);
      var r := AddMissing(core, c);
      var i :| 0 <= i < |d.accounts| && d.accounts[i].code == core[0].code;
      assert r.accounts[i].code == core[0].code;
      forall i | 0 <= i < |core| ensures HasCode(r.accounts, core[i].code) {
        if i > 0 {
          assert core[1..][i - 1] == core[i];
        }
      }
    }
  }

  lemma BuiltCodes(core: seq<Account>, roots: seq<Node>, ops: TextOps)
    ensures var r := BuildWith(core, roots, ops);
            && (Distinct(r) <==> RootsFresh(roots, EMPTY, ops))
            && forall a <- core :: HasCode(r, a.code)
  {
    RootsKeep(roots, EMPTY, ops);
    AddMissingKeeps(core, FlattenRoots(roots, EMPTY, ops));
    forall a <- core ensures HasCode(BuildWith(core, roots, ops), a.code) {
      var i :| 0 <= i < |core| && core[i] == a;
    }
  }

  /**
   The codes of a chart built from a template are pairwise distinct exactly when no root's slug was
   already taken, by an earlier root or below one; the core accounts are all there, either way.
   */
  lemma CodesDistinctExactlyWhen(roots: seq<Node>, country: string, currency: string, ops: TextOps)
    requires roots != []
    ensures var r := BuildAccounts(Some(roots), country, currency, ops);
            && (Distinct(r) <==> RootsFresh(roots, EMPTY, ops))
            && forall core <- StandardGaapTree(country, currency) :: HasCode(r, core.code)
  {
    BuiltCodes(StandardGaapTree(country, currency), roots, ops);
  }

  lemma {:induction false} SeenGrows(nodes: seq<Node>, parent: string, rootType: string, c: Chart, ops: TextOps)
    ensures c.seen <= Flatten(nodes, parent, rootType, c, ops).seen
    decreases nodes
  {
    if nodes != [] {
      var n := nodes[0];
      var own := Inherit(n.rootType, rootType);
      var code := FreshCode(SlugifyCode(n.name, n.number, ops), c.seen);
      var with := Add(c, Account(code, n.name, NormalizeAccountType(own, ops), Some(parent)));
      SeenGrows(n.children, code, own, with, ops);
      SeenGrows(nodes[1..], parent, rootType, Flatten(n.children, code, own, with, ops), ops);
    }
  }

  lemma RootIsSeen(n: Node, c: Chart, ops: TextOps)
    ensures c.seen + {RootAccount(n, ops).code} <= AfterRoot(n, c, ops).seen
  {
    var a := RootAccount(n, ops);
    SeenGrows(n.children, a.code, Inherit(n.rootType, n.name), Add(c, a), ops);
  }

  lemma {:induction false} SeenSlugIsNotFresh(roots: seq<Node>, j: nat, c: Chart, ops: TextOps)
    requires j < |roots| && RootAccount(roots[j], ops).code in c.seen
    ensures !RootsFresh(roots, c, ops)
  {
    if j > 0 {
      RootIsSeen(roots[0], c, ops);
      SeenSlugIsNotFresh(roots[1..], j - 1, AfterRoot(roots[0], c, ops), ops);
    }
  }

  lemma {:induction false} EqualSlugsAreNotFresh(roots: seq<Node>, i: nat, j: nat, c: Chart, ops: TextOps)
    requires i < j < |roots| && RootAccount(roots[i], ops).code == RootAccount(roots[j], ops).code
    ensures !RootsFresh(roots, c, ops)
  {
    RootIsSeen(roots[0], c, ops);
    if i == 0 {
      SeenSlugIsNotFresh(roots[1..], j - 1, AfterRoot(roots[0], c, ops), ops);
    } else {
      EqualSlugsAreNotFresh(roots[1..], i - 1, j - 1, AfterRoot(roots[0], c, ops), ops);
    }
  }

  /** Any two roots of one slug, whatever their names, repeat a code in the chart. */
  lemma EqualRootsCollide(core: seq<Account>, roots: seq<Node>, i: nat, j: nat, ops: TextOps)
    requires i < j < |roots| && RootAccount(roots[i], ops).code == RootAccount(roots[j], ops).code
    ensures !Distinct(BuildWith(core, roots, ops))
  {
    EqualSlugsAreNotFresh(roots, i, j, EMPTY, ops);
    BuiltCodes(core, roots, ops);
  }

  /** Roots named "Assets" and "ASSETS" are two entries of a template and one code of its chart. */
  lemma CaseOnlyRootsCollide(core: seq<Account>, assets: seq<Node>, others: seq<Node>, ops: TextOps)
    requires ops.upper("Assets") == "ASSETS" && ops.upper("ASSETS") == "ASSETS"
    ensures var a, b := Node("Assets", None, None, assets), Node("ASSETS", None, None, others);
            a.name != b.name && !Distinct(BuildWith(core, [a, b], ops))
  {
    var a, b := Node("Assets", None, None, assets), Node("ASSETS", None, None, others);
    assert a.name[1] != b.name[1];
    EqualRootsCollide(core, [a, b], 0, 1, ops);
  }

  // ---------------------------------------------------------------- the shape of the tree

  /**
   What the tree says about one account: its node's name, number and own root type, the root type in force
   there, and the position of its parent in pre-order.
   */
  datatype Row = Row(name: string, number: Option<string>, own: Option<string>, rootType: string, parent: Option<nat>)

  function Size(nodes: seq<Node>): nat
    decreases nodes
  {
    if nodes == [] then 0 else 1 + Size(nodes[0].children) + Size(nodes[1..])
  }

  function RowOf(n: Node, inherited: string, parent: Option<nat>): Row {
    Row(n.name, n.number, n.rootType, if n.rootType == None then inherited else n.rootType.value, parent)
  }

  /** The nodes in pre-order, the first of them at position `base`. */
  function Outline(nodes: seq<Node>, parent: nat, rootType: string, base: nat): (rows: seq<Row>)
    ensures |rows| == Size(nodes)
    decreases nodes
  {
    if nodes == [] then []
    else
      var row := RowOf(nodes[0], rootType, Some(parent));
      [row] + Outline(nodes[0].children, base, row.rootType, base + 1)
      + Outline(nodes[1..], parent, rootType, base + 1 + Size(nodes[0].children))
  }

  /** A root's own name stands in for a root type it lacks. */
  function OutlineRoots(roots: seq<Node>, base: nat): (rows: seq<Row>)
    ensures |rows| == Size(roots)
  {
    if roots == [] then []
    else
      var row := RowOf(roots[0], roots[0].name, None);
      [row] + Outline(roots[0].children, base, row.rootType, base + 1)
      + OutlineRoots(roots[1..], base + 1 + Size(roots[0].children))
  }

  // ---------------------------------------------------------------- what an account shows of its row

  function Codes(accts: seq<Account>): set<string> {
    set i | 0 <= i < |accts| :: accts[i].code
  }

  /**
   Account i is the node at position i: of its name, of the type its root type says, with the code of an
   earlier account, its parent, for parent code, and with its slug for code, renamed below the roots.
   */
  ghost predicate RowShown(accts: seq<Account>, i: nat, row: Row, ops: TextOps)
    requires i < |accts|
  {
    && accts[i].name == row.name && TypeIs(ops.upper(row.rootType), accts[i].accountType)
    && match row.parent
       case None => accts[i].parent == None && accts[i].code == SlugifyCode(row.name, row.number, ops)
       case Some(p) =>
         && p < i && accts[i].parent == Some(accts[p].code)
         && Renamed(SlugifyCode(row.name, row.number, ops), Codes(accts[..i]), accts[i].code)
  }

  ghost predicate Shows(accts: seq<Account>, rows: seq<Row>, ops: TextOps) {
    |accts| == |rows| && forall i :: 0 <= i < |rows| ==> RowShown(accts, i, rows[i], ops)
  }

  lemma SeenIsTheSet(c: Chart)
    requires SeenIsCodes(c)
    ensures c.seen == Codes(c.accounts)
  {
  }

  /** The account that the row of `n` asks for, below the account at `parent`. */
  lemma NodeIsShown(n: Node, inherited: string, parent: nat, c: Chart, ops: TextOps)
    requires SeenIsCodes(c) && parent < |c.accounts|
    ensures var own, code := Inherit(n.rootType, inherited), FreshCode(SlugifyCode(n.name, n.number, ops), c.seen);
            var a := Account(code, n.name, NormalizeAccountType(own, ops), Some(c.accounts[parent].code));
            RowShown(c.accounts + [a], |c.accounts|, RowOf(n, inherited, Some(parent)), ops)
  {
    var own, slug := Inherit(n.rootType, inherited), SlugifyCode(n.name, n.number, ops);
    TypeOfText(own, ops);
    SeenIsTheSet(c);
    FreshIsRenamed(slug, c.seen, FreshCode(slug, c.seen));
    var a := Account(FreshCode(slug, c.seen), n.name, NormalizeAccountType(own, ops), Some(c.accounts[parent].code));
    assert (c.accounts + [a])[..|c.accounts|] == c.accounts;
  }

  lemma RootIsShown(n: Node, c: Chart, ops: TextOps)
    ensures RowShown(c.accounts + [RootAccount(n, ops)], |c.accounts|, RowOf(n, n.name, None), ops)
  {
    TypeOfText(Inherit(n.rootType, n.name), ops);
  }

  lemma ShowsOneMore(c: Chart, rows: seq<Row>, a: Account, row: Row, ops: TextOps)
    requires Shows(c.accounts, rows, ops) && RowShown(c.accounts + [a], |rows|, row, ops)
    ensures Shows(Add(c, a).accounts, rows + [row], ops)
  {
    var b, all := Add(c, a).accounts, rows + [row];
    forall i | 0 <= i < |all| ensures RowShown(b, i, all[i], ops) {
      if i < |rows| {
        assert RowShown(c.accounts, i, rows[i], ops) && b[..i] == c.accounts[..i];
      }
    }
  }

  lemma {:induction false} FlattenExtends(nodes: seq<Node>, parent: string, rootType: string, c: Chart, ops: TextOps)
    ensures c.accounts <= Flatten(nodes, parent, rootType, c, ops).accounts
    decreases nodes
  {
    if nodes != [] {
      var n := nodes[0];
      var own := Inherit(n.rootType, rootType);
      var code := FreshCode(SlugifyCode(n.name, n.number, ops), c.seen);
      var c1 := Add(c, Account(code, n.name, NormalizeAccountType(own, ops), Some(parent)));
      FlattenExtends(n.children, code, own, c1, ops);
      FlattenExtends(nodes[1..], parent, rootType, Flatten(n.children, code, own, c1, ops), ops);
    }
  }

  // ---------------------------------------------------------------- the pre-order, node by node

  /** The pre-order again, appended node by node to the `rows` before it. */
  function OutlineOnto(nodes: seq<Node>, parent: nat, rootType: string, rows: seq<Row>): seq<Row>
    decreases nodes
  {
    if nodes == [] then rows
    else
      var row := RowOf(nodes[0], rootType, Some(parent));
      OutlineOnto(nodes[1..], parent, rootType, OutlineOnto(nodes[0].children, |rows|, row.rootType, rows + [row]))
  }

  function OutlineRootsOnto(roots: seq<Node>, rows: seq<Row>): seq<Row> {
    if roots == [] then rows
    else
      var row := RowOf(roots[0], roots[0].name, None);
      OutlineRootsOnto(roots[1..], OutlineOnto(roots[0].children, |rows|, row.rootType, rows + [row]))
  }

  lemma Regroup(rows: seq<Row>, row: Row, below: seq<Row>, after: seq<Row>)
    ensures ((rows + [row]) + below) + after == rows + ([row] + below + after)
  {
  }

  /** Appending the node at the head, all below it and all after it is appending them as one. */
  lemma OntoOfParts(rows: seq<Row>, row: Row, below: seq<Row>, after: seq<Row>,
                    first: seq<Row>, all: seq<Row>, outline: seq<Row>)
    requires first == (rows + [row]) + below && all == first + after && outline == [row] + below + after
    ensures all == rows + outline && |first| == |rows| + 1 + |below|
  {
    Regroup(rows, row, below, after);
  }

  lemma {:induction false} OntoIsOutline(nodes: seq<Node>, parent: nat, rootType: string, rows: seq<Row>)
    ensures OutlineOnto(nodes, parent, rootType, rows) == rows + Outline(nodes, parent, rootType, |rows|)
    decreases nodes
  {
    if nodes == [] {
      assert rows + [] == rows;
    } else {
      var n, row, base := nodes[0], RowOf(nodes[0], rootType, Some(parent)), |rows| + 1;
      var first := OutlineOnto(n.children, |rows|, row.rootType, rows + [row]);
      var below := Outline(n.children, |rows|, row.rootType, base);
      OntoIsOutline(n.children, |rows|, row.rootType, rows + [row]);
      assert |first| == base + Size(n.children);
      OntoIsOutline(nodes[1..], parent, rootType, first);
      OntoOfParts(rows, row, below, Outline(nodes[1..], parent, rootType, base + Size(n.children)),
                  first, OutlineOnto(nodes[1..], parent, rootType, first), Outline(nodes, parent, rootType, |rows|));
    }
  }

  lemma {:induction false} RootsOntoIsOutline(roots: seq<Node>, rows: seq<Row>)
    ensures OutlineRootsOnto(roots, rows) == rows + OutlineRoots(roots, |rows|)
  {
    if roots == [] {
      assert rows + [] == rows;
    } else {
      var n, row, base := roots[0], RowOf(roots[0], roots[0].name, None), |rows| + 1;
      var first := OutlineOnto(n.children, |rows|, row.rootType, rows + [row]);
      var below := Outline(n.children, |rows|, row.rootType, base);
      OntoIsOutline(n.children, |rows|, row.rootType, rows + [row]);
      assert |first| == base + Size(n.children);
      RootsOntoIsOutline(roots[1..], first);
      OntoOfParts(rows, row, below, OutlineRoots(roots[1..], base + Size(n.children)),
                  first, OutlineRootsOnto(roots[1..], first), OutlineRoots(roots, |rows|));
    }
  }

  /** A node's own root type is in force at it, and else its parent's; a root's name where there is none. */
  predicate RootTypesInherited(rows: seq<Row>) {
    forall i :: 0 <= i < |rows| ==>
      && (rows[i].own.Some? ==> rows[i].rootType == rows[i].own.value)
      && match rows[i].parent
         case None => rows[i].own == None ==> rows[i].rootType == rows[i].name
         case Some(p) => p < i && (rows[i].own == None ==> rows[i].rootType == rows[p].rootType)
  }

  lemma {:induction false} OntoInherits(nodes: seq<Node>, parent: nat, rootType: string, rows: seq<Row>)
    requires RootTypesInherited(rows) && parent < |rows| && rows[parent].rootType == rootType
    ensures RootTypesInherited(OutlineOnto(nodes, parent, rootType, rows)) && rows <= OutlineOnto(nodes, parent, rootType, rows)
    decreases nodes
  {
    if nodes != [] {
      var row := RowOf(nodes[0], rootType, Some(parent));
      OntoInherits(nodes[0].children, |rows|, row.rootType, rows + [row]);
      OntoInherits(nodes[1..], parent, rootType, OutlineOnto(nodes[0].children, |rows|, row.rootType, rows + [row]));
    }
  }

  lemma {:induction false} RootsOntoInherit(roots: seq<Node>, rows: seq<Row>)
    requires RootTypesInherited(rows)
    ensures RootTypesInherited(OutlineRootsOnto(roots, rows))
  {
    if roots != [] {
      var row := RowOf(roots[0], roots[0].name, None);
      OntoInherits(roots[0].children, |rows|, row.rootType, rows + [row]);
      RootsOntoInherit(roots[1..], OutlineOnto(roots[0].children, |rows|, row.rootType, rows + [row]));
    }
  }

  lemma {:induction false} FlattenShows(nodes: seq<Node>, parent: nat, parentCode: string, rootType: string,
                                        c: Chart, rows: seq<Row>, ops: TextOps)
    requires SeenIsCodes(c) && Shows(c.accounts, rows, ops) && parent < |rows| && c.accounts[parent].code == parentCode
    ensures Shows(Flatten(nodes, parentCode, rootType, c, ops).accounts,
                  OutlineOnto(nodes, parent, rootType, rows), ops)
    decreases nodes
  {
    if nodes != [] {
      var n, own, row := nodes[0], Inherit(nodes[0].rootType, rootType), RowOf(nodes[0], rootType, Some(parent));
      var code := FreshCode(SlugifyCode(n.name, n.number, ops), c.seen);
      var a := Account(code, n.name, NormalizeAccountType(own, ops), Some(parentCode));
      NodeIsShown(n, rootType, parent, c, ops);
      ShowsOneMore(c, rows, a, row, ops);
      AddKeeps(c, a);
      FlattenShows(n.children, |rows|, code, own, Add(c, a), rows + [row], ops);
      FlattenExtends(n.children, code, own, Add(c, a), ops);
      FlattenKeeps(n.children, code, own, Add(c, a), ops);
      FlattenShows(nodes[1..], parent, parentCode, rootType, Flatten(n.children, code, own, Add(c, a), ops),
                   OutlineOnto(n.children, |rows|, own, rows + [row]), ops);
    }
  }

  lemma {:induction false} RootsShow(roots: seq<Node>, c: Chart, rows: seq<Row>, ops: TextOps)
    requires SeenIsCodes(c) && Shows(c.accounts, rows, ops)
    ensures Shows(FlattenRoots(roots, c, ops).accounts, OutlineRootsOnto(roots, rows), ops)
  {
    if roots != [] {
      var n, a, own := roots[0], RootAccount(roots[0], ops), Inherit(roots[0].rootType, roots[0].name);
      var row := RowOf(n, n.name, None);
      RootIsShown(n, c, ops);
      ShowsOneMore(c, rows, a, row, ops);
      AddKeeps(c, a);
      FlattenShows(n.children, |rows|, a.code, own, Add(c, a), rows + [row], ops);
      FlattenKeeps(n.children, a.code, own, Add(c, a), ops);
      RootsShow(roots[1..], Flatten(n.children, a.code, own, Add(c, a), ops),
                OutlineOnto(n.children, |rows|, own, rows + [row]), ops);
    }
  }

  lemma BuiltShape(core: seq<Account>, roots: seq<Node>, ops: TextOps)
    ensures var r := BuildWith(core, roots, ops);
            && Size(roots) <= |r|
            && Shows(r[..Size(roots)], OutlineRoots(roots, 0), ops) && RootTypesInherited(OutlineRoots(roots, 0))
            && (forall i :: Size(roots) <= i < |r| ==> r[i] in core)
  {
    var flat := FlattenRoots(roots, EMPTY, ops);
    RootsShow(roots, EMPTY, [], ops);
    RootsOntoInherit(roots, []);
    RootsOntoIsOutline(roots, []);
    assert [] + OutlineRoots(roots, 0) == OutlineRoots(roots, 0);
    RootsKeep(roots, EMPTY, ops);
    AddMissingKeeps(core, flat);
    assert BuildWith(core, roots, ops)[..Size(roots)] == flat.accounts;
  }

  /**
   The flat chart is the tree in pre-order, one account a node, each of the type that the nearest root type
   from it upwards says, and with parent codes naming the parent's account, which was emitted earlier; after
   it come core accounts only.
   */
  lemma ChartShowsTree(roots: seq<Node>, country: string, currency: string, ops: TextOps)
    requires roots != []
    ensures var r := BuildAccounts(Some(roots), country, currency, ops);
            && Size(roots) <= |r|
            && Shows(r[..Size(roots)], OutlineRoots(roots, 0), ops) && RootTypesInherited(OutlineRoots(roots, 0))
            && (forall i :: Size(roots) <= i < |r| ==> r[i] in StandardGaapTree(country, currency))
  {
    BuiltShape(StandardGaapTree(country, currency), roots, ops);
  }

  /** With distinct codes the tree can be read back: a parent code names the parent and nothing else. */
  lemma ParentCodeIdentifiesParent(core: seq<Account>, roots: seq<Node>, ops: TextOps, r: seq<Account>, i: nat, j: nat)
    requires RootsFresh(roots, EMPTY, ops) && r == BuildWith(core, roots, ops)
    requires i < Size(roots) && j < |r|
    ensures i < |r| && (r[i].parent == Some(r[j].code) <==> OutlineRoots(roots, 0)[i].parent == Some(j))
  {
    var rows := OutlineRoots(roots, 0);
    assert Distinct(r) by {
      BuiltCodes(core, roots, ops);
    }
    assert |r| >= Size(roots) && RowShown(r[..Size(roots)], i, rows[i], ops) by {
      BuiltShape(core, roots, ops);
    }
    OnlyParent(r, i, j, rows[i], Size(roots), ops);
  }

  lemma OnlyParent(r: seq<Account>, i: nat, j: nat, row: Row, n: nat, ops: TextOps)
    requires i < n <= |r| && j < |r| && Distinct(r) && RowShown(r[..n], i, row, ops)
    ensures r[i].parent == Some(r[j].code) <==> row.parent == Some(j)
  {
    if row.parent.Some? {
      var p := row.parent.value;
      assert r[..n][i] == r[i] && r[..n][p] == r[p];
      assert p != j ==> r[p].code != r[j].code;
    }
  }
}
