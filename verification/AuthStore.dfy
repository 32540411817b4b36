/**
 The encrypted auth records of a WhatsApp session: encrypt and decrypt of
 whatsapp-service/src/crypto.js, and the record map with its table in
 whatsapp-service/src/connection-manager.js.

 The cipher, with its key and the JSON form of values, is a parameter.
 */
module AuthStore {
  import opened Wrappers
  import opened Math
  import opened Text

  type Byte = b: int | 0 <= b < 256
  type Bytes = seq<Byte>

  // ---------------------------------------------------------------- hexadecimal

  function HexDigit(n: nat): char
    requires n < 16
  {
    "0123456789abcdef"[n]
  }

  function HexValue(c: char): (r: Option<nat>)
    ensures r.Some? ==> r.value < 16
  {
    if '0' <= c <= '9' then Some(c as int - '0' as int)
    else if 'a' <= c <= 'f' then Some(c as int - 'a' as int + 10)
    else if 'A' <= c <= 'F' then Some(c as int - 'A' as int + 10)
    else None
  }

  /** buffer.toString('hex') */
  function ToHex(bytes: Bytes): string {
    if bytes == [] then ""
    else [HexDigit(bytes[0] / 16), HexDigit(bytes[0] % 16)] + ToHex(bytes[1..])
  }

  /** Buffer.from(s, 'hex'): pairs of digits up to the first that is none. */
  function FromHex(s: string): Bytes {
    if |s| < 2 || HexValue(s[0]).None? || HexValue(s[1]).None? then []
    else [16 * HexValue(s[0]).value + HexValue(s[1]).value] + FromHex(s[2..])
  }

  lemma HexDigitValue(n: nat)
    requires n < 16
    ensures HexValue(HexDigit(n)) == Some(n) && HexDigit(n) != ':'
  {
  }

  lemma {:induction false} HexRoundTrip(bytes: Bytes)
    ensures FromHex(ToHex(bytes)) == bytes && NoColon(ToHex(bytes))
  {
    if bytes != [] {
      HexDigitValue(bytes[0] / 16);
      HexDigitValue(bytes[0] % 16);
      HexRoundTrip(bytes[1..]);
      assert ToHex(bytes)[2..] == ToHex(bytes[1..]);
    }
  }

  /** The same digit in another case, or the same character. */
  predicate SameDigit(c: char, d: char) {
    c == d || ('a' <= c <= 'f' && d as int == c as int - 32)
  }

  /** Hexadecimal is read in either case. */
  lemma {:induction false} CaseDoesNotMatter(s: string, t: string)
    requires |s| == |t| && forall i :: 0 <= i < |s| ==> SameDigit(s[i], t[i])
    ensures FromHex(s) == FromHex(t)
  {
    if |s| >= 2 {
      assert SameDigit(s[0], t[0]) && SameDigit(s[1], t[1]);
      CaseDoesNotMatter(s[2..], t[2..]);
    }
  }

  /** Two lower-case digits a byte, the higher one first. */
  lemma {:induction false} HexDigitsOf(bytes: Bytes, i: nat)
    requires i < |bytes|
    ensures |ToHex(bytes)| == 2 * |bytes|
    ensures ToHex(bytes)[2 * i] == "0123456789abcdef"[bytes[i] / 16]
    ensures ToHex(bytes)[2 * i + 1] == "0123456789abcdef"[bytes[i] % 16]
  {
    HexLength(bytes);
    if i > 0 {
      HexDigitsOf(bytes[1..], i - 1);
      assert ToHex(bytes)[2..] == ToHex(bytes[1..]);
    }
  }

  lemma {:induction false} HexLength(bytes: Bytes)
    ensures |ToHex(bytes)| == 2 * |bytes|
  {
    if bytes != [] {
      HexLength(bytes[1..]);
    }
  }

  // ---------------------------------------------------------------- sealed records

  /** seal(iv, value) gives tag and ciphertext; open fails on anything it did not seal. */
  datatype Cipher<!V> = Cipher(seal: (Bytes, V) -> (Bytes, Bytes), open: (Bytes, Bytes, Bytes) -> Option<V>)

  ghost predicate Inverts<V(!new)>(c: Cipher<V>) {
    forall iv, v :: c.open(iv, c.seal(iv, v).0, c.seal(iv, v).1) == Some(v)
  }

  function Encrypt<V>(c: Cipher<V>, iv: Bytes, v: V): string {
    var (tag, text) := c.seal(iv, v);
    ToHex(iv) + ":" + (ToHex(tag) + ":" + ToHex(text))
  }

  /** None is a thrown error. */
  function Decrypt<V>(c: Cipher<V>, s: string): Option<V> {
    var parts := Split(s);
    if |parts| != 3 then None else c.open(FromHex(parts[0]), FromHex(parts[1]), FromHex(parts[2]))
  }

  /** What encrypt writes, decrypt reads back, whatever the nonce. */
  lemma DecryptEncrypt<V(!new)>(c: Cipher<V>, iv: Bytes, v: V)
    requires Inverts(c)
    ensures Decrypt(c, Encrypt(c, iv, v)) == Some(v)
  {
    var (tag, text) := c.seal(iv, v);
    HexRoundTrip(iv);
    HexRoundTrip(tag);
    HexRoundTrip(text);
    SplitFirst(ToHex(iv), ToHex(tag) + ":" + ToHex(text));
    SplitFirst(ToHex(tag), ToHex(text));
    SplitPlain(ToHex(text));
    assert Split(Encrypt(c, iv, v)) == [ToHex(iv), ToHex(tag), ToHex(text)];
    assert c.open(iv, c.seal(iv, v).0, c.seal(iv, v).1) == Some(v);
  }

  /** A record is the nonce, the tag and the ciphertext in hexadecimal, joined by ':'. */
  lemma RecordIsThreeParts<V>(c: Cipher<V>, iv: Bytes, v: V)
    ensures Encrypt(c, iv, v) == ToHex(iv) + ":" + ToHex(c.seal(iv, v).0) + ":" + ToHex(c.seal(iv, v).1)
  {
    var tag, text := ToHex(c.seal(iv, v).0), ToHex(c.seal(iv, v).1);
    assert ToHex(iv) + ":" + tag + ":" + text == ToHex(iv) + ":" + (tag + ":" + text);
  }

  lemma {:induction false} PartsOf(s: string)
    ensures |Split(s)| == 1 + multiset(s)[':']
  {
    if s != "" {
      PartsOf(s[1..]);
      assert multiset(s) == multiset([s[0]]) + multiset(s[1..]) by {
        assert s == [s[0]] + s[1..];
      }
    }
  }

  /** Nothing but text with exactly two ':' is ever decrypted. */
  lemma DecryptedHasThreeParts<V>(c: Cipher<V>, s: string)
    ensures Decrypt(c, s).Some? ==> multiset(s)[':'] == 2
  {
    PartsOf(s);
  }

  // ---------------------------------------------------------------- map and table

  /** (record_type, record_id) */
  type Id = (string, string)

  datatype Store<V> = Store(records: map<string, V>, table: map<Id, string>)

  /** One entry of a `set` call; None deletes. */
  datatype Update<V> = Update(kind: string, id: string, value: Option<V>, iv: Bytes)

  const CREDS := ("creds", "main")

  function RecordKey(id: Id): string {
    id.0 + ":" + id.1
  }

  function Apply<V>(c: Cipher<V>, s: Store<V>, u: Update<V>): Store<V> {
    match u.value
    case None => Store(s.records - {RecordKey((u.kind, u.id))}, s.table - {(u.kind, u.id)})
    case Some(v) => Store(s.records[RecordKey((u.kind, u.id)) := v], s.table[(u.kind, u.id) := Encrypt(c, u.iv, v)])
  }

  function ApplyAll<V>(c: Cipher<V>, s: Store<V>, us: seq<Update<V>>): Store<V> {
    if us == [] then s else Apply(c, ApplyAll(c, s, us[..|us| - 1]), us[|us| - 1])
  }

  predicate PlainKinds(table: map<Id, string>) {
    forall id <- table :: NoColon(id.0)
  }

  /** A fresh load of `table` would give `m`. */
  ghost predicate Loads<V>(c: Cipher<V>, table: map<Id, string>, m: map<string, V>) {
    && (forall id <- table :: Decrypt(c, table[id]).Some? && RecordKey(id) in m && m[RecordKey(id)] == Decrypt(c, table[id]).value)
    && (forall k <- m :: exists id :: id in table && RecordKey(id) == k)
  }

  /** The row `id` gives the entry of `m` at its key. */
  ghost predicate Gives<V>(c: Cipher<V>, table: map<Id, string>, id: Id, m: map<string, V>)
  {
    id in table && Decrypt(c, table[id]).Some? && RecordKey(id) in m && m[RecordKey(id)] == Decrypt(c, table[id]).value
  }

  /** `acc` has the keys of the rows read so far, each with the value of one of its rows. */
  ghost predicate LoadedFrom<V>(c: Cipher<V>, table: map<Id, string>, rows: seq<Id>, acc: map<string, V>)
  {
    && (forall id <- rows :: id in table && Decrypt(c, table[id]).Some? && RecordKey(id) in acc)
    && (forall k <- acc :: exists id :: id in rows && RecordKey(id) == k && Gives(c, table, id, acc))
  }

  lemma LoadedOneMore<V>(c: Cipher<V>, table: map<Id, string>, rows: seq<Id>, acc: map<string, V>, id: Id)
    requires LoadedFrom(c, table, rows, acc) && id in table && Decrypt(c, table[id]).Some?
    ensures LoadedFrom(c, table, rows + [id], acc[RecordKey(id) := Decrypt(c, table[id]).value])
  {
    var next, all := acc[RecordKey(id) := Decrypt(c, table[id]).value], rows + [id];
    forall k <- next ensures exists x :: x in all && RecordKey(x) == k && Gives(c, table, x, next) {
      if k == RecordKey(id) {
        assert id in all && Gives(c, table, id, next);
      } else {
        var x :| x in rows && RecordKey(x) == k && Gives(c, table, x, acc);
        assert x in all && Gives(c, table, x, next);
      }
    }
  }

  lemma LoadedNext<V>(c: Cipher<V>, table: map<Id, string>, rows: seq<Id>, i: nat, acc: map<string, V>)
    requires i < |rows| && rows[i] in table && Decrypt(c, table[rows[i]]).Some? && LoadedFrom(c, table, rows[..i], acc)
    ensures LoadedFrom(c, table, rows[..i + 1], acc[RecordKey(rows[i]) := Decrypt(c, table[rows[i]]).value])
  {
    LoadedOneMore(c, table, rows[..i], acc, rows[i]);
    assert rows[..i + 1] == rows[..i] + [rows[i]];
  }

  /** With no ':' in a record type, every key has one row, so the map is the same in any order of rows. */
  lemma PlainLoads<V>(c: Cipher<V>, table: map<Id, string>, rows: seq<Id>, m: map<string, V>)
    requires (forall id :: id in rows <==> id in table) && LoadedFrom(c, table, rows, m)
    ensures forall id <- table :: Decrypt(c, table[id]).Some?
    ensures PlainKinds(table) ==> Loads(c, table, m)
  {
    if PlainKinds(table) {
      PlainRowsGive(c, table, rows, m);
    }
  }

  lemma PlainRowsGive<V>(c: Cipher<V>, table: map<Id, string>, rows: seq<Id>, m: map<string, V>)
    requires PlainKinds(table) && (forall id :: id in rows <==> id in table) && LoadedFrom(c, table, rows, m)
    ensures Loads(c, table, m)
  {
    forall id <- table ensures Gives(c, table, id, m) {
      var x :| x in rows && RecordKey(x) == RecordKey(id) && Gives(c, table, x, m);
      KeyInjective(x, id);
    }
    forall k <- m ensures exists id :: id in table && RecordKey(id) == k {
      var x :| x in rows && RecordKey(x) == k && Gives(c, table, x, m);
    }
  }

  /** The load, row by row in whatever order the query returns them. */
  method LoadAuthState<V>(c: Cipher<V>, table: map<Id, string>, rows: seq<Id>) returns (m: Option<map<string, V>>)
    requires forall id :: id in rows <==> id in table
    ensures m.Some? <==> forall id <- table :: Decrypt(c, table[id]).Some?
    ensures m.Some? ==> LoadedFrom(c, table, rows, m.value)
    ensures m.Some? && PlainKinds(table) ==> Loads(c, table, m.value)
  {
    var acc: map<string, V> := map[];
    for i := 0 to |rows|
      invariant LoadedFrom(c, table, rows[..i], acc)
    {
      assert rows[i] in table;
      var value := Decrypt(c, table[rows[i]]);
      if value.None? {
        return None;
      }
      LoadedNext(c, table, rows, i, acc);
      acc := acc[RecordKey(rows[i]) := value.value];
    }
    assert rows[..|rows|] == rows;
    PlainLoads(c, table, rows, acc);
    return Some(acc);
  }

  lemma KeyInjective(a: Id, b: Id)
    requires NoColon(a.0) && NoColon(b.0) && RecordKey(a) == RecordKey(b)
    ensures a == b
  {
    FirstPartInjective(a.0, a.1, b.0, b.1);
  }

  /** The map and a fresh load agree on every key but that of the credentials. */
  ghost predicate Agrees<V>(c: Cipher<V>, s: Store<V>) {
    && PlainKinds(s.table)
    && (forall id <- s.table :: Decrypt(c, s.table[id]).Some?)
    && (forall id <- s.table :: id != CREDS ==>
          RecordKey(id) in s.records && s.records[RecordKey(id)] == Decrypt(c, s.table[id]).value)
    && (forall k <- s.records :: k != RecordKey(CREDS) ==> exists id :: id in s.table && RecordKey(id) == k)
  }

  /** A session starts in agreement: its map is a load of its table. */
  lemma FreshLoadAgrees<V>(c: Cipher<V>, table: map<Id, string>, m: map<string, V>)
    requires PlainKinds(table) && Loads(c, table, m)
    ensures Agrees(c, Store(m, table))
  {
  }

  class AuthSession<V(!new)> {
    var records: map<string, V>
    var table: map<Id, string>
    const cipher: Cipher<V>

    ghost function State(): Store<V>
      reads this
    {
      Store(records, table)
    }

    constructor (cipher: Cipher<V>, records: map<string, V>, table: map<Id, string>)
      ensures this.cipher == cipher && State() == Store(records, table)
    {
      this.cipher, this.records, this.table := cipher, records, table;
    }

    /**
     The keys.set of the session. The first `working` statements of the transaction succeed; if one
     of the updates or the COMMIT after them does not, the table is rolled back but the map is not.
     */
    method Set(updates: seq<Update<V>>, working: nat) returns (committed: bool)
      modifies this
      ensures committed <==> |updates| < working
      ensures committed ==> State() == ApplyAll(cipher, old(State()), updates)
      ensures !committed ==>
                && table == old(table)
                && records == ApplyAll(cipher, old(State()), updates[..Min(working, |updates|)]).records
    {
      var saved := table;
      for i := 0 to |updates|
        invariant i <= working
        invariant State() == ApplyAll(cipher, old(State()), updates[..i])
      {
        if working == i {
          table := saved;
          return false;
        }
        var u := updates[i];
        assert updates[..i + 1][..i] == updates[..i];
        if u.value.None? {
          table := table - {(u.kind, u.id)};
          records := records - {RecordKey((u.kind, u.id))};
        } else {
          table := table[(u.kind, u.id) := Encrypt(cipher, u.iv, u.value.value)];
          records := records[RecordKey((u.kind, u.id)) := u.value.value];
        }
      }
      assert updates[..|updates|] == updates;
      if working == |updates| {
        table := saved;
        return false;
      }
      return true;
    }

    /** saveCreds writes the table only. */
    method SaveCreds(creds: V, iv: Bytes)
      modifies this`table
      ensures table == old(table)[CREDS := Encrypt(cipher, iv, creds)]
      ensures Inverts(cipher) ==> Decrypt(cipher, table[("creds", "main")]) == Some(creds)
      ensures Inverts(cipher) && old(Agrees(cipher, State())) ==> Agrees(cipher, State())
    {
      if Inverts(cipher) {
        DecryptEncrypt(cipher, iv, creds);
      }
      if Inverts(cipher) && Agrees(cipher, State()) {
        SaveCredsKeeps(cipher, State(), creds, iv);
      }
      table := table[CREDS := Encrypt(cipher, iv, creds)];
    }
  }

  // ---------------------------------------------------------------- every run of commits

  lemma UpdateKeeps<V(!new)>(c: Cipher<V>, s: Store<V>, u: Update<V>)
    requires Inverts(c) && Agrees(c, s) && NoColon(u.kind)
    ensures Agrees(c, Apply(c, s, u))
  {
    var r, own := Apply(c, s, u), (u.kind, u.id);
    if u.value.Some? {
      DecryptEncrypt(c, u.iv, u.value.value);
    }
    forall id <- s.table | id != own ensures RecordKey(id) != RecordKey(own) {
      OtherKey(id, own);
    }
    forall k <- r.records | k != RecordKey(CREDS) ensures exists id :: id in r.table && RecordKey(id) == k {
      UpdateKeepsKey(c, s, u, k);
    }
  }

  lemma OtherKey(a: Id, b: Id)
    requires NoColon(a.0) && NoColon(b.0) && a != b
    ensures RecordKey(a) != RecordKey(b)
  {
    if RecordKey(a) == RecordKey(b) {
      KeyInjective(a, b);
    }
  }

  lemma UpdateKeepsKey<V>(c: Cipher<V>, s: Store<V>, u: Update<V>, k: string)
    requires Agrees(c, s) && k in Apply(c, s, u).records && k != RecordKey(CREDS)
    ensures exists id :: id in Apply(c, s, u).table && RecordKey(id) == k
  {
    var r, own := Apply(c, s, u), (u.kind, u.id);
    if k == RecordKey(own) {
      assert own in r.table;
    } else {
      var id :| id in s.table && RecordKey(id) == k;
      assert id in r.table;
    }
  }

  lemma SaveCredsKeeps<V(!new)>(c: Cipher<V>, s: Store<V>, creds: V, iv: Bytes)
    requires Inverts(c) && Agrees(c, s)
    ensures Agrees(c, s.(table := s.table[CREDS := Encrypt(c, iv, creds)]))
  {
    DecryptEncrypt(c, iv, creds);
    var r := s.(table := s.table[CREDS := Encrypt(c, iv, creds)]);
    forall k <- r.records | k != RecordKey(CREDS) ensures exists id :: id in r.table && RecordKey(id) == k {
      var id :| id in s.table && RecordKey(id) == k;
      assert id in r.table;
    }
  }

  datatype Command<V> = Sets(updates: seq<Update<V>>) | Saves(creds: V, iv: Bytes)

  function Run<V>(c: Cipher<V>, s: Store<V>, cs: seq<Command<V>>): Store<V> {
    if cs == [] then s
    else
      var before := Run(c, s, cs[..|cs| - 1]);
      match cs[|cs| - 1]
      case Sets(us) => ApplyAll(c, before, us)
      case Saves(creds, iv) => before.(table := before.table[CREDS := Encrypt(c, iv, creds)])
  }

  lemma {:induction false} SetKeeps<V(!new)>(c: Cipher<V>, s: Store<V>, us: seq<Update<V>>)
    requires Inverts(c) && Agrees(c, s) && forall u <- us :: NoColon(u.kind)
    ensures Agrees(c, ApplyAll(c, s, us))
  {
    if us != [] {
      SetKeeps(c, s, us[..|us| - 1]);
      UpdateKeeps(c, ApplyAll(c, s, us[..|us| - 1]), us[|us| - 1]);
    }
  }

  /**
   After any run of committed sets and credential saves, the map is what a fresh load of the table
   gives, on every key but that of the credentials.
   */
  lemma {:induction false} RunAgreesWithLoad<V(!new)>(c: Cipher<V>, s: Store<V>, cs: seq<Command<V>>, m: map<string, V>)
    requires Inverts(c) && Agrees(c, s)
    requires forall x <- cs :: x.Sets? ==> forall u <- x.updates :: NoColon(u.kind)
    ensures Agrees(c, Run(c, s, cs))
    ensures Loads(c, Run(c, s, cs).table, m) ==> m - {RecordKey(CREDS)} == Run(c, s, cs).records - {RecordKey(CREDS)}
  {
    RunAgrees(c, s, cs);
    if Loads(c, Run(c, s, cs).table, m) {
      AgreeingMapsAreEqual(c, Run(c, s, cs), m);
    }
  }

  lemma AgreeingMapsAreEqual<V>(c: Cipher<V>, r: Store<V>, m: map<string, V>)
    requires Agrees(c, r) && Loads(c, r.table, m)
    ensures m - {RecordKey(CREDS)} == r.records - {RecordKey(CREDS)}
  {
    forall k | k != RecordKey(CREDS)
      ensures k in m <==> k in r.records
      ensures k in m ==> m[k] == r.records[k]
    {
      AgreeingAt(c, r, m, k);
    }
  }

  lemma AgreeingAt<V>(c: Cipher<V>, r: Store<V>, m: map<string, V>, k: string)
    requires Agrees(c, r) && Loads(c, r.table, m) && k != RecordKey(CREDS)
    ensures k in m <==> k in r.records
    ensures k in m ==> m[k] == r.records[k]
  {
    if k in m || k in r.records {
      var id :| id in r.table && RecordKey(id) == k;
    }
  }

  lemma {:induction false} RunAgrees<V(!new)>(c: Cipher<V>, s: Store<V>, cs: seq<Command<V>>)
    requires Inverts(c) && Agrees(c, s)
    requires forall x <- cs :: x.Sets? ==> forall u <- x.updates :: NoColon(u.kind)
    ensures Agrees(c, Run(c, s, cs))
  {
    if cs != [] {
      var n := |cs| - 1;
      RunAgrees(c, s, cs[..n]);
      match cs[n]
      case Sets(us) =>
        assert cs[n] in cs;
        SetKeeps(c, Run(c, s, cs[..n]), us);
      case Saves(creds, iv) => SaveCredsKeeps(c, Run(c, s, cs[..n]), creds, iv);
    }
  }
}
