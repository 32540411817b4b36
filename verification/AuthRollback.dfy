/** Sets of auth records that roll back: the table goes back, the map does not. */
module AuthRollback {
  import opened Wrappers
  import opened AuthStore

  /** The last write to `k`, if there is one; a write of None deletes. */
  function LastWrite<V>(us: seq<Update<V>>, k: string): Option<Option<V>> {
    if us == [] then None
    else
      var u := us[|us| - 1];
      if RecordKey((u.kind, u.id)) == k then Some(u.value) else LastWrite(us[..|us| - 1], k)
  }

  /** The last write to `k`, if any, gives it the value it has, or deletes it where it is absent. */
  ghost predicate WritesBack<V>(records: map<string, V>, us: seq<Update<V>>, k: string) {
    match LastWrite(us, k)
    case None => true
    case Some(None) => k !in records
    case Some(Some(v)) => k in records && records[k] == v
  }

  /** The last write to a key settles it. */
  lemma {:induction false} ApplyAllAt<V>(c: Cipher<V>, s: Store<V>, us: seq<Update<V>>, k: string)
    ensures var r := ApplyAll(c, s, us).records;
            match LastWrite(us, k)
            case None => (k in r <==> k in s.records) && (k in r ==> r[k] == s.records[k])
            case Some(None) => k !in r
            case Some(Some(v)) => k in r && r[k] == v
  {
    if us != [] {
      ApplyAllAt(c, s, us[..|us| - 1], k);
    }
  }

  ghost predicate SameAt<V>(a: map<string, V>, b: map<string, V>, k: string) {
    (k in a <==> k in b) && (k in a ==> a[k] == b[k])
  }

  /** The table leaves no choice of map, but for the credentials. */
  lemma AgreeExactlyWhen<V>(c: Cipher<V>, s: Store<V>, records: map<string, V>)
    requires Agrees(c, s)
    ensures Agrees(c, s.(records := records)) <==> forall k :: k != RecordKey(CREDS) ==> SameAt(s.records, records, k)
  {
    var r := s.(records := records);
    if Agrees(c, r) {
      forall k | k != RecordKey(CREDS) ensures SameAt(s.records, records, k) {
        if k in s.records || k in records {
          var id :| id in s.table && RecordKey(id) == k;
        }
      }
    }
    if forall k :: k != RecordKey(CREDS) ==> SameAt(s.records, records, k) {
      forall id <- s.table | id != CREDS
        ensures RecordKey(id) in records && records[RecordKey(id)] == Decrypt(c, s.table[id]).value
      {
        OtherKey(id, CREDS);
        assert SameAt(s.records, records, RecordKey(id));
      }
      forall k <- records | k != RecordKey(CREDS) ensures exists id :: id in s.table && RecordKey(id) == k {
        assert SameAt(s.records, records, k);
      }
    }
  }

  /**
   A set that rolls back after its updates `us` keeps map and table in agreement exactly when, for
   every key but that of the credentials, the last of them to write it leaves it as it was.
   */
  lemma RollbackAgreesExactlyWhen<V>(c: Cipher<V>, s: Store<V>, us: seq<Update<V>>)
    requires Agrees(c, s)
    ensures Agrees(c, s.(records := ApplyAll(c, s, us).records))
       <==> forall k :: k != RecordKey(CREDS) ==> WritesBack(s.records, us, k)
  {
    var r := ApplyAll(c, s, us).records;
    AgreeExactlyWhen(c, s, r);
    forall k ensures SameAt(s.records, r, k) <==> WritesBack(s.records, us, k) {
      ApplyAllAt(c, s, us, k);
    }
  }

  /** One update of a key that was absent is enough to leave the map ahead of the table. */
  lemma RollbackLeavesMapAhead<V>(c: Cipher<V>, s: Store<V>, u: Update<V>)
    requires Agrees(c, s) && u.value.Some?
    requires RecordKey((u.kind, u.id)) !in s.records && RecordKey((u.kind, u.id)) != RecordKey(CREDS)
    ensures !Agrees(c, s.(records := ApplyAll(c, s, [u]).records))
  {
    RollbackAgreesExactlyWhen(c, s, [u]);
    assert !WritesBack(s.records, [u], RecordKey((u.kind, u.id)));
  }
}
