/** The configuration manager: the in-memory settings and account snapshot, the settings
    writes, the heartbeat, the incremental account sync of the settings form (update rows
    whose access key id is still listed, insert new ones, delete the rest) and the
    renumbering of the account ids to 1..n that follows it. */
module ConfigStore {
  import opened Wrappers
  import opened Php
  import opened Store

  // ---------------------------------------------------------------------------
  // The upsert loop

  /** The state of the upsert loop: the table, the AUTOINCREMENT counter and `$keptIds`. */
  datatype Upserted = Upserted(rows: Table, sequence: int, kept: seq<int>)

  /** A submitted entry whose key maps, in `$existingMap`, to the row id `k`. */
  predicate Targets(existing: map<string, Account>, a: AccountInput, k: int) {
    a.accessKeyId in existing && existing[a.accessKeyId].id == k
  }

  /** Entry `j` is the last one of the list that targets the row id `k`. */
  predicate LastTargeting(existing: map<string, Account>, accounts: seq<AccountInput>, j: int, k: int) {
    0 <= j < |accounts| && Targets(existing, accounts[j], k)
    && forall j' :: j < j' < |accounts| ==> !Targets(existing, accounts[j'], k)
  }

  /** How many entries of a list carry a key the table did not have. */
  function Fresh(existing: map<string, Account>, accounts: seq<AccountInput>): (n: nat)
    ensures n <= |accounts|
    decreases |accounts|
  {
    if accounts == [] then 0
    else Fresh(existing, accounts[..|accounts| - 1]) + if accounts[|accounts| - 1].accessKeyId in existing then 0 else 1
  }

  /** One turn of the upsert loop: a known key UPDATEs the configuration columns of its row
      and records the id as kept; a new key INSERTs a row under the next id with traffic 0,
      status "Unknown" and both timestamps 0. */
  function UpsertStep(u: Upserted, existing: map<string, Account>, a: AccountInput): Upserted {
    if a.accessKeyId in existing then
      var id := existing[a.accessKeyId].id;
      Upserted(if id in u.rows then u.rows[id := WithConfig(u.rows[id], a)] else u.rows, u.sequence, u.kept + [id])
    else
      Upserted(u.rows[u.sequence + 1 := NewRow(u.sequence + 1, a, 0.0, "Unknown", 0, 0)], u.sequence + 1, u.kept)
  }

  /** The upsert loop over the submitted list. */
  function Upsert(t: Table, sequence: int, existing: map<string, Account>, accounts: seq<AccountInput>): (u: Upserted)
    ensures sequence <= u.sequence
    decreases |accounts|
  {
    if accounts == [] then Upserted(t, sequence, [])
    else UpsertStep(Upsert(t, sequence, existing, accounts[..|accounts| - 1]), existing, accounts[|accounts| - 1])
  }

  /** The loop draws one id from the counter per entry with a new key. */
  lemma {:induction false} UpsertSequence(t: Table, sequence: int, existing: map<string, Account>, accounts: seq<AccountInput>)
    ensures Upsert(t, sequence, existing, accounts).sequence == sequence + Fresh(existing, accounts)
    decreases |accounts|
  {
    if accounts != [] {
      UpsertSequence(t, sequence, existing, accounts[..|accounts| - 1]);
    }
  }

  /** The loop deletes nothing and adds exactly the ids it draws from the counter. */
  lemma {:induction false} UpsertKeys(t: Table, sequence: int, existing: map<string, Account>, accounts: seq<AccountInput>)
    requires forall id :: id in t ==> id <= sequence
    ensures var u := Upsert(t, sequence, existing, accounts);
      forall id :: id in u.rows <==> id in t || sequence < id <= u.sequence
    decreases |accounts|
  {
    if accounts != [] {
      var n := |accounts| - 1;
      UpsertKeys(t, sequence, existing, accounts[..n]);
    }
  }

  lemma UpsertSnoc(t: Table, sequence: int, existing: map<string, Account>, accounts: seq<AccountInput>, n: int)
    requires 0 <= n < |accounts|
    ensures Upsert(t, sequence, existing, accounts[..n + 1])
      == UpsertStep(Upsert(t, sequence, existing, accounts[..n]), existing, accounts[n])
  {
    assert accounts[..n + 1][..n] == accounts[..n];
  }

  lemma {:induction false} FreshPrefix(existing: map<string, Account>, accounts: seq<AccountInput>, i: int)
    requires 0 <= i <= |accounts|
    ensures Fresh(existing, accounts[..i]) <= Fresh(existing, accounts)
    ensures i < |accounts| && accounts[i].accessKeyId !in existing ==> Fresh(existing, accounts[..i]) < Fresh(existing, accounts)
    decreases |accounts|
  {
    if i < |accounts| {
      var n := |accounts| - 1;
      assert accounts[..n][..i] == accounts[..i];
      if i < n {
        FreshPrefix(existing, accounts[..n], i);
      } else {
        assert accounts[..i] == accounts[..n];
      }
    } else {
      assert accounts[..i] == accounts;
    }
  }

  /** The ids the loop records as kept. */
  function KeptSet(kept: seq<int>): set<int> {
    set i | 0 <= i < |kept| :: kept[i]
  }

  /** A row of the table that no entry targets stays as it was. */
  lemma {:induction false} UpsertUntargeted(t: Table, sequence: int, existing: map<string, Account>,
                                            accounts: seq<AccountInput>, k: int)
    requires k in t && k <= sequence
    requires forall j :: 0 <= j < |accounts| ==> !Targets(existing, accounts[j], k)
    ensures var u := Upsert(t, sequence, existing, accounts);
      k in u.rows && u.rows[k] == t[k]
    decreases |accounts|
  {
    if accounts != [] {
      var n := |accounts| - 1;
      UpsertUntargeted(t, sequence, existing, accounts[..n], k);
      assert !Targets(existing, accounts[n], k);
    }
  }

  /** A row of the table that some entry targets ends with the configuration of the last
      such entry and its own observation fields. */
  lemma {:induction false} UpsertLastTarget(t: Table, sequence: int, existing: map<string, Account>,
                                            accounts: seq<AccountInput>, j: int, k: int)
    requires k in t && k <= sequence
    requires LastTargeting(existing, accounts, j, k)
    ensures var u := Upsert(t, sequence, existing, accounts);
      k in u.rows && u.rows[k] == WithConfig(t[k], accounts[j])
    decreases |accounts|
  {
    var n := |accounts| - 1;
    var prefix := accounts[..n];
    if j < n {
      assert LastTargeting(existing, prefix, j, k);
      UpsertLastTarget(t, sequence, existing, prefix, j, k);
      assert !Targets(existing, accounts[n], k);
    } else {
      UpsertKeepsIdentity(t, sequence, existing, prefix, k);
    }
  }

  /** Two rows that differ at most in the configuration columns the form sets. */
  predicate SameIdentity(r: Account, s: Account) {
    r.id == s.id && r.accessKeyId == s.accessKeyId && SameObservation(r, s)
  }

  /** The loop keeps every old row, with its id, its key and its observation fields. */
  lemma {:induction false} UpsertKeepsIdentity(t: Table, sequence: int, existing: map<string, Account>,
                                               accounts: seq<AccountInput>, k: int)
    requires k in t && k <= sequence
    ensures var u := Upsert(t, sequence, existing, accounts);
      k in u.rows && SameIdentity(u.rows[k], t[k])
    decreases |accounts|
  {
    if accounts != [] {
      UpsertKeepsIdentity(t, sequence, existing, accounts[..|accounts| - 1], k);
    }
  }

  /** An id is recorded as kept exactly when some entry targets it. */
  lemma {:induction false} UpsertKeptIff(t: Table, sequence: int, existing: map<string, Account>,
                                         accounts: seq<AccountInput>, k: int)
    ensures k in KeptSet(Upsert(t, sequence, existing, accounts).kept)
      <==> exists j :: 0 <= j < |accounts| && Targets(existing, accounts[j], k)
    decreases |accounts|
  {
    if accounts != [] {
      var n := |accounts| - 1;
      var prefix := accounts[..n];
      UpsertKeptIff(t, sequence, existing, prefix, k);
      var v := Upsert(t, sequence, existing, prefix);
      var a := accounts[n];
      assert Upsert(t, sequence, existing, accounts) == UpsertStep(v, existing, a);
      if a.accessKeyId in existing {
        KeptSetSnoc(v.kept, existing[a.accessKeyId].id);
      }
      if exists j :: 0 <= j < |accounts| && Targets(existing, accounts[j], k) {
        var j :| 0 <= j < |accounts| && Targets(existing, accounts[j], k);
        if j < n {
          assert Targets(existing, prefix[j], k);
        }
      }
      if exists j :: 0 <= j < |prefix| && Targets(existing, prefix[j], k) {
        var j :| 0 <= j < |prefix| && Targets(existing, prefix[j], k);
        assert Targets(existing, accounts[j], k);
      }
    }
  }

  /** Every new key gets its own row: the entry `i` is inserted under the counter plus the
      number of new keys up to and including it, with the defaults for the observation. */
  lemma {:induction false} UpsertNewRow(t: Table, sequence: int, existing: map<string, Account>,
                                        accounts: seq<AccountInput>, i: int)
    requires 0 <= i < |accounts| && accounts[i].accessKeyId !in existing
    requires forall key :: key in existing ==> existing[key].id <= sequence
    ensures var u := Upsert(t, sequence, existing, accounts);
      var id := sequence + Fresh(existing, accounts[..i]) + 1;
      id in u.rows && u.rows[id] == NewRow(id, accounts[i], 0.0, "Unknown", 0, 0)
    decreases |accounts|
  {
    var n := |accounts| - 1;
    var prefix := accounts[..n];
    var v := Upsert(t, sequence, existing, prefix);
    var a := accounts[n];
    assert Upsert(t, sequence, existing, accounts) == UpsertStep(v, existing, a);
    UpsertSequence(t, sequence, existing, prefix);
    if i < n {
      UpsertNewRow(t, sequence, existing, prefix, i);
      assert prefix[..i] == accounts[..i];
      var id := sequence + Fresh(existing, accounts[..i]) + 1;
      if a.accessKeyId !in existing {
        FreshPrefix(existing, prefix, i);
      }
      UpsertStepKeeps(v, existing, a, id);
    } else {
      assert accounts[..i] == prefix;
      var id := v.sequence + 1;
      assert UpsertStep(v, existing, a).rows == v.rows[id := NewRow(id, a, 0.0, "Unknown", 0, 0)];
    }
  }

  /** One turn of the loop leaves alone every row it neither updates nor inserts. */
  lemma UpsertStepKeeps(u: Upserted, existing: map<string, Account>, a: AccountInput, k: int)
    requires k in u.rows
    requires a.accessKeyId in existing ==> existing[a.accessKeyId].id != k
    requires a.accessKeyId !in existing ==> k != u.sequence + 1
    ensures k in UpsertStep(u, existing, a).rows && UpsertStep(u, existing, a).rows[k] == u.rows[k]
  {
  }

  lemma KeptSetSnoc(kept: seq<int>, id: int)
    ensures KeptSet(kept + [id]) == KeptSet(kept) + {id}
  {
    var s := kept + [id];
    forall x | x in KeptSet(s)
      ensures x in KeptSet(kept) + {id}
    {
      var i :| 0 <= i < |s| && s[i] == x;
      if i < |kept| {
        assert kept[i] == x;
      }
    }
    forall x | x in KeptSet(kept)
      ensures x in KeptSet(s)
    {
      var i :| 0 <= i < |kept| && kept[i] == x;
      assert s[i] == x;
    }
    assert s[|kept|] == id;
  }

  // ---------------------------------------------------------------------------
  // The sync of `updateConfig`, as written and as intended

  /** `array_values($existingMap)`: one id per key, the last row read for it. */
  function ExistingIds(existing: map<string, Account>): set<int> {
    set key | key in existing :: existing[key].id
  }

  /** The sync as the source writes it: the rows to delete are the ids of `$existingMap`
      that were not kept, so a row hidden behind a newer row with the same key is never a
      candidate. */
  ghost function SyncAsWritten(t: Table, sequence: int, accounts: seq<AccountInput>): (r: (Table, int))
    requires WellKeyed(t)
    ensures WellKeyed(r.0)
  {
    var existing := LastByKey(Ordered(t));
    var u := Upsert(t, sequence, existing, accounts);
    UpsertWellKeyed(t, sequence, existing, accounts);
    (u.rows - (ExistingIds(existing) - KeptSet(u.kept)), u.sequence)
  }

  /** The sync as intended: every old row that was not kept is deleted. */
  ghost function Sync(t: Table, sequence: int, accounts: seq<AccountInput>): (r: (Table, int))
    requires WellKeyed(t)
    ensures WellKeyed(r.0)
  {
    var existing := LastByKey(Ordered(t));
    var u := Upsert(t, sequence, existing, accounts);
    UpsertWellKeyed(t, sequence, existing, accounts);
    (u.rows - (t.Keys - KeptSet(u.kept)), u.sequence)
  }

  /** The existing map points at rows of the table. */
  lemma ExistingInTable(t: Table)
    requires WellKeyed(t)
    ensures forall key :: key in LastByKey(Ordered(t)) ==>
      LastByKey(Ordered(t))[key].id in t && t[LastByKey(Ordered(t))[key].id] == LastByKey(Ordered(t))[key]
  {
    var rows := Ordered(t);
    forall key | key in LastByKey(rows)
      ensures LastByKey(rows)[key].id in t && t[LastByKey(rows)[key].id] == LastByKey(rows)[key]
    {
      LastByKeyLastIndex(rows, key);
      var q :| 0 <= q < |rows| && rows[q] == LastByKey(rows)[key];
      assert rows[q].id in t;
    }
  }

  /** The entry of a key in the existing map is the row with the highest id carrying it. */
  lemma TargetsIffHighest(t: Table, key: string, k: int)
    requires WellKeyed(t) && k in t
    ensures (key in LastByKey(Ordered(t)) && LastByKey(Ordered(t))[key].id == k) <==> HighestWithKey(t, k, key)
  {
    var existing := LastByKey(Ordered(t));
    ExistingInTable(t);
    if HighestWithKey(t, k, key) {
      ExistingIsHighest(t, k, key);
    }
    if key in existing && existing[key].id == k {
      var rows := Ordered(t);
      forall k' | k' in t && t[k'].accessKeyId == key
        ensures k' <= k
      {
        OrderedRowsCover(t, t.Keys, k');
        var p :| 0 <= p < |rows| && rows[p].id == k';
        LastByKeyLastIndex(rows, key);
        var q :|
          0 <= q < |rows| && rows[q] == existing[key]
          && forall p :: q < p < |rows| ==> rows[p].accessKeyId != key;
        if p > q {
          assert rows[p].accessKeyId == key;
        }
      }
    }
  }

  /** Some row of the table carries the key. */
  predicate HasKey(t: Table, key: string) {
    exists k :: k in t && t[k].accessKeyId == key
  }

  /** Every id of the table is at most the AUTOINCREMENT counter. */
  predicate Below(t: Table, sequence: int) {
    forall id :: id in t ==> id <= sequence
  }

  /** How many entries of a list carry a key that no row of the table has. */
  function Unseen(t: Table, accounts: seq<AccountInput>): (n: nat)
    ensures n <= |accounts|
    decreases |accounts|
  {
    if accounts == [] then 0
    else Unseen(t, accounts[..|accounts| - 1]) + if HasKey(t, accounts[|accounts| - 1].accessKeyId) then 0 else 1
  }

  /** The existing map has exactly the keys the table carries. */
  lemma ExistingKeysIff(t: Table, key: string)
    requires WellKeyed(t)
    ensures key in LastByKey(Ordered(t)) <==> HasKey(t, key)
  {
    if HasKey(t, key) {
      var k :| k in t && t[k].accessKeyId == key;
      OrderedRowsCover(t, t.Keys, k);
      var rows := Ordered(t);
      var p :| 0 <= p < |rows| && rows[p].id == k;
      assert rows[p].accessKeyId == key;
    } else {
      ExistingAbsent(t, key);
    }
  }

  lemma {:induction false} FreshIsUnseen(t: Table, accounts: seq<AccountInput>)
    requires WellKeyed(t)
    ensures Fresh(LastByKey(Ordered(t)), accounts) == Unseen(t, accounts)
    decreases |accounts|
  {
    if accounts != [] {
      FreshIsUnseen(t, accounts[..|accounts| - 1]);
      ExistingKeysIff(t, accounts[|accounts| - 1].accessKeyId);
    }
  }

  /** An old row survives the sync exactly when it is the newest row of its key and the
      key is still listed. */
  lemma SyncKeepsOldRowIff(t: Table, sequence: int, accounts: seq<AccountInput>, k: int)
    requires WellKeyed(t) && Below(t, sequence) && k in t
    ensures k in Sync(t, sequence, accounts).0 <==>
      HighestWithKey(t, k, t[k].accessKeyId)
      && exists j :: 0 <= j < |accounts| && accounts[j].accessKeyId == t[k].accessKeyId
  {
    var existing := LastByKey(Ordered(t));
    UpsertKeepsIdentity(t, sequence, existing, accounts, k);
    UpsertKeptIff(t, sequence, existing, accounts, k);
    forall j | 0 <= j < |accounts|
      ensures Targets(existing, accounts[j], k) <==> HighestWithKey(t, k, accounts[j].accessKeyId)
    {
      TargetsIffHighest(t, accounts[j].accessKeyId, k);
    }
    if HighestWithKey(t, k, t[k].accessKeyId) && exists j :: 0 <= j < |accounts| && accounts[j].accessKeyId == t[k].accessKeyId {
      var j :| 0 <= j < |accounts| && accounts[j].accessKeyId == t[k].accessKeyId;
      assert Targets(existing, accounts[j], k);
    }
  }

  /** Entry `j` is the last of the list with its access key id. */
  predicate LastWithKey(accounts: seq<AccountInput>, j: int) {
    0 <= j < |accounts| && forall j' :: j < j' < |accounts| ==> accounts[j'].accessKeyId != accounts[j].accessKeyId
  }

  /** A listed key updates the newest row that carries it: the row takes the configuration
      of the last entry with that key and keeps its id, key and observation fields. */
  lemma SyncUpdatesListed(t: Table, sequence: int, accounts: seq<AccountInput>, j: int, k: int)
    requires WellKeyed(t) && Below(t, sequence)
    requires LastWithKey(accounts, j) && HighestWithKey(t, k, accounts[j].accessKeyId)
    ensures var r := Sync(t, sequence, accounts).0;
      k in r && r[k] == WithConfig(t[k], accounts[j])
  {
    var existing := LastByKey(Ordered(t));
    ExistingInTable(t);
    TargetsIffHighest(t, accounts[j].accessKeyId, k);
    forall j' | j < j' < |accounts|
      ensures !Targets(existing, accounts[j'], k)
    {
    }
    assert LastTargeting(existing, accounts, j, k);
    UpsertLastTarget(t, sequence, existing, accounts, j, k);
    SyncKeepsOldRowIff(t, sequence, accounts, k);
  }

  /** An entry whose key no row carries gets a row of its own under the next id from the
      counter, with traffic 0, status "Unknown" and both timestamps 0. */
  lemma SyncInsertsUnseen(t: Table, sequence: int, accounts: seq<AccountInput>, i: int)
    requires WellKeyed(t) && Below(t, sequence)
    requires 0 <= i < |accounts| && !HasKey(t, accounts[i].accessKeyId)
    ensures var r := Sync(t, sequence, accounts).0;
      var id := sequence + Unseen(t, accounts[..i]) + 1;
      id in r && r[id] == NewRow(id, accounts[i], 0.0, "Unknown", 0, 0)
  {
    var existing := LastByKey(Ordered(t));
    var u := Upsert(t, sequence, existing, accounts);
    var id := sequence + Unseen(t, accounts[..i]) + 1;
    assert id == sequence + Fresh(existing, accounts[..i]) + 1 by {
      FreshIsUnseen(t, accounts[..i]);
    }
    assert id in u.rows && u.rows[id] == NewRow(id, accounts[i], 0.0, "Unknown", 0, 0) by {
      ExistingKeysIff(t, accounts[i].accessKeyId);
      ExistingInTable(t);
      UpsertNewRow(t, sequence, existing, accounts, i);
    }
    assert id !in t;
    RemoveKeeps(u.rows, t.Keys - KeptSet(u.kept), id);
  }

  /** Removing a set of ids keeps every row whose id is outside it. */
  lemma RemoveKeeps(m: Table, d: set<int>, id: int)
    requires id in m && id !in d
    ensures id in m - d && (m - d)[id] == m[id]
  {
  }

  /** The counter advances by the number of unseen entries, and the new ids are exactly the
      ones it passes over. */
  lemma SyncNewIds(t: Table, sequence: int, accounts: seq<AccountInput>)
    requires WellKeyed(t) && Below(t, sequence)
    ensures Sync(t, sequence, accounts).1 == sequence + Unseen(t, accounts)
    ensures forall id :: id !in t ==>
      (id in Sync(t, sequence, accounts).0 <==> sequence < id <= Sync(t, sequence, accounts).1)
  {
    var existing := LastByKey(Ordered(t));
    FreshIsUnseen(t, accounts);
    UpsertSequence(t, sequence, existing, accounts);
    UpsertKeys(t, sequence, existing, accounts);
  }

  // ---------------------------------------------------------------------------
  // The defect of the sync as written

  /** As written, an old row behind a newer row with the same key is never updated and
      never deleted, whatever is submitted. */
  lemma AsWrittenKeepsShadowed(t: Table, sequence: int, accounts: seq<AccountInput>, k: int, k': int)
    requires WellKeyed(t) && Below(t, sequence)
    requires k in t && k' in t && k < k' && t[k'].accessKeyId == t[k].accessKeyId
    ensures var r := SyncAsWritten(t, sequence, accounts).0;
      k in r && r[k] == t[k]
  {
    var existing := LastByKey(Ordered(t));
    forall key | key in existing
      ensures existing[key].id != k
    {
      TargetsIffHighest(t, key, k);
    }
    forall j | 0 <= j < |accounts|
      ensures !Targets(existing, accounts[j], k)
    {
    }
    UpsertUntargeted(t, sequence, existing, accounts, k);
  }

  /** On a table without duplicate keys the two syncs agree. */
  lemma SyncAgreesWithoutDuplicates(t: Table, sequence: int, accounts: seq<AccountInput>)
    requires WellKeyed(t)
    requires forall k, k' :: k in t && k' in t && t[k].accessKeyId == t[k'].accessKeyId ==> k == k'
    ensures SyncAsWritten(t, sequence, accounts) == Sync(t, sequence, accounts)
  {
    var existing := LastByKey(Ordered(t));
    ExistingInTable(t);
    forall k | k in t
      ensures k in ExistingIds(existing)
    {
      ExistingIsHighest(t, k, t[k].accessKeyId);
    }
    assert ExistingIds(existing) == t.Keys;
  }

  /** The loop inserts a new key once per entry that lists it, each time under a new id. */
  lemma UpsertInsertsTwice(t: Table, sequence: int, existing: map<string, Account>,
                           accounts: seq<AccountInput>, i: int, i': int)
    requires forall key :: key in existing ==> existing[key].id <= sequence
    requires 0 <= i < i' < |accounts| && accounts[i].accessKeyId == accounts[i'].accessKeyId
    requires accounts[i].accessKeyId !in existing
    ensures var u := Upsert(t, sequence, existing, accounts);
      var id := sequence + Fresh(existing, accounts[..i]) + 1;
      var id' := sequence + Fresh(existing, accounts[..i']) + 1;
      sequence < id < id' && id in u.rows && id' in u.rows
      && u.rows[id].accessKeyId == accounts[i].accessKeyId && u.rows[id'].accessKeyId == accounts[i].accessKeyId
  {
    assert accounts[..i'][..i] == accounts[..i];
    FreshPrefix(existing, accounts[..i'], i);
    UpsertNewRow(t, sequence, existing, accounts, i);
    UpsertNewRow(t, sequence, existing, accounts, i');
  }

  /** The deletion as written spares ids above the counter, so both inserted rows stay. */
  lemma TrimmedInsertsTwice(t: Table, sequence: int, existing: map<string, Account>,
                            accounts: seq<AccountInput>, i: int, i': int)
    requires forall key :: key in existing ==> existing[key].id <= sequence
    requires 0 <= i < i' < |accounts| && accounts[i].accessKeyId == accounts[i'].accessKeyId
    requires accounts[i].accessKeyId !in existing
    ensures var u := Upsert(t, sequence, existing, accounts);
      var r := u.rows - (ExistingIds(existing) - KeptSet(u.kept));
      exists id, id' ::
        sequence < id < id' && id in r && id' in r
        && r[id].accessKeyId == accounts[i].accessKeyId && r[id'].accessKeyId == accounts[i].accessKeyId
  {
    var u := Upsert(t, sequence, existing, accounts);
    UpsertInsertsTwice(t, sequence, existing, accounts, i, i');
    var id := sequence + Fresh(existing, accounts[..i]) + 1;
    var id' := sequence + Fresh(existing, accounts[..i']) + 1;
    var d := ExistingIds(existing) - KeptSet(u.kept);
    assert id !in d && id' !in d;
    RemoveKeeps(u.rows, d, id);
    RemoveKeeps(u.rows, d, id');
  }

  /** As written, a key no row carries that the submission lists twice is inserted twice:
      the INSERT does not record the key, so both entries draw ids of their own. */
  lemma AsWrittenInsertsDuplicate(t: Table, sequence: int, accounts: seq<AccountInput>, i: int, i': int)
    requires WellKeyed(t) && Below(t, sequence)
    requires 0 <= i < i' < |accounts| && accounts[i].accessKeyId == accounts[i'].accessKeyId
    requires !HasKey(t, accounts[i].accessKeyId)
    ensures var r := SyncAsWritten(t, sequence, accounts).0;
      exists id, id' ::
        sequence < id < id' && id in r && id' in r
        && r[id].accessKeyId == accounts[i].accessKeyId && r[id'].accessKeyId == accounts[i].accessKeyId
  {
    var existing := LastByKey(Ordered(t));
    assert forall key :: key in existing ==> existing[key].id <= sequence by {
      ExistingInTable(t);
    }
    assert accounts[i].accessKeyId !in existing by {
      ExistingKeysIff(t, accounts[i].accessKeyId);
    }
    TrimmedInsertsTwice(t, sequence, existing, accounts, i, i');
  }

  /** On an empty table, submitting the same new account twice stores it twice. */
  lemma DuplicateInsertedAsWritten(a: AccountInput)
    ensures exists id, id' ::
      id < id'
      && id in SyncAsWritten(map[], 0, [a, a]).0 && id' in SyncAsWritten(map[], 0, [a, a]).0
      && SyncAsWritten(map[], 0, [a, a]).0[id].accessKeyId == a.accessKeyId
      && SyncAsWritten(map[], 0, [a, a]).0[id'].accessKeyId == a.accessKeyId
  {
    var empty: Table := map[];
    assert [a, a][0] == a && [a, a][1] == a;
    AsWrittenInsertsDuplicate(empty, 0, [a, a], 0, 1);
  }

  /** A row with the key "A" behind a newer one survives a submission that lists nothing
      when the sync runs as written, and is deleted by the intended sync. */
  lemma ShadowedRowExample()
    ensures var old1 := Account(1, "A", "s", "r", "", 1.0, false, "", "", 0.0, "Unknown", 0, 0);
      var t := map[1 := old1, 2 := old1.(id := 2)];
      1 in SyncAsWritten(t, 2, []).0 && 1 !in Sync(t, 2, []).0
  {
    var old1 := Account(1, "A", "s", "r", "", 1.0, false, "", "", 0.0, "Unknown", 0, 0);
    var t := map[1 := old1, 2 := old1.(id := 2)];
    AsWrittenKeepsShadowed(t, 2, [], 1, 2);
    SyncKeepsOldRowIff(t, 2, [], 1);
  }
  // ---------------------------------------------------------------------------
  // Well-formedness of the sync

  /** The loop stores every row under its own id and draws new ids above the old ones. */
  lemma {:induction false} UpsertWellKeyed(t: Table, sequence: int, existing: map<string, Account>, accounts: seq<AccountInput>)
    requires WellKeyed(t)
    ensures var u := Upsert(t, sequence, existing, accounts);
      WellKeyed(u.rows) && (Below(t, sequence) ==> Below(u.rows, u.sequence))
    decreases |accounts|
  {
    if accounts != [] {
      UpsertWellKeyed(t, sequence, existing, accounts[..|accounts| - 1]);
    }
  }

  lemma SyncBelow(t: Table, sequence: int, accounts: seq<AccountInput>)
    requires WellKeyed(t) && Below(t, sequence)
    ensures Below(Sync(t, sequence, accounts).0, Sync(t, sequence, accounts).1)
  {
    UpsertWellKeyed(t, sequence, LastByKey(Ordered(t)), accounts);
  }

  lemma SyncAsWrittenBelow(t: Table, sequence: int, accounts: seq<AccountInput>)
    requires WellKeyed(t) && Below(t, sequence)
    ensures Below(SyncAsWritten(t, sequence, accounts).0, SyncAsWritten(t, sequence, accounts).1)
  {
    UpsertWellKeyed(t, sequence, LastByKey(Ordered(t)), accounts);
  }

  // ---------------------------------------------------------------------------
  // Renumbering (`reorderIds`)

  /** The rows of a listing reinserted under the ids 1, 2, ... in listing order, every
      other column copied. */
  function Renumber(rows: seq<Account>): (t: Table)
    ensures forall id :: id in t <==> 1 <= id <= |rows|
    ensures forall i :: 0 <= i < |rows| ==> t[i + 1] == rows[i].(id := i + 1)
    decreases |rows|
  {
    if rows == [] then map[]
    else
      var n := |rows| - 1;
      Renumber(rows[..n])[n + 1 := rows[n].(id := n + 1)]
  }

  /** What `reorderIds` leaves: a failed transaction or an empty table changes nothing;
      otherwise the rows in id order get the ids 1..n and the counter restarts at n. */
  ghost function Reorder(t: Table, sequence: int, fails: bool): (Table, int)
    requires WellKeyed(t)
  {
    if fails || t == map[] then (t, sequence) else (Renumber(Ordered(t)), |t|)
  }

  /** A renumbered listing is keyed by id and its ids stop at its length. */
  lemma RenumberWellKeyed(rows: seq<Account>)
    ensures WellKeyed(Renumber(rows)) && Below(Renumber(rows), |rows|)
  {
    forall id | id in Renumber(rows)
      ensures Renumber(rows)[id].id == id
    {
      assert Renumber(rows)[(id - 1) + 1] == rows[id - 1].(id := id);
    }
  }

  /** Renumbering keeps every row, with only its id changed. */
  lemma RenumberKeepsRows(t: Table, k: int)
    requires WellKeyed(t) && k in t
    ensures exists n :: n in Renumber(Ordered(t)) && Renumber(Ordered(t))[n] == t[k].(id := n)
  {
    var rows := Ordered(t);
    OrderedRowsCover(t, t.Keys, k);
    var i :| 0 <= i < |rows| && rows[i].id == k;
    assert Renumber(rows)[i + 1] == t[k].(id := i + 1);
  }

  /** Renumbering keeps the order of the ids. */
  lemma RenumberKeepsOrder(t: Table, k: int, k': int)
    requires WellKeyed(t) && k in t && k' in t && k < k'
    ensures exists n, n' ::
      1 <= n < n' <= |t|
      && Renumber(Ordered(t))[n] == t[k].(id := n) && Renumber(Ordered(t))[n'] == t[k'].(id := n')
  {
    var rows := Ordered(t);
    OrderedRowsCover(t, t.Keys, k);
    OrderedRowsCover(t, t.Keys, k');
    var i :|
      0 <= i < |rows| && rows[i].id == k;
    var i' :|
      0 <= i' < |rows| && rows[i'].id == k';
    if i' <= i {
      assert false;
    }
    assert Renumber(rows)[i + 1] == t[k].(id := i + 1);
    assert Renumber(rows)[i' + 1] == t[k'].(id := i' + 1);
  }

  // ---------------------------------------------------------------------------
  // The manager object

  class ConfigManager {
    var rows: Table
    var settings: map<string, string>
    var sequence: int
    var configCache: map<string, string>
    var accountsCache: seq<Account>

    /** The table is keyed by id and the AUTOINCREMENT counter is at least every id. */
    ghost predicate Valid()
      reads this
    {
      WellKeyed(rows) && Below(rows, sequence)
    }

    /** `new ConfigManager($db)`: loads the settings and the account rows. */
    constructor (rows0: Table, settings0: map<string, string>, sequence0: int)
      requires WellKeyed(rows0) && Below(rows0, sequence0)
      ensures Valid()
      ensures rows == rows0 && settings == settings0 && sequence == sequence0
      ensures configCache == settings0 && accountsCache == Ordered(rows0)
    {
      rows, settings, sequence := rows0, settings0, sequence0;
      configCache, accountsCache := map[], [];
      new;
      Load();
    }

    /** `load()`: the stored settings are merged over the in-memory ones and the account
        rows are re-read in id order. */
    method Load()
      requires WellKeyed(rows)
      modifies this`configCache, this`accountsCache
      ensures configCache == old(configCache) + settings && accountsCache == Ordered(rows)
    {
      configCache := configCache + settings;
      accountsCache := RowsInIdOrder(rows);
    }

    /** `get($key, $default)`: the cached value, or the default when the key is not set. */
    function Get(key: string, default: Option<string>): (r: Option<string>)
      reads this
      ensures key in configCache ==> r == Some(configCache[key])
      ensures key !in configCache ==> r == default
    {
      if key in configCache then Some(configCache[key]) else default
    }

    /** After a `saveSetting`, a read of the key sees the new value and every other key
        reads as before. */
    lemma SaveThenGet(key: string, value: string, before: map<string, string>, other: string, default: Option<string>)
      requires configCache == before[key := value]
      ensures Get(key, default) == Some(value)
      ensures other != key ==> Get(other, default) == if other in before then Some(before[other]) else default
    {
    }

    /** `getAccountById($id)`: the first cached row with the id, None when there is none. */
    method GetAccountById(id: int) returns (r: Option<Account>)
      ensures r.None? <==> forall i :: 0 <= i < |accountsCache| ==> accountsCache[i].id != id
      ensures r.Some? ==> r.value.id == id && r.value in accountsCache
      ensures r.Some? ==>
        exists i :: 0 <= i < |accountsCache| && accountsCache[i] == r.value &&
          forall j :: 0 <= j < i ==> accountsCache[j].id != id
    {
      r := FindAccount(accountsCache, id);
    }

    /** `isInitialized()`: an admin password that is not empty in PHP's sense. */
    predicate IsInitialized()
      reads this
    {
      !EmptySetting(configCache, "admin_password")
    }

    /** Saving a password initialises the manager exactly when it is neither "" nor "0". */
    lemma SaveInitializes(value: string, before: map<string, string>)
      requires configCache == before["admin_password" := value]
      ensures IsInitialized() <==> value != "" && value != "0"
    {
    }

    /** `saveSetting($key, $value)`: the stored value and the cached one both change. */
    method SaveSetting(key: string, value: string)
      modifies this`settings, this`configCache
      ensures settings == old(settings)[key := value] && configCache == old(configCache)[key := value]
    {
      settings := settings[key := value];
      configCache := configCache[key := value];
    }

    /** `updateLastRunTime($time)`: the heartbeat is stored as a decimal string. */
    method UpdateLastRunTime(time: int)
      modifies this`settings, this`configCache
      ensures settings == old(settings)["last_monitor_run" := IntToString(time)]
      ensures configCache == old(configCache)["last_monitor_run" := IntToString(time)]
      ensures GetLastRunTime() == time
    {
      SaveSetting("last_monitor_run", IntToString(time));
      IntCastRoundTrip(time);
    }

    /** `getLastRunTime()`: the heartbeat cast to an int, 0 before the first one. */
    function GetLastRunTime(): (r: int)
      reads this
      ensures "last_monitor_run" !in configCache ==> r == 0
    {
      IntCast(SettingOr(configCache, "last_monitor_run", "0"))
    }

    /** `updateConfig($data)`. The settings writes and the account sync run in one
        transaction; `fault` is the statement (numbered from 0: the settings writes first,
        then one per submitted entry, then the DELETE and the commit) at which the database
        throws, which rolls the database back while the cached settings keep the writes
        made before the fault. After the commit the ids are renumbered in a transaction of
        their own, which `reorderFails` makes fail silently, and the caches are reloaded. The
        deletion is the one the code performs: only ids of the existing map that were not
        kept are removed. */
    method UpdateConfig(d: ConfigInput, fault: Option<nat>, reorderFails: bool) returns (ok: bool)
      requires Valid()
      modifies this`rows, this`settings, this`sequence, this`configCache, this`accountsCache
      ensures Valid()
      ensures ok <==> fault.None?
      ensures !ok ==>
        rows == old(rows) && settings == old(settings) && sequence == old(sequence)
        && accountsCache == old(accountsCache)
        && configCache == ApplySettings(old(configCache),
             SettingWrites(d)[..if fault.value < |SettingWrites(d)| then fault.value else |SettingWrites(d)|])
      ensures ok ==>
        settings == ApplySettings(old(settings), SettingWrites(d))
        && var synced := SyncAsWritten(old(rows), old(sequence), d.accounts);
        (rows, sequence) == Reorder(synced.0, synced.1, reorderFails)
        && configCache == ApplySettings(old(configCache), SettingWrites(d)) + settings
        && accountsCache == Ordered(rows)
    {
      var pairs := SettingWrites(d);
      ok := Transaction(pairs, d.accounts, fault);
      if !ok {
        return;
      }
      Commit(reorderFails);
    }

    /** After the commit of `updateConfig`: `reorderIds()`, then `load()`. */
    method Commit(reorderFails: bool)
      requires Valid()
      modifies this`rows, this`sequence, this`configCache, this`accountsCache
      ensures Valid()
      ensures (rows, sequence) == Reorder(old(rows), old(sequence), reorderFails)
      ensures configCache == old(configCache) + settings && accountsCache == Ordered(rows)
    {
      ReorderIds(reorderFails);
      Load();
    }

    /** The transaction of `updateConfig` up to its commit: the settings, then the account
        upserts and the DELETE of the existing map's ids that no entry kept; any throw rolls the table back,
        while the settings already cached stay in the cache. */
    method Transaction(pairs: seq<(string, string)>, accounts: seq<AccountInput>, fault: Option<nat>)
      returns (ok: bool)
      requires Valid()
      modifies this`rows, this`settings, this`sequence, this`configCache
      ensures Valid()
      ensures ok <==> fault.None?
      ensures !ok ==>
        rows == old(rows) && settings == old(settings) && sequence == old(sequence)
        && configCache == ApplySettings(old(configCache),
             pairs[..if fault.value < |pairs| then fault.value else |pairs|])
      ensures ok ==>
        settings == ApplySettings(old(settings), pairs)
        && (rows, sequence) == SyncAsWritten(old(rows), old(sequence), accounts)
        && configCache == ApplySettings(old(configCache), pairs)
    {
      var rows0, settings0, sequence0 := rows, settings, sequence;
      var saved := SaveSettings(pairs, fault);
      if !saved {
        settings := settings0;
        return false;
      }
      assert pairs[..|pairs|] == pairs;
      var snapshot := RowsInIdOrder(rows);
      var existing := ExistingByKey(snapshot);
      var upserted, kept := UpsertAccounts(accounts, existing, if fault.Some? then Some(fault.value - |pairs|) else None);
      if !upserted || fault.Some? {
        rows, settings, sequence := rows0, settings0, sequence0;
        return false;
      }
      rows := rows - (ExistingIds(existing) - KeptSet(kept));
      SyncAsWrittenBelow(rows0, sequence0, accounts);
      return true;
    }

    /** The `saveSetting` calls of `updateConfig`, the one numbered `fault` throwing. */
    method SaveSettings(pairs: seq<(string, string)>, fault: Option<nat>) returns (ok: bool)
      modifies this`settings, this`configCache
      ensures ok <==> fault.None? || fault.value >= |pairs|
      ensures ok ==>
        settings == ApplySettings(old(settings), pairs)
        && configCache == ApplySettings(old(configCache), pairs)
      ensures !ok ==> configCache == ApplySettings(old(configCache), pairs[..fault.value])
    {
      var i := 0;
      while i < |pairs|
        invariant 0 <= i <= |pairs|
        invariant settings == ApplySettings(old(settings), pairs[..i])
        invariant configCache == ApplySettings(old(configCache), pairs[..i])
        invariant fault.Some? ==> fault.value >= i
      {
        if fault == Some(i) {
          return false;
        }
        ApplySettingsSnoc(old(settings), pairs[..i], pairs[i].0, pairs[i].1);
        ApplySettingsSnoc(old(configCache), pairs[..i], pairs[i].0, pairs[i].1);
        assert pairs[..i + 1] == pairs[..i] + [pairs[i]];
        SaveSetting(pairs[i].0, pairs[i].1);
        i := i + 1;
      }
      assert pairs[..i] == pairs;
      return true;
    }

    /** The upsert loop of `updateConfig`: an UPDATE of the configuration columns for a
        known key, an INSERT under the next id for a new one; the statement numbered
        `fault` throws. */
    method UpsertAccounts(accounts: seq<AccountInput>, existing: map<string, Account>, fault: Option<int>)
      returns (ok: bool, kept: seq<int>)
      modifies this`rows, this`sequence
      ensures ok <==> fault.None? || fault.value < 0 || fault.value >= |accounts|
      ensures ok ==> Upserted(rows, sequence, kept) == Upsert(old(rows), old(sequence), existing, accounts)
    {
      var t, counter := rows, sequence;
      kept := [];
      var n := 0;
      while n < |accounts|
        invariant 0 <= n <= |accounts|
        invariant Upserted(t, counter, kept) == Upsert(old(rows), old(sequence), existing, accounts[..n])
        invariant fault.Some? && fault.value >= 0 ==> fault.value >= n
      {
        if fault == Some(n) {
          rows, sequence := t, counter;
          return false, kept;
        }
        var a := accounts[n];
        ghost var next := UpsertStep(Upserted(t, counter, kept), existing, a);
        if a.accessKeyId in existing {
          var id := existing[a.accessKeyId].id;
          if id in t {
            t := t[id := WithConfig(t[id], a)];
          }
          kept := kept + [id];
        } else {
          counter := counter + 1;
          t := t[counter := NewRow(counter, a, 0.0, "Unknown", 0, 0)];
        }
        assert Upserted(t, counter, kept) == next;
        UpsertSnoc(old(rows), old(sequence), existing, accounts, n);
        n := n + 1;
      }
      assert accounts[..n] == accounts;
      rows, sequence := t, counter;
      return true, kept;
    }

    /** `reorderIds()`: the rows read in id order are deleted and reinserted under 1..n and
        the counter is reset; any failure rolls the transaction back and is swallowed. */
    method ReorderIds(fails: bool)
      requires Valid()
      modifies this`rows, this`sequence
      ensures Valid()
      ensures (rows, sequence) == Reorder(old(rows), old(sequence), fails)
    {
      var snapshot := RowsInIdOrder(rows);
      if snapshot == [] {
        assert rows == map[];
        return;
      }
      var renumbered: Table := map[];
      var newId := 1;
      while newId <= |snapshot|
        invariant 1 <= newId <= |snapshot| + 1
        invariant renumbered == Renumber(snapshot[..newId - 1])
      {
        assert snapshot[..newId][..newId - 1] == snapshot[..newId - 1];
        renumbered := renumbered[newId := snapshot[newId - 1].(id := newId)];
        newId := newId + 1;
      }
      assert snapshot[..newId - 1] == snapshot;
      RenumberWellKeyed(snapshot);
      if !fails {
        rows, sequence := renumbered, |snapshot|;
      }
    }

    /** `updateAccountStatus(...)`: one UPDATE of the observation columns; the statement
        reports success whether or not a row matched, and the cached listing is not
        refreshed. */
    method UpdateAccountStatus(id: int, traffic: real, status: string, updatedAt: int) returns (ok: bool)
      requires Valid()
      modifies this`rows
      ensures Valid()
      ensures ok && rows == ApplyWrite(old(rows), SetObservation(id, traffic, status, updatedAt))
    {
      rows := ApplyWrite(rows, SetObservation(id, traffic, status, updatedAt));
      return true;
    }

    /** `updateLastKeepAlive($id, $time)`: one UPDATE of `last_keep_alive_at`. */
    method UpdateLastKeepAlive(id: int, time: int) returns (ok: bool)
      requires Valid()
      modifies this`rows
      ensures Valid()
      ensures ok && rows == ApplyWrite(old(rows), SetKeepAlive(id, time))
    {
      rows := ApplyWrite(rows, SetKeepAlive(id, time));
      return true;
    }
  }
}
