/** The two SQLite tables the monitor works on, as values: the `accounts` table (one
    row per monitored cloud identity, keyed by its integer id) and the `settings`
    key/value table, together with the two UPDATE statements the monitor issues and the
    settings form that the administrative page submits. */
module Store {
  import opened Wrappers
  import opened Php

  /** One row of the `accounts` table. The first nine columns are configuration; the last
      four are the observation fields the monitor maintains. */
  datatype Account = Account(
    id: int,
    accessKeyId: string,
    accessKeySecret: string,
    regionId: string,
    instanceId: string,
    maxTraffic: real,
    scheduleEnabled: bool,
    startTime: string,
    stopTime: string,
    trafficUsed: real,
    instanceStatus: string,
    updatedAt: int,
    lastKeepAliveAt: int)

  /** The `accounts` table: rows by primary key. */
  type Table = map<int, Account>

  /** Every row is stored under its own id. */
  predicate WellKeyed(t: Table) {
    forall id :: id in t ==> t[id].id == id
  }

  /** The two row updates of the monitor:
      `UPDATE accounts SET traffic_used = ?, instance_status = ?, updated_at = ? WHERE id = ?`
      and `UPDATE accounts SET last_keep_alive_at = ? WHERE id = ?`. */
  datatype Write =
    | SetObservation(id: int, traffic: real, status: string, updatedAt: int)
    | SetKeepAlive(id: int, at: int)

  /** What one UPDATE does to the row it matches. */
  function ApplyToRow(r: Account, w: Write): (r': Account)
    ensures r'.id == r.id
  {
    match w
    case SetObservation(_, traffic, status, updatedAt) =>
      r.(trafficUsed := traffic, instanceStatus := status, updatedAt := updatedAt)
    case SetKeepAlive(_, at) => r.(lastKeepAliveAt := at)
  }

  /** One UPDATE on the table: the row with the given id changes, every other row stays;
      an id that is not in the table matches nothing. */
  function ApplyWrite(t: Table, w: Write): (t': Table)
    ensures t'.Keys == t.Keys
    ensures forall id :: id in t && id != w.id ==> t'[id] == t[id]
    ensures w.id in t ==> t'[w.id] == ApplyToRow(t[w.id], w)
  {
    if w.id in t then t[w.id := ApplyToRow(t[w.id], w)] else t
  }

  /** A sequence of UPDATEs executed in order: the last write to a column wins. */
  function ApplyWrites(t: Table, ws: seq<Write>): (t': Table)
    ensures t'.Keys == t.Keys
    ensures WellKeyed(t) ==> WellKeyed(t')
    decreases |ws|
  {
    if ws == [] then t else ApplyWrite(ApplyWrites(t, ws[..|ws| - 1]), ws[|ws| - 1])
  }

  /** The same sequence of UPDATEs seen from the one row they all target. */
  function RowAfter(r: Account, ws: seq<Write>): (r': Account)
    ensures r'.id == r.id
    decreases |ws|
  {
    if ws == [] then r else ApplyToRow(RowAfter(r, ws[..|ws| - 1]), ws[|ws| - 1])
  }

  lemma {:induction false} ApplyWritesAppend(t: Table, a: seq<Write>, b: seq<Write>)
    ensures ApplyWrites(t, a + b) == ApplyWrites(ApplyWrites(t, a), b)
    decreases |b|
  {
    if b == [] {
      assert a + b == a;
    } else {
      ApplyWritesAppend(t, a, b[..|b| - 1]);
      assert (a + b)[..|a + b| - 1] == a + b[..|b| - 1];
    }
  }

  /** A run that extends another is that run followed by its remaining writes. */
  lemma ApplyWritesExtend(t: Table, a: seq<Write>, b: seq<Write>)
    requires |a| <= |b| && b[..|a|] == a
    ensures ApplyWrites(t, b) == ApplyWrites(ApplyWrites(t, a), b[|a|..])
  {
    assert b == a + b[|a|..];
    ApplyWritesAppend(t, a, b[|a|..]);
  }

  /** One more UPDATE after a run applies it to the table the run left. */
  lemma ApplyWritesSnoc(t: Table, ws: seq<Write>, w: Write)
    ensures ApplyWrites(t, ws + [w]) == ApplyWrite(ApplyWrites(t, ws), w)
  {
    assert (ws + [w])[..|ws|] == ws;
  }

  lemma {:induction false} RowAfterAppend(r: Account, a: seq<Write>, b: seq<Write>)
    ensures RowAfter(r, a + b) == RowAfter(RowAfter(r, a), b)
    decreases |b|
  {
    if b == [] {
      assert a + b == a;
    } else {
      RowAfterAppend(r, a, b[..|b| - 1]);
      assert (a + b)[..|a + b| - 1] == a + b[..|b| - 1];
    }
  }

  /** Writes that all target one id change that row as `RowAfter` says and nothing else. */
  lemma {:induction false} ApplyWritesToOneRow(t: Table, ws: seq<Write>, id: int)
    requires forall i :: 0 <= i < |ws| ==> ws[i].id == id
    ensures forall k :: k in t && k != id ==> ApplyWrites(t, ws)[k] == t[k]
    ensures id in t ==> ApplyWrites(t, ws)[id] == RowAfter(t[id], ws)
    decreases |ws|
  {
    if ws != [] {
      ApplyWritesToOneRow(t, ws[..|ws| - 1], id);
    }
  }

  /** Writes that never target `k` leave row `k` alone. */
  lemma {:induction false} ApplyWritesElsewhere(t: Table, ws: seq<Write>, k: int)
    requires forall i :: 0 <= i < |ws| ==> ws[i].id != k
    ensures k in t ==> ApplyWrites(t, ws)[k] == t[k]
    decreases |ws|
  {
    if ws != [] {
      ApplyWritesElsewhere(t, ws[..|ws| - 1], k);
    }
  }

  // ---------------------------------------------------------------------------
  // Rows in ascending id order (`SELECT * FROM accounts ORDER BY id ASC`)

  lemma NonEmptyHasElement(s: set<int>)
    requires s != {}
    ensures exists y :: y in s
  {
    if forall y :: y !in s {
      assert false;
    }
  }

  /** `m` is the least element of `s`. */
  predicate IsLeast(m: int, s: set<int>) {
    m in s && forall x :: x in s ==> m <= x
  }

  lemma {:induction false} MinExists(s: set<int>)
    requires s != {}
    ensures exists m :: IsLeast(m, s)
    decreases |s|
  {
    NonEmptyHasElement(s);
    var y :| y in s;
    var r := s - {y};
    assert |r| == |s| - 1;
    if r == {} {
      forall x | x in s
        ensures y <= x
      {
        assert x !in r;
      }
      assert IsLeast(y, s);
    } else {
      MinExists(r);
      var m :| IsLeast(m, r);
      var least := if y < m then y else m;
      forall x | x in s
        ensures least <= x
      {
        if x != y { assert x in r; }
      }
      assert IsLeast(least, s);
    }
  }

  ghost function MinOf(s: set<int>): (m: int)
    requires s != {}
    ensures m in s && forall x :: x in s ==> m <= x
  {
    MinExists(s);
    var m :| IsLeast(m, s);
    m
  }

  /** The rows of `t` whose ids are in `s`, in ascending id order. */
  ghost function OrderedRows(t: Table, s: set<int>): (rows: seq<Account>)
    requires s <= t.Keys
    requires forall k :: k in s ==> t[k].id == k
    ensures |rows| == |s|
    ensures forall i :: 0 <= i < |rows| ==> rows[i].id in s && rows[i] == t[rows[i].id]
    ensures forall i, j :: 0 <= i < j < |rows| ==> rows[i].id < rows[j].id
    decreases |s|
  {
    if s == {} then []
    else
      var m := MinOf(s);
      var rest := OrderedRows(t, s - {m});
      assert forall i :: 0 <= i < |rest| ==> m < rest[i].id;
      [t[m]] + rest
  }

  /** Every row whose id is in `s` appears in the ordered listing. */
  lemma {:induction false} OrderedRowsCover(t: Table, s: set<int>, k: int)
    requires s <= t.Keys
    requires forall k :: k in s ==> t[k].id == k
    requires k in s
    ensures exists i :: 0 <= i < |OrderedRows(t, s)| && OrderedRows(t, s)[i].id == k
    decreases |s|
  {
    var m := MinOf(s);
    var rows := OrderedRows(t, s);
    assert rows == [t[m]] + OrderedRows(t, s - {m});
    if k == m {
      assert rows[0].id == k;
    } else {
      OrderedRowsCover(t, s - {m}, k);
      var i :| 0 <= i < |OrderedRows(t, s - {m})| && OrderedRows(t, s - {m})[i].id == k;
      assert rows[i + 1].id == k;
    }
  }

  /** The rows of a well-keyed table in ascending id order. */
  ghost function Ordered(t: Table): (rows: seq<Account>)
    requires WellKeyed(t)
    ensures |rows| == |t|
  {
    OrderedRows(t, t.Keys)
  }

  /** Reads a well-keyed table in ascending id order, smallest remaining id first. */
  method RowsInIdOrder(t: Table) returns (rows: seq<Account>)
    requires WellKeyed(t)
    ensures rows == Ordered(t)
  {
    var rest := t.Keys;
    rows := [];
    while rest != {}
      invariant rest <= t.Keys
      invariant OrderedRows(t, t.Keys) == rows + OrderedRows(t, rest)
      decreases |rest|
    {
      MinExists(rest);
      var m :| m in rest && forall x :: x in rest ==> m <= x;
      assert m == MinOf(rest);
      assert OrderedRows(t, rest) == [t[m]] + OrderedRows(t, rest - {m});
      rows := rows + [t[m]];
      rest := rest - {m};
    }
  }

  // ---------------------------------------------------------------------------
  // Looking a row up in a snapshot

  /** The first row of a snapshot whose id matches, as the `foreach ... if ($acc['id'] == $id)`
      loops of the source find it; None when no row matches. */
  method FindAccount(rows: seq<Account>, id: int) returns (r: Option<Account>)
    ensures r.None? <==> forall i :: 0 <= i < |rows| ==> rows[i].id != id
    ensures r.Some? ==>
      exists i :: 0 <= i < |rows| && rows[i] == r.value && rows[i].id == id &&
        forall j :: 0 <= j < i ==> rows[j].id != id
  {
    var i := 0;
    while i < |rows|
      invariant 0 <= i <= |rows|
      invariant forall j :: 0 <= j < i ==> rows[j].id != id
    {
      if rows[i].id == id {
        return Some(rows[i]);
      }
      i := i + 1;
    }
    return None;
  }

  /** Rows keyed by access key id, a later row replacing an earlier one with the same key
      (`$existing[$row['access_key_id']] = ...` over a scan of the table). */
  function LastByKey(rows: seq<Account>): (m: map<string, Account>)
    ensures forall k :: k in m ==> m[k].accessKeyId == k
    ensures forall i :: 0 <= i < |rows| ==> rows[i].accessKeyId in m
    decreases |rows|
  {
    if rows == [] then map[]
    else
      var last := rows[|rows| - 1];
      LastByKey(rows[..|rows| - 1])[last.accessKeyId := last]
  }

  /** The entry kept for a key is the last row carrying that key. */
  lemma {:induction false} LastByKeyIsLast(rows: seq<Account>, i: int)
    requires 0 <= i < |rows|
    requires forall j :: i < j < |rows| ==> rows[j].accessKeyId != rows[i].accessKeyId
    ensures LastByKey(rows)[rows[i].accessKeyId] == rows[i]
    decreases |rows|
  {
    if i < |rows| - 1 {
      LastByKeyIsLast(rows[..|rows| - 1], i);
    }
  }

  /** The row kept for a key is one that no later row of the scan shares the key with. */
  lemma {:induction false} LastByKeyLastIndex(rows: seq<Account>, key: string)
    requires key in LastByKey(rows)
    ensures exists i ::
      0 <= i < |rows| && rows[i] == LastByKey(rows)[key]
      && forall p :: i < p < |rows| ==> rows[p].accessKeyId != key
    decreases |rows|
  {
    var n := |rows| - 1;
    var prefix := rows[..n];
    if rows[n].accessKeyId != key {
      assert LastByKey(rows)[key] == LastByKey(prefix)[key];
      LastByKeyLastIndex(prefix, key);
      var i :|
        0 <= i < |prefix| && prefix[i] == LastByKey(prefix)[key]
        && forall p :: i < p < |prefix| ==> prefix[p].accessKeyId != key;
      forall p | i < p < |rows|
        ensures rows[p].accessKeyId != key
      {
        if p < n {
          assert prefix[p] == rows[p];
        }
      }
      assert rows[i] == prefix[i];
    }
  }

  /** A key that no row carries is not in the map. */
  lemma {:induction false} LastByKeyOnlyRowKeys(rows: seq<Account>, key: string)
    requires forall i :: 0 <= i < |rows| ==> rows[i].accessKeyId != key
    ensures key !in LastByKey(rows)
    decreases |rows|
  {
    if rows != [] {
      LastByKeyOnlyRowKeys(rows[..|rows| - 1], key);
    }
  }

  /** `k` is the highest id among the rows of `prior` with access key id `key`. */
  predicate HighestWithKey(prior: Table, k: int, key: string) {
    k in prior && prior[k].accessKeyId == key
    && forall k' :: k' in prior && prior[k'].accessKeyId == key ==> k' <= k
  }

  /** Two rows agree on the four observation columns. */
  predicate SameObservation(r: Account, s: Account) {
    r.trafficUsed == s.trafficUsed && r.instanceStatus == s.instanceStatus
    && r.updatedAt == s.updatedAt && r.lastKeepAliveAt == s.lastKeepAliveAt
  }

  /** The newest old row of a key is the one `updateConfig` looks up for it. */
  lemma ExistingIsHighest(prior: Table, k: int, key: string)
    requires WellKeyed(prior) && HighestWithKey(prior, k, key)
    ensures key in LastByKey(Ordered(prior)) && LastByKey(Ordered(prior))[key] == prior[k]
  {
    var rows := Ordered(prior);
    OrderedRowsCover(prior, prior.Keys, k);
    var p :| 0 <= p < |rows| && rows[p].id == k;
    forall q | p < q < |rows|
      ensures rows[q].accessKeyId != rows[p].accessKeyId
    {
      assert rows[q].id in prior && rows[q] == prior[rows[q].id];
    }
    LastByKeyIsLast(rows, p);
  }

  /** A key no old row carries has nothing to look up. */
  lemma ExistingAbsent(prior: Table, key: string)
    requires WellKeyed(prior)
    requires forall k :: k in prior ==> prior[k].accessKeyId != key
    ensures key !in LastByKey(Ordered(prior))
  {
    var rows := Ordered(prior);
    forall q | 0 <= q < |rows|
      ensures rows[q].accessKeyId != key
    {
      assert rows[q].id in prior;
    }
    LastByKeyOnlyRowKeys(rows, key);
  }

  /** The scan of the old rows in `updateConfig`: per access key id, the row read last. */
  method ExistingByKey(snapshot: seq<Account>) returns (existing: map<string, Account>)
    ensures existing == LastByKey(snapshot)
  {
    existing := map[];
    var j := 0;
    while j < |snapshot|
      invariant 0 <= j <= |snapshot|
      invariant existing == LastByKey(snapshot[..j])
    {
      assert snapshot[..j + 1][..j] == snapshot[..j];
      existing := existing[snapshot[j].accessKeyId := snapshot[j]];
      j := j + 1;
    }
    assert snapshot[..j] == snapshot;
  }

  // ---------------------------------------------------------------------------
  // The settings form

  datatype ScheduleInput = ScheduleInput(enabled: Option<bool>, startTime: Option<string>, stopTime: Option<string>)

  /** One entry of `$data['Accounts']`; the optional keys are read with `?? default`. */
  datatype AccountInput = AccountInput(
    accessKeyId: string,
    accessKeySecret: string,
    regionId: string,
    instanceId: Option<string>,
    maxTraffic: real,
    schedule: ScheduleInput)

  datatype NotificationInput = NotificationInput(
    email: string, host: string, port: string, username: string, password: string, secure: string)

  /** The submitted configuration `$data`. */
  datatype ConfigInput = ConfigInput(
    adminPassword: string,
    trafficThreshold: string,
    enableScheduleEmail: bool,
    shutdownMode: string,
    thresholdAction: string,
    keepAlive: Option<bool>,
    apiInterval: Option<string>,
    notification: Option<NotificationInput>,
    accounts: seq<AccountInput>)

  /** A row's configuration columns replaced by a submitted entry, observation fields kept. */
  function WithConfig(r: Account, a: AccountInput): Account {
    r.(accessKeySecret := a.accessKeySecret,
       regionId := a.regionId,
       instanceId := a.instanceId.GetOr(""),
       maxTraffic := a.maxTraffic,
       scheduleEnabled := a.schedule.enabled.GetOr(false),
       startTime := a.schedule.startTime.GetOr(""),
       stopTime := a.schedule.stopTime.GetOr(""))
  }

  /** A freshly inserted row for a submitted entry with the given observation fields. */
  function NewRow(id: int, a: AccountInput, traffic: real, status: string, updated: int, lastKeepAlive: int): Account {
    WithConfig(Account(id, a.accessKeyId, "", "", "", 0.0, false, "", "", traffic, status, updated, lastKeepAlive), a)
  }

  /** The `saveSetting` calls of `updateConfig`, in the order it makes them. */
  function SettingWrites(d: ConfigInput): seq<(string, string)> {
    [("admin_password", d.adminPassword),
     ("traffic_threshold", d.trafficThreshold),
     ("enable_schedule_email", if d.enableScheduleEmail then "1" else "0"),
     ("shutdown_mode", d.shutdownMode),
     ("threshold_action", d.thresholdAction),
     ("keep_alive", if d.keepAlive == Some(true) then "1" else "0"),
     ("api_interval", d.apiInterval.GetOr("600"))]
    + match d.notification
      case None => []
      case Some(n) =>
        [("notify_email", n.email), ("notify_host", n.host), ("notify_port", n.port),
         ("notify_username", n.username), ("notify_password", n.password), ("notify_secure", n.secure)]
  }

  /** A run of `INSERT OR REPLACE INTO settings` (or of `$cache[$key] = $value`). */
  function ApplySettings(m: map<string, string>, pairs: seq<(string, string)>): map<string, string>
    decreases |pairs|
  {
    if pairs == [] then m else ApplySettings(m[pairs[0].0 := pairs[0].1], pairs[1..])
  }

  /** Writing one more pair after a run is the run extended by that pair. */
  lemma {:induction false} ApplySettingsSnoc(m: map<string, string>, pairs: seq<(string, string)>, key: string, value: string)
    ensures ApplySettings(m, pairs + [(key, value)]) == ApplySettings(m, pairs)[key := value]
    decreases |pairs|
  {
    if pairs == [] {
      assert pairs + [(key, value)] == [(key, value)];
    } else {
      ApplySettingsSnoc(m[pairs[0].0 := pairs[0].1], pairs[1..], key, value);
      assert (pairs + [(key, value)])[1..] == pairs[1..] + [(key, value)];
    }
  }

  /** The value the last pair for `key` assigns, if any. */
  function LastAssigned(pairs: seq<(string, string)>, key: string): Option<string>
    decreases |pairs|
  {
    if pairs == [] then None
    else match LastAssigned(pairs[1..], key)
      case Some(v) => Some(v)
      case None => if pairs[0].0 == key then Some(pairs[0].1) else None
  }

  /** After a run of settings writes, a key holds the last value written to it, or what it
      held before when it was not written. */
  lemma {:induction false} ApplySettingsLookup(m: map<string, string>, pairs: seq<(string, string)>, key: string)
    ensures LastAssigned(pairs, key).Some? ==>
      key in ApplySettings(m, pairs) && ApplySettings(m, pairs)[key] == LastAssigned(pairs, key).value
    ensures LastAssigned(pairs, key).None? ==>
      (key in ApplySettings(m, pairs) <==> key in m) &&
      (key in m ==> ApplySettings(m, pairs)[key] == m[key])
    decreases |pairs|
  {
    if pairs != [] {
      ApplySettingsLookup(m[pairs[0].0 := pairs[0].1], pairs[1..], key);
    }
  }
}
