/** The monitor object: the SQLite database it owns (the `accounts` and `settings` tables
    and the AUTOINCREMENT counter of `accounts`), the settings and account rows it loaded
    when it was built, and the operations the pages and the cron job call on it. */
module TrafficCheck {
  import opened Wrappers
  import opened Php
  import opened Store
  import opened TimeWindow
  import opened Reconcile

  /** What `monitor()` returns: the error text when the object failed to initialise, or
      the outcome of each account of the snapshot (the log lines are rendered from these). */
  datatype PassResult = InitFailure(message: string) | Passed(outcomes: seq<Outcome>)

  /** What `getStatusForFrontend()` returns. */
  datatype StatusResult = StatusError(error: string) | StatusData(data: seq<StatusEntry>)

  /** What `setup()` does: throws the initialisation error, or returns a flag. */
  datatype SetupResult = Thrown(message: string) | Returned(ok: bool)

  datatype NotificationView = NotificationView(
    email: string, host: string, port: string, username: string, password: string, secure: string)

  datatype AccountView = AccountView(
    accessKeyId: string,
    accessKeySecret: string,
    regionId: string,
    instanceId: string,
    maxTraffic: real,
    scheduleEnabled: bool,
    startTime: string,
    stopTime: string)

  /** The configuration as the settings page receives it. */
  datatype ConfigView = ConfigView(
    adminPassword: string,
    trafficThreshold: int,
    enableScheduleEmail: bool,
    shutdownMode: string,
    thresholdAction: string,
    keepAlive: bool,
    apiInterval: int,
    notification: NotificationView,
    accounts: seq<AccountView>)

  /** The settings part of `getConfigForFrontend()`, with the defaults of its `??` lookups. */
  function SettingsView(c: map<string, string>): ConfigView {
    ConfigView(
      SettingOr(c, "admin_password", ""),
      IntCast(SettingOr(c, "traffic_threshold", "95")),
      SettingOr(c, "enable_schedule_email", "0") == "1",
      SettingOr(c, "shutdown_mode", "KeepCharging"),
      SettingOr(c, "threshold_action", "stop_and_notify"),
      SettingOr(c, "keep_alive", "0") == "1",
      IntCast(SettingOr(c, "api_interval", "600")),
      NotificationView(
        SettingOr(c, "notify_email", ""), SettingOr(c, "notify_host", ""), SettingOr(c, "notify_port", "465"),
        SettingOr(c, "notify_username", ""), SettingOr(c, "notify_password", ""), SettingOr(c, "notify_secure", "ssl")),
      [])
  }

  function AccountViewOf(r: Account): AccountView {
    AccountView(r.accessKeyId, r.accessKeySecret, r.regionId, r.instanceId, r.maxTraffic,
                r.scheduleEnabled, r.startTime, r.stopTime)
  }

  /** A submitted entry as it reads back, its missing optional keys filled with defaults. */
  function InputView(a: AccountInput): AccountView {
    AccountView(a.accessKeyId, a.accessKeySecret, a.regionId, a.instanceId.GetOr(""), a.maxTraffic,
                a.schedule.enabled.GetOr(false), a.schedule.startTime.GetOr(""), a.schedule.stopTime.GetOr(""))
  }

  /** The page's full view: the settings and one entry per cached row, in cache order. */
  function FrontendConfig(c: map<string, string>, accounts: seq<Account>): (v: ConfigView)
    ensures |v.accounts| == |accounts|
    ensures forall i :: 0 <= i < |accounts| ==> v.accounts[i] == AccountViewOf(accounts[i])
    decreases |accounts|
  {
    if accounts == [] then SettingsView(c)
    else
      var v := FrontendConfig(c, accounts[..|accounts| - 1]);
      v.(accounts := v.accounts + [AccountViewOf(accounts[|accounts| - 1])])
  }

  /** With nothing stored, the page shows the `??` defaults of `getConfigForFrontend`. */
  lemma SettingsViewDefaults()
    ensures SettingsView(map[]) == ConfigView("", 95, false, "KeepCharging", "stop_and_notify", false, 600,
                                              NotificationView("", "", "465", "", "", "ssl"), [])
  {
    IntCastRoundTrip(95);
    IntCastRoundTrip(600);
    assert IntToString(95) == "95" && IntToString(600) == "600";
  }

  /** The settings page reads back what it saved: after the settings writes of a form whose
      threshold and interval are integers, the view holds the submitted values. */
  lemma SettingsRoundTrip(c: map<string, string>, d: ConfigInput, threshold: int, interval: int)
    requires d.trafficThreshold == IntToString(threshold)
    requires d.apiInterval == Some(IntToString(interval))
    ensures var v := SettingsView(ApplySettings(c, SettingWrites(d)));
      v.adminPassword == d.adminPassword && v.trafficThreshold == threshold
      && v.enableScheduleEmail == d.enableScheduleEmail && v.shutdownMode == d.shutdownMode
      && v.thresholdAction == d.thresholdAction && v.keepAlive == (d.keepAlive == Some(true))
      && v.apiInterval == interval
  {
    var pairs := SettingWrites(d);
    SettingsWritten(c, d);
    assert pairs[0] == ("admin_password", d.adminPassword);
    assert pairs[1] == ("traffic_threshold", d.trafficThreshold);
    assert pairs[2].0 == "enable_schedule_email" && pairs[3] == ("shutdown_mode", d.shutdownMode);
    assert pairs[4] == ("threshold_action", d.thresholdAction) && pairs[5].0 == "keep_alive";
    assert pairs[6] == ("api_interval", IntToString(interval));
    IntCastRoundTrip(threshold);
    IntCastRoundTrip(interval);
  }

  /** The mail settings saved with the form read back unchanged. */
  lemma NotificationRoundTrip(c: map<string, string>, d: ConfigInput)
    requires d.notification.Some?
    ensures var n := d.notification.value;
      SettingsView(ApplySettings(c, SettingWrites(d))).notification
        == NotificationView(n.email, n.host, n.port, n.username, n.password, n.secure)
  {
    var pairs := SettingWrites(d);
    SettingsWritten(c, d);
    var m := d.notification.value;
    assert pairs[7] == ("notify_email", m.email) && pairs[8] == ("notify_host", m.host);
    assert pairs[9] == ("notify_port", m.port) && pairs[10] == ("notify_username", m.username);
    assert pairs[11] == ("notify_password", m.password) && pairs[12] == ("notify_secure", m.secure);
  }

  /** After the settings writes every key of the form holds the value written for it. */
  lemma SettingsWritten(c: map<string, string>, d: ConfigInput)
    ensures forall i :: 0 <= i < |SettingWrites(d)| ==>
      SettingWrites(d)[i].0 in ApplySettings(c, SettingWrites(d))
      && ApplySettings(c, SettingWrites(d))[SettingWrites(d)[i].0] == SettingWrites(d)[i].1
  {
    var pairs := SettingWrites(d);
    forall i | 0 <= i < |pairs|
      ensures pairs[i].0 in ApplySettings(c, pairs) && ApplySettings(c, pairs)[pairs[i].0] == pairs[i].1
    {
      SettingWritesLast(d, i);
      ApplySettingsLookup(c, pairs, pairs[i].0);
    }
  }

  /** Every key of the settings form is written exactly once. */
  lemma SettingWritesLast(d: ConfigInput, i: int)
    requires 0 <= i < |SettingWrites(d)|
    ensures LastAssigned(SettingWrites(d), SettingWrites(d)[i].0) == Some(SettingWrites(d)[i].1)
  {
    var pairs := SettingWrites(d);
    LastAssignedUnique(pairs, i);
  }

  lemma {:induction false} LastAssignedUnique(pairs: seq<(string, string)>, i: int)
    requires 0 <= i < |pairs|
    requires forall j :: 0 <= j < |pairs| && j != i ==> pairs[j].0 != pairs[i].0
    ensures LastAssigned(pairs, pairs[i].0) == Some(pairs[i].1)
    decreases |pairs|
  {
    if i == 0 {
      LastAssignedAbsent(pairs[1..], pairs[0].0);
    } else {
      LastAssignedUnique(pairs[1..], i - 1);
    }
  }

  lemma {:induction false} LastAssignedAbsent(pairs: seq<(string, string)>, key: string)
    requires forall j :: 0 <= j < |pairs| ==> pairs[j].0 != key
    ensures LastAssigned(pairs, key) == None
    decreases |pairs|
  {
    if pairs != [] {
      LastAssignedAbsent(pairs[1..], key);
    }
  }

  /** The row `updateConfig` inserts for a submitted entry: configuration from the form,
      observation fields from the old row with the same access key id, or 0, "Unknown",
      0 and 0 when there was none. */
  function CarriedRow(id: int, a: AccountInput, existing: map<string, Account>): Account {
    if a.accessKeyId in existing then
      var e := existing[a.accessKeyId];
      NewRow(id, a, e.trafficUsed, e.instanceStatus, e.updatedAt, e.lastKeepAliveAt)
    else NewRow(id, a, 0.0, "Unknown", 0, 0)
  }

  /** The table after `updateConfig`: the submitted entries under fresh ids following the
      AUTOINCREMENT counter, in submission order. */
  function SyncedTable(sequence: int, accounts: seq<AccountInput>, existing: map<string, Account>): Table
    decreases |accounts|
  {
    if accounts == [] then map[]
    else
      var n := |accounts| - 1;
      SyncedTable(sequence, accounts[..n], existing)[sequence + 1 + n := CarriedRow(sequence + 1 + n, accounts[n], existing)]
  }

  /** The synced table holds exactly the ids after the counter, one per submitted entry,
      each row keyed by its own id. */
  lemma {:induction false} SyncedTableKeys(sequence: int, accounts: seq<AccountInput>, existing: map<string, Account>)
    ensures forall id :: id in SyncedTable(sequence, accounts, existing) <==> sequence < id <= sequence + |accounts|
    ensures WellKeyed(SyncedTable(sequence, accounts, existing))
    decreases |accounts|
  {
    if accounts != [] {
      SyncedTableKeys(sequence, accounts[..|accounts| - 1], existing);
    }
  }

  /** The entry `i` of the list lands under the counter plus `i + 1`, with its carried row. */
  lemma {:induction false} SyncedTableRow(sequence: int, accounts: seq<AccountInput>, existing: map<string, Account>, i: int)
    requires 0 <= i < |accounts|
    ensures sequence + 1 + i in SyncedTable(sequence, accounts, existing)
    ensures SyncedTable(sequence, accounts, existing)[sequence + 1 + i] == CarriedRow(sequence + 1 + i, accounts[i], existing)
    decreases |accounts|
  {
    var n := |accounts| - 1;
    if i < n {
      SyncedTableRow(sequence, accounts[..n], existing, i);
      assert accounts[..n][i] == accounts[i];
    }
  }

  /** One more submitted entry adds its own row under the next id. */
  lemma SyncedTableSnoc(sequence: int, accounts: seq<AccountInput>, n: int, existing: map<string, Account>)
    requires 0 <= n < |accounts|
    ensures SyncedTable(sequence, accounts[..n + 1], existing)
      == SyncedTable(sequence, accounts[..n], existing)[sequence + 1 + n := CarriedRow(sequence + 1 + n, accounts[n], existing)]
  {
    assert accounts[..n + 1][..n] == accounts[..n];
  }

  /** The carry-over `updateConfig` promises: every submitted entry gets a row with its own
      configuration; a key that was in the table keeps the observation fields of its
      highest-id old row, and a new key starts from 0, "Unknown", 0, 0. */
  lemma SyncCarriesObservations(prior: Table, sequence: int, accounts: seq<AccountInput>, i: int)
    requires WellKeyed(prior)
    requires 0 <= i < |accounts|
    ensures var t := SyncedTable(sequence, accounts, LastByKey(Ordered(prior)));
      sequence + 1 + i in t && t[sequence + 1 + i].id == sequence + 1 + i
      && AccountViewOf(t[sequence + 1 + i]) == InputView(accounts[i])
    ensures var t := SyncedTable(sequence, accounts, LastByKey(Ordered(prior)));
      forall k :: HighestWithKey(prior, k, accounts[i].accessKeyId) ==> SameObservation(t[sequence + 1 + i], prior[k])
    ensures var t := SyncedTable(sequence, accounts, LastByKey(Ordered(prior)));
      (forall k :: k in prior ==> prior[k].accessKeyId != accounts[i].accessKeyId) ==>
        SameObservation(t[sequence + 1 + i], NewRow(0, accounts[i], 0.0, "Unknown", 0, 0))
  {
    SyncedTableRow(sequence, accounts, LastByKey(Ordered(prior)), i);
    SyncedTableKeys(sequence, accounts, LastByKey(Ordered(prior)));
    var key := accounts[i].accessKeyId;
    forall k | HighestWithKey(prior, k, key)
      ensures key in LastByKey(Ordered(prior)) && LastByKey(Ordered(prior))[key] == prior[k]
    {
      ExistingIsHighest(prior, k, key);
    }
    if forall k :: k in prior ==> prior[k].accessKeyId != key {
      ExistingAbsent(prior, key);
    }
  }

  /** The monitor object. `rows`, `settings` and `sequence` are the database; `configCache`
      and `accountsCache` are what `loadConfig` read into memory. */
  class AliyunTrafficCheck {
    var rows: Table
    var settings: map<string, string>
    var sequence: int
    var initError: Option<string>
    var configCache: map<string, string>
    var accountsCache: seq<Account>

    /** The table is keyed by id and the AUTOINCREMENT counter is at least every id; a
        failed initialisation loaded nothing. */
    ghost predicate Valid()
      reads this
    {
      Stored() && (initError.Some? ==> configCache == map[] && accountsCache == [])
    }

    /** The database part of `Valid`. */
    ghost predicate Stored()
      reads this`rows, this`sequence
    {
      WellKeyed(rows) && forall id :: id in rows ==> id <= sequence
    }

    /** Opens the database: on a connection or schema error the object keeps the message
        and loads nothing; otherwise it loads the settings and the account rows. */
    constructor (rows0: Table, settings0: map<string, string>, sequence0: int, connectError: Option<string>)
      requires WellKeyed(rows0) && forall id :: id in rows0 ==> id <= sequence0
      ensures Valid()
      ensures rows == rows0 && settings == settings0 && sequence == sequence0 && initError == connectError
      ensures connectError.None? ==> configCache == settings0 && accountsCache == Ordered(rows0)
    {
      rows, settings, sequence, initError := rows0, settings0, sequence0, connectError;
      // `loadConfig()` on the fresh object, whose in-memory configuration starts empty
      var loaded: seq<Account> := [];
      if connectError.None? {
        loaded := RowsInIdOrder(rows0);
      }
      configCache := if connectError.None? then map[] + settings0 else map[];
      accountsCache := loaded;
    }

    /** `loadConfig()`: the stored settings are merged over the in-memory ones and the
        account rows are re-read. */
    method LoadConfig()
      requires WellKeyed(rows)
      modifies this`configCache, this`accountsCache
      ensures initError.Some? ==> configCache == old(configCache) && accountsCache == old(accountsCache)
      ensures initError.None? ==> configCache == old(configCache) + settings && accountsCache == Ordered(rows)
    {
      if initError.Some? {
        return;
      }
      configCache := configCache + settings;
      accountsCache := RowsInIdOrder(rows);
    }

    /** `saveSetting($key, $value)`: the stored value and the in-memory one both change. */
    method SaveSetting(key: string, value: string)
      modifies this`settings, this`configCache
      ensures initError.Some? ==> settings == old(settings) && configCache == old(configCache)
      ensures initError.None? ==> settings == old(settings)[key := value] && configCache == old(configCache)[key := value]
    {
      if initError.Some? {
        return;
      }
      settings := settings[key := value];
      configCache := configCache[key := value];
    }

    /** `isInitialized()`: an admin password has been set. */
    predicate IsInitialized()
      reads this
    {
      initError.None? && !EmptySetting(configCache, "admin_password")
    }

    /** `login($password)`: an empty stored password admits no one; otherwise the given
        password must equal it. */
    function Login(password: string): (ok: bool)
      reads this
      ensures ok ==> !Falsy(password)
      ensures ok <==> !EmptySetting(configCache, "admin_password") && password == configCache["admin_password"]
    {
      var admin := SettingOr(configCache, "admin_password", "");
      if Falsy(admin) then false else password == admin
    }

    /** A successful login means the object is initialised, and once initialised the
        stored password is accepted. */
    lemma LoginMeansInitialized(password: string)
      requires Valid()
      ensures Login(password) ==> IsInitialized()
      ensures IsInitialized() ==> Login(configCache["admin_password"])
    {
    }

    /** The in-memory effect of a successful `saveSetting`: a later read of the key sees
        the new value, and saving a non-empty admin password initialises the object. */
    lemma SaveThenRead(key: string, value: string, before: map<string, string>)
      requires initError.None? && configCache == before[key := value]
      ensures SettingOr(configCache, key, "") == value
      ensures key == "admin_password" ==> (IsInitialized() <==> !Falsy(value))
    {
    }

    /** `getConfigForFrontend()`: nothing after an initialisation error, otherwise the
        settings view and one entry per cached row. */
    method GetConfigForFrontend() returns (r: Option<ConfigView>)
      ensures initError.Some? ==> r == None
      ensures initError.None? ==> r == Some(FrontendConfig(configCache, accountsCache))
    {
      if initError.Some? {
        return None;
      }
      var config := SettingsView(configCache);
      var i := 0;
      while i < |accountsCache|
        invariant 0 <= i <= |accountsCache|
        invariant config == FrontendConfig(configCache, accountsCache[..i])
      {
        assert accountsCache[..i + 1][..i] == accountsCache[..i];
        config := config.(accounts := config.accounts + [AccountViewOf(accountsCache[i])]);
        i := i + 1;
      }
      assert accountsCache[..i] == accountsCache;
      return Some(config);
    }

    /** `setup($data)`: throws after an initialisation error, refuses once initialised,
        otherwise saves the configuration. */
    method Setup(d: ConfigInput, fault: Option<nat>) returns (r: SetupResult)
      requires Valid()
      modifies this`rows, this`settings, this`sequence, this`configCache, this`accountsCache
      ensures Valid()
      ensures old(initError).Some? ==>
        r == Thrown(old(initError).value) && rows == old(rows) && settings == old(settings)
        && sequence == old(sequence) && configCache == old(configCache) && accountsCache == old(accountsCache)
      ensures old(IsInitialized()) ==>
        r == Returned(false) && rows == old(rows) && settings == old(settings)
        && sequence == old(sequence) && configCache == old(configCache) && accountsCache == old(accountsCache)
      ensures old(initError).None? && !old(IsInitialized()) ==> r == Returned(fault.None?)
      ensures old(initError).None? && !old(IsInitialized()) && fault.Some? ==>
        rows == old(rows) && settings == old(settings) && sequence == old(sequence)
        && accountsCache == old(accountsCache)
        && configCache == ApplySettings(old(configCache),
             SettingWrites(d)[..if fault.value < |SettingWrites(d)| then fault.value else |SettingWrites(d)|])
      ensures old(initError).None? && !old(IsInitialized()) && fault.None? ==>
        settings == ApplySettings(old(settings), SettingWrites(d))
        && rows == SyncedTable(old(sequence), d.accounts, LastByKey(Ordered(old(rows))))
        && sequence == old(sequence) + |d.accounts|
        && configCache == ApplySettings(old(configCache), SettingWrites(d)) + settings
        && accountsCache == Ordered(rows)
    {
      if initError.Some? {
        return Thrown(initError.value);
      }
      if IsInitialized() {
        return Returned(false);
      }
      var ok := UpdateConfig(d, fault);
      return Returned(ok);
    }

    /** One UPDATE statement on the accounts table. */
    method Execute(w: Write)
      modifies this`rows
      ensures rows == ApplyWrite(old(rows), w)
    {
      rows := ApplyWrite(rows, w);
    }

    /** `updateConfig($data)` in one transaction: the settings writes, then every account
        row replaced by the submitted list, each new row carrying the observation fields of
        the old row with the same access key id. `fault` is the statement (numbered from 0:
        the settings writes first, then the inserts) at which the database throws; the
        transaction is then rolled back, leaving the database as it was, while the
        in-memory settings keep the writes made before the fault. */
    method UpdateConfig(d: ConfigInput, fault: Option<nat>) returns (ok: bool)
      requires Valid()
      modifies this`rows, this`settings, this`sequence, this`configCache, this`accountsCache
      ensures Valid()
      ensures initError == old(initError)
      ensures old(initError).Some? ==>
        !ok && rows == old(rows) && settings == old(settings) && sequence == old(sequence)
        && configCache == old(configCache) && accountsCache == old(accountsCache)
      ensures old(initError).None? && fault.Some? ==>
        !ok && rows == old(rows) && settings == old(settings) && sequence == old(sequence)
        && accountsCache == old(accountsCache)
        && configCache == ApplySettings(old(configCache),
             SettingWrites(d)[..if fault.value < |SettingWrites(d)| then fault.value else |SettingWrites(d)|])
      ensures old(initError).None? && fault.None? ==>
        ok && settings == ApplySettings(old(settings), SettingWrites(d))
        && rows == SyncedTable(old(sequence), d.accounts, LastByKey(Ordered(old(rows))))
        && sequence == old(sequence) + |d.accounts|
        && configCache == ApplySettings(old(configCache), SettingWrites(d)) + settings
        && accountsCache == Ordered(rows)
    {
      if initError.Some? {
        return false;
      }
      ok := Save(SettingWrites(d), d.accounts, fault);
    }

    /** `updateConfig` once initialised: the transaction, then `loadConfig()` after a
        commit. */
    method Save(pairs: seq<(string, string)>, accounts: seq<AccountInput>, fault: Option<nat>) returns (ok: bool)
      requires initError.None? && Stored()
      modifies this`rows, this`settings, this`sequence, this`configCache, this`accountsCache
      ensures Stored()
      ensures ok <==> fault.None?
      ensures fault.Some? ==>
        rows == old(rows) && settings == old(settings) && sequence == old(sequence)
        && accountsCache == old(accountsCache)
        && configCache == ApplySettings(old(configCache),
             pairs[..if fault.value < |pairs| then fault.value else |pairs|])
      ensures fault.None? ==>
        settings == ApplySettings(old(settings), pairs)
        && rows == SyncedTable(old(sequence), accounts, LastByKey(Ordered(old(rows))))
        && sequence == old(sequence) + |accounts|
        && configCache == ApplySettings(old(configCache), pairs) + settings
        && accountsCache == Ordered(rows)
    {
      ok := Transaction(pairs, accounts, fault);
      if ok {
        LoadConfig();
        assert accountsCache == Ordered(rows);
      }
    }

    /** The `try` block of `updateConfig` up to its commit, and its `catch`: the settings
        writes `pairs` and the account replacement in one transaction, rolled back on the
        first exception (the in-memory settings keep the writes made before it). */
    method Transaction(pairs: seq<(string, string)>, accounts: seq<AccountInput>, fault: Option<nat>)
      returns (ok: bool)
      requires initError.None? && Stored()
      modifies this`rows, this`settings, this`sequence, this`configCache
      ensures Stored()
      ensures ok <==> fault.None?
      ensures fault.Some? ==>
        rows == old(rows) && settings == old(settings) && sequence == old(sequence)
        && configCache == ApplySettings(old(configCache),
             pairs[..if fault.value < |pairs| then fault.value else |pairs|])
      ensures fault.None? ==>
        settings == ApplySettings(old(settings), pairs)
        && rows == SyncedTable(old(sequence), accounts, LastByKey(Ordered(old(rows))))
        && sequence == old(sequence) + |accounts|
        && configCache == ApplySettings(old(configCache), pairs)
    {
      var rows0, settings0, sequence0 := rows, settings, sequence;
      ok := SaveSettings(pairs, fault);
      if !ok {
        settings := settings0;
        return;
      }
      assert pairs[..|pairs|] == pairs;
      ok := ReplaceAccounts(accounts, if fault.Some? then Some(fault.value - |pairs|) else None);
      if !ok || fault.Some? {
        rows, settings, sequence := rows0, settings0, sequence0;
        return false;
      }
    }

    /** The account part of `updateConfig`: the cached columns of the current rows are read
        by access key, the table is emptied and every submitted account is inserted with
        the cached values of its key. */
    method ReplaceAccounts(accounts: seq<AccountInput>, fault: Option<int>) returns (ok: bool)
      requires WellKeyed(rows)
      modifies this`rows, this`sequence
      ensures ok <==> fault.None? || fault.value < 0 || fault.value >= |accounts|
      ensures ok ==>
        rows == SyncedTable(old(sequence), accounts, LastByKey(Ordered(old(rows))))
        && sequence == old(sequence) + |accounts|
      ensures ok ==> WellKeyed(rows) && forall id :: id in rows ==> id <= sequence
    {
      var snapshot := RowsInIdOrder(rows);
      var existing := ExistingByKey(snapshot);
      ok := InsertAccounts(accounts, existing, fault);
      SyncedTableKeys(old(sequence), accounts, existing);
    }

    /** The `saveSetting` calls of `updateConfig`, the one numbered `fault` throwing. */
    method SaveSettings(pairs: seq<(string, string)>, fault: Option<nat>) returns (ok: bool)
      requires initError.None?
      modifies this`settings, this`configCache
      ensures ok <==> fault.None? || fault.value >= |pairs|
      ensures ok ==>
        settings == ApplySettings(old(settings), pairs)
        && configCache == ApplySettings(old(configCache), pairs)
      ensures !ok ==> configCache == ApplySettings(old(configCache), pairs[..fault.value])
    {
      var i := 0;
      while i < |pairs|
        invariant 0 <= i <= |pairs|
        invariant settings == ApplySettings(old(settings), pairs[..i])
        invariant configCache == ApplySettings(old(configCache), pairs[..i])
        invariant fault.Some? ==> fault.value >= i
      {
        if fault == Some(i) {
          return false;
        }
        ApplySettingsSnoc(old(settings), pairs[..i], pairs[i].0, pairs[i].1);
        ApplySettingsSnoc(old(configCache), pairs[..i], pairs[i].0, pairs[i].1);
        assert pairs[..i + 1] == pairs[..i] + [pairs[i]];
        SaveSetting(pairs[i].0, pairs[i].1);
        i := i + 1;
      }
      assert pairs[..i] == pairs;
      return true;
    }

    /** The INSERTs of `updateConfig` after the DELETE, one per submitted entry, under the
        next AUTOINCREMENT ids; the one numbered `fault` throws. */
    method InsertAccounts(accounts: seq<AccountInput>, existing: map<string, Account>, fault: Option<int>)
      returns (ok: bool)
      modifies this`rows, this`sequence
      ensures ok <==> fault.None? || fault.value < 0 || fault.value >= |accounts|
      ensures ok ==>
        rows == SyncedTable(old(sequence), accounts, existing)
        && sequence == old(sequence) + |accounts|
    {
      var t: Table, counter := map[], sequence;
      var n := 0;
      while n < |accounts|
        invariant 0 <= n <= |accounts|
        invariant counter == old(sequence) + n
        invariant t == SyncedTable(old(sequence), accounts[..n], existing)
        invariant fault.Some? && fault.value >= 0 ==> fault.value >= n
      {
        if fault == Some(n) {
          rows, sequence := t, counter;
          return false;
        }
        SyncedTableSnoc(old(sequence), accounts, n, existing);
        counter := counter + 1;
        t := t[counter := CarriedRow(counter, accounts[n], existing)];
        n := n + 1;
      }
      assert accounts[..n] == accounts;
      rows, sequence := t, counter;
      return true;
    }

    /** `refreshAccount($id)`: the first cached row with the id is re-queried once (no
        re-query on "Unknown") and its row is updated with `updated_at = now`, whatever
        the answers; false when initialisation failed or no cached row has the id. */
    method RefreshAccount(id: int, now: int, o: Observation) returns (ok: bool)
      requires Valid()
      modifies this`rows
      ensures Valid()
      ensures ok <==> initError.None? && exists i :: 0 <= i < |accountsCache| && accountsCache[i].id == id
      ensures !ok ==> rows == old(rows)
      ensures ok ==> exists i ::
        0 <= i < |accountsCache| && accountsCache[i].id == id
        && (forall j :: 0 <= j < i ==> accountsCache[j].id != id)
        && rows == ApplyWrite(old(rows), SetObservation(id, RefreshedTraffic(accountsCache[i], o), o.firstStatus, now))
    {
      if initError.Some? {
        return false;
      }
      var target := FindAccount(accountsCache, id);
      if target.None? {
        return false;
      }
      var acc := target.value;
      var traffic := o.traffic;
      var status := o.firstStatus;
      if traffic < 0.0 {
        traffic := acc.trafficUsed;
      }
      Execute(SetObservation(id, traffic, status, now));
      return true;
    }

    /** One account of `monitor()`, statement by statement: the row UPDATEs go to the
        table as they are issued, and the calls and actions are recorded in order. */
    method ReconcileAccount(a: Account, cfg: MonitorConfig, now: int, hhmm: string, o: Observation)
      returns (out: Outcome)
      modifies this`rows
      ensures out == Step(a, cfg, now, hhmm, o)
      ensures rows == ApplyWrites(old(rows), out.writes)
    {
      // 1. schedule
      var s0, statusTransformed := ScheduleStep(a, cfg, hhmm);
      var forceRefresh := statusTransformed;

      // 2. adaptive interval and refresh
      var s1, shouldCheckApi := RefreshStep(a, cfg, now, hhmm, o, forceRefresh, statusTransformed, s0);
      assert s0.writes == [] && s1.writes[|s0.writes|..] == s1.writes;

      // 3 to 5
      out := ConcludeStep(a, cfg, now, hhmm, shouldCheckApi, statusTransformed, s1, old(rows));
    }

    /** Steps 3 to 5 of `monitor()` for one account: the breaker, the keep-alive and the
        transitional status, with their writes; `base` is the row table the pass started
        from. */
    method ConcludeStep(a: Account, cfg: MonitorConfig, now: int, hhmm: string, shouldCheckApi: bool,
                        statusTransformed: bool, s1: Stage, ghost base: Table)
      returns (out: Outcome)
      requires statusTransformed == Scheduled(a, hhmm)
      requires rows == ApplyWrites(base, s1.writes)
      modifies this`rows
      ensures out == Conclude(a, cfg, now, hhmm, shouldCheckApi, s1)
      ensures rows == ApplyWrites(base, out.writes)
    {
      // 3. breaker
      var usagePercent := UsagePercent(s1.traffic, a.maxTraffic);
      var isOverThreshold := usagePercent >= cfg.threshold as real;
      var s2 := s1;
      if isOverThreshold && shouldCheckApi {
        s2 := BreakerStep(a, cfg, now, usagePercent, s1);
        ApplyWritesExtend(base, s1.writes, s2.writes);
      }
      assert s2 == BreakerStage(a, cfg, now, isOverThreshold && shouldCheckApi, usagePercent, s1);

      // 4. keep-alive
      var s3, keptAlive := KeepAliveStep(a, cfg, now, hhmm, isOverThreshold, s2);
      ApplyWritesExtend(base, s2.writes, s3.writes);

      // 5. transitional status after a schedule action
      var s4 := s3;
      if statusTransformed {
        var tempStatus := if "定时启动" in s3.actions then "Starting" else "Stopping";
        var w := SetObservation(a.id, s3.traffic, tempStatus, now);
        ApplyWritesSnoc(base, s3.writes, w);
        Execute(w);
        s4 := s3.(writes := s3.writes + [w]);
      }
      assert s4 == FinalStage(a, now, hhmm, s3);
      out := Outcome(s4.writes, s4.effects, s4.actions, s4.status, shouldCheckApi, isOverThreshold, keptAlive, usagePercent);
    }

    /** Step 1 of `monitor()` for one account: the scheduled start and stop on an exact
        minute match; either one forces a refresh and marks the status for transition. */
    static method ScheduleStep(a: Account, cfg: MonitorConfig, hhmm: string) returns (s0: Stage, statusTransformed: bool)
      ensures s0 == ScheduleStage(a, cfg, hhmm)
      ensures statusTransformed == Scheduled(a, hhmm)
    {
      var actions: seq<string> := [];
      var effects: seq<Effect> := [];
      statusTransformed := false;
      if a.scheduleEnabled {
        if !Falsy(a.startTime) && hhmm == a.startTime {
          effects := effects + [ControlInstance(a.id, Start)];
          actions := actions + ["定时启动"];
          effects := effects + Mail(cfg, a.id, "定时启动");
          statusTransformed := true;
        }
        if !Falsy(a.stopTime) && hhmm == a.stopTime {
          effects := effects + [ControlInstance(a.id, Stop(cfg.shutdownMode))];
          actions := actions + ["定时停止(" + cfg.shutdownMode + ")"];
          effects := effects + Mail(cfg, a.id, "定时停止");
          statusTransformed := true;
        }
      }
      s0 := Stage([], effects, actions, a.trafficUsed, a.instanceStatus);
    }

    /** Step 2 of `monitor()` for one account: the interval, the refresh decision and, on
        a refresh, the queries and the write-back under the cache policy. */
    method RefreshStep(a: Account, cfg: MonitorConfig, now: int, hhmm: string, o: Observation,
                       forceRefresh: bool, statusTransformed: bool, s0: Stage)
      returns (s1: Stage, shouldCheckApi: bool)
      requires forceRefresh == statusTransformed == Scheduled(a, hhmm)
      requires s0.traffic == a.trafficUsed && s0.status == a.instanceStatus
      modifies this`rows
      ensures shouldCheckApi == ShouldRefresh(a, cfg, now, hhmm)
      ensures s1 == RefreshStage(a, cfg, now, hhmm, o, s0)
      ensures rows == ApplyWrites(old(rows), s1.writes[|s0.writes|..])
      ensures |s0.writes| <= |s1.writes| && s1.writes[..|s0.writes|] == s0.writes
    {
      var lastUpdate := a.updatedAt;
      var cachedStatus := a.instanceStatus;
      var isTransient := cachedStatus in ["Starting", "Stopping", "Pending", "Unknown"];
      var currentInterval := if isTransient || statusTransformed then BurstInterval else cfg.apiInterval;
      shouldCheckApi := forceRefresh || now - lastUpdate > currentInterval;
      var newUpdateTime := now;
      var traffic: real;
      var status: string;
      if shouldCheckApi {
        var newTraffic := o.traffic;
        status := o.firstStatus;
        if status == "Unknown" {
          status := o.retryStatus;
        }
        if newTraffic < 0.0 {
          traffic := s0.traffic;
          newUpdateTime := lastUpdate;
        } else {
          traffic := newTraffic;
        }
        if status == "Unknown" {
          newUpdateTime := lastUpdate;
        }
        var w := SetObservation(a.id, traffic, status, newUpdateTime);
        Execute(w);
        s1 := s0.(writes := s0.writes + [w], traffic := traffic, status := status);
        assert s1.writes[|s0.writes|..] == [w];
      } else {
        s1 := s0;
        assert s1.writes[|s0.writes|..] == [];
      }
    }

    /** Step 3 of `monitor()` for one account whose refreshed usage is over the threshold. */
    method BreakerStep(a: Account, cfg: MonitorConfig, now: int, usagePercent: real, s1: Stage)
      returns (s2: Stage)
      modifies this`rows
      ensures s2 == BreakerStage(a, cfg, now, true, usagePercent, s1)
      ensures rows == ApplyWrites(old(rows), s2.writes[|s1.writes|..])
      ensures |s1.writes| <= |s2.writes| && s2.writes[..|s1.writes|] == s1.writes
    {
      var actions, effects, status := s1.actions, s1.effects, s1.status;
      s2 := s1;
      if cfg.thresholdAction == "stop_and_notify" {
        if status != "Stopped" {
          effects := effects + [ControlInstance(a.id, Stop(cfg.shutdownMode))];
          actions := actions + ["超限关机"];
          var w := SetObservation(a.id, s1.traffic, "Stopping", now);
          Execute(w);
          s2 := s2.(writes := s1.writes + [w]);
          assert s2.writes[|s1.writes|..] == [w];
          status := "Stopping";
        }
      } else {
        actions := actions + ["超限告警"];
      }
      if cfg.warningMail {
        effects := effects + [WarningMail(a.accessKeyId, s1.traffic, usagePercent, Implode(",", actions))];
      }
      s2 := s2.(effects := effects, actions := actions, status := status);
    }

    /** Step 4 of `monitor()` for one account: the keep-alive restart. */
    method KeepAliveStep(a: Account, cfg: MonitorConfig, now: int, hhmm: string, isOverThreshold: bool, s2: Stage)
      returns (s3: Stage, keptAlive: bool)
      modifies this`rows
      ensures keptAlive == KeepAliveDue(a, cfg, now, hhmm, isOverThreshold, s2.status)
      ensures s3 == KeepAliveStage(a, cfg, now, hhmm, isOverThreshold, s2)
      ensures rows == ApplyWrites(old(rows), s3.writes[|s2.writes|..])
      ensures |s2.writes| <= |s3.writes| && s3.writes[..|s2.writes|] == s2.writes
    {
      s3 := s2;
      keptAlive := false;
      assert s3.writes[|s2.writes|..] == [];
      if cfg.keepAlive && a.scheduleEnabled && !isOverThreshold {
        if IsTimeInRange(hhmm, a.startTime, a.stopTime) {
          if s2.status == "Stopped" {
            var lastKeepAlive := a.lastKeepAliveAt;
            if now - lastKeepAlive > KeepAliveCooldown {
              var effects := s2.effects + [ControlInstance(a.id, Start)];
              var actions := s2.actions + ["保活启动"];
              effects := effects + Mail(cfg, a.id, "保活启动");
              var w1 := SetKeepAlive(a.id, now);
              Execute(w1);
              var w2 := SetObservation(a.id, s2.traffic, "Starting", now);
              Execute(w2);
              s3 := s2.(effects := effects, actions := actions, writes := s2.writes + [w1, w2], status := "Starting");
              assert s3.writes[|s2.writes|..] == [w1] + [w2];
              ApplyWritesAppend(old(rows), [w1], [w2]);
              assert ApplyWrites(old(rows), [w1]) == ApplyWrite(old(rows), w1) by {
                assert [w1][..0] == [];
              }
              keptAlive := true;
            }
          }
        }
      }
    }

    /** `monitor()`: the error text after an initialisation error; otherwise one pass over
        the cached snapshot with the settings loaded at start-up. `observe` gives what the
        remote services answer for an account id. The rows end up as the pass's UPDATEs,
        account after account, leave them. */
    method Monitor(now: int, hhmm: string, observe: int -> Observation) returns (r: PassResult)
      requires Valid()
      modifies this`rows
      ensures Valid()
      ensures initError.Some? ==> r == InitFailure("Error: " + initError.value) && rows == old(rows)
      ensures initError.None? ==>
        r == Passed(PassOutcomes(accountsCache, ConfigOf(configCache), now, hhmm, observe))
        && rows == ApplyWrites(old(rows), AllWrites(r.outcomes))
    {
      if initError.Some? {
        return InitFailure("Error: " + initError.value);
      }
      var outs := ReconcileAll(ConfigOf(configCache), now, hhmm, observe);
      return Passed(outs);
    }

    /** The `foreach` over the cached accounts of `monitor()`: one reconciliation per
        account, in order, each applying its own writes. */
    method ReconcileAll(cfg: MonitorConfig, now: int, hhmm: string, observe: int -> Observation)
      returns (outs: seq<Outcome>)
      modifies this`rows
      ensures outs == PassOutcomes(accountsCache, cfg, now, hhmm, observe)
      ensures rows == ApplyWrites(old(rows), AllWrites(outs))
      ensures rows.Keys == old(rows).Keys && (WellKeyed(old(rows)) ==> WellKeyed(rows))
    {
      outs := [];
      var i := 0;
      while i < |accountsCache|
        invariant 0 <= i <= |accountsCache|
        invariant outs == PassOutcomes(accountsCache[..i], cfg, now, hhmm, observe)
        invariant rows == ApplyWrites(old(rows), AllWrites(outs))
      {
        var acc := accountsCache[i];
        var out := ReconcileAccount(acc, cfg, now, hhmm, observe(acc.id));
        PassOutcomesSnoc(accountsCache, i, cfg, now, hhmm, observe);
        AllWritesSnoc(outs, out);
        ApplyWritesAppend(old(rows), AllWrites(outs), out.writes);
        outs := outs + [out];
        i := i + 1;
      }
      assert accountsCache[..i] == accountsCache;
      assert rows.Keys == old(rows).Keys;
    }

    /** `getStatusForFrontend()`: the error after an initialisation error; otherwise one
        entry per cached account, refreshing with the monitor's interval and cache policy
        but never controlling an instance or sending mail. */
    method GetStatusForFrontend(now: int, observe: int -> Observation) returns (r: StatusResult)
      requires Valid()
      modifies this`rows
      ensures Valid()
      ensures initError.Some? ==> r == StatusError(initError.value) && rows == old(rows)
      ensures initError.None? ==>
        r == StatusData(FrontendEntries(accountsCache, ConfigOf(configCache), now, observe))
        && rows == ApplyWrites(old(rows), FrontendWrites(accountsCache, ConfigOf(configCache), now, observe))
    {
      if initError.Some? {
        return StatusError(initError.value);
      }
      var data := StatusAll(ConfigOf(configCache), now, observe);
      return StatusData(data);
    }

    /** The `foreach` over the cached accounts of `getStatusForFrontend()`: one entry per
        account, in order, each account applying its own refresh UPDATE. */
    method StatusAll(cfg: MonitorConfig, now: int, observe: int -> Observation) returns (data: seq<StatusEntry>)
      modifies this`rows
      ensures data == FrontendEntries(accountsCache, cfg, now, observe)
      ensures rows == ApplyWrites(old(rows), FrontendWrites(accountsCache, cfg, now, observe))
      ensures rows.Keys == old(rows).Keys && (WellKeyed(old(rows)) ==> WellKeyed(rows))
    {
      data := [];
      var i := 0;
      assert accountsCache[..0] == [];
      while i < |accountsCache|
        invariant 0 <= i <= |accountsCache|
        invariant data == FrontendEntries(accountsCache[..i], cfg, now, observe)
        invariant rows == ApplyWrites(old(rows), FrontendWrites(accountsCache[..i], cfg, now, observe))
      {
        var a := accountsCache[i];
        var w, entry := StatusOfAccount(a, cfg, now, observe(a.id));
        FrontendSnoc(accountsCache, i, cfg, now, observe);
        ghost var before := FrontendWrites(accountsCache[..i], cfg, now, observe);
        if w.Some? {
          ApplyWritesSnoc(old(rows), before, w.value);
          Execute(w.value);
        } else {
          assert before + [] == before;
        }
        data := data + [entry];
        i := i + 1;
      }
      assert accountsCache[..i] == accountsCache;
    }

    /** One account of `getStatusForFrontend()`: the refresh decision with the monitor's
        interval (no schedule forcing), the queries and the cache policy, and the entry. */
    static method StatusOfAccount(a: Account, cfg: MonitorConfig, now: int, o: Observation)
      returns (w: Option<Write>, entry: StatusEntry)
      ensures (w, entry) == FrontendStep(a, cfg, now, o)
    {
      var lastUpdate := a.updatedAt;
      var newUpdateTime := now;
      var isTransient := a.instanceStatus in ["Starting", "Stopping", "Pending", "Unknown"];
      var checkInterval := if isTransient then BurstInterval else cfg.apiInterval;
      var traffic: real;
      var status: string;
      w := None;
      if now - lastUpdate > checkInterval {
        var newTraffic := o.traffic;
        status := o.firstStatus;
        if status == "Unknown" {
          status := o.retryStatus;
        }
        if newTraffic < 0.0 {
          traffic := a.trafficUsed;
          newUpdateTime := lastUpdate;
        } else {
          traffic := newTraffic;
        }
        if status == "Unknown" {
          newUpdateTime := lastUpdate;
        }
        w := Some(SetObservation(a.id, traffic, status, newUpdateTime));
      } else {
        traffic := a.trafficUsed;
        status := a.instanceStatus;
      }
      var usagePercent := UsagePercent(traffic, a.maxTraffic);
      entry := StatusEntry(a.id, Mask(a.accessKeyId), a.maxTraffic, RoundCents(traffic), usagePercent,
                           a.regionId, usagePercent >= cfg.threshold as real, cfg.threshold, status,
                           if lastUpdate > 0 then lastUpdate else now);
    }
  }

  /** One more account extends the status page's UPDATEs and entries by its own. */
  lemma FrontendSnoc(accounts: seq<Account>, i: int, cfg: MonitorConfig, now: int, observe: int -> Observation)
    requires 0 <= i < |accounts|
    ensures var w := FrontendStep(accounts[i], cfg, now, observe(accounts[i].id)).0;
      FrontendWrites(accounts[..i + 1], cfg, now, observe)
        == FrontendWrites(accounts[..i], cfg, now, observe) + (if w.Some? then [w.value] else [])
    ensures FrontendEntries(accounts[..i + 1], cfg, now, observe)
        == FrontendEntries(accounts[..i], cfg, now, observe) + [FrontendStep(accounts[i], cfg, now, observe(accounts[i].id)).1]
  {
    assert accounts[..i + 1][..i] == accounts[..i];
  }

  /** One more account extends the pass by its own outcome. */
  lemma PassOutcomesSnoc(accounts: seq<Account>, i: int, cfg: MonitorConfig, now: int, hhmm: string,
                         observe: int -> Observation)
    requires 0 <= i < |accounts|
    ensures PassOutcomes(accounts[..i + 1], cfg, now, hhmm, observe)
      == PassOutcomes(accounts[..i], cfg, now, hhmm, observe) + [Step(accounts[i], cfg, now, hhmm, observe(accounts[i].id))]
  {
    assert accounts[..i + 1][..i] == accounts[..i];
  }

  /** One more outcome extends the pass's UPDATEs by its own. */
  lemma AllWritesSnoc(outs: seq<Outcome>, out: Outcome)
    ensures AllWrites(outs + [out]) == AllWrites(outs) + out.writes
  {
    assert (outs + [out])[..|outs|] == outs;
  }

  /** The status page's UPDATEs, account after account. */
  function FrontendWrites(accounts: seq<Account>, cfg: MonitorConfig, now: int, observe: int -> Observation): seq<Write>
    decreases |accounts|
  {
    if accounts == [] then []
    else
      var a := accounts[|accounts| - 1];
      var w := FrontendStep(a, cfg, now, observe(a.id)).0;
      FrontendWrites(accounts[..|accounts| - 1], cfg, now, observe) + (if w.Some? then [w.value] else [])
  }

  /** The status page's entries, one per account in snapshot order. */
  function FrontendEntries(accounts: seq<Account>, cfg: MonitorConfig, now: int, observe: int -> Observation): (es: seq<StatusEntry>)
    ensures |es| == |accounts|
    ensures forall i :: 0 <= i < |accounts| ==> es[i] == FrontendStep(accounts[i], cfg, now, observe(accounts[i].id)).1
    decreases |accounts|
  {
    if accounts == [] then []
    else
      var a := accounts[|accounts| - 1];
      FrontendEntries(accounts[..|accounts| - 1], cfg, now, observe) + [FrontendStep(a, cfg, now, observe(a.id)).1]
  }
}
