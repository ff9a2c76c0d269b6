/** What one pass of the monitor does to one account of the snapshot, as a value: the row
    UPDATEs it issues (in order), the remote control calls and mails it makes, the actions
    it records and the status it reports. The remote services and the clock are inputs:
    `now` is `time()`, `hhmm` is `date('H:i')`, and an `Observation` holds what the traffic
    query and the one or two status queries answered. */
module Reconcile {
  import opened Wrappers
  import opened Php
  import opened Store
  import opened TimeWindow

  /** `KEEP_ALIVE_COOLDOWN`: seconds between two automatic restarts of one account. */
  const KeepAliveCooldown: int := 1800

  /** The adaptive interval used while an account is transient or was just scheduled. */
  const BurstInterval: int := 60

  /** The settings one pass reads, with the defaults of the `??` lookups. */
  datatype MonitorConfig = MonitorConfig(
    threshold: int,
    shutdownMode: string,
    thresholdAction: string,
    keepAlive: bool,
    apiInterval: int,
    scheduleMail: bool,
    warningMail: bool)

  function ConfigOf(settings: map<string, string>): MonitorConfig {
    MonitorConfig(
      IntCast(SettingOr(settings, "traffic_threshold", "95")),
      SettingOr(settings, "shutdown_mode", "KeepCharging"),
      SettingOr(settings, "threshold_action", "stop_and_notify"),
      SettingOr(settings, "keep_alive", "0") == "1",
      IntCast(SettingOr(settings, "api_interval", "600")),
      SettingOr(settings, "enable_schedule_email", "0") == "1",
      !EmptySetting(settings, "notify_email"))
  }

  /** With no settings stored the pass stops at 95 %, keeps charging, stops and notifies,
      does not keep instances alive, refreshes every 600 s and sends no mail. */
  lemma ConfigDefaults()
    ensures ConfigOf(map[]) == MonitorConfig(95, "KeepCharging", "stop_and_notify", false, 600, false, false)
  {
    IntCastRoundTrip(95);
    IntCastRoundTrip(600);
    assert IntToString(95) == "95" && IntToString(600) == "600";
  }

  /** What the remote services answer for one account during one pass: the traffic in GB
      (negative when the query failed), the first status answer, and the answer of the
      single re-query that is made only when the first one is "Unknown". */
  datatype Observation = Observation(traffic: real, firstStatus: string, retryStatus: string)

  datatype Control = Start | Stop(mode: string)

  /** The calls a pass makes besides its row UPDATEs. */
  datatype Effect =
    | ControlInstance(id: int, control: Control)
    | ScheduleMail(id: int, actionType: string)
    | WarningMail(accessKeyId: string, traffic: real, percent: real, statusText: string)

  /** What one account's pass did. `status` is the status the pass reports for the account. */
  datatype Outcome = Outcome(
    writes: seq<Write>,
    effects: seq<Effect>,
    actions: seq<string>,
    status: string,
    refreshed: bool,
    over: bool,
    keptAlive: bool,
    percent: real)

  // ---------------------------------------------------------------------------
  // Usage percent

  /** `round($x, 2)` on an exact value: to the nearest hundredth, halves away from zero. */
  function RoundCents(x: real): real {
    if x >= 0.0 then ((x * 100.0 + 0.5).Floor as real) / 100.0
    else -((((-x) * 100.0 + 0.5).Floor as real) / 100.0)
  }

  lemma RoundCentsClose(x: real)
    ensures -0.005 <= RoundCents(x) - x <= 0.005
  {
  }

  /** `($maxTraffic > 0) ? round(($traffic / $maxTraffic) * 100, 2) : 0`. */
  function UsagePercent(traffic: real, maxTraffic: real): real {
    if maxTraffic > 0.0 then RoundCents(traffic / maxTraffic * 100.0) else 0.0
  }

  /** Comparing the rounded percent with an integer threshold is comparing the exact
      percent with the threshold less half a hundredth (strictly, below zero, where the
      rounding goes away from zero). */
  lemma OverThresholdIff(p: real, threshold: int)
    ensures RoundCents(p) >= threshold as real <==>
      if p >= 0.0 then p >= threshold as real - 0.005 else p > threshold as real - 0.005
  {
    var t := threshold * 100;
    if p >= 0.0 {
      var f := (p * 100.0 + 0.5).Floor;
      assert RoundCents(p) >= threshold as real <==> f >= t;
      assert f >= t <==> p * 100.0 + 0.5 >= t as real;
    } else {
      var f := ((-p) * 100.0 + 0.5).Floor;
      assert RoundCents(p) >= threshold as real <==> -f >= t;
      assert -f >= t <==> (-p) * 100.0 + 0.5 < (1 - t) as real;
    }
  }

  // ---------------------------------------------------------------------------
  // The decisions of one pass

  /** The scheduled start fires on an exact minute match with a non-empty start time. */
  predicate StartFires(a: Account, hhmm: string) {
    a.scheduleEnabled && !Falsy(a.startTime) && hhmm == a.startTime
  }

  predicate StopFires(a: Account, hhmm: string) {
    a.scheduleEnabled && !Falsy(a.stopTime) && hhmm == a.stopTime
  }

  predicate Scheduled(a: Account, hhmm: string) {
    StartFires(a, hhmm) || StopFires(a, hhmm)
  }

  /** A status that is changing or not known. */
  predicate Transient(status: string) {
    status in ["Starting", "Stopping", "Pending", "Unknown"]
  }

  function Interval(a: Account, cfg: MonitorConfig, hhmm: string): int {
    if Transient(a.instanceStatus) || Scheduled(a, hhmm) then BurstInterval else cfg.apiInterval
  }

  /** The remote services are queried when a schedule fired or the cached values are
      older than the interval. */
  predicate ShouldRefresh(a: Account, cfg: MonitorConfig, now: int, hhmm: string) {
    Scheduled(a, hhmm) || now - a.updatedAt > Interval(a, cfg, hhmm)
  }

  /** The status after at most one re-query. */
  function ObservedStatus(o: Observation): string {
    if o.firstStatus == "Unknown" then o.retryStatus else o.firstStatus
  }

  /** A refresh failed when the traffic query failed or the status is still unknown. */
  predicate RefreshFailed(o: Observation) {
    o.traffic < 0.0 || ObservedStatus(o) == "Unknown"
  }

  function RefreshedTraffic(a: Account, o: Observation): real {
    if o.traffic < 0.0 then a.trafficUsed else o.traffic
  }

  function RefreshedTime(a: Account, o: Observation, now: int): int {
    if RefreshFailed(o) then a.updatedAt else now
  }

  /** The keep-alive gate, given whether the account is over its threshold and its status
      after the breaker. */
  predicate KeepAliveDue(a: Account, cfg: MonitorConfig, now: int, hhmm: string, over: bool, status: string) {
    cfg.keepAlive && a.scheduleEnabled && !over
    && IsTimeInRange(hhmm, a.startTime, a.stopTime)
    && status == "Stopped"
    && now - a.lastKeepAliveAt > KeepAliveCooldown
  }

  /** The schedule mail, sent only when schedule mails are enabled. */
  function Mail(cfg: MonitorConfig, id: int, actionType: string): seq<Effect> {
    if cfg.scheduleMail then [ScheduleMail(id, actionType)] else []
  }

  function ScheduleActions(a: Account, cfg: MonitorConfig, hhmm: string): seq<string> {
    (if StartFires(a, hhmm) then ["定时启动"] else [])
    + (if StopFires(a, hhmm) then ["定时停止(" + cfg.shutdownMode + ")"] else [])
  }

  function ScheduleEffects(a: Account, cfg: MonitorConfig, hhmm: string): seq<Effect> {
    (if StartFires(a, hhmm) then [ControlInstance(a.id, Start)] + Mail(cfg, a.id, "定时启动") else [])
    + (if StopFires(a, hhmm) then [ControlInstance(a.id, Stop(cfg.shutdownMode))] + Mail(cfg, a.id, "定时停止") else [])
  }

  /** What the pass has done to one account so far: the UPDATEs issued, the calls made and
      the actions recorded, in order, and the traffic and status it currently holds. */
  datatype Stage = Stage(writes: seq<Write>, effects: seq<Effect>, actions: seq<string>, traffic: real, status: string)

  /** Step 1: the schedule actions; traffic and status are still the cached ones. */
  function ScheduleStage(a: Account, cfg: MonitorConfig, hhmm: string): Stage {
    Stage([], ScheduleEffects(a, cfg, hhmm), ScheduleActions(a, cfg, hhmm), a.trafficUsed, a.instanceStatus)
  }

  /** Step 2: a refresh replaces traffic and status by the observed ones and writes them
      back with the timestamp of the cache policy. */
  function RefreshStage(a: Account, cfg: MonitorConfig, now: int, hhmm: string, o: Observation, s: Stage): Stage {
    if ShouldRefresh(a, cfg, now, hhmm) then
      var traffic := RefreshedTraffic(a, o);
      var status := ObservedStatus(o);
      s.(writes := s.writes + [SetObservation(a.id, traffic, status, RefreshedTime(a, o, now))],
         traffic := traffic, status := status)
    else s
  }

  /** Step 3: the breaker, when it trips (over the threshold on a refreshed pass). */
  function BreakerStage(a: Account, cfg: MonitorConfig, now: int, trips: bool, percent: real, s: Stage): Stage {
    if trips then
      var s1 :=
        if cfg.thresholdAction == "stop_and_notify" then
          if s.status != "Stopped" then
            s.(effects := s.effects + [ControlInstance(a.id, Stop(cfg.shutdownMode))],
               actions := s.actions + ["超限关机"],
               writes := s.writes + [SetObservation(a.id, s.traffic, "Stopping", now)],
               status := "Stopping")
          else s
        else s.(actions := s.actions + ["超限告警"]);
      if cfg.warningMail then
        s1.(effects := s1.effects + [WarningMail(a.accessKeyId, s1.traffic, percent, Implode(",", s1.actions))])
      else s1
    else s
  }

  /** Step 4: the keep-alive restart, when it is due. */
  function KeepAliveStage(a: Account, cfg: MonitorConfig, now: int, hhmm: string, over: bool, s: Stage): Stage {
    if KeepAliveDue(a, cfg, now, hhmm, over, s.status) then
      s.(effects := s.effects + [ControlInstance(a.id, Start)] + Mail(cfg, a.id, "保活启动"),
         actions := s.actions + ["保活启动"],
         writes := s.writes + [SetKeepAlive(a.id, now), SetObservation(a.id, s.traffic, "Starting", now)],
         status := "Starting")
    else s
  }

  /** Step 5: after a schedule action the stored status is forced to the transitional
      one; the status the pass reports is left as it is. */
  function FinalStage(a: Account, now: int, hhmm: string, s: Stage): Stage {
    if Scheduled(a, hhmm) then
      s.(writes := s.writes + [SetObservation(a.id, s.traffic, if "定时启动" in s.actions then "Starting" else "Stopping", now)])
    else s
  }

  /** One account's pass: the five steps in order. */
  function Step(a: Account, cfg: MonitorConfig, now: int, hhmm: string, o: Observation): Outcome {
    Conclude(a, cfg, now, hhmm, ShouldRefresh(a, cfg, now, hhmm), RefreshStage(a, cfg, now, hhmm, o, ScheduleStage(a, cfg, hhmm)))
  }

  /** Steps 3 to 5 of one account's pass, after the refresh decision `refresh` and the
      stage `s1` the refresh left. */
  function Conclude(a: Account, cfg: MonitorConfig, now: int, hhmm: string, refresh: bool, s1: Stage): Outcome {
    var percent := UsagePercent(s1.traffic, a.maxTraffic);
    var over := percent >= cfg.threshold as real;
    var s2 := BreakerStage(a, cfg, now, over && refresh, percent, s1);
    var keep := KeepAliveDue(a, cfg, now, hhmm, over, s2.status);
    var s4 := FinalStage(a, now, hhmm, KeepAliveStage(a, cfg, now, hhmm, over, s2));
    Outcome(s4.writes, s4.effects, s4.actions, s4.status, refresh, over, keep, percent)
  }

  // ---------------------------------------------------------------------------
  // Properties of one account's pass

  /** A schedule action always forces a refresh. */
  lemma ScheduleForcesRefresh(a: Account, cfg: MonitorConfig, now: int, hhmm: string, o: Observation)
    requires Scheduled(a, hhmm)
    ensures Step(a, cfg, now, hhmm, o).refreshed
  {
  }

  /** A pass that neither refreshes nor restarts the instance leaves the row alone and
      makes no call except the schedule ones (which cannot happen without a refresh). */
  lemma QuietPassWritesNothing(a: Account, cfg: MonitorConfig, now: int, hhmm: string, o: Observation)
    ensures var out := Step(a, cfg, now, hhmm, o);
      out.writes == [] <==> !out.refreshed && !out.keptAlive
    ensures var out := Step(a, cfg, now, hhmm, o);
      !out.refreshed && !out.keptAlive ==> out.effects == [] && out.actions == [] && out.status == a.instanceStatus
  {
  }

  /** Without a refresh the breaker does nothing: no stop, no warning, no breaker action. */
  lemma BreakerOnlyOnRefresh(a: Account, cfg: MonitorConfig, now: int, hhmm: string, o: Observation)
    requires !Step(a, cfg, now, hhmm, o).refreshed
    ensures var out := Step(a, cfg, now, hhmm, o);
      "超限关机" !in out.actions && "超限告警" !in out.actions
      && (forall e :: e in out.effects ==> !e.WarningMail? && e != ControlInstance(a.id, Stop(cfg.shutdownMode)))
  {
    var out := Step(a, cfg, now, hhmm, o);
    assert !Scheduled(a, hhmm);
    assert out.actions == [] || out.actions == ["保活启动"];
  }

  /** The breaker on a refreshed pass over the threshold: with `stop_and_notify` it stops a
      running instance, persists "Stopping" with a fresh timestamp and records "超限关机";
      with any other action it records "超限告警"; the warning mail goes out in every
      branch, including an instance that is already stopped. */
  lemma BreakerBranches(a: Account, cfg: MonitorConfig, now: int, hhmm: string, o: Observation)
    requires !Scheduled(a, hhmm)
    requires Step(a, cfg, now, hhmm, o).refreshed && Step(a, cfg, now, hhmm, o).over
    ensures var out := Step(a, cfg, now, hhmm, o);
      cfg.thresholdAction == "stop_and_notify" && ObservedStatus(o) != "Stopped" ==>
        out.actions == ["超限关机"] && out.status == "Stopping"
        && ControlInstance(a.id, Stop(cfg.shutdownMode)) in out.effects
        && RowAfter(a, out.writes).instanceStatus == "Stopping" && RowAfter(a, out.writes).updatedAt == now
    ensures var out := Step(a, cfg, now, hhmm, o);
      cfg.thresholdAction == "stop_and_notify" && ObservedStatus(o) == "Stopped" ==>
        out.actions == [] && out.status == "Stopped"
    ensures var out := Step(a, cfg, now, hhmm, o);
      cfg.thresholdAction != "stop_and_notify" ==> out.actions == ["超限告警"]
    ensures var out := Step(a, cfg, now, hhmm, o);
      cfg.warningMail ==>
        WarningMail(a.accessKeyId, RefreshedTraffic(a, o), out.percent, Implode(",", out.actions)) in out.effects
  {
    var out := Step(a, cfg, now, hhmm, o);
    assert !out.keptAlive;
    if cfg.thresholdAction == "stop_and_notify" && ObservedStatus(o) != "Stopped" {
      assert out.writes == [SetObservation(a.id, RefreshedTraffic(a, o), ObservedStatus(o), RefreshedTime(a, o, now)),
                            SetObservation(a.id, RefreshedTraffic(a, o), "Stopping", now)];
      assert out.writes[..1] == [out.writes[0]];
    }
  }

  /** The cache policy of a refresh: the refresh UPDATE, the first write of the pass, stores
      the new traffic or, when that query failed, the cached one, and moves the timestamp to
      `now` only when both queries succeeded. When the pass takes no further action that
      UPDATE is also the row's final state, so the timestamp never advances on a failure. */
  lemma RefreshCachePolicy(a: Account, cfg: MonitorConfig, now: int, hhmm: string, o: Observation)
    requires Step(a, cfg, now, hhmm, o).refreshed
    ensures var out := Step(a, cfg, now, hhmm, o);
      |out.writes| >= 1 && out.writes[0] == SetObservation(a.id, RefreshedTraffic(a, o), ObservedStatus(o), RefreshedTime(a, o, now))
    ensures RefreshedTime(a, o, now) == (if RefreshFailed(o) then a.updatedAt else now)
    ensures Step(a, cfg, now, hhmm, o).actions == [] ==> var row := RowAfter(a, Step(a, cfg, now, hhmm, o).writes);
      row.trafficUsed == (if o.traffic < 0.0 then a.trafficUsed else o.traffic)
      && row.instanceStatus == ObservedStatus(o)
      && (RefreshFailed(o) ==> row.updatedAt == a.updatedAt)
      && (!RefreshFailed(o) ==> row.updatedAt == now)
      && row.lastKeepAliveAt == a.lastKeepAliveAt
  {
    var s1 := RefreshStage(a, cfg, now, hhmm, o, ScheduleStage(a, cfg, hhmm));
    assert s1.writes == [SetObservation(a.id, RefreshedTraffic(a, o), ObservedStatus(o), RefreshedTime(a, o, now))];
    ConcludeExtendsWrites(a, cfg, now, hhmm, true, s1);
    var out := Step(a, cfg, now, hhmm, o);
    if out.actions == [] {
      assert !Scheduled(a, hhmm) && !out.keptAlive;
      assert |out.writes| == 1;
    }
  }

  /** Steps 3 to 5 only append to the writes of the stage they start from. */
  lemma ConcludeExtendsWrites(a: Account, cfg: MonitorConfig, now: int, hhmm: string, refresh: bool, s1: Stage)
    ensures s1.writes <= Conclude(a, cfg, now, hhmm, refresh, s1).writes
  {
  }

  /** Whatever else happened, a pass that fired a schedule action ends with the row in the
      matching transitional state and a fresh timestamp: "Starting" when the start fired,
      "Stopping" when only the stop did. */
  lemma ScheduleSetsFinalStatus(a: Account, cfg: MonitorConfig, now: int, hhmm: string, o: Observation)
    requires Scheduled(a, hhmm)
    ensures var row := RowAfter(a, Step(a, cfg, now, hhmm, o).writes);
      row.instanceStatus == (if StartFires(a, hhmm) then "Starting" else "Stopping") && row.updatedAt == now
  {
    var out := Step(a, cfg, now, hhmm, o);
    var actions2 := out.actions;
    if StartFires(a, hhmm) {
      assert actions2[0] == "定时启动";
    } else {
      assert "定时启动" !in actions2 by {
        forall i | 0 <= i < |actions2|
          ensures actions2[i] != "定时启动"
        {
          assert actions2[i] in ["定时停止(" + cfg.shutdownMode + ")", "超限关机", "超限告警", "保活启动"];
          assert actions2[i][0] != "定时启动"[0] || actions2[i][1] != "定时启动"[1] || |actions2[i]| != 4;
        }
      }
    }
    var w := out.writes[|out.writes| - 1];
    assert out.writes == out.writes[..|out.writes| - 1] + [w];
  }

  /** A keep-alive restart issues a start, stamps `last_keep_alive_at` and leaves the row
      "Starting" with a fresh timestamp. */
  lemma KeepAliveRestarts(a: Account, cfg: MonitorConfig, now: int, hhmm: string, o: Observation)
    requires Step(a, cfg, now, hhmm, o).keptAlive
    ensures var out := Step(a, cfg, now, hhmm, o);
      var row := RowAfter(a, out.writes);
      ControlInstance(a.id, Start) in out.effects && "保活启动" in out.actions
      && row.lastKeepAliveAt == now && row.instanceStatus == "Starting" && row.updatedAt == now
  {
    var out := Step(a, cfg, now, hhmm, o);
    if StopFires(a, hhmm) && !StartFires(a, hhmm) {
      // the stop minute is never inside the window when the two ends differ
      assert a.startTime != a.stopTime;
      StopMinuteOutsideWindow(a.startTime, a.stopTime);
      assert false;
    }
    if StartFires(a, hhmm) {
      assert out.actions[0] == "定时启动";
    }
    var k := if out.refreshed then 1 else 0;
    assert out.writes[k] == SetKeepAlive(a.id, now);
    LastKeepAliveWins(a, out.writes, k);
  }

  /** The last `last_keep_alive_at` written wins; observation writes do not touch it. */
  lemma LastKeepAliveWins(a: Account, ws: seq<Write>, i: int)
    requires 0 <= i < |ws| && ws[i].SetKeepAlive?
    requires forall j :: i < j < |ws| ==> !ws[j].SetKeepAlive?
    ensures RowAfter(a, ws).lastKeepAliveAt == ws[i].at
  {
    RowAfterAppend(a, ws[..i + 1], ws[i + 1..]);
    assert ws == ws[..i + 1] + ws[i + 1..];
    assert ws[..i + 1] == ws[..i] + [ws[i]];
    KeepAliveUntouched(RowAfter(a, ws[..i + 1]), ws[i + 1..]);
  }

  lemma {:induction false} KeepAliveUntouched(r: Account, ws: seq<Write>)
    requires forall j :: 0 <= j < |ws| ==> !ws[j].SetKeepAlive?
    ensures RowAfter(r, ws).lastKeepAliveAt == r.lastKeepAliveAt
    decreases |ws|
  {
    if ws != [] {
      KeepAliveUntouched(r, ws[..|ws| - 1]);
    }
  }

  /** Two passes over the same account: once the keep-alive restarted it, it cannot restart
      it again within 1800 seconds, whatever the services answer. */
  lemma KeepAliveCooldownHolds(a: Account, cfg: MonitorConfig, now: int, hhmm: string, o: Observation,
                               now2: int, hhmm2: string, o2: Observation)
    requires Step(a, cfg, now, hhmm, o).keptAlive
    requires now2 - now <= KeepAliveCooldown
    ensures !Step(RowAfter(a, Step(a, cfg, now, hhmm, o).writes), cfg, now2, hhmm2, o2).keptAlive
  {
    KeepAliveRestarts(a, cfg, now, hhmm, o);
  }

  /** A refresh whose status stayed "Unknown" and that took no action keeps the old
      timestamp and leaves the account transient, so the next pass re-queries as soon as
      the timestamp is more than 60 seconds old. */
  lemma UnknownStatusRetriedNextPass(a: Account, cfg: MonitorConfig, now: int, hhmm: string, o: Observation,
                                     now2: int, hhmm2: string)
    requires Step(a, cfg, now, hhmm, o).refreshed && Step(a, cfg, now, hhmm, o).actions == []
    requires ObservedStatus(o) == "Unknown"
    requires now2 - a.updatedAt > BurstInterval
    ensures ShouldRefresh(RowAfter(a, Step(a, cfg, now, hhmm, o).writes), cfg, now2, hhmm2)
  {
    RefreshCachePolicy(a, cfg, now, hhmm, o);
  }

  /** The "Stopping" the breaker persists is provisional: it makes the next pass re-query
      as soon as a minute has passed, and that refresh stores what the service reports. */
  lemma ProvisionalStoppingRechecked(a: Account, cfg: MonitorConfig, now: int, hhmm: string, o: Observation,
                                     now2: int, hhmm2: string, o2: Observation)
    requires !Scheduled(a, hhmm)
    requires Step(a, cfg, now, hhmm, o).refreshed && Step(a, cfg, now, hhmm, o).over
    requires cfg.thresholdAction == "stop_and_notify" && ObservedStatus(o) != "Stopped"
    requires now2 - now > BurstInterval
    ensures var row := RowAfter(a, Step(a, cfg, now, hhmm, o).writes);
      var out2 := Step(row, cfg, now2, hhmm2, o2);
      out2.refreshed && out2.writes[0] == SetObservation(a.id, RefreshedTraffic(row, o2), ObservedStatus(o2), RefreshedTime(row, o2, now2))
  {
    BreakerBranches(a, cfg, now, hhmm, o);
  }

  /** A worked pass: a running account at 96 of 100 GB with the default 95 % threshold and
      `stop_and_notify` is stopped, marked "Stopping" and one warning mail goes out. */
  lemma ScenarioOverThresholdStops(a: Account, cfg: MonitorConfig, now: int, hhmm: string)
    requires !a.scheduleEnabled && a.maxTraffic == 100.0 && a.instanceStatus == "Running"
    requires now - a.updatedAt > cfg.apiInterval
    requires cfg.threshold == 95 && cfg.thresholdAction == "stop_and_notify" && cfg.warningMail
    ensures var out := Step(a, cfg, now, hhmm, Observation(96.0, "Running", "Running"));
      out.actions == ["超限关机"] && out.status == "Stopping" && out.percent == 96.0
      && out.effects == [ControlInstance(a.id, Stop(cfg.shutdownMode)),
                         WarningMail(a.accessKeyId, 96.0, 96.0, "超限关机")]
  {
    var o := Observation(96.0, "Running", "Running");
    assert (96.0 / 100.0 * 100.0 * 100.0 + 0.5).Floor == 9600;
    assert !Transient("Running");
    assert Implode(",", ["超限关机"]) == "超限关机";
  }

  /** A worked pass where the traffic query fails while the cached 96 of 100 GB is over a
      95% threshold: the refresh UPDATE keeps the old timestamp, but the breaker's own UPDATE
      stamps the row with `now`, so its final `updated_at` advances despite the failure. */
  lemma ScenarioFailedFetchOverThreshold(a: Account, cfg: MonitorConfig, now: int, hhmm: string)
    requires !a.scheduleEnabled && a.maxTraffic == 100.0 && a.trafficUsed == 96.0
    requires a.instanceStatus == "Running" && now - a.updatedAt > cfg.apiInterval
    requires cfg.threshold == 95 && cfg.thresholdAction == "stop_and_notify"
    ensures var out := Step(a, cfg, now, hhmm, Observation(-1.0, "Running", "Running"));
      out.writes[0] == SetObservation(a.id, 96.0, "Running", a.updatedAt)
      && RowAfter(a, out.writes).updatedAt == now && RowAfter(a, out.writes).instanceStatus == "Stopping"
  {
    var o := Observation(-1.0, "Running", "Running");
    assert (96.0 / 100.0 * 100.0 * 100.0 + 0.5).Floor == 9600;
    assert !Transient("Running");
    BreakerBranches(a, cfg, now, hhmm, o);
    RefreshCachePolicy(a, cfg, now, hhmm, o);
  }

  /** A worked pass: an account cached as "Starting" thirty seconds ago is not re-queried
      yet, and one cached ninety seconds ago is, whatever the configured interval. */
  lemma ScenarioTransientBurst(a: Account, cfg: MonitorConfig, now: int, hhmm: string, o: Observation)
    requires !a.scheduleEnabled && a.instanceStatus == "Starting"
    ensures now - a.updatedAt == 30 ==> !Step(a, cfg, now, hhmm, o).refreshed
    ensures now - a.updatedAt == 90 ==> Step(a, cfg, now, hhmm, o).refreshed
  {
  }

  // ---------------------------------------------------------------------------
  // A whole pass over the snapshot

  /** The outcome of each account of the snapshot, in snapshot order. `observe` gives
      what the services answer for an account id. */
  function PassOutcomes(accounts: seq<Account>, cfg: MonitorConfig, now: int, hhmm: string,
                        observe: int -> Observation): (outs: seq<Outcome>)
    ensures |outs| == |accounts|
    ensures forall i :: 0 <= i < |accounts| ==>
      outs[i] == Step(accounts[i], cfg, now, hhmm, observe(accounts[i].id))
    decreases |accounts|
  {
    if accounts == [] then []
    else
      var n := |accounts| - 1;
      PassOutcomes(accounts[..n], cfg, now, hhmm, observe) + [Step(accounts[n], cfg, now, hhmm, observe(accounts[n].id))]
  }

  /** All UPDATEs of a pass, account after account. */
  function AllWrites(outs: seq<Outcome>): seq<Write>
    decreases |outs|
  {
    if outs == [] then [] else AllWrites(outs[..|outs| - 1]) + outs[|outs| - 1].writes
  }

  /** All calls of a pass, account after account. */
  function AllEffects(outs: seq<Outcome>): seq<Effect>
    decreases |outs|
  {
    if outs == [] then [] else AllEffects(outs[..|outs| - 1]) + outs[|outs| - 1].effects
  }

  /** Every UPDATE an account's pass issues targets that account's row. */
  lemma StepWritesOwnRow(a: Account, cfg: MonitorConfig, now: int, hhmm: string, o: Observation)
    ensures forall j :: 0 <= j < |Step(a, cfg, now, hhmm, o).writes| ==> Step(a, cfg, now, hhmm, o).writes[j].id == a.id
  {
  }

  /** Accounts do not interfere: when the snapshot's ids are distinct, the pass leaves each
      of its rows as that account's own writes leave it and every other row unchanged. */
  lemma PassIsPerAccount(t: Table, accounts: seq<Account>, cfg: MonitorConfig, now: int,
                         hhmm: string, observe: int -> Observation, k: int)
    requires forall i, j :: 0 <= i < j < |accounts| ==> accounts[i].id != accounts[j].id
    requires k in t
    ensures var outs := PassOutcomes(accounts, cfg, now, hhmm, observe);
      (forall i :: 0 <= i < |accounts| ==> accounts[i].id != k) ==> ApplyWrites(t, AllWrites(outs))[k] == t[k]
    ensures var outs := PassOutcomes(accounts, cfg, now, hhmm, observe);
      forall i :: 0 <= i < |accounts| && accounts[i].id == k ==>
        ApplyWrites(t, AllWrites(outs))[k] == RowAfter(t[k], outs[i].writes)
  {
    var outs := PassOutcomes(accounts, cfg, now, hhmm, observe);
    var ids := seq(|accounts|, i requires 0 <= i < |accounts| => accounts[i].id);
    forall i, j | 0 <= i < |outs| && 0 <= j < |outs[i].writes|
      ensures outs[i].writes[j].id == ids[i]
    {
      StepWritesOwnRow(accounts[i], cfg, now, hhmm, observe(accounts[i].id));
    }
    WritesPerRow(t, outs, ids, k);
  }

  /** Outcomes each writing only their own row, rows named by distinct ids. */
  lemma {:induction false} WritesPerRow(t: Table, outs: seq<Outcome>, ids: seq<int>, k: int)
    requires |ids| == |outs|
    requires forall i, j :: 0 <= i < j < |ids| ==> ids[i] != ids[j]
    requires forall i, j :: 0 <= i < |outs| && 0 <= j < |outs[i].writes| ==> outs[i].writes[j].id == ids[i]
    requires k in t
    ensures k !in ids ==> ApplyWrites(t, AllWrites(outs))[k] == t[k]
    ensures forall i :: 0 <= i < |ids| && ids[i] == k ==> ApplyWrites(t, AllWrites(outs))[k] == RowAfter(t[k], outs[i].writes)
    decreases |outs|
  {
    if outs != [] {
      var n := |outs| - 1;
      var prev := outs[..n];
      assert AllWrites(outs) == AllWrites(prev) + outs[n].writes;
      WritesPerRow(t, prev, ids[..n], k);
      ApplyWritesAppend(t, AllWrites(prev), outs[n].writes);
      var mid := ApplyWrites(t, AllWrites(prev));
      ApplyWritesToOneRow(mid, outs[n].writes, ids[n]);
      if ids[n] == k {
        assert k !in ids[..n];
      }
      forall i | 0 <= i < |ids| && ids[i] == k
        ensures ApplyWrites(t, AllWrites(outs))[k] == RowAfter(t[k], outs[i].writes)
      {
        if i < n {
          assert ids[..n][i] == k && prev[i] == outs[i];
          assert mid[k] == RowAfter(t[k], outs[i].writes);
          assert ids[n] != k;
        } else {
          assert mid[k] == t[k];
        }
      }
    }
  }

  // ---------------------------------------------------------------------------
  // The read-only status page

  /** One entry of the status page's data. */
  datatype StatusEntry = StatusEntry(
    id: int,
    account: string,
    flowTotal: real,
    flowUsed: real,
    percentageOfUse: real,
    region: string,
    rate95: bool,
    threshold: int,
    instanceStatus: string,
    lastUpdated: int)

  /** The status page's handling of one account: the same interval and cache policy as the
      monitor (no schedule, so no forced refresh), at most the one refresh UPDATE, and no
      control call or mail at all. */
  function FrontendStep(a: Account, cfg: MonitorConfig, now: int, o: Observation): (Option<Write>, StatusEntry)
  {
    var interval := if Transient(a.instanceStatus) then BurstInterval else cfg.apiInterval;
    var refresh := now - a.updatedAt > interval;
    var traffic := if refresh then RefreshedTraffic(a, o) else a.trafficUsed;
    var status := if refresh then ObservedStatus(o) else a.instanceStatus;
    var percent := UsagePercent(traffic, a.maxTraffic);
    (if refresh then Some(SetObservation(a.id, traffic, status, RefreshedTime(a, o, now))) else None,
     StatusEntry(a.id, Mask(a.accessKeyId), a.maxTraffic, RoundCents(traffic), percent, a.regionId,
                 percent >= cfg.threshold as real, cfg.threshold, status,
                 if a.updatedAt > 0 then a.updatedAt else now))
  }

  /** The status page and the monitor agree: on an account no schedule fires for, the
      status page refreshes exactly when the monitor would, writes the same refresh UPDATE,
      and reports the same percent and over-threshold flag. */
  lemma FrontendMatchesMonitor(a: Account, cfg: MonitorConfig, now: int, hhmm: string, o: Observation)
    requires !Scheduled(a, hhmm)
    ensures var (w, e) := FrontendStep(a, cfg, now, o);
      var out := Step(a, cfg, now, hhmm, o);
      w.Some? == out.refreshed
      && (w.Some? ==> out.writes[0] == w.value)
      && e.percentageOfUse == out.percent && e.rate95 == out.over
      && (!out.keptAlive && !(out.over && out.refreshed && cfg.thresholdAction == "stop_and_notify") ==> e.instanceStatus == out.status)
  {
  }
}
