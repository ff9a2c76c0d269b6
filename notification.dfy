/** The notification service: the schedule and traffic-warning messages, the fan-out of
    one message to e-mail, Telegram and a webhook, and the merging of the channels'
    answers into one result. The transports themselves (SMTP, curl) are oracles: the
    mailer's answer and what curl reports are parameters. */
module Notification {
  import opened Wrappers
  import opened Php

  /** What a sender returns: PHP `true`, or a text (an error, or a partial completion). */
  datatype Outcome = Success | Failure(message: string)

  /** What curl reports for one request: `curl_error`, the HTTP status and the body. */
  datatype Transfer = Transfer(error: string, httpCode: int, body: string)

  /** One row of a message's detail table (`['label' => ..., 'value' => ...]`). */
  datatype Detail = Detail(name: string, value: string)

  const TelegramMissing := "Telegram Token 或 Chat ID 为空"
  const WebhookMissing := "Webhook URL为空"
  const TrafficLabel := "当前流量"
  const ThresholdLabel := "设定阈值"

  /** `$override[$key] ?? $this->config[$configKey] ?? $default`; a `null` override is the
      empty map. */
  function Lookup(override: map<string, string>, key: string, config: map<string, string>,
                  configKey: string, default: string): string {
    if key in override then override[key] else SettingOr(config, configKey, default)
  }

  function HttpError(t: Transfer): string {
    "HTTP Error " + IntToString(t.httpCode) + ": " + t.body
  }

  /** The end of `sendTelegram`: a curl error first, then any status other than 200. */
  function TelegramVerdict(t: Transfer): (r: Outcome)
    ensures r.Success? <==> Falsy(t.error) && t.httpCode == 200
  {
    if !Falsy(t.error) then Failure("Curl Error: " + t.error)
    else if t.httpCode != 200 then Failure(HttpError(t))
    else Success
  }

  /** The end of `sendWebhook`: a curl error first, then any status of 400 or more. */
  function WebhookVerdict(t: Transfer): (r: Outcome)
    ensures r.Success? <==> Falsy(t.error) && t.httpCode < 400
  {
    if !Falsy(t.error) then Failure("Curl Error: " + t.error)
    else if t.httpCode >= 400 then Failure(HttpError(t))
    else Success
  }

  /** The two senders judge the same answer differently only on a 2xx/3xx status other
      than 200: the webhook accepts it, Telegram does not. */
  lemma VerdictsDiffer(t: Transfer)
    ensures TelegramVerdict(t).Success? ==> WebhookVerdict(t).Success?
    ensures WebhookVerdict(t).Success? && !TelegramVerdict(t).Success? <==>
      Falsy(t.error) && t.httpCode < 400 && t.httpCode != 200
    ensures !Falsy(t.error) ==> TelegramVerdict(t) == WebhookVerdict(t) == Failure("Curl Error: " + t.error)
  {
  }

  // ---------------------------------------------------------------------------
  // Webhook placeholders

  /** The value of the last detail row with the given label. */
  function LastValue(details: seq<Detail>, name: string): (v: Option<string>)
    ensures v.Some? <==> exists i :: 0 <= i < |details| && details[i].name == name
    decreases |details|
  {
    if details == [] then None
    else if details[|details| - 1].name == name then Some(details[|details| - 1].value)
    else LastValue(details[..|details| - 1], name)
  }

  /** `#TRAFFIC#`: the traffic detail without " GB", or "N/A". */
  function TrafficVar(details: seq<Detail>): string {
    match LastValue(details, TrafficLabel)
    case Some(v) => RemoveAll(v, " GB")
    case None => "N/A"
  }

  /** `#MAX_TRAFFIC#`: the threshold detail without "%", or "N/A". */
  function MaxTrafficVar(details: seq<Detail>): string {
    match LastValue(details, ThresholdLabel)
    case Some(v) => RemoveAll(v, "%")
    case None => "N/A"
  }

  /** `$replacePairs`: the placeholders a webhook URL or body template may use. */
  function ReplacePairs(title: string, text: string, accountId: string, details: seq<Detail>): (pairs: seq<(string, string)>)
    ensures |pairs| == 5
    ensures forall i, j :: 0 <= i < j < |pairs| ==> pairs[i].0 != pairs[j].0
  {
    [("#TITLE#", title), ("#MSG#", text), ("#ACCOUNT#", accountId),
     ("#TRAFFIC#", TrafficVar(details)), ("#MAX_TRAFFIC#", MaxTrafficVar(details))]
  }

  /** The value that last matched a label is the last row carrying it. */
  lemma {:induction false} LastValueIsLast(details: seq<Detail>, name: string, i: int)
    requires 0 <= i < |details| && details[i].name == name
    requires forall j :: i < j < |details| ==> details[j].name != name
    ensures LastValue(details, name) == Some(details[i].value)
    decreases |details|
  {
    if i < |details| - 1 {
      LastValueIsLast(details[..|details| - 1], name, i);
    }
  }

  // ---------------------------------------------------------------------------
  // The messages

  const DefaultDescription := "根据预设时间表自动执行。"

  function ScheduleTitle(actionType: string): string {
    "定时任务: " + actionType
  }

  /** The detail table of `notifySchedule`; `stamp` is `date('Y-m-d H:i:s')`. */
  function ScheduleDetails(actionType: string, accessKeyId: string, description: string, stamp: string): seq<Detail> {
    [Detail("账号 ID", Mask(accessKeyId)), Detail("执行动作", actionType), Detail("执行时间", stamp),
     Detail("详情说明", if Falsy(description) then DefaultDescription else description)]
  }

  function ScheduleText(actionType: string, accessKeyId: string, description: string, stamp: string): string {
    "【CDT Monitor】" + ScheduleTitle(actionType) + "\n"
    + "账号 ID: " + Mask(accessKeyId) + "\n"
    + "执行动作: " + actionType + "\n"
    + "执行时间: " + stamp + "\n"
    + "详情说明: " + (if Falsy(description) then DefaultDescription else description)
  }

  function WarningTitle(statusText: string): string {
    "流量告警 - " + statusText
  }

  /** The detail table of `sendTrafficWarning`; the numbers arrive already formatted. */
  function WarningDetails(accessKeyId: string, traffic: string, percentage: string, statusText: string, threshold: string): seq<Detail> {
    [Detail("账号 ID", Mask(accessKeyId)), Detail(TrafficLabel, traffic + " GB"),
     Detail("使用率", percentage + "%"), Detail(ThresholdLabel, threshold + "%"), Detail("当前状态", statusText)]
  }

  function WarningText(accessKeyId: string, traffic: string, percentage: string, statusText: string, threshold: string): string {
    "【CDT Monitor】" + WarningTitle(statusText) + "\n"
    + "账号 ID: " + Mask(accessKeyId) + "\n"
    + "当前流量: " + traffic + " GB\n"
    + "使用率: " + percentage + "%\n"
    + "设定阈值: " + threshold + "%\n"
    + "当前状态: " + statusText
  }

  /** A traffic warning hands the webhook back the traffic and threshold it was given, as
      long as neither contains the first character of the unit that was appended. */
  lemma WarningPlaceholdersRoundTrip(accessKeyId: string, traffic: string, percentage: string, statusText: string, threshold: string)
    requires forall i :: 0 <= i < |traffic| ==> traffic[i] != ' '
    requires forall i :: 0 <= i < |threshold| ==> threshold[i] != '%'
    ensures var details := WarningDetails(accessKeyId, traffic, percentage, statusText, threshold);
      TrafficVar(details) == traffic && MaxTrafficVar(details) == threshold
  {
    var details := WarningDetails(accessKeyId, traffic, percentage, statusText, threshold);
    LastValueIsLast(details, TrafficLabel, 1);
    LastValueIsLast(details, ThresholdLabel, 3);
    RemoveAllSuffix(traffic, " GB");
    RemoveAllSuffix(threshold, "%");
  }

  /** A schedule message carries neither label, so both placeholders are "N/A". */
  lemma SchedulePlaceholdersDefault(actionType: string, accessKeyId: string, description: string, stamp: string)
    ensures var details := ScheduleDetails(actionType, accessKeyId, description, stamp);
      TrafficVar(details) == "N/A" && MaxTrafficVar(details) == "N/A"
  {
    var details := ScheduleDetails(actionType, accessKeyId, description, stamp);
    assert TrafficLabel != "账号 ID" && TrafficLabel != "执行动作" && TrafficLabel != "执行时间" && TrafficLabel != "详情说明";
    assert ThresholdLabel != "账号 ID" && ThresholdLabel != "执行动作" && ThresholdLabel != "执行时间" && ThresholdLabel != "详情说明";
  }

  // ---------------------------------------------------------------------------
  // Aggregation of the channels' answers

  /** Which channels `dispatchNotifications` tries for a configuration. */
  predicate EmailOn(config: map<string, string>) {
    SettingOr(config, "notify_email_enabled", "1") == "1" && !EmptySetting(config, "notify_email")
  }

  predicate TelegramOn(config: map<string, string>) {
    SettingOr(config, "notify_tg_enabled", "0") == "1"
    && !EmptySetting(config, "notify_tg_token") && !EmptySetting(config, "notify_tg_chat_id")
  }

  predicate WebhookOn(config: map<string, string>) {
    SettingOr(config, "notify_wh_enabled", "0") == "1" && !EmptySetting(config, "notify_wh_url")
  }

  /** The error entries of a run of attempts, each with its channel prefix, in order. */
  function Errors(attempts: seq<(string, Outcome)>): (errors: seq<string>)
    ensures |errors| <= |attempts|
    ensures |errors| == 0 <==> forall i :: 0 <= i < |attempts| ==> attempts[i].1.Success?
    decreases |attempts|
  {
    if attempts == [] then []
    else
      var last := attempts[|attempts| - 1];
      Errors(attempts[..|attempts| - 1]) + if last.1.Failure? then [last.0 + last.1.message] else []
  }

  /** How many attempts succeeded. */
  function Successes(attempts: seq<(string, Outcome)>): (n: nat)
    ensures n + |Errors(attempts)| == |attempts|
    ensures n == 0 <==> forall i :: 0 <= i < |attempts| ==> attempts[i].1.Failure?
    decreases |attempts|
  {
    if attempts == [] then 0
    else Successes(attempts[..|attempts| - 1]) + if attempts[|attempts| - 1].1.Success? then 1 else 0
  }

  /** The result of `dispatchNotifications` for a run of attempts. */
  function Aggregate(attempts: seq<(string, Outcome)>): Outcome {
    var errors := Errors(attempts);
    if |attempts| == 0 then Success
    else if Successes(attempts) == 0 && |errors| > 0 then Failure(Implode(" | ", errors))
    else if |errors| > 0 then Failure("部分完成: " + Implode(" | ", errors))
    else Success
  }

  /** The channels tried, in the order email, Telegram, webhook, each with its answer. The
      answers do not decide which channels are tried: a failure never skips a later one. */
  function Attempts(config: map<string, string>, mail: Outcome, tg: Transfer, wh: Transfer): seq<(string, Outcome)> {
    EmailPart(config, mail) + TelegramPart(config, tg) + WebhookPart(config, wh)
  }

  function EmailPart(config: map<string, string>, mail: Outcome): seq<(string, Outcome)> {
    if EmailOn(config) then [("Email: ", mail)] else []
  }

  function TelegramPart(config: map<string, string>, tg: Transfer): seq<(string, Outcome)> {
    if TelegramOn(config) then [("TG: ", TelegramVerdict(tg))] else []
  }

  function WebhookPart(config: map<string, string>, wh: Transfer): seq<(string, Outcome)> {
    if WebhookOn(config) then [("WH: ", WebhookVerdict(wh))] else []
  }

  function Channels(attempts: seq<(string, Outcome)>): (names: seq<string>)
    ensures |names| == |attempts|
    ensures forall i :: 0 <= i < |attempts| ==> names[i] == attempts[i].0
  {
    seq(|attempts|, i requires 0 <= i < |attempts| => attempts[i].0)
  }

  /** Every enabled channel is tried whatever the others answer, in a fixed order. */
  lemma AttemptsIndependentOfAnswers(config: map<string, string>, mail: Outcome, tg: Transfer, wh: Transfer,
                                     mail': Outcome, tg': Transfer, wh': Transfer)
    ensures Channels(Attempts(config, mail, tg, wh)) == Channels(Attempts(config, mail', tg', wh'))
    ensures Channels(Attempts(config, mail, tg, wh))
      == (if EmailOn(config) then ["Email: "] else []) + (if TelegramOn(config) then ["TG: "] else [])
         + (if WebhookOn(config) then ["WH: "] else [])
  {
  }

  /** No channel enabled: the dispatch reports success without sending anything. */
  lemma NothingEnabledIsSuccess(config: map<string, string>, mail: Outcome, tg: Transfer, wh: Transfer)
    requires !EmailOn(config) && !TelegramOn(config) && !WebhookOn(config)
    ensures Attempts(config, mail, tg, wh) == []
    ensures Aggregate(Attempts(config, mail, tg, wh)) == Success
  {
  }

  /** The result is `true` exactly when every attempted channel answered `true`. */
  lemma AggregateSuccessIff(attempts: seq<(string, Outcome)>)
    ensures Aggregate(attempts) == Success <==> forall i :: 0 <= i < |attempts| ==> attempts[i].1.Success?
  {
  }

  /** Every channel failed: the errors alone, one per attempt with its prefix, joined by " | ". */
  lemma {:induction false} AggregateAllFailed(attempts: seq<(string, Outcome)>)
    requires |attempts| > 0
    requires forall i :: 0 <= i < |attempts| ==> attempts[i].1.Failure?
    ensures Aggregate(attempts) == Failure(Implode(" | ", Errors(attempts)))
    ensures Errors(attempts) == seq(|attempts|, i requires 0 <= i < |attempts| => attempts[i].0 + attempts[i].1.message)
    decreases |attempts|
  {
    if |attempts| > 1 {
      AggregateAllFailed(attempts[..|attempts| - 1]);
    }
  }

  /** Some channel succeeded and some failed: the joined errors after "部分完成: ". */
  lemma AggregatePartial(attempts: seq<(string, Outcome)>, ok: int, bad: int)
    requires 0 <= ok < |attempts| && attempts[ok].1.Success?
    requires 0 <= bad < |attempts| && attempts[bad].1.Failure?
    ensures Aggregate(attempts) == Failure("部分完成: " + Implode(" | ", Errors(attempts)))
  {
  }

  /** The notification service; `config` is what `setConfig` was given. */
  class NotificationService {
    var config: map<string, string>

    constructor ()
      ensures config == map[]
    {
      config := map[];
    }

    /** `setConfig($config)`. */
    method SetConfig(c: map<string, string>)
      modifies this
      ensures config == c
    {
      config := c;
    }

    /** `sendTelegram($text, $override)`: an empty token or chat id is refused before any
        request; otherwise `t` is what the request reported. */
    function SendTelegram(text: string, override: map<string, string>, t: Transfer): (r: Outcome)
      reads this
      ensures var token := Lookup(override, "token", config, "notify_tg_token", "");
        var chatId := Lookup(override, "chat_id", config, "notify_tg_chat_id", "");
        (Falsy(token) || Falsy(chatId) ==> r == Failure(TelegramMissing))
        && (r.Success? <==> !Falsy(token) && !Falsy(chatId) && Falsy(t.error) && t.httpCode == 200)
    {
      var token := Lookup(override, "token", config, "notify_tg_token", "");
      var chatId := Lookup(override, "chat_id", config, "notify_tg_chat_id", "");
      if Falsy(token) || Falsy(chatId) then Failure(TelegramMissing)
      else TelegramVerdict(t)
    }

    /** `sendWebhook(...)`: an empty URL is refused before any request; otherwise the
        placeholders are read from the details (the last matching row winning) and `t` is
        what the request reported. `pairs` are the placeholders the request was built with. */
    method SendWebhook(text: string, title: string, details: seq<Detail>, accountId: string,
                       override: map<string, string>, t: Transfer)
      returns (r: Outcome, pairs: seq<(string, string)>)
      ensures var url := Lookup(override, "url", config, "notify_wh_url", "");
        (Falsy(url) ==> r == Failure(WebhookMissing) && pairs == [])
        && (!Falsy(url) ==> pairs == ReplacePairs(title, text, accountId, details) && r == WebhookVerdict(t))
        && (r.Success? <==> !Falsy(url) && Falsy(t.error) && t.httpCode < 400)
    {
      var url := Lookup(override, "url", config, "notify_wh_url", "");
      if Falsy(url) {
        return Failure(WebhookMissing), [];
      }
      var traffic := "N/A";
      var maxTraffic := "N/A";
      var i := 0;
      while i < |details|
        invariant 0 <= i <= |details|
        invariant traffic == TrafficVar(details[..i])
        invariant maxTraffic == MaxTrafficVar(details[..i])
      {
        assert details[..i + 1][..i] == details[..i];
        if details[i].name == TrafficLabel {
          traffic := RemoveAll(details[i].value, " GB");
        }
        if details[i].name == ThresholdLabel {
          maxTraffic := RemoveAll(details[i].value, "%");
        }
        i := i + 1;
      }
      assert details[..i] == details;
      pairs := [("#TITLE#", title), ("#MSG#", text), ("#ACCOUNT#", accountId),
                ("#TRAFFIC#", traffic), ("#MAX_TRAFFIC#", maxTraffic)];
      if !Falsy(t.error) {
        return Failure("Curl Error: " + t.error), pairs;
      }
      if t.httpCode >= 400 {
        return Failure(HttpError(t)), pairs;
      }
      return Success, pairs;
    }

    /** `dispatchNotifications(...)`: every enabled channel is tried, email, Telegram,
        webhook, whatever the earlier ones answered; then no attempt is `true`, only
        failures give the joined errors, some failures give the partial-completion text, and
        no failure is `true`. `mail` is the mailer's answer, `tg` and `wh` what curl reported. */
    method DispatchNotifications(title: string, details: seq<Detail>, textMsg: string, accountId: string,
                                 mail: Outcome, tg: Transfer, wh: Transfer)
      returns (r: Outcome, webhookPairs: seq<(string, string)>)
      ensures r == Aggregate(Attempts(config, mail, tg, wh))
      ensures WebhookOn(config) ==> webhookPairs == ReplacePairs(title, textMsg, accountId, details)
      ensures !WebhookOn(config) ==> webhookPairs == []
    {
      var errors: seq<string> := [];
      var successCount: nat := 0;
      var attemptCount: nat := 0;
      errors, successCount, attemptCount := TryEmail(mail, [], errors, successCount, attemptCount);
      ghost var attempts := EmailPart(config, mail);
      errors, successCount, attemptCount := TryTelegram(textMsg, tg, attempts, errors, successCount, attemptCount);
      attempts := attempts + TelegramPart(config, tg);
      errors, successCount, attemptCount, webhookPairs :=
        TryWebhook(title, details, textMsg, accountId, wh, attempts, errors, successCount, attemptCount);
      attempts := attempts + WebhookPart(config, wh);
      assert attempts == Attempts(config, mail, tg, wh);

      if attemptCount == 0 {
        return Success, webhookPairs;
      }
      if successCount == 0 && |errors| > 0 {
        return Failure(Implode(" | ", errors)), webhookPairs;
      } else if |errors| > 0 {
        return Failure("部分完成: " + Implode(" | ", errors)), webhookPairs;
      }
      return Success, webhookPairs;
    }

    /** The e-mail block of `dispatchNotifications`; `attempts` are the attempts before it,
        which the counters describe. */
    method TryEmail(mail: Outcome, ghost attempts: seq<(string, Outcome)>,
                    errors: seq<string>, successCount: nat, attemptCount: nat)
      returns (errors': seq<string>, successCount': nat, attemptCount': nat)
      requires errors == Errors(attempts) && successCount == Successes(attempts) && attemptCount == |attempts|
      ensures errors' == Errors(attempts + EmailPart(config, mail))
      ensures successCount' == Successes(attempts + EmailPart(config, mail))
      ensures attemptCount' == |attempts + EmailPart(config, mail)|
    {
      errors', successCount', attemptCount' := errors, successCount, attemptCount;
      if EmailOn(config) {
        attemptCount' := attemptCount + 1;
        var res := mail;
        CountOneMore(attempts, "Email: ", res);
        errors', successCount' := Tally(errors, successCount, "Email: ", res);
      } else {
        assert attempts + [] == attempts;
      }
    }

    /** The Telegram block of `dispatchNotifications`. */
    method TryTelegram(textMsg: string, tg: Transfer, ghost attempts: seq<(string, Outcome)>,
                       errors: seq<string>, successCount: nat, attemptCount: nat)
      returns (errors': seq<string>, successCount': nat, attemptCount': nat)
      requires errors == Errors(attempts) && successCount == Successes(attempts) && attemptCount == |attempts|
      ensures errors' == Errors(attempts + TelegramPart(config, tg))
      ensures successCount' == Successes(attempts + TelegramPart(config, tg))
      ensures attemptCount' == |attempts + TelegramPart(config, tg)|
    {
      errors', successCount', attemptCount' := errors, successCount, attemptCount;
      if TelegramOn(config) {
        attemptCount' := attemptCount + 1;
        var res := SendTelegram(textMsg, map[], tg);
        CountOneMore(attempts, "TG: ", res);
        errors', successCount' := Tally(errors, successCount, "TG: ", res);
      } else {
        assert attempts + [] == attempts;
      }
    }

    /** The webhook block of `dispatchNotifications`. */
    method TryWebhook(title: string, details: seq<Detail>, textMsg: string, accountId: string, wh: Transfer,
                      ghost attempts: seq<(string, Outcome)>,
                      errors: seq<string>, successCount: nat, attemptCount: nat)
      returns (errors': seq<string>, successCount': nat, attemptCount': nat, webhookPairs: seq<(string, string)>)
      requires errors == Errors(attempts) && successCount == Successes(attempts) && attemptCount == |attempts|
      ensures errors' == Errors(attempts + WebhookPart(config, wh))
      ensures successCount' == Successes(attempts + WebhookPart(config, wh))
      ensures attemptCount' == |attempts + WebhookPart(config, wh)|
      ensures WebhookOn(config) ==> webhookPairs == ReplacePairs(title, textMsg, accountId, details)
      ensures !WebhookOn(config) ==> webhookPairs == []
    {
      errors', successCount', attemptCount' := errors, successCount, attemptCount;
      webhookPairs := [];
      if WebhookOn(config) {
        attemptCount' := attemptCount + 1;
        var res;
        res, webhookPairs := SendWebhook(textMsg, title, details, accountId, map[], wh);
        CountOneMore(attempts, "WH: ", res);
        errors', successCount' := Tally(errors, successCount, "WH: ", res);
      } else {
        assert attempts + [] == attempts;
      }
    }

    /** The bookkeeping after one channel's answer: `true` counts a success, anything else
        is collected as an error behind the channel's prefix. */
    static method Tally(errors: seq<string>, successCount: nat, channel: string, res: Outcome)
      returns (errors': seq<string>, successCount': nat)
      ensures errors' == errors + if res.Failure? then [channel + res.message] else []
      ensures successCount' == successCount + if res.Success? then 1 else 0
    {
      errors', successCount' := errors, successCount;
      if res == Success {
        successCount' := successCount + 1;
      } else {
        errors' := errors + [channel + res.message];
      }
    }

    /** `notifySchedule($actionType, $account, $description)`: `true` without sending
        unless schedule mail is switched on with exactly "1"; otherwise the schedule
        message is dispatched. */
    method NotifySchedule(actionType: string, accessKeyId: string, description: string, stamp: string,
                          mail: Outcome, tg: Transfer, wh: Transfer)
      returns (r: Outcome, webhookPairs: seq<(string, string)>)
      ensures SettingOr(config, "enable_schedule_email", "0") != "1" ==> r == Success && webhookPairs == []
      ensures SettingOr(config, "enable_schedule_email", "0") == "1" ==>
        r == Aggregate(Attempts(config, mail, tg, wh))
        && (WebhookOn(config) ==> webhookPairs == ReplacePairs(ScheduleTitle(actionType),
              ScheduleText(actionType, accessKeyId, description, stamp), accessKeyId,
              ScheduleDetails(actionType, accessKeyId, description, stamp)))
    {
      if SettingOr(config, "enable_schedule_email", "0") != "1" {
        return Success, [];
      }
      r, webhookPairs := DispatchNotifications(ScheduleTitle(actionType), ScheduleDetails(actionType, accessKeyId, description, stamp),
                                               ScheduleText(actionType, accessKeyId, description, stamp), accessKeyId,
                                               mail, tg, wh);
    }

    /** `sendTrafficWarning(...)`: the warning message dispatched to every enabled channel. */
    method SendTrafficWarning(accessKeyId: string, traffic: string, percentage: string, statusText: string,
                              threshold: string, mail: Outcome, tg: Transfer, wh: Transfer)
      returns (r: Outcome, webhookPairs: seq<(string, string)>)
      ensures r == Aggregate(Attempts(config, mail, tg, wh))
      ensures WebhookOn(config) ==> webhookPairs == ReplacePairs(WarningTitle(statusText),
        WarningText(accessKeyId, traffic, percentage, statusText, threshold), accessKeyId,
        WarningDetails(accessKeyId, traffic, percentage, statusText, threshold))
    {
      r, webhookPairs := DispatchNotifications(WarningTitle(statusText), WarningDetails(accessKeyId, traffic, percentage, statusText, threshold),
                                               WarningText(accessKeyId, traffic, percentage, statusText, threshold), accessKeyId,
                                               mail, tg, wh);
    }
  }

  /** Counting one more attempt: the error list and the success count grow by its answer. */
  lemma CountOneMore(attempts: seq<(string, Outcome)>, channel: string, res: Outcome)
    ensures Errors(attempts + [(channel, res)])
      == Errors(attempts) + if res.Failure? then [channel + res.message] else []
    ensures Successes(attempts + [(channel, res)]) == Successes(attempts) + if res.Success? then 1 else 0
  {
    assert (attempts + [(channel, res)])[..|attempts|] == attempts;
  }
}
