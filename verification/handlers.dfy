/** The message handlers (`MessageHandlers` in `src/bot/handlers.py`): the gates a text or
    voice message passes — registration, then the daily quota — before the assistant is
    asked, and the messages the bot sends back, in order. Sending to Telegram is
    represented by the list of actions taken; the voice file download and its
    transcription are parameters. */
module Handlers {
  import opened Wrappers
  import opened Strings
  import opened Users
  import opened Auth
  import opened Usage
  import opened Config
  import opened RateLimiter
  import opened Coordinates
  import Agent

  /** The reply to a user who has not registered. */
  const NotRegistered :=
    "❌ شما هنوز ثبت‌نام نکرده‌اید!\n\nلطفاً ابتدا با /login کد_دانشجویی ثبت‌نام کنید.\n\n─────\n\n❌ You are not registered yet!\n\nPlease register first with /login student_id"

  /** The remaining quota at or below which the reply carries a warning. */
  const LowQuota := 5

  /** The text logged for a voice message in place of its content. */
  const VoiceLogText := "[voice message]"
  const VoiceProcessing := "🎤 در حال پردازش پیام صوتی..."
  const VoiceNotUnderstood := "❌ متأسفانه نتونستم پیام صوتی رو پردازش کنم. لطفاً دوباره امتحان کن یا پیام متنی بفرست."
  const VoiceFailed := "❌ خطایی در پردازش پیام صوتی رخ داد. لطفاً دوباره تلاش کنید."
  const HeardPrefix := "🎤 شنیدم: "

  /** What the bot does in the chat: a message, the typing indicator, a map pin, and the
      edit or deletion of the "processing" message of a voice message. */
  datatype Action =
    | Send(text: string)
    | Typing
    | SendLocation(latitude: real, longitude: real)
    | EditStatus(text: string)
    | DeleteStatus

  /** Which store calls fail while handling one message. */
  datatype Faults = Faults(lookupFails: bool, usage: UsageFaults)

  /** The actions taken, the usage log afterwards, and the requests made to the model. */
  datatype Outcome = Outcome(actions: seq<Action>, log: seq<UsageRecord>, requests: seq<Agent.Request>)

  /** The warning appended when few messages remain. */
  function QuotaNote(remaining: nat): (r: string)
    ensures r != "" <==> 0 < remaining <= LowQuota
  {
    if 0 < remaining <= LowQuota then "\n\n⚠️ " + NatToString(remaining) + " پیام از سهمیه روزانه باقی مونده" else ""
  }

  /** The pin sent for a location, if any. */
  function LocationActions(location: Option<Location>): (r: seq<Action>)
    ensures |r| <= 1
    ensures r != [] <==> location.Some?
    ensures location.Some? ==> r == [SendLocation(location.value.latitude, location.value.longitude)]
  {
    match location
    case None => []
    case Some(l) => [SendLocation(l.latitude, l.longitude)]
  }

  /** How many plain messages an action list sends. */
  function SendCount(actions: seq<Action>): nat
    decreases |actions|
  {
    if actions == [] then 0 else (if actions[0].Send? then 1 else 0) + SendCount(actions[1..])
  }

  /** Counting the messages of two lists one after the other. */
  lemma {:induction false} SendCountAppend(a: seq<Action>, b: seq<Action>)
    ensures SendCount(a + b) == SendCount(a) + SendCount(b)
    decreases |a|
  {
    if a == [] {
      assert a + b == b;
    } else {
      assert (a + b)[1..] == a[1..] + b;
      SendCountAppend(a[1..], b);
    }
  }

  /** The assistant's answer, with `note` appended, then the pin if there is a location. */
  function AnswerActions(answer: Agent.ChatResult, note: string): seq<Action> {
    [Send(answer.text + note)] + LocationActions(answer.location)
  }

  /** An answer is one message, led by the assistant's text, and at most a pin. */
  lemma AnswerShape(answer: Agent.ChatResult, note: string)
    ensures var actions := AnswerActions(answer, note);
            && SendCount(actions) == 1
            && (|actions| == 2 <==> answer.location.Some?) && 1 <= |actions| <= 2
            && actions[0].Send? && |actions[0].text| >= |answer.text|
            && actions[0].text[..|answer.text|] == answer.text
            && (actions[0].text == answer.text <==> note == "")
  {
    var actions := AnswerActions(answer, note);
    var pin := LocationActions(answer.location);
    assert actions[1..] == pin;
    if pin != [] {
      assert pin[1..] == [];
    }
    assert SendCount(pin) == 0;
    assert (answer.text + note)[..|answer.text|] == answer.text;
  }

  /** `_process_message`: the registration gate, then the quota gate, then the typing
      indicator, the assistant's answer with the quota warning, and the pin. The assistant
      is asked without history. */
  function ProcessMessage(rows: seq<User>, log: seq<UsageRecord>, limit: DailyLimit, telegramId: int,
                          text: string, now: int, faults: Faults, env: Agent.Env): (r: Outcome)
    ensures !IsAuthenticated(rows, telegramId, faults.lookupFails) ==>
              r == Outcome([Send(NotRegistered)], log, [])
    ensures r.requests != [] <==>
              && IsAuthenticated(rows, telegramId, faults.lookupFails)
              && GetTodayCount(log, telegramId, now, faults.usage.countFails) < limit
    ensures r.requests != [] ==> |r.actions| >= 2 && r.actions[0] == Typing && r.actions[1].Send?
  {
    if !IsAuthenticated(rows, telegramId, faults.lookupFails) then Outcome([Send(NotRegistered)], log, [])
    else
      var check := CheckAndLog(log, limit, telegramId, Some(text), now, faults.usage);
      if !check.allowed then Outcome([Send(check.message)], check.log, [])
      else
        var answer := Agent.Chat(text, [], env);
        Outcome([Typing] + AnswerActions(answer, QuotaNote(check.remaining)), check.log, answer.requests)
  }

  /** An allowed message is answered once: the answer is the assistant's text followed by
      the warning exactly when one to five messages remain, and a pin follows exactly when
      the assistant returned a location. */
  lemma ProcessAnswered(rows: seq<User>, log: seq<UsageRecord>, limit: DailyLimit, telegramId: int,
                        text: string, now: int, faults: Faults, env: Agent.Env)
    requires IsAuthenticated(rows, telegramId, faults.lookupFails)
    requires GetTodayCount(log, telegramId, now, faults.usage.countFails) < limit
    ensures var r := ProcessMessage(rows, log, limit, telegramId, text, now, faults, env);
            var answer := Agent.Chat(text, [], env);
            var check := CheckAndLog(log, limit, telegramId, Some(text), now, faults.usage);
            && SendCount(r.actions) == 1
            && r.actions[1].text[..|answer.text|] == answer.text
            && (r.actions[1].text == answer.text <==> !(0 < check.remaining <= LowQuota))
            && (|r.actions| == 3 <==> answer.location.Some?) && |r.actions| <= 3
            && r.log == LogUsage(log, UsageRecord(telegramId, LoggedText(Some(text)), now), faults.usage.logFails)
  {
    var answer := Agent.Chat(text, [], env);
    var check := CheckAndLog(log, limit, telegramId, Some(text), now, faults.usage);
    var actions := AnswerActions(answer, QuotaNote(check.remaining));
    AnswerShape(answer, QuotaNote(check.remaining));
    SendCountAppend([Typing], actions);
    assert ([Typing] + actions)[1] == actions[0];
  }

  /** The assistant is asked about the message alone: its first request holds the system
      prompt and the user's text and no conversation history. */
  lemma ProcessWithoutHistory(rows: seq<User>, log: seq<UsageRecord>, limit: DailyLimit, telegramId: int,
                              text: string, now: int, faults: Faults, env: Agent.Env)
    requires IsAuthenticated(rows, telegramId, faults.lookupFails)
    requires GetTodayCount(log, telegramId, now, faults.usage.countFails) < limit
    ensures var r := ProcessMessage(rows, log, limit, telegramId, text, now, faults, env);
            && r.requests != []
            && r.requests[0].messages == [Agent.Text("system", env.systemPrompt), Agent.Text("user", text)]
  {
    Agent.ChatWithoutHistory(text, env);
    var check := CheckAndLog(log, limit, telegramId, Some(text), now, faults.usage);
    assert check.allowed;
    var r := ProcessMessage(rows, log, limit, telegramId, text, now, faults, env);
    assert r.requests == Agent.Chat(text, [], env).requests;
  }

  /** A rejected message gets the quota reply only: nothing is logged and the model is not
      asked. */
  lemma ProcessRejected(rows: seq<User>, log: seq<UsageRecord>, limit: DailyLimit, telegramId: int,
                        text: string, now: int, faults: Faults, env: Agent.Env)
    requires IsAuthenticated(rows, telegramId, faults.lookupFails)
    requires GetTodayCount(log, telegramId, now, faults.usage.countFails) >= limit
    ensures ProcessMessage(rows, log, limit, telegramId, text, now, faults, env) ==
              Outcome([Send(QuotaMessage(limit))], log, [])
  {
  }

  /** Every message sent to the model is counted: with a working store, a registered user
      under the quota reaches the model, and has one more record today than before,
      still within the limit. */
  lemma ProcessCountsModelUse(rows: seq<User>, log: seq<UsageRecord>, limit: DailyLimit, telegramId: int,
                              text: string, now: int, env: Agent.Env)
    requires IsAuthenticated(rows, telegramId, false) && CountToday(log, telegramId, now) < limit
    ensures var r := ProcessMessage(rows, log, limit, telegramId, text, now, Faults(false, UsageFaults(false, false, false)), env);
            && r.requests != []
            && CountToday(r.log, telegramId, now) == CountToday(log, telegramId, now) + 1 <= limit
  {
    var rec := UsageRecord(telegramId, LoggedText(Some(text)), now);
    CountSnocNow(log, rec, now);
  }

  // ---------------------------------------------------------------------------
  // handle_voice_message
  // ---------------------------------------------------------------------------

  /** The voice handler's view of the outside: whether downloading the file raises, and the
      transcription (`None` when it fails). */
  datatype Voice = Voice(downloadFails: bool, transcription: Option<string>)

  /** `handle_voice_message`: the same two gates, the quota charged with a placeholder text
      and its remaining count unused; then the "processing" message, which is replaced by
      an error or deleted before the transcription and the answer are sent. */
  function HandleVoice(rows: seq<User>, log: seq<UsageRecord>, limit: DailyLimit, telegramId: int,
                       now: int, faults: Faults, voice: Voice, env: Agent.Env): (r: Outcome)
    ensures !IsAuthenticated(rows, telegramId, faults.lookupFails) ==>
              r == Outcome([Send(NotRegistered)], log, [])
    ensures r.requests != [] <==>
              && IsAuthenticated(rows, telegramId, faults.lookupFails)
              && GetTodayCount(log, telegramId, now, faults.usage.countFails) < limit
              && !voice.downloadFails && Truthy(voice.transcription)
  {
    if !IsAuthenticated(rows, telegramId, faults.lookupFails) then Outcome([Send(NotRegistered)], log, [])
    else
      var check := CheckAndLog(log, limit, telegramId, Some(VoiceLogText), now, faults.usage);
      if !check.allowed then Outcome([Send(check.message)], check.log, [])
      else if voice.downloadFails then Outcome([Send(VoiceProcessing), EditStatus(VoiceFailed)], check.log, [])
      else if !Truthy(voice.transcription) then
        Outcome([Send(VoiceProcessing), EditStatus(VoiceNotUnderstood)], check.log, [])
      else
        var heard := voice.transcription.value;
        var answer := Agent.Chat(heard, [], env);
        Outcome([Send(VoiceProcessing), DeleteStatus, Send(HeardPrefix + heard)] + AnswerActions(answer, ""),
                check.log, answer.requests)
  }

  /** A rate-limited voice message gets the quota reply only: nothing is logged and the
      file is not downloaded. */
  lemma VoiceRejected(rows: seq<User>, log: seq<UsageRecord>, limit: DailyLimit, telegramId: int,
                      now: int, faults: Faults, voice: Voice, env: Agent.Env)
    requires IsAuthenticated(rows, telegramId, faults.lookupFails)
    requires GetTodayCount(log, telegramId, now, faults.usage.countFails) >= limit
    ensures HandleVoice(rows, log, limit, telegramId, now, faults, voice, env) ==
              Outcome([Send(QuotaMessage(limit))], log, [])
  {
  }

  /** An allowed voice message always shows the "processing" message first, and the log
      is the same whatever the transcription: one placeholder record, never the text
      heard. */
  lemma VoiceLogsPlaceholder(rows: seq<User>, log: seq<UsageRecord>, limit: DailyLimit, telegramId: int,
                             now: int, faults: Faults, voice: Voice, env: Agent.Env)
    requires IsAuthenticated(rows, telegramId, faults.lookupFails)
    requires GetTodayCount(log, telegramId, now, faults.usage.countFails) < limit
    ensures var r := HandleVoice(rows, log, limit, telegramId, now, faults, voice, env);
            && r.actions[0] == Send(VoiceProcessing)
            && r.log == LogUsage(log, UsageRecord(telegramId, Some(VoiceLogText), now), faults.usage.logFails)
  {
  }

  /** When the transcription is usable, the user is shown what was heard before the answer,
      and the answer is the assistant's reply to exactly that text, with no quota
      warning. */
  lemma VoiceAnswersHeard(rows: seq<User>, log: seq<UsageRecord>, limit: DailyLimit, telegramId: int,
                          now: int, faults: Faults, voice: Voice, env: Agent.Env)
    requires IsAuthenticated(rows, telegramId, faults.lookupFails)
    requires GetTodayCount(log, telegramId, now, faults.usage.countFails) < limit
    requires !voice.downloadFails && Truthy(voice.transcription)
    ensures var r := HandleVoice(rows, log, limit, telegramId, now, faults, voice, env);
            var answer := Agent.Chat(voice.transcription.value, [], env);
            && |r.actions| >= 4
            && r.actions[1] == DeleteStatus
            && r.actions[2] == Send(HeardPrefix + voice.transcription.value)
            && r.actions[3] == Send(answer.text)
            && SendCount(r.actions) == 3
  {
    var heard := voice.transcription.value;
    var answer := Agent.Chat(heard, [], env);
    var lead := [Send(VoiceProcessing), DeleteStatus, Send(HeardPrefix + heard)];
    assert lead == [Send(VoiceProcessing)] + ([DeleteStatus] + [Send(HeardPrefix + heard)]);
    SendCountAppend([DeleteStatus], [Send(HeardPrefix + heard)]);
    SendCountAppend([Send(VoiceProcessing)], [DeleteStatus] + [Send(HeardPrefix + heard)]);
    AnswerShape(answer, "");
    SendCountAppend(lead, AnswerActions(answer, ""));
    assert answer.text + "" == answer.text;
    assert (lead + AnswerActions(answer, ""))[3] == AnswerActions(answer, "")[0];
  }

  /** The model is asked about the text heard alone, without conversation history. */
  lemma VoiceAsksHeard(rows: seq<User>, log: seq<UsageRecord>, limit: DailyLimit, telegramId: int,
                       now: int, faults: Faults, voice: Voice, env: Agent.Env)
    requires IsAuthenticated(rows, telegramId, faults.lookupFails)
    requires GetTodayCount(log, telegramId, now, faults.usage.countFails) < limit
    requires !voice.downloadFails && Truthy(voice.transcription)
    ensures var r := HandleVoice(rows, log, limit, telegramId, now, faults, voice, env);
            && r.requests != []
            && r.requests[0].messages == [Agent.Text("system", env.systemPrompt), Agent.Text("user", voice.transcription.value)]
  {
    Agent.ChatWithoutHistory(voice.transcription.value, env);
    var check := CheckAndLog(log, limit, telegramId, Some(VoiceLogText), now, faults.usage);
    assert check.allowed;
    var r := HandleVoice(rows, log, limit, telegramId, now, faults, voice, env);
    assert r.requests == Agent.Chat(voice.transcription.value, [], env).requests;
  }

  /** A voice message the bot cannot hear ends with the "processing" message edited into an
      error; nothing else is sent and the model is not asked. */
  lemma VoiceUnheard(rows: seq<User>, log: seq<UsageRecord>, limit: DailyLimit, telegramId: int,
                     now: int, faults: Faults, voice: Voice, env: Agent.Env)
    requires IsAuthenticated(rows, telegramId, faults.lookupFails)
    requires GetTodayCount(log, telegramId, now, faults.usage.countFails) < limit
    requires voice.downloadFails || !Truthy(voice.transcription)
    ensures var r := HandleVoice(rows, log, limit, telegramId, now, faults, voice, env);
            && |r.actions| == 2 && r.actions[0] == Send(VoiceProcessing) && r.actions[1].EditStatus?
            && r.requests == []
            && (r.actions[1].text == VoiceFailed <==> voice.downloadFails)
  {
  }
}
