/** The per-user daily rate limiter (`RateLimiter` in `src/services/rate_limiter.py`):
    check the day's count, log the message when it is allowed, and report what is left. */
module RateLimiter {
  import opened Wrappers
  import opened Strings
  import opened Slices
  import opened Usage
  import opened Config

  /** Longest message text kept in a usage record. */
  const LoggedTextLength := 500

  /** Which usage-store calls fail during one check: the initial count, the insert, and the
      count behind the remaining quota. */
  datatype UsageFaults = UsageFaults(countFails: bool, logFails: bool, recountFails: bool)

  /** `(is_allowed, message, remaining_count)`, and the log afterwards. */
  datatype Check = Check(allowed: bool, message: string, remaining: nat, log: seq<UsageRecord>)

  /** The reply to a user over the limit, naming the limit. */
  function QuotaMessage(limit: DailyLimit): string {
    "⏰ شما به حد مجاز استفاده روزانه (" + NatToString(limit) + " پیام) رسیده‌اید.\n\nلطفاً فردا دوباره تلاش کنید."
  }

  /** The text stored with a record: the first 500 characters, or nothing for an absent or
      empty message. */
  function LoggedText(text: Option<string>): (r: Option<string>)
    ensures r.Some? <==> text.Some? && text.value != ""
    ensures r.Some? ==> |r.value| <= LoggedTextLength && |r.value| <= |text.value| && r.value == text.value[..|r.value|]
    ensures r.Some? && |text.value| <= LoggedTextLength ==> r.value == text.value
    ensures r.Some? ==> |r.value| == LoggedTextLength || r.value == text.value
  {
    if Truthy(text) then Some(Take(text.value, LoggedTextLength)) else None
  }

  /** `check_and_log` at time `now`. */
  function CheckAndLog(log: seq<UsageRecord>, limit: DailyLimit, telegramId: int, text: Option<string>,
                       now: int, faults: UsageFaults): (r: Check)
    ensures !r.allowed <==> GetTodayCount(log, telegramId, now, faults.countFails) >= limit
    ensures !r.allowed ==> r.message == QuotaMessage(limit) && r.remaining == 0 && r.log == log
    ensures r.allowed ==> r.message == ""
    ensures r.allowed ==> r.log == LogUsage(log, UsageRecord(telegramId, LoggedText(text), now), faults.logFails)
    ensures r.allowed ==> r.remaining == Remaining(limit, GetTodayCount(r.log, telegramId, now, faults.recountFails))
  {
    if IsRateLimited(GetTodayCount(log, telegramId, now, faults.countFails), limit) then
      Check(false, QuotaMessage(limit), 0, log)
    else
      var log' := LogUsage(log, UsageRecord(telegramId, LoggedText(text), now), faults.logFails);
      Check(true, "", Remaining(limit, GetTodayCount(log', telegramId, now, faults.recountFails)), log')
  }

  /** When the store works, an allowed message takes one unit of the quota: the remaining
      count plus today's count before the call is the limit less one. */
  lemma AllowedConsumesOne(log: seq<UsageRecord>, limit: DailyLimit, telegramId: int, text: Option<string>, now: int)
    requires CountToday(log, telegramId, now) < limit
    ensures var r := CheckAndLog(log, limit, telegramId, text, now, UsageFaults(false, false, false));
            && r.allowed
            && |r.log| == |log| + 1 && r.log[..|log|] == log
            && r.remaining + CountToday(log, telegramId, now) + 1 == limit
  {
    var rec := UsageRecord(telegramId, LoggedText(text), now);
    CountSnocNow(log, rec, now);
    assert (log + [rec])[..|log|] == log;
  }

  /** `get_status`: today's count and what remains of the limit; nothing is written. */
  function GetStatus(log: seq<UsageRecord>, limit: DailyLimit, telegramId: int, now: int, fails: bool): (r: (nat, nat))
    ensures r.0 == GetTodayCount(log, telegramId, now, fails)
    ensures r.0 < limit ==> r.0 + r.1 == limit
    ensures r.0 >= limit ==> r.1 == 0
  {
    var used := GetTodayCount(log, telegramId, now, fails);
    (used, Remaining(limit, used))
  }

  /** Once a user has `limit` records counted today, every later check that day — after
      any further appends, by anyone — is rejected and logs nothing, provided the count
      can be read. */
  lemma SaturatedStaysRejected(log: seq<UsageRecord>, more: seq<UsageRecord>, limit: DailyLimit, telegramId: int,
                               now: int, later: int, text: Option<string>, faults: UsageFaults)
    requires CountToday(log, telegramId, now) >= limit
    requires DayStart(later) == DayStart(now)
    requires !faults.countFails
    ensures var r := CheckAndLog(log + more, limit, telegramId, text, later, faults);
            !r.allowed && r.log == log + more
  {
    CountAppend(log, more, telegramId, now);
    SameDayCount(log + more, telegramId, now, later);
  }

  /** A sequence of checks by one user: the log only grows, by at most one record per
      check, and every record added is the user's. */
  function CheckAll(log: seq<UsageRecord>, limit: DailyLimit, telegramId: int, times: seq<int>): (r: seq<UsageRecord>)
    ensures |log| <= |r| <= |log| + |times|
    ensures r[..|log|] == log
    ensures forall k | |log| <= k < |r| :: r[k].telegramId == telegramId
    decreases |times|
  {
    if times == [] then log
    else
      var next := CheckAndLog(log, limit, telegramId, None, times[0], UsageFaults(false, false, false)).log;
      assert next[..|log|] == log;
      var r := CheckAll(next, limit, telegramId, times[1..]);
      assert r[..|log|] == r[..|next|][..|log|];
      assert forall k | |log| <= k < |next| :: r[k] == next[k];
      r
  }

  /** One check at an instant of the day keeps the user's count for the day within the
      limit. */
  lemma CheckStepBounded(log: seq<UsageRecord>, limit: DailyLimit, telegramId: int, day: int, t: int)
    requires CountToday(log, telegramId, day) <= limit
    requires DayStart(t) == DayStart(day)
    ensures CountToday(CheckAndLog(log, limit, telegramId, None, t, UsageFaults(false, false, false)).log, telegramId, day) <= limit
  {
    var rec := UsageRecord(telegramId, None, t);
    SameDayCount(log, telegramId, day, t);
    if CountToday(log, telegramId, t) < limit {
      CountSnocNow(log, rec, t);
      SameDayCount(log + [rec], telegramId, day, t);
    }
  }

  /** With a working store, a user never gets more than `limit` messages logged in one day,
      however many they send. */
  lemma {:induction false} CheckAllBounded(log: seq<UsageRecord>, limit: DailyLimit, telegramId: int, day: int, times: seq<int>)
    requires CountToday(log, telegramId, day) <= limit
    requires forall k | 0 <= k < |times| :: DayStart(times[k]) == DayStart(day)
    ensures CountToday(CheckAll(log, limit, telegramId, times), telegramId, day) <= limit
    decreases |times|
  {
    if times != [] {
      CheckStepBounded(log, limit, telegramId, day, times[0]);
      var log' := CheckAndLog(log, limit, telegramId, None, times[0], UsageFaults(false, false, false)).log;
      assert forall k | 0 <= k < |times[1..]| :: times[1..][k] == times[k + 1];
      CheckAllBounded(log', limit, telegramId, day, times[1..]);
    }
  }
}
