/** The usage log and its repository (`UsageLogRepository` in
    `src/database/repositories.py`): an append-only sequence of records, counted per user
    from the start of the current UTC day. Time is a number of seconds since the Unix
    epoch, passed in where the source reads the clock. */
module Usage {
  import opened Wrappers

  const SecondsPerDay := 86400

  /** One logged message (`UsageLog`); `createdAt` is the time the store stamped it with. */
  datatype UsageRecord = UsageRecord(telegramId: int, messageText: Option<string>, createdAt: int)

  /** 00:00 UTC of the day containing `now`. */
  function DayStart(now: int): (t: int)
    ensures t <= now < t + SecondsPerDay
    ensures t % SecondsPerDay == 0
  {
    now - now % SecondsPerDay
  }

  /** Whether a record is one of the user's records counted at time `now`: stamped at or
      after today's 00:00 UTC (there is no upper bound). */
  predicate CountsToday(r: UsageRecord, telegramId: int, now: int) {
    r.telegramId == telegramId && r.createdAt >= DayStart(now)
  }

  /** The number of the user's records since today's 00:00 UTC. */
  function CountToday(log: seq<UsageRecord>, telegramId: int, now: int): (n: nat)
    ensures n <= |log|
    ensures n == |set k | 0 <= k < |log| && CountsToday(log[k], telegramId, now)|
  {
    if log == [] then 0
    else
      var rest := CountToday(log[..|log| - 1], telegramId, now);
      CountIndices(log, telegramId, now);
      if CountsToday(log[|log| - 1], telegramId, now) then rest + 1 else rest
  }

  /** The indices counted in `log` are those counted in its front plus possibly the last. */
  lemma CountIndices(log: seq<UsageRecord>, telegramId: int, now: int)
    requires log != []
    ensures var front := log[..|log| - 1];
            var all := set k | 0 <= k < |log| && CountsToday(log[k], telegramId, now);
            var before := set k | 0 <= k < |front| && CountsToday(front[k], telegramId, now);
            all == before + (if CountsToday(log[|log| - 1], telegramId, now) then {|log| - 1} else {})
  {
  }

  /** `get_today_count`: a store failure counts as zero (the limiter fails open). */
  function GetTodayCount(log: seq<UsageRecord>, telegramId: int, now: int, fails: bool): (n: nat)
    ensures fails ==> n == 0
    ensures !fails ==> n == |set k | 0 <= k < |log| && CountsToday(log[k], telegramId, now)|
  {
    if fails then 0 else CountToday(log, telegramId, now)
  }

  /** `is_rate_limited`: the day's count has reached the limit, so nothing remains; a user
      not limited has room for one more message. */
  function IsRateLimited(count: nat, limit: nat): (limited: bool)
    ensures limited <==> Remaining(limit, count) == 0
    ensures !limited ==> count + 1 <= limit
  {
    count >= limit
  }

  /** `get_remaining_messages` from a count: never negative. */
  function Remaining(limit: nat, count: nat): (n: nat)
    ensures n + count >= limit
    ensures count < limit ==> n + count == limit
    ensures count >= limit ==> n == 0
  {
    if count >= limit then 0 else limit - count
  }

  /** `log_usage`: the record is appended, or nothing changes when the insert fails. */
  function LogUsage(log: seq<UsageRecord>, rec: UsageRecord, fails: bool): (log': seq<UsageRecord>)
    ensures fails ==> log' == log
    ensures !fails ==> log' == log + [rec]
  {
    if fails then log else log + [rec]
  }

  /** Appending a record never lowers a count. */
  lemma {:induction false} CountAppend(log: seq<UsageRecord>, more: seq<UsageRecord>, telegramId: int, now: int)
    ensures CountToday(log + more, telegramId, now) >= CountToday(log, telegramId, now)
    decreases |more|
  {
    if more == [] {
      assert log + more == log;
    } else {
      var front := more[..|more| - 1];
      CountAppend(log, front, telegramId, now);
      assert (log + more)[..|log + more| - 1] == log + front;
    }
  }

  /** A record stamped now by the user counts for the user now. */
  lemma CountSnocNow(log: seq<UsageRecord>, rec: UsageRecord, now: int)
    requires rec.createdAt == now
    ensures CountToday(log + [rec], rec.telegramId, now) == CountToday(log, rec.telegramId, now) + 1
  {
    assert (log + [rec])[..|log + [rec]| - 1] == log;
  }

  /** Records of other users do not change a user's count. */
  lemma CountSnocOther(log: seq<UsageRecord>, rec: UsageRecord, telegramId: int, now: int)
    requires rec.telegramId != telegramId
    ensures CountToday(log + [rec], telegramId, now) == CountToday(log, telegramId, now)
  {
    assert (log + [rec])[..|log + [rec]| - 1] == log;
  }

  /** Counting at two instants of the same UTC day counts the same records. */
  lemma SameDayCount(log: seq<UsageRecord>, telegramId: int, now: int, later: int)
    requires DayStart(now) == DayStart(later)
    ensures CountToday(log, telegramId, later) == CountToday(log, telegramId, now)
  {
    assert forall r: UsageRecord :: CountsToday(r, telegramId, later) == CountsToday(r, telegramId, now);
  }
}
