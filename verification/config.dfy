/** The bot's settings (`src/config.py`): the range-checked numeric fields, the admin id
    list parsed from a comma-separated string, and the webhook switch. Only the fields the
    modelled components read are kept. */
module Config {
  import opened Wrappers
  import opened Strings

  /** `rate_limit_per_day`: messages per user per UTC day, validated to 1..1000. */
  type DailyLimit = n: int | 1 <= n <= 1000 witness 20

  /** `conversation_memory_size`: remembered exchanges, validated to 1..50. */
  type MemorySize = n: int | 1 <= n <= 50 witness 5

  const DefaultRateLimit: DailyLimit := 20
  const DefaultMemorySize: MemorySize := 5

  datatype Settings = Settings(
    webhookUrl: Option<string>,
    rateLimitPerDay: DailyLimit,
    memorySize: MemorySize,
    adminTelegramIds: Option<string>)

  /** A field whose value the settings loader rejects. */
  datatype SettingsError = RateLimitOutOfRange(given: int) | MemorySizeOutOfRange(given: int)

  /** Building the settings from raw values, as the settings class validates its fields:
      an out-of-range rate limit is reported before an out-of-range memory size. */
  function LoadSettings(webhookUrl: Option<string>, rateLimit: int, memorySize: int,
                        adminIds: Option<string>): (r: Result<Settings, SettingsError>)
    ensures r.Ok? <==> 1 <= rateLimit <= 1000 && 1 <= memorySize <= 50
    ensures r.Ok? ==> r.value.rateLimitPerDay == rateLimit && r.value.memorySize == memorySize
    ensures r.Ok? ==> r.value.webhookUrl == webhookUrl && r.value.adminTelegramIds == adminIds
    ensures !(1 <= rateLimit <= 1000) ==> r == Err(RateLimitOutOfRange(rateLimit))
  {
    if !(1 <= rateLimit <= 1000) then Err(RateLimitOutOfRange(rateLimit))
    else if !(1 <= memorySize <= 50) then Err(MemorySizeOutOfRange(memorySize))
    else Ok(Settings(webhookUrl, rateLimit, memorySize, adminIds))
  }

  /** Python truthiness of an optional string: present and non-empty. */
  predicate Truthy(s: Option<string>) {
    match s
    case None => false
    case Some(v) => v != ""
  }

  /** `is_webhook_mode`: run with a webhook exactly when a webhook URL is configured. */
  function IsWebhookMode(settings: Settings): (b: bool)
    ensures b <==> settings.webhookUrl.Some? && |settings.webhookUrl.value| > 0
  {
    Truthy(settings.webhookUrl)
  }

  // ---------------------------------------------------------------------------
  // Admin ids
  // ---------------------------------------------------------------------------

  /** The comma-separated segments that are not blank, in order. */
  function NonBlank(segments: seq<string>): (r: seq<string>)
    ensures forall k | 0 <= k < |r| :: Strip(r[k]) != ""
    ensures forall k | 0 <= k < |segments| :: Strip(segments[k]) != "" ==> segments[k] in r
  {
    if segments == [] then []
    else if Strip(segments[0]) == "" then NonBlank(segments[1..])
    else [segments[0]] + NonBlank(segments[1..])
  }

  /** Filtering is piecewise: the non-blank segments of two lists, one after the other,
      are those of the joined list, so the filter keeps the segments' order. */
  lemma {:induction false} NonBlankAppend(a: seq<string>, b: seq<string>)
    ensures NonBlank(a + b) == NonBlank(a) + NonBlank(b)
    decreases |a|
  {
    if a == [] {
      assert a + b == b;
    } else {
      assert (a + b)[0] == a[0];
      assert (a + b)[1..] == a[1..] + b;
      NonBlankAppend(a[1..], b);
      if Strip(a[0]) != "" {
        assert NonBlank(a) + NonBlank(b) == [a[0]] + (NonBlank(a[1..]) + NonBlank(b));
      }
    }
  }

  /** A single segment is kept, unchanged, exactly when it is not blank. With
      `NonBlankAppend` this fixes the filter on every list: each non-blank segment kept
      once, in order, and nothing else. */
  lemma NonBlankOne(x: string)
    ensures NonBlank([x]) == if Strip(x) == "" then [] else [x]
  {
    assert [x][1..] == [];
  }

  /** `int(x.strip())` over the segments in order; the first segment that is not an
      integer raises, reported here as that segment. */
  function ParseAll(segments: seq<string>): (r: Result<seq<int>, string>)
    ensures r.Ok? ==> |r.value| == |segments|
    ensures r.Ok? ==> forall k | 0 <= k < |segments| :: ParseInt(Strip(segments[k])) == Some(r.value[k])
    ensures r.Err? ==> exists k | 0 <= k < |segments| ::
              && segments[k] == r.error && ParseInt(Strip(segments[k])).None?
              && forall j | 0 <= j < k :: ParseInt(Strip(segments[j])).Some?
  {
    if segments == [] then Ok([])
    else
      match ParseInt(Strip(segments[0]))
      case None => Err(segments[0])
      case Some(id) =>
        match ParseAll(segments[1..])
        case Err(bad) => Err(bad)
        case Ok(ids) => Ok([id] + ids)
  }

  /** `get_admin_ids`: no admins for an unset or blank setting; otherwise the integers of
      the non-blank comma-separated segments, in order, or the segment that is not one. */
  function GetAdminIds(settings: Settings): (r: Result<seq<int>, string>)
    ensures settings.adminTelegramIds.None? ==> r == Ok([])
    ensures settings.adminTelegramIds.Some? && Strip(settings.adminTelegramIds.value) == "" ==> r == Ok([])
  {
    match settings.adminTelegramIds
    case None => Ok([])
    case Some(s) => if Strip(s) == "" then Ok([]) else ParseAll(NonBlank(SplitOn(s, ",")))
  }

  /** A non-blank setting gives ids exactly when every non-blank segment is an integer,
      and then one id per such segment, in order. */
  lemma GetAdminIdsParsed(settings: Settings)
    requires settings.adminTelegramIds.Some? && Strip(settings.adminTelegramIds.value) != ""
    ensures var segs := NonBlank(SplitOn(settings.adminTelegramIds.value, ","));
            var r := GetAdminIds(settings);
            && (r.Ok? <==> forall k | 0 <= k < |segs| :: ParseInt(Strip(segs[k])).Some?)
            && (r.Ok? ==> |r.value| == |segs| && forall k | 0 <= k < |segs| :: ParseInt(Strip(segs[k])) == Some(r.value[k]))
  {
  }

  /** A non-blank segment that is not an integer makes the whole setting an error rather
      than being skipped. */
  lemma BadSegmentRaises(settings: Settings, k: nat)
    requires settings.adminTelegramIds.Some? && Strip(settings.adminTelegramIds.value) != ""
    requires k < |SplitOn(settings.adminTelegramIds.value, ",")|
    requires var seg := SplitOn(settings.adminTelegramIds.value, ",")[k];
             Strip(seg) != "" && ParseInt(Strip(seg)).None?
    ensures GetAdminIds(settings).Err?
  {
    var segs := NonBlank(SplitOn(settings.adminTelegramIds.value, ","));
    var seg := SplitOn(settings.adminTelegramIds.value, ",")[k];
    var j :| 0 <= j < |segs| && segs[j] == seg;
    assert ParseInt(Strip(segs[j])).None?;
  }

  /** `str(i)` for any integer. */
  function IntToString(i: int): (s: string)
    ensures s != "" && NoSpace(s) && ',' !in s
  {
    if i < 0 then "-" + NatToString(-i) else NatToString(i)
  }

  /** The ids as an administrator writes them: decimal integers joined with commas. */
  function AdminIdsText(ids: seq<int>): string {
    Join(IdStrings(ids), ",")
  }

  function IdStrings(ids: seq<int>): (r: seq<string>)
    ensures |r| == |ids|
    ensures forall k | 0 <= k < |ids| :: r[k] == IntToString(ids[k])
  {
    if ids == [] then [] else [IntToString(ids[0])] + IdStrings(ids[1..])
  }

  lemma ParseIntToString(i: int)
    ensures ParseInt(IntToString(i)) == Some(i)
  {
    if i < 0 {
      var digits := NatToString(-i);
      var s := "-" + digits;
      ParseNatToString(-i);
      assert s[0] == '-' && s[1..] == digits;
      assert DigitGroups(digits) && DigitsValue(digits) == -i;
      assert IntToString(i) == s;
    } else {
      ParseNatToString(i);
    }
  }

  lemma {:induction false} ParseIdStrings(ids: seq<int>)
    ensures NonBlank(IdStrings(ids)) == IdStrings(ids)
    ensures ParseAll(IdStrings(ids)) == Ok(ids)
  {
    if ids != [] {
      var s := IntToString(ids[0]);
      StripOfStripped(s);
      ParseIntToString(ids[0]);
      ParseIdStrings(ids[1..]);
      assert IdStrings(ids)[1..] == IdStrings(ids[1..]);
      assert [ids[0]] + ids[1..] == ids;
    }
  }

  /** Writing ids down comma-separated and reading them back gives the same ids. */
  lemma AdminIdsRoundTrip(settings: Settings, ids: seq<int>)
    requires settings.adminTelegramIds == Some(AdminIdsText(ids))
    ensures GetAdminIds(settings) == Ok(ids)
  {
    var text := AdminIdsText(ids);
    if ids == [] {
      assert text == "";
    } else {
      var parts := IdStrings(ids);
      SplitOnJoin(parts, ',');
      assert SplitOn(text, ",") == parts;
      ParseIdStrings(ids);
      var s0 := IntToString(ids[0]);
      assert text[..|s0|] == s0 by { JoinPrefix(parts, ","); }
      NonBlankText(text, |s0|);
    }
  }

  lemma {:induction false} JoinPrefix(parts: seq<string>, sep: string)
    requires parts != []
    ensures |parts[0]| <= |Join(parts, sep)| && Join(parts, sep)[..|parts[0]|] == parts[0]
  {
  }

  /** A text that starts with a non-empty, whitespace-free piece does not strip to "". */
  lemma NonBlankText(text: string, n: nat)
    requires 0 < n <= |text| && NoSpace(text[..n])
    ensures Strip(text) != ""
  {
    assert !IsSpace(text[..n][0]);
    StripEmptyIff(text);
  }
}
