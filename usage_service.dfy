/**
 * lib/usageService.ts: per-user token and cost metering. Every model call adds
 * its tokens and cost to a day bucket and a month bucket of the user's summary
 * document; a request is allowed while today's tokens and this month's cost
 * stay under the summary's limits.
 *
 * The Firestore collections `usageLogs` and `usageSummary` are the fields of a
 * `UsageStore`. The clock is a parameter: `nowIso` is `Date.toISOString()` and
 * `nowMs` is `Date.getTime()`. The cost of a call, which the source computes from
 * floating-point per-token rates, is a parameter as well.
 */
module UsageService {
  import JsString

  datatype UsageProvider = OpenAI | Anthropic | Google

  datatype UsageLog = UsageLog(
    userId: string, provider: UsageProvider, model: string,
    promptTokens: int, completionTokens: int, totalTokens: int, costUSD: real, createdAt: int)

  datatype Bucket = Bucket(tokens: int, costUSD: real)

  datatype UsageSummary = UsageSummary(
    userId: string, daily: map<string, Bucket>, monthly: map<string, Bucket>,
    dailyTokenLimit: int, monthlyCostLimitUSD: real, updatedAt: int)

  /** What `assertDb` finds: a client Firestore, or none on the server, or none in the browser (where it throws). */
  datatype DbMode = Available | ServerWithoutDb | ClientWithoutDb

  /** How a call ended: with a value, or with the exception `assertDb` throws. */
  datatype Outcome<T> = Returned(value: T) | Threw

  const DefaultDailyTokenLimit := 100000
  const DefaultMonthlyCostLimitUSD := 10.0

  /** `getDailyKey`: the date part `YYYY-MM-DD` of the timestamp. */
  function DailyKey(nowIso: string): string {
    JsString.Slice(nowIso, 0, 10)
  }

  /** `getMonthlyKey`: the month part `YYYY-MM` of the timestamp. */
  function MonthlyKey(nowIso: string): string {
    JsString.Slice(nowIso, 0, 7)
  }

  /** The month key is a prefix of the day key; on an ISO timestamp they are 10 and 7 characters long; one day lies in one month. */
  lemma KeysSpec(nowIso: string, other: string)
    ensures JsString.StartsWith(DailyKey(nowIso), MonthlyKey(nowIso))
    ensures |nowIso| >= 10 ==> |DailyKey(nowIso)| == 10 && |MonthlyKey(nowIso)| == 7
    ensures DailyKey(nowIso) == DailyKey(other) ==> MonthlyKey(nowIso) == MonthlyKey(other)
  {
    var n := |nowIso|;
    if n >= 10 {
      assert DailyKey(nowIso) == nowIso[..10];
      assert MonthlyKey(nowIso) == nowIso[..7];
    }
    if DailyKey(nowIso) == DailyKey(other) {
      if n >= 10 {
        assert MonthlyKey(nowIso) == DailyKey(nowIso)[..7];
      }
      if |other| >= 10 {
        assert MonthlyKey(other) == DailyKey(other)[..7];
      }
    }
  }

  /** The summary a user starts with: no buckets, 100000 tokens a day, 10 USD a month. */
  function DefaultSummary(userId: string, nowMs: int): (s: UsageSummary)
    ensures s.userId == userId && s.daily == map[] && s.monthly == map[]
    ensures s.dailyTokenLimit == 100000 && s.monthlyCostLimitUSD == 10.0
  {
    UsageSummary(userId, map[], map[], DefaultDailyTokenLimit, DefaultMonthlyCostLimitUSD, nowMs)
  }

  /** A bucket, or the empty one when the key has none. */
  function BucketOr(buckets: map<string, Bucket>, key: string): Bucket {
    if key in buckets then buckets[key] else Bucket(0, 0.0)
  }

  /** The summary after one call of `tokens` tokens costing `cost`. */
  function AddUsage(s: UsageSummary, dailyKey: string, monthlyKey: string, tokens: int, cost: real, nowMs: int): (r: UsageSummary)
    ensures BucketOr(r.daily, dailyKey) == Bucket(BucketOr(s.daily, dailyKey).tokens + tokens, BucketOr(s.daily, dailyKey).costUSD + cost)
    ensures BucketOr(r.monthly, monthlyKey) == Bucket(BucketOr(s.monthly, monthlyKey).tokens + tokens, BucketOr(s.monthly, monthlyKey).costUSD + cost)
    ensures forall k :: k != dailyKey ==> BucketOr(r.daily, k) == BucketOr(s.daily, k)
    ensures forall k :: k != monthlyKey ==> BucketOr(r.monthly, k) == BucketOr(s.monthly, k)
    ensures r.daily.Keys == s.daily.Keys + {dailyKey} && r.monthly.Keys == s.monthly.Keys + {monthlyKey}
    ensures r.userId == s.userId && r.dailyTokenLimit == s.dailyTokenLimit && r.monthlyCostLimitUSD == s.monthlyCostLimitUSD
  {
    var d := BucketOr(s.daily, dailyKey);
    var m := BucketOr(s.monthly, monthlyKey);
    s.(daily := s.daily[dailyKey := Bucket(d.tokens + tokens, d.costUSD + cost)],
       monthly := s.monthly[monthlyKey := Bucket(m.tokens + tokens, m.costUSD + cost)],
       updatedAt := nowMs)
  }

  datatype Decision = Allowed | Denied(reason: string)

  const DailyLimitReason := "Daily token limit reached"
  const MonthlyLimitReason := "Monthly usage limit reached"

  /** The rule of `checkUsageAllowed` on a summary: the daily token limit first, then the monthly cost limit. */
  function Decide(s: UsageSummary, nowIso: string): (d: Decision)
    ensures d == Denied(DailyLimitReason) <==> BucketOr(s.daily, DailyKey(nowIso)).tokens >= s.dailyTokenLimit
    ensures d == Denied(MonthlyLimitReason) <==>
      BucketOr(s.daily, DailyKey(nowIso)).tokens < s.dailyTokenLimit
      && BucketOr(s.monthly, MonthlyKey(nowIso)).costUSD >= s.monthlyCostLimitUSD
    ensures d == Allowed <==>
      BucketOr(s.daily, DailyKey(nowIso)).tokens < s.dailyTokenLimit
      && BucketOr(s.monthly, MonthlyKey(nowIso)).costUSD < s.monthlyCostLimitUSD
  {
    var dailyTokens := BucketOr(s.daily, DailyKey(nowIso)).tokens;
    if dailyTokens >= s.dailyTokenLimit then Denied(DailyLimitReason)
    else
      var monthlyCost := BucketOr(s.monthly, MonthlyKey(nowIso)).costUSD;
      if monthlyCost >= s.monthlyCostLimitUSD then Denied(MonthlyLimitReason)
      else Allowed
  }

  /** A fresh summary allows usage. */
  lemma DefaultAllows(userId: string, nowMs: int, nowIso: string)
    ensures Decide(DefaultSummary(userId, nowMs), nowIso) == Allowed
  {
  }

  /** Logging more usage never lifts a denial for the same day. */
  lemma DenialPersists(s: UsageSummary, nowIso: string, tokens: int, cost: real, nowMs: int)
    requires tokens >= 0 && cost >= 0.0
    requires Decide(s, nowIso).Denied?
    ensures Decide(AddUsage(s, DailyKey(nowIso), MonthlyKey(nowIso), tokens, cost, nowMs), nowIso).Denied?
  {
  }

  /** One call that uses the whole daily allowance blocks the rest of the day. */
  lemma BigCallHitsDailyLimit(s: UsageSummary, nowIso: string, tokens: int, cost: real, nowMs: int)
    requires tokens >= s.dailyTokenLimit && BucketOr(s.daily, DailyKey(nowIso)).tokens >= 0
    ensures Decide(AddUsage(s, DailyKey(nowIso), MonthlyKey(nowIso), tokens, cost, nowMs), nowIso) == Denied(DailyLimitReason)
  {
  }

  datatype LogOutcome = Skipped | Written | LogThrew

  class UsageStore {
    /** The `usageLogs` collection, in insertion order. */
    var logs: seq<UsageLog>
    /** The `usageSummary` collection, by user id. */
    var summaries: map<string, UsageSummary>

    constructor ()
      ensures logs == [] && summaries == map[]
    {
      logs := [];
      summaries := map[];
    }

    /** The stored summary, or the default one a first call starts from. */
    function SummaryOr(userId: string, nowMs: int): UsageSummary
      reads this
    {
      if userId in summaries then summaries[userId] else DefaultSummary(userId, nowMs)
    }

    /** `logUsage`: appends a log entry and adds the call to the user's day and month buckets. */
    method LogUsage(mode: DbMode, userId: string, provider: UsageProvider, model: string,
                    promptTokens: int, completionTokens: int, costUSD: real, nowIso: string, nowMs: int)
      returns (outcome: LogOutcome)
      modifies this
      ensures mode == ServerWithoutDb ==> outcome == Skipped && logs == old(logs) && summaries == old(summaries)
      ensures mode == ClientWithoutDb ==> outcome == LogThrew && logs == old(logs) && summaries == old(summaries)
      ensures mode == Available ==>
        && outcome == Written
        && logs == old(logs) + [UsageLog(userId, provider, model, promptTokens, completionTokens,
                                         promptTokens + completionTokens, costUSD, nowMs)]
        && summaries == old(summaries)[userId := AddUsage(old(SummaryOr(userId, nowMs)), DailyKey(nowIso), MonthlyKey(nowIso),
                                                          promptTokens + completionTokens, costUSD, nowMs)]
    {
      if mode == ClientWithoutDb {
        return LogThrew;
      }
      if mode == ServerWithoutDb {
        return Skipped;
      }
      var totalTokens := promptTokens + completionTokens;
      var dailyKey := DailyKey(nowIso);
      var monthlyKey := MonthlyKey(nowIso);
      logs := logs + [UsageLog(userId, provider, model, promptTokens, completionTokens, totalTokens, costUSD, nowMs)];

      var summary := if userId in summaries then summaries[userId] else DefaultSummary(userId, nowMs);
      var dailyBucket := if dailyKey in summary.daily then summary.daily[dailyKey] else Bucket(0, 0.0);
      var monthlyBucket := if monthlyKey in summary.monthly then summary.monthly[monthlyKey] else Bucket(0, 0.0);
      dailyBucket := dailyBucket.(tokens := dailyBucket.tokens + totalTokens);
      dailyBucket := dailyBucket.(costUSD := dailyBucket.costUSD + costUSD);
      monthlyBucket := monthlyBucket.(tokens := monthlyBucket.tokens + totalTokens);
      monthlyBucket := monthlyBucket.(costUSD := monthlyBucket.costUSD + costUSD);
      summary := summary.(daily := summary.daily[dailyKey := dailyBucket]);
      summary := summary.(monthly := summary.monthly[monthlyKey := monthlyBucket]);
      summary := summary.(updatedAt := nowMs);
      summaries := summaries[userId := summary];
      outcome := Written;
    }

    /** `getUsageSummary`: the stored summary; a missing one is created with the defaults and returned. */
    method GetUsageSummary(mode: DbMode, userId: string, nowMs: int) returns (result: Outcome<UsageSummary>)
      modifies this`summaries
      ensures mode == ServerWithoutDb ==> result == Returned(DefaultSummary(userId, nowMs)) && summaries == old(summaries)
      ensures mode == ClientWithoutDb ==> result == Threw && summaries == old(summaries)
      ensures mode == Available ==> result == Returned(old(SummaryOr(userId, nowMs)))
      ensures mode == Available ==> summaries == old(summaries)[userId := old(SummaryOr(userId, nowMs))]
    {
      if mode == ClientWithoutDb {
        return Threw;
      }
      if mode == ServerWithoutDb {
        return Returned(DefaultSummary(userId, nowMs));
      }
      if userId !in summaries {
        var defaultSummary := DefaultSummary(userId, nowMs);
        summaries := summaries[userId := defaultSummary];
        return Returned(defaultSummary);
      }
      result := Returned(summaries[userId]);
    }

    /** `checkUsageAllowed`: reads (or creates) the summary, then applies the limit rule. */
    method CheckUsageAllowed(mode: DbMode, userId: string, nowIso: string, nowMs: int) returns (result: Outcome<Decision>)
      modifies this`summaries
      ensures mode == ServerWithoutDb ==> result == Returned(Allowed)
      ensures mode == ClientWithoutDb ==> result == Threw
      ensures mode == Available ==> result == Returned(Decide(old(SummaryOr(userId, nowMs)), nowIso))
      ensures mode == Available ==> summaries == old(summaries)[userId := old(SummaryOr(userId, nowMs))]
      ensures mode != Available ==> summaries == old(summaries)
    {
      var summary := GetUsageSummary(mode, userId, nowMs);
      if summary.Threw? {
        return Threw;
      }
      if mode == ServerWithoutDb {
        DefaultAllows(userId, nowMs, nowIso);
      }
      result := Returned(Decide(summary.value, nowIso));
    }
  }
}
