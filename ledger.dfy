/**
 * The usage ledger: one record per billed call to the language model, and
 * the daily count the rate limit is checked against.
 */
module UsageLedger {
  import opened Values

  /**
   * Calls a user may make per day. The service's tests create eleven records
   * as "DAILY_LIMIT usage records", so the limit is 11.
   */
  const DAILY_LIMIT: nat := 11

  const PROVIDER: string := "openai"

  /** A usage record. `day` stands for the calendar day of `created_at`. */
  datatype UsageRecord = UsageRecord(
    user: nat,
    recipe: Option<nat>,
    provider: string,
    model: string,
    prompt: string,
    promptTokens: nat,
    completionTokens: nat,
    day: int)

  predicate OnDay(r: UsageRecord, user: nat, day: int) {
    r.user == user && r.day == day
  }

  /** The number of `user`'s records dated `today`. */
  function CountToday(usages: seq<UsageRecord>, user: nat, today: int): (n: nat)
    ensures n <= |usages|
    ensures n == 0 <==> forall k :: 0 <= k < |usages| ==> !OnDay(usages[k], user, today)
    ensures n == |usages| <==> forall k :: 0 <= k < |usages| ==> OnDay(usages[k], user, today)
  {
    if usages == [] then 0
    else
      assert forall k :: 1 <= k < |usages| ==> usages[k] == usages[1..][k - 1];
      (if OnDay(usages[0], user, today) then 1 else 0) + CountToday(usages[1..], user, today)
  }

  /** The gate in front of every call: the user has used up today's quota. */
  predicate LimitReached(usages: seq<UsageRecord>, user: nat, today: int)
    ensures |usages| < DAILY_LIMIT ==> !LimitReached(usages, user, today)
    ensures (forall k :: 0 <= k < |usages| ==> OnDay(usages[k], user, today)) ==>
      (LimitReached(usages, user, today) <==> |usages| >= DAILY_LIMIT)
    ensures (forall k :: 0 <= k < |usages| ==> !OnDay(usages[k], user, today)) ==>
      !LimitReached(usages, user, today)
  {
    CountToday(usages, user, today) >= DAILY_LIMIT
  }

  /** Counting distributes over appending records to the ledger. */
  lemma {:induction false} CountTodayConcat(a: seq<UsageRecord>, b: seq<UsageRecord>, user: nat, today: int)
    ensures CountToday(a + b, user, today) == CountToday(a, user, today) + CountToday(b, user, today)
  {
    if a != [] {
      assert (a + b)[1..] == a[1..] + b;
      CountTodayConcat(a[1..], b, user, today);
    } else {
      assert a + b == b;
    }
  }

  /** Appending one record raises the count by one exactly when it is the user's, for today. */
  lemma CountTodayAppend(usages: seq<UsageRecord>, r: UsageRecord, user: nat, today: int)
    ensures CountToday(usages + [r], user, today)
         == CountToday(usages, user, today) + (if OnDay(r, user, today) then 1 else 0)
  {
    CountTodayConcat(usages, [r], user, today);
  }

  /**
   * Eleven records of the user dated today, after any history, trip the
   * limit.
   */
  lemma ElevenTodayTripLimit(history: seq<UsageRecord>, today11: seq<UsageRecord>, user: nat, today: int)
    requires |today11| == 11
    requires forall k :: 0 <= k < 11 ==> OnDay(today11[k], user, today)
    ensures LimitReached(history + today11, user, today)
  {
    CountTodayConcat(history, today11, user, today);
  }
}
