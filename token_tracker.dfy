/**
 * The token quota ledger of lib/token-tracker.ts: a token estimate for a
 * text, and the check and consume operations over the stored user records.
 *
 * The user table is a map from user id to record that the ledger reads
 * (`db.user.findById`) and rewrites (`db.user.update`). Whether a write
 * succeeds is an input, since the store is not part of this model, and the
 * current time is an integer.
 */
module TokenTracker {
  import opened Wrappers

  /** `calculateTokensUsed(text)`: `Math.ceil(text.length / 4)`. */
  function CalculateTokensUsed(text: string): (tokens: nat)
    ensures 4 * tokens >= |text|
    ensures 4 * tokens < |text| + 4
  {
    (|text| + 3) / 4
  }

  /** The estimate is the least whole number of tokens that covers four characters each. */
  lemma TokensAreCeiling(text: string, t: nat)
    requires 4 * t >= |text|
    ensures CalculateTokensUsed(text) <= t
    ensures text == "" ==> CalculateTokensUsed(text) == 0
  {
  }

  /** The stored `userType`: `'trial'`, `'paid'`, or any other string the table holds. */
  datatype UserType = Trial | Paid | Other(tag: string)

  /** A stored user; `subscriptionExpiresAt` is a time, or `None` when it is not set. */
  datatype User = User(
    email: string,
    name: string,
    userType: UserType,
    tokensUsed: int,
    tokenLimit: int,
    subscriptionExpiresAt: Option<int>)

  /** What `checkTokenLimit` reports. */
  datatype Usage = Usage(allowed: bool, tokensUsed: int, tokensRemaining: int, limit: int, userType: UserType)

  const UserNotFound: string := "User not found"

  const PaidLimit: int := 100000
  const TrialLimit: int := 1000

  /** The limit a user of this type must have, whatever the table says: 100000 for paid, 1000 otherwise. */
  function CorrectLimit(t: UserType): (limit: int)
    ensures t == Paid ==> limit == 100000
    ensures t != Paid ==> limit == 1000
  {
    if t == Paid then PaidLimit else TrialLimit
  }

  /** The record with its limit set to the correct one and its usage capped at that limit. */
  function Healed(u: User): (h: User)
    ensures h.tokenLimit == CorrectLimit(u.userType)
    ensures h.tokensUsed <= h.tokenLimit
    ensures u.tokensUsed <= CorrectLimit(u.userType) ==> h.tokensUsed == u.tokensUsed
    ensures u.tokensUsed > CorrectLimit(u.userType) ==> h.tokensUsed == CorrectLimit(u.userType)
    ensures h == u.(tokenLimit := h.tokenLimit, tokensUsed := h.tokensUsed)
  {
    var limit := CorrectLimit(u.userType);
    u.(tokenLimit := limit, tokensUsed := if u.tokensUsed > limit then limit else u.tokensUsed)
  }

  /**
   * A paid user's subscription is active when it has no expiry, or when its
   * expiry lies strictly after `now`: it has lapsed at the expiry instant
   * itself, and once lapsed it stays lapsed at every later instant.
   */
  function SubscriptionActive(u: User, now: int): (b: bool)
    ensures u.subscriptionExpiresAt.None? ==> b
    ensures u.subscriptionExpiresAt == Some(now) ==> !b
    ensures !b ==> u.subscriptionExpiresAt.Some? && u.subscriptionExpiresAt.value <= now
  {
    u.subscriptionExpiresAt.None? || u.subscriptionExpiresAt.value > now
  }

  /** A subscription that has lapsed stays lapsed. */
  lemma LapsedStaysLapsed(u: User, now: int, later: int)
    requires later >= now && !SubscriptionActive(u, now)
    ensures !SubscriptionActive(u, later)
  {
  }

  /**
   * The report computed from the record the call ends up with, measured against
   * the correct limit rather than the stored one.
   */
  function ReportFor(u: User, now: int): (r: Usage)
    ensures r.limit == CorrectLimit(u.userType) && r.tokensUsed == u.tokensUsed && r.userType == u.userType
    ensures r.tokensRemaining >= 0 && r.tokensRemaining >= r.limit - r.tokensUsed
    ensures r.tokensRemaining > 0 ==> r.tokensUsed + r.tokensRemaining == r.limit
    ensures r.allowed <==>
      (r.tokensUsed < r.limit && (u.userType == Trial || (u.userType == Paid && SubscriptionActive(u, now))))
  {
    var limit := CorrectLimit(u.userType);
    var remaining := limit - u.tokensUsed;
    var subscriptionActive := if u.userType == Paid && u.subscriptionExpiresAt.Some? then u.subscriptionExpiresAt.value > now else true;
    var allowed := (u.userType == Paid && subscriptionActive && remaining > 0) || (u.userType == Trial && remaining > 0);
    Usage(allowed, u.tokensUsed, if remaining > 0 then remaining else 0, limit, u.userType)
  }

  /** A trial user who has used up the limit is refused and has nothing left. */
  lemma TrialExhausted(u: User, now: int)
    requires u.userType == Trial && u.tokensUsed >= 1000
    ensures !ReportFor(u, now).allowed && ReportFor(u, now).tokensRemaining == 0 && ReportFor(u, now).limit == 1000
  {
  }

  /** A type other than trial or paid is never allowed, however few tokens it has used. */
  lemma OtherTypeNeverAllowed(u: User, now: int)
    requires u.userType.Other?
    ensures !ReportFor(u, now).allowed
  {
  }

  /** Healing a healed record changes nothing, so a second check after a successful write writes nothing. */
  lemma HealedIsStable(u: User)
    ensures Healed(u).tokenLimit == CorrectLimit(Healed(u).userType)
    ensures Healed(Healed(u)) == Healed(u)
  {
  }

  /** The record `consumeTokens` writes: `tokens` more used, nothing else touched. */
  function Consumed(u: User, tokens: int): (c: User)
    ensures c.tokensUsed - u.tokensUsed == tokens
    ensures c.(tokensUsed := u.tokensUsed) == u
  {
    u.(tokensUsed := u.tokensUsed + tokens)
  }

  /**
   * Consuming and then checking a user whose stored limit is already correct
   * reports exactly `tokens` more used, whatever that does to the limit.
   */
  lemma ConsumeThenReport(u: User, tokens: int, now: int)
    requires u.tokenLimit == CorrectLimit(u.userType)
    ensures Consumed(u, tokens).tokenLimit == CorrectLimit(Consumed(u, tokens).userType)
    ensures ReportFor(Consumed(u, tokens), now).tokensUsed == u.tokensUsed + tokens
    ensures ReportFor(Consumed(u, tokens), now).limit == ReportFor(u, now).limit
  {
  }

  /**
   * A trial record written with a limit of 100000 and 50000 tokens used (what
   * registration once stored) is healed to a limit of 1000 with 1000 used, and
   * then refused.
   */
  lemma LegacyTrialHealed(u: User, now: int)
    requires u.userType == Trial && u.tokenLimit == 100000 && u.tokensUsed == 50000
    ensures Healed(u).tokenLimit == 1000 && Healed(u).tokensUsed == 1000
    ensures ReportFor(Healed(u), now) == Usage(false, 1000, 0, 1000, Trial)
  {
  }

  /** The user table that the ledger reads and writes. */
  class TokenLedger {
    var users: map<string, User>

    constructor (users: map<string, User>)
      ensures this.users == users
    {
      this.users := users;
    }

    /**
     * `checkTokenLimit(userId)`. A missing user fails with "User not found".
     * When the stored limit is not the correct one, the healed record is
     * written back; if that write fails (`updateFails`) the error is swallowed,
     * the table keeps the old record, and the report uses the old usage against
     * the correct limit.
     */
    method CheckTokenLimit(userId: string, now: int, updateFails: bool) returns (r: Result<Usage>)
      modifies this
      ensures userId !in old(users) ==> r == Failure(UserNotFound) && users == old(users)
      ensures userId in old(users) ==> r.Success?
      ensures userId in old(users) ==>
        var u := old(users)[userId];
        if u.tokenLimit != CorrectLimit(u.userType) && !updateFails then
          users == old(users)[userId := Healed(u)] && r.value == ReportFor(Healed(u), now)
        else
          users == old(users) && r.value == ReportFor(u, now)
    {
      if userId !in users {
        return Failure(UserNotFound);
      }
      var user := users[userId];
      var isTrialUser := user.userType == Trial;
      var isPaidUser := user.userType == Paid;
      var correctLimit := if isPaidUser then PaidLimit else TrialLimit;
      if user.tokenLimit != correctLimit {
        var tokensUsedToStore := user.tokensUsed;
        if tokensUsedToStore > correctLimit {
          tokensUsedToStore := correctLimit;
        }
        if !updateFails {
          users := users[userId := user.(tokenLimit := correctLimit, tokensUsed := tokensUsedToStore)];
          user := user.(tokenLimit := correctLimit, tokensUsed := tokensUsedToStore);
        }
      }
      var tokensRemaining := correctLimit - user.tokensUsed;
      var hasRemainingTokens := tokensRemaining > 0;
      var subscriptionActive := true;
      if isPaidUser && user.subscriptionExpiresAt.Some? {
        subscriptionActive := user.subscriptionExpiresAt.value > now;
      }
      var allowed := (isPaidUser && subscriptionActive && hasRemainingTokens) || (isTrialUser && hasRemainingTokens);
      r := Success(Usage(allowed, user.tokensUsed, if tokensRemaining > 0 then tokensRemaining else 0, correctLimit, user.userType));
    }

    /**
     * `consumeTokens(userId, tokens)`: adds `tokens` to the user's usage with no
     * cap. A missing user fails with "User not found"; a failed write
     * (`updateError`) propagates and leaves the table as it was.
     */
    method ConsumeTokens(userId: string, tokens: int, updateError: Option<string>) returns (r: Result<()>)
      modifies this
      ensures userId !in old(users) ==> r == Failure(UserNotFound) && users == old(users)
      ensures userId in old(users) && updateError.Some? ==> r == Failure(updateError.value) && users == old(users)
      ensures userId in old(users) && updateError.None? ==>
        r == Success(()) && users == old(users)[userId := Consumed(old(users)[userId], tokens)]
    {
      if userId !in users {
        return Failure(UserNotFound);
      }
      var user := users[userId];
      if updateError.Some? {
        return Failure(updateError.value);
      }
      users := users[userId := user.(tokensUsed := user.tokensUsed + tokens)];
      r := Success(());
    }

    /** `getTokenUsage(userId)`: the same as `checkTokenLimit`. */
    method GetTokenUsage(userId: string, now: int, updateFails: bool) returns (r: Result<Usage>)
      modifies this
      ensures userId !in old(users) ==> r == Failure(UserNotFound) && users == old(users)
      ensures userId in old(users) ==> r.Success?
      ensures userId in old(users) ==>
        var u := old(users)[userId];
        if u.tokenLimit != CorrectLimit(u.userType) && !updateFails then
          users == old(users)[userId := Healed(u)] && r.value == ReportFor(Healed(u), now)
        else
          users == old(users) && r.value == ReportFor(u, now)
    {
      r := CheckTokenLimit(userId, now, updateFails);
    }
  }
}
