/**
 * lib/subscriptions.ts: the mapping between subscription plans and Stripe
 * price ids, the normalisation of Stripe's subscription status, and the shape
 * of the subscription document written on every billing event.
 *
 * The environment variables `STRIPE_PRICE_PLUS` and `STRIPE_PRICE_SUPER` are
 * the fields of a `PriceEnv` (`None` when unset).
 */
module Subscriptions {
  import opened Wrappers
  import JsString

  datatype Plan = Free | Plus | Super | Family

  datatype PriceEnv = PriceEnv(plus: Option<string>, super: Option<string>)

  /** `getPriceIdForPlan`: the configured price of a paid plan, `null` when it is unset or empty. */
  function GetPriceIdForPlan(plan: Plan, env: PriceEnv): (r: Option<string>)
    ensures plan == Plus ==> (r.Some? <==> JsString.Truthy(env.plus)) && (r.Some? ==> r == env.plus)
    ensures plan == Super ==> (r.Some? <==> JsString.Truthy(env.super)) && (r.Some? ==> r == env.super)
    ensures plan == Free || plan == Family ==> r == None
  {
    match plan
    case Plus => JsString.OrNull(env.plus)
    case Super => JsString.OrNull(env.super)
    case Free => None
    case Family => None
  }

  /** `planFromPriceId`: the plan whose configured price equals the id, the plus price checked first. */
  function PlanFromPriceId(priceId: Option<string>, env: PriceEnv): (r: Option<Plan>)
    ensures !JsString.Truthy(priceId) ==> r == None
    ensures JsString.Truthy(priceId) && priceId == env.plus ==> r == Some(Plus)
    ensures JsString.Truthy(priceId) && priceId != env.plus && priceId == env.super ==> r == Some(Super)
    ensures priceId != env.plus && priceId != env.super ==> r == None
  {
    if !JsString.Truthy(priceId) then None
    else if priceId == env.plus then Some(Plus)
    else if priceId == env.super then Some(Super)
    else None
  }

  /** Distinct non-empty prices make the two mappings inverse on the paid plans. */
  lemma PriceRoundTrip(plan: Plan, env: PriceEnv)
    requires JsString.Truthy(env.plus) && JsString.Truthy(env.super) && env.plus != env.super
    ensures plan == Plus || plan == Super ==> PlanFromPriceId(GetPriceIdForPlan(plan, env), env) == Some(plan)
    ensures plan == Free || plan == Family ==> PlanFromPriceId(GetPriceIdForPlan(plan, env), env) == None
  {
  }

  /** Any id a plan is recognised from is the price that plan is sold at. */
  lemma PlanRoundTrip(priceId: Option<string>, env: PriceEnv)
    requires PlanFromPriceId(priceId, env).Some?
    ensures GetPriceIdForPlan(PlanFromPriceId(priceId, env).value, env) == priceId
  {
  }

  /** With the same price configured twice, every subscriber of it is taken for a plus subscriber. */
  lemma SharedPriceMeansPlus(env: PriceEnv)
    requires JsString.Truthy(env.plus) && env.plus == env.super
    ensures PlanFromPriceId(GetPriceIdForPlan(Super, env), env) == Some(Plus)
  {
  }

  datatype SubscriptionStatus = Active | Trialing | PastDue | Canceled | Incomplete | IncompleteExpired | Unpaid

  /** The status as Stripe spells it. */
  function StatusName(s: SubscriptionStatus): string {
    match s
    case Active => "active"
    case Trialing => "trialing"
    case PastDue => "past_due"
    case Canceled => "canceled"
    case Incomplete => "incomplete"
    case IncompleteExpired => "incomplete_expired"
    case Unpaid => "unpaid"
  }

  /** `stripeStatusToSubscriptionStatus`: a known status is kept; anything else becomes "incomplete". */
  function StripeStatusToSubscriptionStatus(status: string): (r: SubscriptionStatus)
    ensures (exists s :: StatusName(s) == status) ==> StatusName(r) == status
    ensures (forall s :: StatusName(s) != status) ==> r == Incomplete
  {
    if status == "active" then Active
    else if status == "trialing" then Trialing
    else if status == "past_due" then PastDue
    else if status == "canceled" then Canceled
    else if status == "incomplete" then Incomplete
    else if status == "incomplete_expired" then IncompleteExpired
    else if status == "unpaid" then Unpaid
    else
      UnknownStatus(status);
      Incomplete
  }

  lemma UnknownStatus(status: string)
    requires status !in ["active", "trialing", "past_due", "canceled", "incomplete", "incomplete_expired", "unpaid"]
    ensures forall s :: StatusName(s) != status
  {
    forall s ensures StatusName(s) != status {
      match s
      case Active =>
      case Trialing =>
      case PastDue =>
      case Canceled =>
      case Incomplete =>
      case IncompleteExpired =>
      case Unpaid =>
    }
  }

  /** Every status survives a round trip through its name, so normalising twice is normalising once. */
  lemma StatusRoundTrip(s: SubscriptionStatus, status: string)
    ensures StripeStatusToSubscriptionStatus(StatusName(s)) == s
    ensures StripeStatusToSubscriptionStatus(StatusName(StripeStatusToSubscriptionStatus(status)))
         == StripeStatusToSubscriptionStatus(status)
  {
    match s
    case Active =>
    case Trialing =>
    case PastDue =>
    case Canceled =>
    case Incomplete =>
    case IncompleteExpired =>
    case Unpaid =>
  }

  /** The arguments of `upsertUserSubscription`; `None` is `null` or absent. */
  datatype SubscriptionInput = SubscriptionInput(
    userId: string, planId: Plan, status: SubscriptionStatus,
    priceId: Option<string>, currentPeriodEnd: Option<int>,
    customerId: Option<string>, subscriptionId: Option<string>, checkoutSessionId: Option<string>)

  /** The fields written to `subscriptions/{userId}`; `None` is `undefined`. Times are in milliseconds. */
  datatype SubscriptionDoc = SubscriptionDoc(
    userId: string, planId: Plan, status: SubscriptionStatus,
    priceId: Option<string>, customerId: Option<string>, subscriptionId: Option<string>, checkoutSessionId: Option<string>,
    currentPeriodEnd: Option<int>, updatedAt: int, createdAt: int)

  /** The payload of `upsertUserSubscription`: empty ids are dropped, and a period end in seconds becomes milliseconds. */
  function UpsertPayload(input: SubscriptionInput, nowMs: int): (d: SubscriptionDoc)
    ensures d.userId == input.userId && d.planId == input.planId && d.status == input.status
    ensures d.priceId == JsString.OrNull(input.priceId) && d.customerId == JsString.OrNull(input.customerId)
    ensures d.subscriptionId == JsString.OrNull(input.subscriptionId)
    ensures d.checkoutSessionId == JsString.OrNull(input.checkoutSessionId)
    ensures d.currentPeriodEnd.Some? <==> input.currentPeriodEnd.Some? && input.currentPeriodEnd.value != 0
    ensures d.currentPeriodEnd.Some? ==> d.currentPeriodEnd.value == input.currentPeriodEnd.value * 1000
    ensures d.updatedAt == nowMs && d.createdAt == nowMs
  {
    var payload := SubscriptionDoc(
      input.userId, input.planId, input.status,
      JsString.OrNull(input.priceId), JsString.OrNull(input.customerId),
      JsString.OrNull(input.subscriptionId), JsString.OrNull(input.checkoutSessionId),
      None, nowMs, nowMs);
    if input.currentPeriodEnd.Some? && input.currentPeriodEnd.value != 0
    then payload.(currentPeriodEnd := Some(input.currentPeriodEnd.value * 1000))
    else payload
  }

  /** Every id the payload carries is non-empty. */
  lemma PayloadIdsNonEmpty(input: SubscriptionInput, nowMs: int)
    ensures var d := UpsertPayload(input, nowMs);
      && (d.priceId.Some? ==> d.priceId.value != "")
      && (d.customerId.Some? ==> d.customerId.value != "")
      && (d.subscriptionId.Some? ==> d.subscriptionId.value != "")
      && (d.checkoutSessionId.Some? ==> d.checkoutSessionId.value != "")
  {
  }
}
