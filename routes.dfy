/**
 * The decision logic of the server's request handlers: the free-trial scan
 * gate, the eligibility and subscription-status reports, the demo
 * subscription and the two lookups that answer 404. A reply is a datatype
 * with its HTTP status; "now" (milliseconds) and the random demo ids are
 * parameters.
 */
module Routes {
  import opened Base
  import opened Storage

  /** Thirty days in milliseconds: `30 * 24 * 60 * 60 * 1000`. */
  const ThirtyDays: int := 2592000000

  const SubscriptionRequiredMessage := "تم استنفاد التجارب المجانية. يرجى الاشتراك للمتابعة"
  const StripeRedirectMessage := "Use /api/create-subscription for real Stripe integration"
  const DemoMessage := "Demo subscription created (Stripe not configured)"

  datatype Reply =
    | ScanStored(scan: SecurityScan)
    | SubscriptionRequired(message: string)
    | ScanFound(found: SecurityScan)
    | ThreatResolved(threat: Threat)
    | NotFound(error: string)
    | StripeRedirect(message: string)
    | DemoSubscribed(user: Option<User>, message: string)
    | StatusReport(subscriptionType: string, subscriptionStatus: string,
                   subscriptionExpiresAt: Option<int>, isActive: Option<bool>)

  /** The HTTP status each reply is sent with. */
  function StatusCode(reply: Reply): int {
    match reply
    case SubscriptionRequired(_) => 403
    case NotFound(_) => 404
    case _ => 200
  }

  /** JavaScript truthiness of `isActive`, where None stands for `null`. */
  predicate Truthy(b: Option<bool>) {
    b == Some(true)
  }

  // ---------------------------------------------------------------------------
  // POST /api/security-actions/scan

  /** `if (userId)`: a missing or zero user id skips the free-scan gate. */
  predicate GivenUser(userId: Option<int>) {
    userId.Some? && userId.value != 0
  }

  /**
   * The scan action. With a user id, a user who may not scan gets 403 and
   * nothing changes; otherwise the counter goes up by exactly one (even for
   * subscribers) and then the scan is stored. Without a user id the scan is
   * stored and no counter moves. The error reply of the handler is never
   * reached: a user who passes the gate exists, so the increment succeeds.
   */
  method SecurityScanAction(db: DatabaseStorage, userId: Option<int>, now: int) returns (reply: Reply)
    requires db.Valid()
    modifies db
    ensures db.Valid()
    ensures reply.SubscriptionRequired? || reply.ScanStored?
    ensures reply.SubscriptionRequired? <==> GivenUser(userId) && !old(db.CanPerformFreeScan(userId.value, now))
    ensures reply.SubscriptionRequired? ==>
              reply.message == SubscriptionRequiredMessage && StatusCode(reply) == 403 && unchanged(db)
    ensures reply.ScanStored? ==>
              && db.scans == old(db.scans) + [reply.scan]
              && reply.scan.userId.None? && reply.scan.securityScore == 85 && reply.scan.isActive
              && (GivenUser(userId) ==> db.users == UpdateUsers(old(db.users), userId.value, WithOneMoreScan))
              && (!GivenUser(userId) ==> db.users == old(db.users))
              && unchanged(db`threats, db`settings)
  {
    if userId.Some? && userId.value != 0 {
      var canScan := db.CanPerformFreeScan(userId.value, now);
      if !canScan {
        return SubscriptionRequired(SubscriptionRequiredMessage);
      }
      var incremented := db.IncrementFreeScansUsed(userId.value);
      assert incremented.Ok?;
    }
    var scan := db.PerformSecurityScan(now);
    reply := ScanStored(scan);
  }

  // ---------------------------------------------------------------------------
  // GET /api/check-free-scan/:userId

  datatype Eligibility = Eligibility(
    canPerformFreeScan: bool,
    freeScansUsed: int,
    freeScansLimit: int,
    subscriptionStatus: Option<string>)

  /** The eligibility report; `user?.x || default` fills in 0 and 2 for a missing user. */
  function CheckFreeScan(db: DatabaseStorage, userId: int, now: int): (r: Eligibility)
    reads db
    ensures db.GetUser(userId).None? ==> r == Eligibility(false, 0, 2, None)
    ensures db.GetUser(userId).Some? ==>
              && (r.canPerformFreeScan <==> MayScan(db.GetUser(userId).value, now))
              && r.freeScansUsed == db.GetUser(userId).value.freeScansUsed
              && r.freeScansLimit == EffectiveLimit(db.GetUser(userId).value.freeScansLimit)
              && r.subscriptionStatus == Some(db.GetUser(userId).value.subscriptionStatus)
  {
    var canScan := db.CanPerformFreeScan(userId, now);
    var user := db.GetUser(userId);
    Eligibility(
      canScan,
      if user.Some? then OrElse(Nonzero(user.value.freeScansUsed), 0) else 0,
      if user.Some? then OrElse(Nonzero(user.value.freeScansLimit), 2) else 2,
      if user.Some? then Some(user.value.subscriptionStatus) else None)
  }

  /**
   * The report agrees with itself: for a user without an active subscription
   * the verdict is exactly "used below limit" on the numbers it reports, and
   * a missing user is reported as not allowed although 0 < 2.
   */
  lemma EligibilityIsConsistent(db: DatabaseStorage, userId: int, now: int)
    ensures var r := CheckFreeScan(db, userId, now);
            db.GetUser(userId).Some? && !HasActiveSubscription(db.GetUser(userId).value, now)
            ==> (r.canPerformFreeScan <==> r.freeScansUsed < r.freeScansLimit)
    ensures var r := CheckFreeScan(db, userId, now);
            db.GetUser(userId).None? ==> !r.canPerformFreeScan && r.freeScansUsed < r.freeScansLimit
  {
  }

  // ---------------------------------------------------------------------------
  // GET /api/subscription-status/:userId

  /**
   * `status === "active" && expiresAt && expiresAt > now`: the `&&` chain
   * yields false, or `null` when the status is active but no expiry is set,
   * or the comparison.
   */
  function IsActive(user: User, now: int): (r: Option<bool>)
    ensures Truthy(r) <==> HasActiveSubscription(user, now)
    ensures r.None? <==> user.subscriptionStatus == "active" && user.subscriptionExpiresAt.None?
  {
    if user.subscriptionStatus != "active" then Some(false)
    else if user.subscriptionExpiresAt.None? then None
    else Some(user.subscriptionExpiresAt.value > now)
  }

  /** The subscription-status report: 404 for an unknown user. */
  function SubscriptionStatus(db: DatabaseStorage, userId: int, now: int): (r: Reply)
    reads db
    ensures r.NotFound? <==> db.GetUser(userId).None?
    ensures StatusCode(r) == 404 || r.StatusReport?
    ensures r.StatusReport? ==>
              && (Truthy(r.isActive) <==> HasActiveSubscription(db.GetUser(userId).value, now))
              && r.subscriptionStatus == db.GetUser(userId).value.subscriptionStatus
              && r.subscriptionExpiresAt == db.GetUser(userId).value.subscriptionExpiresAt
              && r.subscriptionType == db.GetUser(userId).value.subscriptionType
              && r.isActive == IsActive(db.GetUser(userId).value, now)
  {
    match db.GetUser(userId)
    case None => NotFound("User not found")
    case Some(user) =>
      StatusReport(user.subscriptionType, user.subscriptionStatus, user.subscriptionExpiresAt, IsActive(user, now))
  }

  /** A reported active subscription is one the free-scan gate lets through. */
  lemma ActiveStatusPassesGate(db: DatabaseStorage, userId: int, now: int)
    requires SubscriptionStatus(db, userId, now).StatusReport?
    requires Truthy(SubscriptionStatus(db, userId, now).isActive)
    ensures db.CanPerformFreeScan(userId, now)
    ensures CheckFreeScan(db, userId, now).canPerformFreeScan
  {
  }

  // ---------------------------------------------------------------------------
  // POST /api/subscribe (demo mode)

  /** The fields the demo subscription writes. */
  function DemoUpdate(subscriptionType: Option<string>, now: int, customerSuffix: string, subscriptionSuffix: string)
    : (u: SubscriptionUpdate)
    ensures u.subscriptionStatus == "active"
    ensures u.subscriptionExpiresAt == Some(now + ThirtyDays)
    ensures subscriptionType.None? || subscriptionType == Some("") ==> u.subscriptionType == "premium"
    ensures subscriptionType.Some? && subscriptionType.value != "" ==> u.subscriptionType == subscriptionType.value
    ensures u.stripeCustomerId == Some("demo_cus_" + customerSuffix)
    ensures u.stripeSubscriptionId == Some("demo_sub_" + subscriptionSuffix)
  {
    SubscriptionUpdate(
      if subscriptionType.Some? && subscriptionType.value != "" then subscriptionType.value else "premium",
      "active",
      Some(now + 30 * 24 * 60 * 60 * 1000),
      Some("demo_cus_" + customerSuffix),
      Some("demo_sub_" + subscriptionSuffix))
  }

  /**
   * With a payment provider configured the reply only points there and nothing
   * changes; otherwise the user (id 1 when none or 0 is given) gets an active
   * subscription for thirty days.
   */
  method Subscribe(db: DatabaseStorage, userId: Option<int>, subscriptionType: Option<string>,
                   stripeConfigured: bool, now: int, customerSuffix: string, subscriptionSuffix: string)
    returns (reply: Reply)
    requires db.Valid()
    modifies db
    ensures db.Valid()
    ensures stripeConfigured ==> reply == StripeRedirect(StripeRedirectMessage) && unchanged(db)
    ensures !stripeConfigured ==>
              var target := if GivenUser(userId) then userId.value else 1;
              var update := DemoUpdate(subscriptionType, now, customerSuffix, subscriptionSuffix);
              && db.users == UpdateUsers(old(db.users), target, u => ApplySubscription(u, update))
              && reply.DemoSubscribed?
              && (reply.user.None? <==> old(db.GetUser(target)).None?)
              && (reply.user.Some? ==> reply.user.value == ApplySubscription(old(db.GetUser(target)).value, update))
              && unchanged(db`scans, db`threats, db`settings)
  {
    if stripeConfigured {
      return StripeRedirect(StripeRedirectMessage);
    }
    var update := DemoUpdate(subscriptionType, now, customerSuffix, subscriptionSuffix);
    var target := if userId.Some? && userId.value != 0 then userId.value else 1;
    var user := db.UpdateUserSubscription(target, update);
    reply := DemoSubscribed(user, DemoMessage);
  }

  /**
   * A demo subscriber passes the free-scan gate at every moment of the next
   * thirty days, whatever the counter, and no longer from then on.
   */
  lemma DemoSubscriptionLastsThirtyDays(user: User, subscriptionType: Option<string>, now: int,
                                        customerSuffix: string, subscriptionSuffix: string, t: int)
    ensures var subscribed := ApplySubscription(user, DemoUpdate(subscriptionType, now, customerSuffix, subscriptionSuffix));
            && (t < now + ThirtyDays ==> HasActiveSubscription(subscribed, t) && MayScan(subscribed, t))
            && (t >= now + ThirtyDays ==> !HasActiveSubscription(subscribed, t))
  {
  }

  // ---------------------------------------------------------------------------
  // GET /api/security-scan/:id and PATCH /api/threats/:id/resolve

  /** The scan with the id, or 404 exactly when there is none. */
  function GetScanById(db: DatabaseStorage, id: int): (r: Reply)
    reads db
    ensures r.NotFound? <==> forall i :: 0 <= i < |db.scans| ==> db.scans[i].id != id
    ensures r.NotFound? ==> r.error == "Scan not found" && StatusCode(r) == 404
    ensures !r.NotFound? ==> r.ScanFound? && r.found in db.scans && r.found.id == id
  {
    match db.GetSecurityScan(id)
    case None => NotFound("Scan not found")
    case Some(scan) => ScanFound(scan)
  }

  /** Resolves the threat with the id, or answers 404 exactly when there is none. */
  method ResolveThreatRoute(db: DatabaseStorage, id: int) returns (reply: Reply)
    requires db.Valid()
    modifies db
    ensures db.Valid()
    ensures reply.NotFound? <==> forall i :: 0 <= i < |old(db.threats)| ==> old(db.threats)[i].id != id
    ensures reply.NotFound? ==> reply.error == "Threat not found" && StatusCode(reply) == 404
    ensures !reply.NotFound? ==> reply.ThreatResolved? && reply.threat.id == id && reply.threat.isResolved
    ensures db.threats == ResolveRows(old(db.threats), id)
  {
    var threat := db.ResolveThreat(id);
    if threat.None? {
      return NotFound("Threat not found");
    }
    reply := ThreatResolved(threat.value);
  }
}
