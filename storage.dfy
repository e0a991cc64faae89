/**
 * The server's storage layer, over in-memory tables instead of a database:
 * users with their free-scan counters and subscriptions, security scans,
 * threats and the security settings. Each table is a sequence of rows in
 * insertion order; ids come from one counter per table, as a serial column
 * hands them out. Times are milliseconds since the epoch, and "now" is a
 * parameter.
 */
module Storage {
  import opened Base

  // ---------------------------------------------------------------------------
  // Rows

  datatype User = User(
    id: nat,
    username: string,
    password: string,
    email: Option<string>,
    subscriptionType: string,
    stripeCustomerId: Option<string>,
    stripeSubscriptionId: Option<string>,
    subscriptionStatus: string,
    subscriptionExpiresAt: Option<int>,
    freeScansUsed: int,
    freeScansLimit: int,
    createdAt: int)

  /** A stored scan; the three JSON columns are kept as JSON text. */
  datatype SecurityScan = SecurityScan(
    id: nat,
    userId: Option<int>,
    deviceInfo: string,
    browserInfo: string,
    threats: string,
    securityScore: int,
    scanDate: int,
    isActive: bool)

  datatype Threat = Threat(
    id: nat,
    scanId: int,
    kind: string,
    severity: string,
    title: string,
    description: string,
    recommendation: string,
    isResolved: bool,
    detectedAt: int)

  datatype SecuritySettings = SecuritySettings(
    id: nat,
    userId: Option<int>,
    notifications: string,
    autoScan: bool,
    alertLevel: string)

  // Inserted values: columns with a default may be left out (None).

  datatype NewUser = NewUser(username: string, password: string)

  datatype NewScan = NewScan(
    userId: Option<int>,
    deviceInfo: string,
    browserInfo: string,
    threats: string,
    securityScore: int,
    isActive: Option<bool>)

  datatype NewThreat = NewThreat(
    scanId: int,
    kind: string,
    severity: string,
    title: string,
    description: string,
    recommendation: string,
    isResolved: Option<bool>)

  /** Settings to insert or to set; a field left out (None) keeps its value on update. */
  datatype NewSettings = NewSettings(
    userId: Option<int>,
    notifications: Option<string>,
    autoScan: Option<bool>,
    alertLevel: Option<string>)

  /** The fields `updateUserSubscription` sets; the optional ones are left alone when absent. */
  datatype SubscriptionUpdate = SubscriptionUpdate(
    subscriptionType: string,
    subscriptionStatus: string,
    subscriptionExpiresAt: Option<int>,
    stripeCustomerId: Option<string>,
    stripeSubscriptionId: Option<string>)

  // Column defaults of the schema.
  const DefaultSubscriptionType := "free"
  const DefaultSubscriptionStatus := "inactive"
  const DefaultFreeScansUsed := 0
  const DefaultFreeScansLimit := 2
  const DefaultAlertLevel := "medium"

  function OrElse<T>(o: Option<T>, default: T): T {
    if o.Some? then o.value else default
  }

  // ---------------------------------------------------------------------------
  // The free-scan rule

  /** `user.freeScansLimit || 2`: a stored limit of 0 is falsy and reads as 2. */
  function EffectiveLimit(limit: int): (r: int)
    ensures limit != 0 ==> r == limit
    ensures limit == 0 ==> r == DefaultFreeScansLimit
  {
    if limit != 0 then limit else 2
  }

  /** A subscription counts when its status is 'active' and it expires after `now`. */
  predicate HasActiveSubscription(user: User, now: int) {
    user.subscriptionStatus == "active" && user.subscriptionExpiresAt.Some? && user.subscriptionExpiresAt.value > now
  }

  /** The test `canPerformFreeScan` applies to a found user. */
  predicate MayScan(user: User, now: int) {
    HasActiveSubscription(user, now) || user.freeScansUsed < EffectiveLimit(user.freeScansLimit)
  }

  /** The user after one more free scan: only the counter moves. */
  function WithOneMoreScan(user: User): (r: User)
    ensures r.freeScansUsed == user.freeScansUsed + 1
    ensures r.(freeScansUsed := user.freeScansUsed) == user
  {
    user.(freeScansUsed := user.freeScansUsed + 1)
  }

  /** The user after `k` increments: `k` more scans counted, nothing else changed. */
  function Repeat(user: User, k: nat): (r: User)
    ensures r.freeScansUsed == user.freeScansUsed + k
    ensures r.(freeScansUsed := user.freeScansUsed) == user
    decreases k
  {
    if k == 0 then user else WithOneMoreScan(Repeat(user, k - 1))
  }

  /**
   * Without a subscription, a user whose counter starts at `used` may take
   * exactly `limit - used` more scans: the test holds after k more scans
   * iff `used + k < limit`. A subscriber may scan whatever the counter says.
   */
  lemma FreeScansRunOut(user: User, now: int, k: nat)
    ensures MayScan(Repeat(user, k), now)
        <==> HasActiveSubscription(user, now) || user.freeScansUsed + k < EffectiveLimit(user.freeScansLimit)
    decreases k
  {
    var r := Repeat(user, k);
    assert r.subscriptionStatus == user.subscriptionStatus && r.subscriptionExpiresAt == user.subscriptionExpiresAt;
    assert r.freeScansLimit == user.freeScansLimit;
  }

  // ---------------------------------------------------------------------------
  // Lookups and updates by id over a table

  /** The first user row with this id (`where id = ?`, first row). */
  function FindUser(rows: seq<User>, id: int): (r: Option<User>)
    ensures r.Some? ==> r.value in rows && r.value.id == id
    ensures r.None? <==> forall i :: 0 <= i < |rows| ==> rows[i].id != id
  {
    if rows == [] then None
    else if rows[0].id == id then Some(rows[0])
    else FindUser(rows[1..], id)
  }

  function FindScan(rows: seq<SecurityScan>, id: int): (r: Option<SecurityScan>)
    ensures r.Some? ==> r.value in rows && r.value.id == id
    ensures r.None? <==> forall i :: 0 <= i < |rows| ==> rows[i].id != id
  {
    if rows == [] then None
    else if rows[0].id == id then Some(rows[0])
    else FindScan(rows[1..], id)
  }

  function FindThreat(rows: seq<Threat>, id: int): (r: Option<Threat>)
    ensures r.Some? ==> r.value in rows && r.value.id == id
    ensures r.None? <==> forall i :: 0 <= i < |rows| ==> rows[i].id != id
  {
    if rows == [] then None
    else if rows[0].id == id then Some(rows[0])
    else FindThreat(rows[1..], id)
  }

  /** `update(users).set(...).where(id = ?)`: every row with the id becomes `f` of itself. */
  function UpdateUsers(rows: seq<User>, id: int, f: User -> User): (r: seq<User>)
    ensures |r| == |rows|
    ensures forall i :: 0 <= i < |rows| ==> r[i] == if rows[i].id == id then f(rows[i]) else rows[i]
  {
    seq(|rows|, i requires 0 <= i < |rows| => if rows[i].id == id then f(rows[i]) else rows[i])
  }

  /** After an update that keeps ids, the row found for the id is the updated first row. */
  lemma {:induction false} FindUpdatedUser(rows: seq<User>, id: int, f: User -> User)
    requires forall u :: f(u).id == u.id
    ensures FindUser(UpdateUsers(rows, id, f), id) == if FindUser(rows, id).Some? then Some(f(FindUser(rows, id).value)) else None
  {
    if rows != [] {
      assert UpdateUsers(rows, id, f)[1..] == UpdateUsers(rows[1..], id, f);
      FindUpdatedUser(rows[1..], id, f);
    }
  }

  /** The subscription fields `set` writes; an absent optional field keeps its value. */
  function ApplySubscription(user: User, update: SubscriptionUpdate): User {
    user.(subscriptionType := update.subscriptionType,
          subscriptionStatus := update.subscriptionStatus,
          subscriptionExpiresAt := if update.subscriptionExpiresAt.Some? then update.subscriptionExpiresAt else user.subscriptionExpiresAt,
          stripeCustomerId := if update.stripeCustomerId.Some? then update.stripeCustomerId else user.stripeCustomerId,
          stripeSubscriptionId := if update.stripeSubscriptionId.Some? then update.stripeSubscriptionId else user.stripeSubscriptionId)
  }

  /** The settings fields `set` writes; an absent field keeps its value. */
  function ApplySettings(row: SecuritySettings, update: NewSettings): SecuritySettings {
    row.(userId := if update.userId.Some? then update.userId else row.userId,
         notifications := OrElse(update.notifications, row.notifications),
         autoScan := OrElse(update.autoScan, row.autoScan),
         alertLevel := OrElse(update.alertLevel, row.alertLevel))
  }

  // ---------------------------------------------------------------------------
  // Threat queries

  /** `where isResolved = false`, in table order. */
  function Unresolved(rows: seq<Threat>): (r: seq<Threat>)
    ensures forall t :: t in r <==> t in rows && !t.isResolved
    ensures |r| <= |rows|
  {
    if rows == [] then []
    else (if rows[0].isResolved then [] else [rows[0]]) + Unresolved(rows[1..])
  }

  /** `set({ isResolved: true }).where(id = ?)` on the threats table. */
  function ResolveRows(rows: seq<Threat>, id: int): (r: seq<Threat>)
    ensures |r| == |rows|
    ensures forall i :: 0 <= i < |rows| ==> r[i] == if rows[i].id == id then rows[i].(isResolved := true) else rows[i]
  {
    seq(|rows|, i requires 0 <= i < |rows| => if rows[i].id == id then rows[i].(isResolved := true) else rows[i])
  }

  /** After resolving, the row found for the id is the resolved first row. */
  lemma {:induction false} FindResolvedThreat(rows: seq<Threat>, id: int)
    ensures FindThreat(ResolveRows(rows, id), id)
         == if FindThreat(rows, id).Some? then Some(FindThreat(rows, id).value.(isResolved := true)) else None
  {
    if rows != [] {
      assert ResolveRows(rows, id)[1..] == ResolveRows(rows[1..], id);
      FindResolvedThreat(rows[1..], id);
    }
  }

  /** Resolving twice is resolving once, and a resolved id has no unresolved row left. */
  lemma ResolveIsIdempotent(rows: seq<Threat>, id: int)
    ensures ResolveRows(ResolveRows(rows, id), id) == ResolveRows(rows, id)
    ensures forall t :: t in Unresolved(ResolveRows(rows, id)) ==> t.id != id
  {
    var once := ResolveRows(rows, id);
    forall t | t in Unresolved(once) ensures t.id != id {
      var i :| 0 <= i < |once| && once[i] == t;
    }
  }

  predicate NewestFirst(rows: seq<Threat>) {
    forall i, j :: 0 <= i < j < |rows| ==> rows[i].detectedAt >= rows[j].detectedAt
  }

  /** Puts `t` into a newest-first list. */
  function InsertByDate(t: Threat, rows: seq<Threat>): (r: seq<Threat>)
    requires NewestFirst(rows)
    ensures NewestFirst(r)
    ensures multiset(r) == multiset(rows) + multiset{t}
  {
    if rows == [] then [t]
    else if t.detectedAt >= rows[0].detectedAt then [t] + rows
    else
      var rest := InsertByDate(t, rows[1..]);
      assert rows == [rows[0]] + rows[1..];
      NoNewerThanHead(rows, t, rest);
      [rows[0]] + rest
  }

  /** Every row of `rest`, the tail of `rows` with `t` added, is no newer than the head of `rows`. */
  lemma NoNewerThanHead(rows: seq<Threat>, t: Threat, rest: seq<Threat>)
    requires NewestFirst(rows) && |rows| > 0
    requires t.detectedAt < rows[0].detectedAt
    requires multiset(rest) == multiset(rows[1..]) + multiset{t}
    ensures forall i :: 0 <= i < |rest| ==> rest[i].detectedAt <= rows[0].detectedAt
  {
    forall i | 0 <= i < |rest|
      ensures rest[i].detectedAt <= rows[0].detectedAt
    {
      assert rest[i] in multiset(rest);
      if rest[i] != t {
        assert rest[i] in multiset(rows[1..]);
        var k :| 0 <= k < |rows[1..]| && rows[1..][k] == rest[i];
        assert rows[k + 1] == rest[i];
      }
    }
  }

  /** `orderBy(desc(detectedAt))`. */
  function SortByDate(rows: seq<Threat>): (r: seq<Threat>)
    ensures NewestFirst(r)
    ensures multiset(r) == multiset(rows)
  {
    if rows == [] then []
    else
      assert rows == [rows[0]] + rows[1..];
      InsertByDate(rows[0], SortByDate(rows[1..]))
  }

  // ---------------------------------------------------------------------------
  // Scan queries

  /** The first active scan with the greatest scan date. */
  function LatestActive(rows: seq<SecurityScan>): (r: Option<SecurityScan>)
    ensures r.None? <==> forall i :: 0 <= i < |rows| ==> !rows[i].isActive
    ensures r.Some? ==> r.value in rows && r.value.isActive
    ensures r.Some? ==> forall i :: 0 <= i < |rows| && rows[i].isActive ==> rows[i].scanDate <= r.value.scanDate
  {
    if rows == [] then None
    else
      var rest := LatestActive(rows[1..]);
      assert forall i :: 1 <= i < |rows| ==> rows[i] == rows[1..][i - 1];
      if !rows[0].isActive then rest
      else if rest.Some? && rest.value.scanDate > rows[0].scanDate then rest
      else Some(rows[0])
  }

  // ---------------------------------------------------------------------------
  // The store

  const MockDeviceInfo := "{\"userAgent\":\"Mock User Agent\",\"platform\":\"Mock Platform\",\"language\":\"ar\",\"cookieEnabled\":true,\"onlineStatus\":true,\"screenResolution\":\"1920x1080\",\"timezone\":\"Asia/Riyadh\"}"
  const MockBrowserInfo := "{\"name\":\"Chrome\",\"version\":\"119.0\",\"engine\":\"Blink\",\"plugins\":[],\"extensions\":[],\"localStorage\":true,\"sessionStorage\":true,\"doNotTrack\":null,\"javaEnabled\":false}"

  /** The scan `performSecurityScan` stores for demonstration. */
  const MockScan := NewScan(None, MockDeviceInfo, MockBrowserInfo, "[]", 85, Some(true))

  /** Ids are positive, distinct and below the counter that hands out the next one. */
  predicate IdsValid(ids: seq<nat>, next: nat) {
    && next >= 1
    && (forall i :: 0 <= i < |ids| ==> 1 <= ids[i] < next)
    && (forall i, j :: 0 <= i < j < |ids| ==> ids[i] != ids[j])
  }

  lemma IdsValidAppend(ids: seq<nat>, next: nat)
    requires IdsValid(ids, next)
    ensures IdsValid(ids + [next], next + 1)
  {
  }

  function UserIds(rows: seq<User>): (r: seq<nat>)
    ensures |r| == |rows| && forall i :: 0 <= i < |rows| ==> r[i] == rows[i].id
  {
    seq(|rows|, i requires 0 <= i < |rows| => rows[i].id)
  }

  function ScanIds(rows: seq<SecurityScan>): (r: seq<nat>)
    ensures |r| == |rows| && forall i :: 0 <= i < |rows| ==> r[i] == rows[i].id
  {
    seq(|rows|, i requires 0 <= i < |rows| => rows[i].id)
  }

  function ThreatIds(rows: seq<Threat>): (r: seq<nat>)
    ensures |r| == |rows| && forall i :: 0 <= i < |rows| ==> r[i] == rows[i].id
  {
    seq(|rows|, i requires 0 <= i < |rows| => rows[i].id)
  }

  function SettingsIds(rows: seq<SecuritySettings>): (r: seq<nat>)
    ensures |r| == |rows| && forall i :: 0 <= i < |rows| ==> r[i] == rows[i].id
  {
    seq(|rows|, i requires 0 <= i < |rows| => rows[i].id)
  }

  /** The counter `(user.freeScansUsed || 0) + 1` written to the only row with the id is one more scan. */
  lemma SetCountIsOneMoreScan(rows: seq<User>, next: nat, id: int, count: int)
    requires IdsValid(UserIds(rows), next)
    requires FindUser(rows, id).Some? && count == FindUser(rows, id).value.freeScansUsed + 1
    ensures UpdateUsers(rows, id, (u: User) => u.(freeScansUsed := count)) == UpdateUsers(rows, id, WithOneMoreScan)
  {
    OnlyRowWithId(rows, next, id);
  }

  /** With distinct ids, every row carrying the id of a found row is that row. */
  lemma OnlyRowWithId(rows: seq<User>, next: nat, id: int)
    requires IdsValid(UserIds(rows), next)
    requires FindUser(rows, id).Some?
    ensures forall i :: 0 <= i < |rows| && rows[i].id == id ==> rows[i] == FindUser(rows, id).value
  {
    var k :| 0 <= k < |rows| && rows[k] == FindUser(rows, id).value;
    forall i | 0 <= i < |rows| && rows[i].id == id ensures rows[i] == FindUser(rows, id).value {
      assert UserIds(rows)[i] == id == UserIds(rows)[k];
      assert i == k;
    }
  }

  class DatabaseStorage {
    var users: seq<User>
    var scans: seq<SecurityScan>
    var threats: seq<Threat>
    var settings: seq<SecuritySettings>
    var nextUserId: nat
    var nextScanId: nat
    var nextThreatId: nat
    var nextSettingsId: nat

    /** Every table's ids are positive, distinct and below that table's counter. */
    predicate Valid()
      reads this
    {
      && IdsValid(UserIds(users), nextUserId)
      && IdsValid(ScanIds(scans), nextScanId)
      && IdsValid(ThreatIds(threats), nextThreatId)
      && IdsValid(SettingsIds(settings), nextSettingsId)
    }

    constructor()
      ensures Valid()
      ensures users == [] && scans == [] && threats == [] && settings == []
    {
      users := [];
      scans := [];
      threats := [];
      settings := [];
      nextUserId := 1;
      nextScanId := 1;
      nextThreatId := 1;
      nextSettingsId := 1;
    }

    /** `getUser`. */
    function GetUser(id: int): (r: Option<User>)
      reads this
      ensures r.Some? ==> r.value in users && r.value.id == id
      ensures r.None? <==> forall i :: 0 <= i < |users| ==> users[i].id != id
    {
      FindUser(users, id)
    }

    /** `createUser`: the new row takes the next id and the column defaults. */
    method CreateUser(newUser: NewUser, now: int) returns (user: User)
      requires Valid()
      modifies this
      ensures Valid()
      ensures user == User(old(nextUserId), newUser.username, newUser.password, None,
                           DefaultSubscriptionType, None, None, DefaultSubscriptionStatus, None,
                           DefaultFreeScansUsed, DefaultFreeScansLimit, now)
      ensures users == old(users) + [user]
      ensures unchanged(`scans, `threats, `settings, `nextScanId, `nextThreatId, `nextSettingsId)
    {
      user := User(nextUserId, newUser.username, newUser.password, None,
                   DefaultSubscriptionType, None, None, DefaultSubscriptionStatus, None,
                   DefaultFreeScansUsed, DefaultFreeScansLimit, now);
      IdsValidAppend(UserIds(users), nextUserId);
      assert UserIds(users + [user]) == UserIds(users) + [nextUserId];
      users := users + [user];
      nextUserId := nextUserId + 1;
    }

    /**
     * `updateUserSubscription`: every row with the id gets the subscription
     * fields; the result is the updated row, or nothing for an unknown id.
     */
    method UpdateUserSubscription(userId: int, update: SubscriptionUpdate) returns (user: Option<User>)
      requires Valid()
      modifies this
      ensures Valid()
      ensures users == UpdateUsers(old(users), userId, u => ApplySubscription(u, update))
      ensures user.None? <==> old(GetUser(userId)).None?
      ensures user.Some? ==> user.value == ApplySubscription(old(GetUser(userId)).value, update)
      ensures unchanged(`scans, `threats, `settings, `nextUserId, `nextScanId, `nextThreatId, `nextSettingsId)
    {
      var f := u => ApplySubscription(u, update);
      var before := users;
      FindUpdatedUser(before, userId, f);
      users := UpdateUsers(before, userId, f);
      assert UserIds(users) == UserIds(before);
      user := FindUser(users, userId);
    }

    /**
     * `incrementFreeScansUsed`: an unknown id is an error and changes nothing;
     * otherwise that user's counter goes up by exactly one and nothing else
     * changes.
     */
    method IncrementFreeScansUsed(userId: int) returns (result: Result<User, string>)
      requires Valid()
      modifies this
      ensures Valid()
      ensures old(GetUser(userId)).None? ==> result == Err("User not found") && users == old(users)
      ensures old(GetUser(userId)).Some? ==>
                && result == Ok(WithOneMoreScan(old(GetUser(userId)).value))
                && users == UpdateUsers(old(users), userId, WithOneMoreScan)
      ensures unchanged(`scans, `threats, `settings, `nextUserId, `nextScanId, `nextThreatId, `nextSettingsId)
    {
      var found := FindUser(users, userId);
      if found.None? {
        return Err("User not found");
      }
      var user := found.value;
      var count := OrElse(Nonzero(user.freeScansUsed), 0) + 1;
      var f := (u: User) => u.(freeScansUsed := count);
      var before := users;
      SetCountIsOneMoreScan(before, nextUserId, userId, count);
      FindUpdatedUser(before, userId, WithOneMoreScan);
      users := UpdateUsers(before, userId, f);
      assert UserIds(users) == UserIds(before);
      result := Ok(FindUser(users, userId).value);
    }

    /** `canPerformFreeScan`: false for an unknown id, else the free-scan rule on the row. */
    function CanPerformFreeScan(userId: int, now: int): (r: bool)
      reads this
      ensures GetUser(userId).None? ==> !r
      ensures GetUser(userId).Some? ==> (r <==> MayScan(GetUser(userId).value, now))
    {
      match FindUser(users, userId)
      case None => false
      case Some(user) =>
        if user.subscriptionStatus == "active" && user.subscriptionExpiresAt.Some? && user.subscriptionExpiresAt.value > now
        then true
        else OrElse(Nonzero(user.freeScansUsed), 0) < OrElse(Nonzero(user.freeScansLimit), 2)
    }

    /** `createSecurityScan`: the new row takes the next id, `now` as its date and is active by default. */
    method CreateSecurityScan(newScan: NewScan, now: int) returns (scan: SecurityScan)
      requires Valid()
      modifies this
      ensures Valid()
      ensures scan == SecurityScan(old(nextScanId), newScan.userId, newScan.deviceInfo, newScan.browserInfo,
                                   newScan.threats, newScan.securityScore, now, OrElse(newScan.isActive, true))
      ensures scans == old(scans) + [scan]
      ensures unchanged(`users, `threats, `settings, `nextUserId, `nextThreatId, `nextSettingsId)
    {
      scan := SecurityScan(nextScanId, newScan.userId, newScan.deviceInfo, newScan.browserInfo,
                           newScan.threats, newScan.securityScore, now, OrElse(newScan.isActive, true));
      IdsValidAppend(ScanIds(scans), nextScanId);
      assert ScanIds(scans + [scan]) == ScanIds(scans) + [nextScanId];
      scans := scans + [scan];
      nextScanId := nextScanId + 1;
    }

    /** `getLatestSecurityScan`: an active scan no other active scan is newer than, or nothing. */
    function GetLatestSecurityScan(): (r: Option<SecurityScan>)
      reads this
      ensures r.None? <==> forall i :: 0 <= i < |scans| ==> !scans[i].isActive
      ensures r.Some? ==> r.value in scans && r.value.isActive
      ensures r.Some? ==> forall i :: 0 <= i < |scans| && scans[i].isActive ==> scans[i].scanDate <= r.value.scanDate
    {
      LatestActive(scans)
    }

    /** `getSecurityScan`. */
    function GetSecurityScan(id: int): (r: Option<SecurityScan>)
      reads this
      ensures r.Some? ==> r.value in scans && r.value.id == id
      ensures r.None? <==> forall i :: 0 <= i < |scans| ==> scans[i].id != id
    {
      FindScan(scans, id)
    }

    /** `performSecurityScan`: stores the fixed demonstration scan (no user, score 85, active). */
    method PerformSecurityScan(now: int) returns (scan: SecurityScan)
      requires Valid()
      modifies this
      ensures Valid()
      ensures scan.userId.None? && scan.securityScore == 85 && scan.isActive && scan.scanDate == now
      ensures scan.threats == "[]"
      ensures scans == old(scans) + [scan] && scan.id == old(nextScanId)
      ensures unchanged(`users, `threats, `settings, `nextUserId, `nextThreatId, `nextSettingsId)
    {
      scan := CreateSecurityScan(MockScan, now);
    }

    /** `createThreat`: the new row takes the next id, `now` as its date and is unresolved by default. */
    method CreateThreat(newThreat: NewThreat, now: int) returns (threat: Threat)
      requires Valid()
      modifies this
      ensures Valid()
      ensures threat == Threat(old(nextThreatId), newThreat.scanId, newThreat.kind, newThreat.severity, newThreat.title,
                               newThreat.description, newThreat.recommendation, OrElse(newThreat.isResolved, false), now)
      ensures threats == old(threats) + [threat]
      ensures unchanged(`users, `scans, `settings, `nextUserId, `nextScanId, `nextSettingsId)
    {
      threat := Threat(nextThreatId, newThreat.scanId, newThreat.kind, newThreat.severity, newThreat.title,
                       newThreat.description, newThreat.recommendation, OrElse(newThreat.isResolved, false), now);
      IdsValidAppend(ThreatIds(threats), nextThreatId);
      assert ThreatIds(threats + [threat]) == ThreatIds(threats) + [nextThreatId];
      threats := threats + [threat];
      nextThreatId := nextThreatId + 1;
    }

    /** `getActiveThreats`: exactly the unresolved rows, newest first. */
    function GetActiveThreats(): (r: seq<Threat>)
      reads this
      ensures NewestFirst(r)
      ensures multiset(r) == multiset(Unresolved(threats))
      ensures forall t :: t in r <==> t in threats && !t.isResolved
    {
      var rows := SortByDate(Unresolved(threats));
      assert forall t :: t in rows <==> t in multiset(Unresolved(threats));
      rows
    }

    /**
     * `resolveThreat`: marks the rows with the id resolved and returns the
     * first, or nothing for an unknown id. The id then has no active threat.
     */
    method ResolveThreat(id: int) returns (threat: Option<Threat>)
      requires Valid()
      modifies this
      ensures Valid()
      ensures threats == ResolveRows(old(threats), id)
      ensures threat.None? <==> old(FindThreat(threats, id)).None?
      ensures threat.Some? ==> threat.value == old(FindThreat(threats, id)).value.(isResolved := true)
      ensures forall t :: t in Unresolved(threats) ==> t.id != id
      ensures unchanged(`users, `scans, `settings, `nextUserId, `nextScanId, `nextThreatId, `nextSettingsId)
    {
      var before := threats;
      FindResolvedThreat(before, id);
      ResolveIsIdempotent(before, id);
      threats := ResolveRows(before, id);
      assert ThreatIds(threats) == ThreatIds(before);
      threat := FindThreat(threats, id);
    }

    /** `getSecuritySettings`: the first row, if any. */
    function GetSecuritySettings(): (r: Option<SecuritySettings>)
      reads this
      ensures r.None? <==> settings == []
      ensures r.Some? ==> r.value == settings[0]
    {
      if settings == [] then None else Some(settings[0])
    }

    /**
     * `updateSecuritySettings`: with a row present, that first row is updated
     * and no row is added; with none, one row is inserted with the defaults.
     */
    method UpdateSecuritySettings(update: NewSettings) returns (row: SecuritySettings)
      requires Valid()
      modifies this
      ensures Valid()
      ensures old(settings) != [] ==>
                && settings == [ApplySettings(old(settings)[0], update)] + old(settings)[1..]
                && row == settings[0]
      ensures old(settings) == [] ==>
                && settings == [row]
                && row == SecuritySettings(old(nextSettingsId), update.userId, OrElse(update.notifications, ""),
                                           OrElse(update.autoScan, true), OrElse(update.alertLevel, DefaultAlertLevel))
      ensures |settings| == if old(settings) == [] then 1 else |old(settings)|
      ensures unchanged(`users, `scans, `threats, `nextUserId, `nextScanId, `nextThreatId)
    {
      var existing := GetSecuritySettings();
      if existing.Some? {
        var before := settings;
        var first := existing.value.id;
        forall i | 1 <= i < |before| ensures before[i].id != first {
          assert SettingsIds(before)[i] != SettingsIds(before)[0];
        }
        settings := seq(|before|, i requires 0 <= i < |before| =>
                      if before[i].id == first then ApplySettings(before[i], update) else before[i]);
        assert settings == [ApplySettings(before[0], update)] + before[1..];
        assert SettingsIds(settings) == SettingsIds(before);
        row := settings[0];
      } else {
        row := SecuritySettings(nextSettingsId, update.userId, OrElse(update.notifications, ""),
                                OrElse(update.autoScan, true), OrElse(update.alertLevel, DefaultAlertLevel));
        IdsValidAppend(SettingsIds(settings), nextSettingsId);
        assert SettingsIds(settings + [row]) == SettingsIds(settings) + [nextSettingsId];
        settings := settings + [row];
        nextSettingsId := nextSettingsId + 1;
      }
    }
  }

  /** JavaScript truthiness of a number: 0 is falsy, so `x || d` is `d` for 0. */
  function Nonzero(x: int): (r: Option<int>)
    ensures r.None? <==> x == 0
    ensures r.Some? ==> r.value == x
  {
    if x == 0 then None else Some(x)
  }
}
