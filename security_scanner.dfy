/**
 * The deterministic part of the client-side security scanner: the two
 * scores, the release-year tables, the device-age buckets, the operating
 * system text, the browser classification and the two pattern checks that
 * add threats. Navigator values and the current year are parameters.
 */
module SecurityScanner {
  import opened Base
  import opened JsText

  datatype Severity = Critical | High | Medium | Low

  datatype ThreatType =
    | Extension | Setting | Network | Malware | Privacy | Permissions | Storage | Location
    | Camera | Microphone | App | File | Virus | Trojan | Spyware | Adware | Rootkit

  datatype SecurityThreat = SecurityThreat(
    kind: ThreatType,
    severity: Severity,
    title: string,
    description: string,
    recommendation: string,
    riskLevel: int,
    autoFixAvailable: bool)

  /** The four values `calculateDeviceAge` returns: 'حديث', 'متوسط', 'قديم', 'غير محدد'. */
  datatype DeviceAge = Recent | MiddleAged | Old | Undetermined

  function AgeLabel(age: DeviceAge): string {
    match age
    case Recent => "حديث"
    case MiddleAged => "متوسط"
    case Old => "قديم"
    case Undetermined => "غير محدد"
  }

  /** The fields of `DeviceInfo` the scores and checks read. */
  datatype DeviceInfo = DeviceInfo(
    userAgent: string,
    deviceMemory: Option<real>,
    hardwareConcurrency: int,
    connectionType: Option<string>,
    batteryLevel: Option<int>,
    deviceAge: DeviceAge)

  // ---------------------------------------------------------------------------
  // calculateSecurityScore

  function Deduction(s: Severity): nat {
    match s
    case Critical => 30
    case High => 20
    case Medium => 10
    case Low => 5
  }

  /** What the threats take off the starting 100, threat by threat. */
  function TotalDeduction(threats: seq<SecurityThreat>): nat
  {
    if threats == [] then 0
    else TotalDeduction(threats[..|threats| - 1]) + Deduction(threats[|threats| - 1].severity)
  }

  function SecurityScore(threats: seq<SecurityThreat>): int {
    if 100 - TotalDeduction(threats) < 0 then 0 else 100 - TotalDeduction(threats)
  }

  /** `calculateSecurityScore`: start at 100, take each threat's deduction off, floor at 0. */
  method CalculateSecurityScore(threats: seq<SecurityThreat>) returns (score: int)
    ensures score == SecurityScore(threats)
    ensures 0 <= score <= 100
    ensures score == 100 <==> TotalDeduction(threats) == 0
  {
    score := 100;
    for i := 0 to |threats|
      invariant score == 100 - TotalDeduction(threats[..i])
    {
      assert threats[..i + 1][..i] == threats[..i];
      match threats[i].severity {
        case Critical => score := score - 30;
        case High => score := score - 20;
        case Medium => score := score - 10;
        case Low => score := score - 5;
      }
    }
    assert threats[..|threats|] == threats;
    if score < 0 {
      score := 0;
    }
  }

  function CountSeverity(threats: seq<SecurityThreat>, s: Severity): nat {
    if threats == [] then 0
    else CountSeverity(threats[..|threats| - 1], s) + (if threats[|threats| - 1].severity == s then 1 else 0)
  }

  /** The deduction is 30 per critical, 20 per high, 10 per medium and 5 per low threat. */
  lemma {:induction false} TotalDeductionBySeverity(threats: seq<SecurityThreat>)
    ensures TotalDeduction(threats)
         == 30 * CountSeverity(threats, Critical) + 20 * CountSeverity(threats, High)
          + 10 * CountSeverity(threats, Medium) + 5 * CountSeverity(threats, Low)
  {
    if threats != [] {
      TotalDeductionBySeverity(threats[..|threats| - 1]);
    }
  }

  lemma {:induction false} TotalDeductionConcat(a: seq<SecurityThreat>, b: seq<SecurityThreat>)
    ensures TotalDeduction(a + b) == TotalDeduction(a) + TotalDeduction(b)
    decreases |b|
  {
    if b == [] {
      assert a + b == a;
    } else {
      var b' := b[..|b| - 1];
      assert (a + b)[..|a + b| - 1] == a + b';
      assert (a + b)[|a + b| - 1] == b[|b| - 1];
      TotalDeductionConcat(a, b');
    }
  }

  /** No threats score 100; another threat never raises the score and lowers any positive one. */
  lemma ScoreOfMoreThreats(threats: seq<SecurityThreat>, more: seq<SecurityThreat>)
    ensures SecurityScore([]) == 100
    ensures SecurityScore(threats + more) <= SecurityScore(threats)
    ensures more != [] && SecurityScore(threats) > 0 ==> SecurityScore(threats + more) < SecurityScore(threats)
  {
    TotalDeductionConcat(threats, more);
    if more != [] {
      TotalDeductionConcat(more[..|more| - 1], [more[|more| - 1]]);
      assert more[..|more| - 1] + [more[|more| - 1]] == more;
    }
  }

  /** The order in which threats were found does not change the score. */
  lemma ScoreIgnoresOrder(a: seq<SecurityThreat>, b: seq<SecurityThreat>)
    ensures SecurityScore(a + b) == SecurityScore(b + a)
  {
    TotalDeductionConcat(a, b);
    TotalDeductionConcat(b, a);
  }

  // ---------------------------------------------------------------------------
  // calculateDeviceSecurityScore

  /** `device.batteryLevel && device.batteryLevel < 20`: a level of 0 is falsy and not low. */
  predicate LowBattery(level: Option<int>) {
    level.Some? && level.value != 0 && level.value < 20
  }

  /** `device.connectionType && ['slow-2g', '2g'].includes(device.connectionType)`. */
  predicate SlowConnection(connection: Option<string>) {
    connection.Some? && connection.value != "" && (connection.value == "slow-2g" || connection.value == "2g")
  }

  /** `device.deviceMemory && device.deviceMemory >= 4`. */
  predicate LargeMemory(memory: Option<real>) {
    memory.Some? && memory.value != 0.0 && memory.value >= 4.0
  }

  function AgePenalty(age: DeviceAge): nat {
    if age == Old then 20 else if age == MiddleAged then 10 else 0
  }

  /** The penalties: old device 20, middle-aged 10, slow connection 15, low battery 5. */
  function Penalties(device: DeviceInfo): nat {
    AgePenalty(device.deviceAge)
    + (if SlowConnection(device.connectionType) then 15 else 0)
    + (if LowBattery(device.batteryLevel) then 5 else 0)
  }

  /** The bonuses: 5 for at least 4 GB of memory, 5 for at least 4 cores. */
  function Bonuses(device: DeviceInfo): nat {
    (if LargeMemory(device.deviceMemory) then 5 else 0) + (if device.hardwareConcurrency >= 4 then 5 else 0)
  }

  /** `Math.max(0, Math.min(100, x))`. */
  function Clamp(x: int): (r: int)
    ensures 0 <= r <= 100
    ensures 0 <= x <= 100 ==> r == x
  {
    if x < 0 then 0 else if x > 100 then 100 else x
  }

  /** `calculateDeviceSecurityScore`: 100, minus the penalties, plus the bonuses, clamped to [0, 100]. */
  method CalculateDeviceSecurityScore(device: DeviceInfo) returns (score: int)
    ensures score == Clamp(100 - Penalties(device) + Bonuses(device))
    ensures 0 <= score <= 100
  {
    score := 100;
    if device.deviceAge == Old {
      score := score - 20;
    } else if device.deviceAge == MiddleAged {
      score := score - 10;
    }
    if device.connectionType.Some? && device.connectionType.value != ""
       && device.connectionType.value in ["slow-2g", "2g"] {
      score := score - 15;
    }
    if device.batteryLevel.Some? && device.batteryLevel.value != 0 && device.batteryLevel.value < 20 {
      score := score - 5;
    }
    if device.deviceMemory.Some? && device.deviceMemory.value != 0.0 && device.deviceMemory.value >= 4.0 {
      score := score + 5;
    }
    if device.hardwareConcurrency >= 4 {
      score := score + 5;
    }
    score := if score > 100 then 100 else score;
    score := if score < 0 then 0 else score;
  }

  function DeviceScore(device: DeviceInfo): int {
    Clamp(100 - Penalties(device) + Bonuses(device))
  }

  /**
   * The score is never below 60 (the penalties add up to at most 40); a device
   * with no penalty scores exactly 100 whatever its bonuses; a penalised one
   * scores at most 100 - its penalties + 10.
   */
  lemma DeviceScoreRange(device: DeviceInfo)
    ensures 60 <= DeviceScore(device) <= 100
    ensures Penalties(device) == 0 ==> DeviceScore(device) == 100
    ensures DeviceScore(device) <= 100 - Penalties(device) + 10
  {
  }

  /** Hence the system check, which reports a rootkit below 40, never fires. */
  lemma SystemCheckNeverFires(device: DeviceInfo)
    ensures !(DeviceScore(device) < 40)
  {
    DeviceScoreRange(device);
  }

  /** A battery reading of 0 counts as no reading at all, while 1..19 are penalised. */
  lemma EmptyBatteryIsNotLow(device: DeviceInfo, level: int)
    ensures DeviceScore(device.(batteryLevel := Some(0))) == DeviceScore(device.(batteryLevel := None))
    ensures 1 <= level < 20 ==>
      DeviceScore(device.(batteryLevel := Some(level))) <= DeviceScore(device.(batteryLevel := None))
  {
  }

  function AgeRank(age: DeviceAge): nat {
    match age
    case Undetermined => 0
    case Recent => 0
    case MiddleAged => 1
    case Old => 2
  }

  /** An older age bucket never scores higher. */
  lemma OlderDeviceScoresNoHigher(device: DeviceInfo, age: DeviceAge)
    requires AgeRank(age) >= AgeRank(device.deviceAge)
    ensures DeviceScore(device.(deviceAge := age)) <= DeviceScore(device)
  {
  }

  // ---------------------------------------------------------------------------
  // Release years and device age

  /** `getAndroidReleaseYear`: Android 5..14 were released in 2014..2023; other versions read as 2020. */
  function AndroidReleaseYear(version: int): (year: int)
    ensures 5 <= version <= 14 ==> year == version + 2009
    ensures !(5 <= version <= 14) ==> year == 2020
  {
    var releases := map[14 := 2023, 13 := 2022, 12 := 2021, 11 := 2020, 10 := 2019,
                        9 := 2018, 8 := 2017, 7 := 2016, 6 := 2015, 5 := 2014];
    if version in releases && releases[version] != 0 then releases[version] else 2020
  }

  /** `getIOSReleaseYear`: iOS 8..17 were released in 2014..2023; other versions read as 2020. */
  function IOSReleaseYear(version: int): (year: int)
    ensures 8 <= version <= 17 ==> year == version + 2006
    ensures !(8 <= version <= 17) ==> year == 2020
  {
    var releases := map[17 := 2023, 16 := 2022, 15 := 2021, 14 := 2020, 13 := 2019,
                        12 := 2018, 11 := 2017, 10 := 2016, 9 := 2015, 8 := 2014];
    if version in releases && releases[version] != 0 then releases[version] else 2020
  }

  /** At most a year old is recent, at most three middle-aged, older is old. */
  function AgeBucket(age: int): DeviceAge {
    if age <= 1 then Recent else if age <= 3 then MiddleAged else Old
  }

  const AndroidMajor := NumberPattern("Android ", None, false)    // /Android (\d+)/
  const IOSMajor := NumberPattern("OS ", Some('_'), false)         // /OS (\d+)_/
  const AndroidVersion := NumberPattern("Android ", Some('.'), true) // /Android (\d+\.\d+)/
  const IOSVersion := NumberPattern("OS ", Some('_'), true)        // /OS (\d+)_(\d+)/
  const WindowsVersion := NumberPattern("Windows NT ", Some('.'), true) // /Windows NT (\d+\.\d+)/

  /**
   * The release year `calculateDeviceAge` works from: by the first `Android <n>`
   * if there is one, else by the first `OS <n>_`, else none.
   */
  function DeviceReleaseYear(userAgent: string): Option<int> {
    match Match(userAgent, AndroidMajor)
    case Some(android) => Some(AndroidReleaseYear(DigitsValue(android.0)))
    case None =>
      match Match(userAgent, IOSMajor)
      case Some(ios) => Some(IOSReleaseYear(DigitsValue(ios.0)))
      case None => None
  }

  /** `calculateDeviceAge`, with the current year as a parameter. */
  function CalculateDeviceAge(userAgent: string, currentYear: int): (r: DeviceAge)
  {
    match DeviceReleaseYear(userAgent)
    case Some(releaseYear) => AgeBucket(currentYear - releaseYear)
    case None => Undetermined
  }

  /**
   * The age is undetermined exactly when neither `Android <n>` nor `OS <n>_`
   * occurs; an Android version wins over an iOS one.
   */
  lemma DeviceAgeCases(userAgent: string, currentYear: int)
    ensures CalculateDeviceAge(userAgent, currentYear) == Undetermined
        <==> !Occurs(userAgent, AndroidMajor) && !Occurs(userAgent, IOSMajor)
    ensures Occurs(userAgent, AndroidMajor) ==>
      CalculateDeviceAge(userAgent, currentYear)
        == AgeBucket(currentYear - AndroidReleaseYear(DigitsValue(Match(userAgent, AndroidMajor).value.0)))
  {
    DeviceAgeUndetermined(userAgent, currentYear);
    if Match(userAgent, AndroidMajor).Some? {
      DeviceAgeFromAndroid(userAgent, currentYear);
    }
    assert Match(userAgent, AndroidMajor).None? <==> !Occurs(userAgent, AndroidMajor);
    assert Match(userAgent, IOSMajor).None? <==> !Occurs(userAgent, IOSMajor);
  }

  /** The age is undetermined exactly when both patterns fail to match. */
  lemma DeviceAgeUndetermined(userAgent: string, currentYear: int)
    ensures CalculateDeviceAge(userAgent, currentYear) == Undetermined
        <==> Match(userAgent, AndroidMajor).None? && Match(userAgent, IOSMajor).None?
  {
  }

  /** An Android match decides the age. */
  lemma DeviceAgeFromAndroid(userAgent: string, currentYear: int)
    requires Match(userAgent, AndroidMajor).Some?
    ensures CalculateDeviceAge(userAgent, currentYear)
         == AgeBucket(currentYear - AndroidReleaseYear(DigitsValue(Match(userAgent, AndroidMajor).value.0)))
  {
    assert DeviceReleaseYear(userAgent) == Some(AndroidReleaseYear(DigitsValue(Match(userAgent, AndroidMajor).value.0)));
  }

  /** Without an Android match, an iOS match decides the age. */
  lemma DeviceAgeFromIOS(userAgent: string, currentYear: int)
    requires Match(userAgent, AndroidMajor).None? && Match(userAgent, IOSMajor).Some?
    ensures CalculateDeviceAge(userAgent, currentYear)
         == AgeBucket(currentYear - IOSReleaseYear(DigitsValue(Match(userAgent, IOSMajor).value.0)))
  {
    assert DeviceReleaseYear(userAgent) == Some(IOSReleaseYear(DigitsValue(Match(userAgent, IOSMajor).value.0)));
  }

  /** As the years pass, a device only gets older. */
  lemma DeviceAgeGrows(userAgent: string, year1: int, year2: int)
    requires year1 <= year2
    ensures AgeRank(CalculateDeviceAge(userAgent, year1)) <= AgeRank(CalculateDeviceAge(userAgent, year2))
  {
    match DeviceReleaseYear(userAgent)
    case Some(releaseYear) => AgeBucketGrows(year1 - releaseYear, year2 - releaseYear);
    case None =>
  }

  lemma AgeBucketGrows(age1: int, age2: int)
    requires age1 <= age2
    ensures AgeRank(AgeBucket(age1)) <= AgeRank(AgeBucket(age2))
  {
  }

  /** `extractOSVersion`. */
  function ExtractOSVersion(userAgent: string): string {
    match Match(userAgent, AndroidVersion)
    case Some(v) => "Android " + v.0 + "." + v.1
    case None =>
      match Match(userAgent, IOSVersion)
      case Some(v) => "iOS " + v.0 + "." + v.1
      case None =>
        match Match(userAgent, WindowsVersion)
        case Some(v) => "Windows " + v.0 + "." + v.1
        case None => "غير محدد"
  }

  /** An Android version wins whenever the user agent has one. */
  lemma OSVersionFromAndroid(userAgent: string)
    requires Match(userAgent, AndroidVersion).Some?
    ensures var v := Match(userAgent, AndroidVersion).value;
            ExtractOSVersion(userAgent) == "Android " + v.0 + "." + v.1
  {
  }

  /** Without an Android version, an iOS version comes next. */
  lemma OSVersionFromIOS(userAgent: string)
    requires Match(userAgent, AndroidVersion).None?
    requires Match(userAgent, IOSVersion).Some?
    ensures var v := Match(userAgent, IOSVersion).value;
            ExtractOSVersion(userAgent) == "iOS " + v.0 + "." + v.1
  {
  }

  /** Only without Android and iOS versions does a Windows NT version count. */
  lemma OSVersionFromWindows(userAgent: string)
    requires Match(userAgent, AndroidVersion).None?
    requires Match(userAgent, IOSVersion).None?
    requires Match(userAgent, WindowsVersion).Some?
    ensures var v := Match(userAgent, WindowsVersion).value;
            ExtractOSVersion(userAgent) == "Windows " + v.0 + "." + v.1
  {
  }

  /** The version is "undetermined" exactly when none of the three patterns occurs. */
  lemma OSVersionUndetermined(userAgent: string)
    ensures ExtractOSVersion(userAgent) == "غير محدد" <==>
              !Occurs(userAgent, AndroidVersion) && !Occurs(userAgent, IOSVersion)
              && !Occurs(userAgent, WindowsVersion)
  {
    var r := ExtractOSVersion(userAgent);
    if Match(userAgent, AndroidVersion).Some? {
      assert r[0] == 'A';
    } else if Match(userAgent, IOSVersion).Some? {
      assert r[0] == 'i';
    } else if Match(userAgent, WindowsVersion).Some? {
      assert r[0] == 'W';
    }
  }

  /**
   * The two Android patterns disagree: "Android 13" (no minor version, as the
   * reduced user-agent strings of current browsers send) has an age but no
   * operating-system version.
   */
  lemma AndroidWithoutMinorVersion()
    ensures CalculateDeviceAge("Android 13", 2025) == MiddleAged
    ensures ExtractOSVersion("Android 13") == "غير محدد"
  {
    AndroidThirteenAge();
    AndroidThirteenHasNoVersion();
  }

  lemma AndroidThirteenAge()
    ensures Match("Android 13", AndroidMajor) == Some(("13", ""))
    ensures CalculateDeviceAge("Android 13", 2025) == MiddleAged
  {
    var ua := "Android 13";
    assert MatchesAt(ua, AndroidMajor, 0);
    assert DigitRunEnd(ua, 8) == 10;
    assert ua[8..10] == "13";
    assert DigitsValue("13") == 13;
    assert FirstMatchFrom(ua, AndroidMajor, 0) == Some(0);
  }

  lemma AndroidThirteenHasNoVersion()
    ensures ExtractOSVersion("Android 13") == "غير محدد"
  {
    var ua := "Android 13";
    forall t ensures !MatchesAt(ua, AndroidVersion, t) {
    }
    forall t ensures !MatchesAt(ua, IOSVersion, t) {
    }
    forall t ensures !MatchesAt(ua, WindowsVersion, t) {
    }
  }

  // ---------------------------------------------------------------------------
  // Browser classification

  datatype BrowserKind = BrowserKind(name: string, version: string, engine: string)

  /** The version group of a `<name>/<major>.<minor>` pattern, or 'Unknown'. */
  function VersionOrUnknown(userAgent: string, p: NumberPattern): string
    requires WellFormed(p)
  {
    match Match(userAgent, p)
    case Some(v) => v.0 + "." + v.1
    case None => "Unknown"
  }

  /** The browser-detection block of `getBrowserInfo`, on the lowercased user agent. */
  function ClassifyBrowser(userAgent: string): BrowserKind {
    var ua := ToLower(userAgent);
    if Includes(ua, "chrome") then
      BrowserKind("Chrome", VersionOrUnknown(ua, NumberPattern("chrome/", Some('.'), true)), "Blink")
    else if Includes(ua, "firefox") then
      BrowserKind("Firefox", VersionOrUnknown(ua, NumberPattern("firefox/", Some('.'), true)), "Gecko")
    else if Includes(ua, "safari") then
      BrowserKind("Safari", VersionOrUnknown(ua, NumberPattern("version/", Some('.'), true)), "WebKit")
    else if Includes(ua, "edge") then
      BrowserKind("Edge", VersionOrUnknown(ua, NumberPattern("edge/", Some('.'), true)), "EdgeHTML")
    else BrowserKind("Unknown", "Unknown", "Unknown")
  }

  /**
   * The first of 'chrome', 'firefox', 'safari', 'edge' found wins, so a user
   * agent that names Chrome is Chrome whatever else it names, Edge is reported
   * only when none of the other three occurs, and no hit is 'Unknown'.
   */
  lemma BrowserFirstMatchWins(userAgent: string)
    ensures var ua := ToLower(userAgent);
            var name := ClassifyBrowser(userAgent).name;
            && (Includes(ua, "chrome") <==> name == "Chrome")
            && (name == "Firefox" <==> !Includes(ua, "chrome") && Includes(ua, "firefox"))
            && (name == "Safari" <==> !Includes(ua, "chrome") && !Includes(ua, "firefox") && Includes(ua, "safari"))
            && (name == "Edge" <==> !Includes(ua, "chrome") && !Includes(ua, "firefox")
                                     && !Includes(ua, "safari") && Includes(ua, "edge"))
            && (name == "Unknown" <==> !Includes(ua, "chrome") && !Includes(ua, "firefox")
                                        && !Includes(ua, "safari") && !Includes(ua, "edge"))
  {
  }

  lemma ToLowerIdempotent(s: string)
    ensures ToLower(ToLower(s)) == ToLower(s)
  {
  }

  /** Classification ignores letter case. */
  lemma ClassifyBrowserIgnoresCase(userAgent: string)
    ensures ClassifyBrowser(ToLower(userAgent)) == ClassifyBrowser(userAgent)
  {
    ToLowerIdempotent(userAgent);
  }

  // ---------------------------------------------------------------------------
  // Plugin and user-agent pattern checks of detectThreats

  /** `deviceInfo.batteryLevel && deviceInfo.batteryLevel < 15`. */
  predicate CriticalBattery(level: Option<int>) {
    level.Some? && level.value != 0 && level.value < 15
  }

  /** `deviceInfo.deviceMemory && deviceInfo.deviceMemory < 2`. */
  predicate SmallMemory(memory: Option<real>) {
    memory.Some? && memory.value != 0.0 && memory.value < 2.0
  }

  const OldDeviceThreat := SecurityThreat(
    Setting, Critical,
    "جهاز قديم معرض للخطر",
    "جهازك قديم ولا يتلقى تحديثات أمنية، مما يجعله عرضة للاختراق",
    "استبدل جهازك أو قم بتحديث نظام التشغيل فوراً",
    95, false)

  const LowBatteryThreat := SecurityThreat(
    Privacy, Medium,
    "خطر أمني بسبب انخفاض البطارية",
    "البطارية منخفضة جداً، قد يؤدي إلى تعطيل ميزات الأمان",
    "اشحن جهازك فوراً لضمان عمل ميزات الأمان",
    60, false)

  const LowMemoryThreat := SecurityThreat(
    Setting, High,
    "ذاكرة منخفضة تؤثر على الأمان",
    "ذاكرة الجهاز منخفضة، مما قد يعطل عمل تطبيقات الأمان",
    "أغلق التطبيقات غير الضرورية أو ترقّ الجهاز",
    75, true)

  const SlowNetworkThreat := SecurityThreat(
    Network, High,
    "شبكة غير آمنة",
    "اتصالك بشبكة بطيئة قد تكون غير محمية أو مخترقة",
    "استخدم شبكة WiFi آمنة أو بيانات الهاتف المحمول",
    80, false)

  /** The device-condition threats, in the order they are checked. */
  function DeviceConditionThreats(device: DeviceInfo): seq<SecurityThreat> {
    When(device.deviceAge == Old, OldDeviceThreat)
    + When(CriticalBattery(device.batteryLevel), LowBatteryThreat)
    + When(SmallMemory(device.deviceMemory), LowMemoryThreat)
    + When(SlowConnection(device.connectionType), SlowNetworkThreat)
  }

  /** The threat pushed when a condition holds. */
  function When(condition: bool, threat: SecurityThreat): seq<SecurityThreat> {
    if condition then [threat] else []
  }

  /** The device-age, battery, memory and connection checks of `detectThreats`. */
  method CheckDeviceConditions(device: DeviceInfo, threats: seq<SecurityThreat>) returns (out: seq<SecurityThreat>)
    ensures out == threats + DeviceConditionThreats(device)
  {
    out := threats;
    if device.deviceAge == Old {
      out := out + [OldDeviceThreat];
    }
    ghost var afterAge := out;
    assert afterAge == threats + When(device.deviceAge == Old, OldDeviceThreat);
    if device.batteryLevel.Some? && device.batteryLevel.value != 0 && device.batteryLevel.value < 15 {
      out := out + [LowBatteryThreat];
    }
    assert out == afterAge + When(CriticalBattery(device.batteryLevel), LowBatteryThreat);
    ghost var afterBattery := out;
    if device.deviceMemory.Some? && device.deviceMemory.value != 0.0 && device.deviceMemory.value < 2.0 {
      out := out + [LowMemoryThreat];
    }
    assert out == afterBattery + When(SmallMemory(device.deviceMemory), LowMemoryThreat);
    ghost var afterMemory := out;
    if device.connectionType.Some? && device.connectionType.value != "" {
      if device.connectionType.value in ["slow-2g", "2g"] {
        out := out + [SlowNetworkThreat];
      }
    }
    assert out == afterMemory + When(SlowConnection(device.connectionType), SlowNetworkThreat);
    AppendFour(threats, When(device.deviceAge == Old, OldDeviceThreat),
               When(CriticalBattery(device.batteryLevel), LowBatteryThreat),
               When(SmallMemory(device.deviceMemory), LowMemoryThreat),
               When(SlowConnection(device.connectionType), SlowNetworkThreat));
  }

  lemma AppendFour<T>(s: seq<T>, a: seq<T>, b: seq<T>, c: seq<T>, d: seq<T>)
    ensures s + a + b + c + d == s + (a + b + c + d)
  {
  }

  /**
   * The conditions that raise a threat are ones the device score already
   * penalises or, for memory, withholds a bonus for: an old device, a battery
   * under 15 (also under 20), memory under 2 GB (never the 4 GB bonus) and a
   * 2G connection.
   */
  lemma DeviceConditionsAgreeWithDeviceScore(device: DeviceInfo)
    ensures OldDeviceThreat in DeviceConditionThreats(device) ==> AgePenalty(device.deviceAge) == 20
    ensures LowBatteryThreat in DeviceConditionThreats(device) ==> LowBattery(device.batteryLevel)
    ensures LowMemoryThreat in DeviceConditionThreats(device) ==> !LargeMemory(device.deviceMemory)
    ensures SlowNetworkThreat in DeviceConditionThreats(device) <==> SlowConnection(device.connectionType)
  {
  }

  /** Together the device-condition threats cost the security score at most 80 points. */
  lemma DeviceConditionsDeduction(device: DeviceInfo)
    ensures TotalDeduction(DeviceConditionThreats(device)) <= 80
  {
    FourWhenDeduction(device.deviceAge == Old, OldDeviceThreat,
                      CriticalBattery(device.batteryLevel), LowBatteryThreat,
                      SmallMemory(device.deviceMemory), LowMemoryThreat,
                      SlowConnection(device.connectionType), SlowNetworkThreat);
  }

  /** The deduction of four conditional threats is the sum of the deductions of those that are present. */
  lemma FourWhenDeduction(ca: bool, a: SecurityThreat, cb: bool, b: SecurityThreat,
                          cc: bool, c: SecurityThreat, cd: bool, d: SecurityThreat)
    ensures TotalDeduction(When(ca, a) + When(cb, b) + When(cc, c) + When(cd, d))
         == (if ca then Deduction(a.severity) else 0) + (if cb then Deduction(b.severity) else 0)
          + (if cc then Deduction(c.severity) else 0) + (if cd then Deduction(d.severity) else 0)
  {
    var wa, wb, wc, wd := When(ca, a), When(cb, b), When(cc, c), When(cd, d);
    TotalDeductionConcat(wa, wb);
    TotalDeductionConcat(wa + wb, wc);
    TotalDeductionConcat(wa + wb + wc, wd);
    WhenDeduction(ca, a);
    WhenDeduction(cb, b);
    WhenDeduction(cc, c);
    WhenDeduction(cd, d);
  }

  lemma WhenDeduction(condition: bool, threat: SecurityThreat)
    ensures TotalDeduction(When(condition, threat)) == if condition then Deduction(threat.severity) else 0
  {
    assert [threat][..0] == [];
  }

  const SuspiciousPlugins: seq<string> := ["Fake", "Unknown", "Suspicious", "Ad Blocker Plus", "Free VPN"]

  /** Some suspicious name occurs in the plugin's name, ignoring case. */
  predicate IsSuspiciousPlugin(plugin: string) {
    exists k :: 0 <= k < |SuspiciousPlugins| && Includes(ToLower(plugin), ToLower(SuspiciousPlugins[k]))
  }

  /** The threat pushed for one suspicious plugin. */
  function PluginThreat(plugin: string): SecurityThreat {
    SecurityThreat(
      Extension, Critical,
      "إضافة خطيرة مكتشفة",
      "إضافة \"" + plugin + "\" قد تسرق بياناتك الشخصية والمصرفية",
      "احذف هذه الإضافة فوراً وغيّر كلمات مرورك",
      90, true)
  }

  /** The threats the plugin check pushes, in plugin order. */
  function PluginThreats(plugins: seq<string>): seq<SecurityThreat> {
    if plugins == [] then []
    else
      PluginThreats(plugins[..|plugins| - 1])
      + (if IsSuspiciousPlugin(plugins[|plugins| - 1]) then [PluginThreat(plugins[|plugins| - 1])] else [])
  }

  /** The plugin check: push one critical 'extension' threat per suspicious plugin. */
  method CheckPlugins(plugins: seq<string>, threats: seq<SecurityThreat>) returns (out: seq<SecurityThreat>)
    ensures out == threats + PluginThreats(plugins)
  {
    out := threats;
    for i := 0 to |plugins|
      invariant out == threats + PluginThreats(plugins[..i])
    {
      assert plugins[..i + 1][..i] == plugins[..i];
      if exists k :: 0 <= k < |SuspiciousPlugins| && Includes(ToLower(plugins[i]), ToLower(SuspiciousPlugins[k])) {
        out := out + [PluginThreat(plugins[i])];
      }
    }
    assert plugins[..|plugins|] == plugins;
  }

  /**
   * Exactly the suspicious plugins get a threat: every pushed threat is the
   * critical 'extension' threat of a suspicious plugin, every suspicious
   * plugin has its threat, and each costs the score 30 points.
   */
  lemma {:induction false} PluginThreatsExactly(plugins: seq<string>)
    ensures |PluginThreats(plugins)| <= |plugins|
    ensures forall t :: t in PluginThreats(plugins) ==>
              exists p :: p in plugins && IsSuspiciousPlugin(p) && t == PluginThreat(p)
    ensures forall p :: p in plugins && IsSuspiciousPlugin(p) ==> PluginThreat(p) in PluginThreats(plugins)
    ensures TotalDeduction(PluginThreats(plugins)) == 30 * |PluginThreats(plugins)|
  {
    if plugins != [] {
      var init := plugins[..|plugins| - 1];
      var last := plugins[|plugins| - 1];
      PluginThreatsExactly(init);
      assert plugins == init + [last];
      var added := if IsSuspiciousPlugin(last) then [PluginThreat(last)] else [];
      TotalDeductionConcat(PluginThreats(init), added);
      forall t | t in PluginThreats(plugins)
        ensures exists p :: p in plugins && IsSuspiciousPlugin(p) && t == PluginThreat(p)
      {
        if t in PluginThreats(init) {
          var p :| p in init && IsSuspiciousPlugin(p) && t == PluginThreat(p);
          assert p in plugins;
        } else {
          assert t == PluginThreat(last) && last in plugins;
        }
      }
    }
  }

  /** The suspicious plugins, in the order the browser lists them (repeats kept). */
  function SuspiciousOf(plugins: seq<string>): (r: seq<string>)
    ensures |r| <= |plugins|
    ensures forall p :: p in r <==> p in plugins && IsSuspiciousPlugin(p)
  {
    if plugins == [] then []
    else (if IsSuspiciousPlugin(plugins[0]) then [plugins[0]] else []) + SuspiciousOf(plugins[1..])
  }

  lemma {:induction false} SuspiciousOfAppend(plugins: seq<string>, plugin: string)
    ensures SuspiciousOf(plugins + [plugin])
            == SuspiciousOf(plugins) + (if IsSuspiciousPlugin(plugin) then [plugin] else [])
    decreases |plugins|
  {
    if plugins == [] {
      assert plugins + [plugin] == [plugin];
      assert [plugin][1..] == [];
    } else {
      assert (plugins + [plugin])[0] == plugins[0];
      assert (plugins + [plugin])[1..] == plugins[1..] + [plugin];
      SuspiciousOfAppend(plugins[1..], plugin);
    }
  }

  /**
   * The plugin check pushes exactly one threat per suspicious plugin, in
   * plugin order: its i-th threat is the threat of the i-th suspicious plugin.
   */
  lemma {:induction false} PluginThreatsInOrder(plugins: seq<string>)
    ensures |PluginThreats(plugins)| == |SuspiciousOf(plugins)|
    ensures forall i :: 0 <= i < |PluginThreats(plugins)| ==>
              PluginThreats(plugins)[i] == PluginThreat(SuspiciousOf(plugins)[i])
  {
    if plugins != [] {
      var init := plugins[..|plugins| - 1];
      var last := plugins[|plugins| - 1];
      PluginThreatsInOrder(init);
      assert plugins == init + [last];
      SuspiciousOfAppend(init, last);
    }
  }

  const MalwarePatterns: seq<string> := ["hack", "crack", "patch", "mod", "fake"]

  /** Some malware pattern occurs in the lowercased user agent. */
  predicate HasMalwarePattern(userAgent: string) {
    exists k :: 0 <= k < |MalwarePatterns| && Includes(ToLower(userAgent), MalwarePatterns[k])
  }

  const MalwareThreat := SecurityThreat(
    Malware, Critical,
    "احتمالية وجود برمجيات خبيثة",
    "تم اكتشاف أنماط مشبوهة قد تشير لوجود برمجيات خبيثة على جهازك",
    "قم بفحص جهازك بمضاد فيروسات قوي وأعد تثبيت النظام",
    95, false)

  /** The user-agent malware check: at most one critical 'malware' threat, pushed iff a pattern occurs. */
  method CheckMalwarePatterns(userAgent: string, threats: seq<SecurityThreat>) returns (out: seq<SecurityThreat>)
    ensures HasMalwarePattern(userAgent) ==> out == threats + [MalwareThreat]
    ensures !HasMalwarePattern(userAgent) ==> out == threats
  {
    var ua := ToLower(userAgent);
    out := threats;
    if exists k :: 0 <= k < |MalwarePatterns| && Includes(ua, MalwarePatterns[k]) {
      out := out + [MalwareThreat];
    }
  }
}
