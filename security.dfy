/** The guard layer of the gallery (js/security.js): a per-action
    sliding-window rate limiter, a capped security-event log with a
    three-valued status derived from it, allow-list validators for uploaded
    files and image URLs, the CSRF token comparison and the pass-through of
    non-string values by the HTML sanitizer.

    Clock readings, generated ids and ISO timestamps are parameters; URL
    parsing, `toLowerCase` and the DOM-based escaping are passed in as
    already-computed values or as functions. */
module Security {
  import opened Common

  datatype Level = LOW | MEDIUM | HIGH

  datatype Status = SECURE | WARNING | CRITICAL

  /** A value in an event's structured detail payload. */
  datatype Detail = Text(text: string) | Number(num: int)

  /** The generated id and the ISO timestamp one log entry receives. */
  datatype Stamp = Stamp(id: string, time: string)

  /** The level, message and details a caller hands to the logger. */
  datatype Event = Event(level: Level, message: string, details: map<string, Detail>)

  /** One security log entry (the simulated IP and the user agent are not modelled). */
  datatype LogEntry = LogEntry(id: string, timestamp: string, level: Level, message: string,
                               details: map<string, Detail>)

  function Stamped(e: Event, stamp: Stamp): LogEntry {
    LogEntry(stamp.id, stamp.time, e.level, e.message, e.details)
  }

  const MaxLogs: nat := 100

  // ---------------------------------------------------------------------
  // Security status
  // ---------------------------------------------------------------------

  /** The number of log entries at `level`. */
  function CountLevel(logs: seq<LogEntry>, level: Level): (n: nat)
    ensures n <= |logs|
    ensures n == 0 <==> forall i :: 0 <= i < |logs| ==> logs[i].level != level
  {
    if logs == [] then 0
    else (if logs[0].level == level then 1 else 0) + CountLevel(logs[1..], level)
  }

  /** The status rule: more than 5 HIGH entries is critical; otherwise more
      than 2 HIGH or more than 10 MEDIUM entries is a warning. */
  function StatusOf(logs: seq<LogEntry>): (st: Status)
    ensures st == CRITICAL <==> CountLevel(logs, HIGH) > 5
    ensures st == WARNING <==>
      CountLevel(logs, HIGH) <= 5 && (CountLevel(logs, HIGH) > 2 || CountLevel(logs, MEDIUM) > 10)
    ensures st == SECURE <==> CountLevel(logs, HIGH) <= 2 && CountLevel(logs, MEDIUM) <= 10
  {
    var high := CountLevel(logs, HIGH);
    var medium := CountLevel(logs, MEDIUM);
    if high > 5 then CRITICAL
    else if high > 2 || medium > 10 then WARNING
    else SECURE
  }

  /** Severity order of the statuses. */
  function Rank(st: Status): nat {
    match st
    case SECURE => 0
    case WARNING => 1
    case CRITICAL => 2
  }

  lemma {:induction false} CountLevelAppend(a: seq<LogEntry>, b: seq<LogEntry>, level: Level)
    ensures CountLevel(a + b, level) == CountLevel(a, level) + CountLevel(b, level)
    decreases |a|
  {
    if a != [] {
      assert (a + b)[1..] == a[1..] + b;
      CountLevelAppend(a[1..], b, level);
    } else {
      assert a + b == b;
    }
  }

  /** Counting over the entries that survive the cap never exceeds counting over all of them. */
  lemma CountLevelPrefix(s: seq<LogEntry>, k: nat, level: Level)
    requires k <= |s|
    ensures CountLevel(s[..k], level) <= CountLevel(s, level)
    ensures CountLevel(s, level) <= CountLevel(s[..k], level) + (|s| - k)
  {
    assert s == s[..k] + s[k..];
    CountLevelAppend(s[..k], s[k..], level);
  }

  /** The status only depends on the two counts, and grows with them. */
  lemma StatusMonotone(a: seq<LogEntry>, b: seq<LogEntry>)
    requires CountLevel(a, HIGH) <= CountLevel(b, HIGH)
    requires CountLevel(a, MEDIUM) <= CountLevel(b, MEDIUM)
    ensures Rank(StatusOf(a)) <= Rank(StatusOf(b))
  {
  }

  /** Logging a LOW event never makes the status more severe: the new log
      holds one more LOW entry and a prefix of the old one. */
  lemma LowEventNeverRaisesStatus(logs: seq<LogEntry>, e: LogEntry)
    requires e.level == LOW
    ensures Rank(StatusOf(PushCapped(logs, e, MaxLogs))) <= Rank(StatusOf(logs))
  {
    var r := PushCapped(logs, e, MaxLogs);
    var kept := logs[..|r| - 1];
    assert r == [e] + kept;
    CountLevelAppend([e], kept, HIGH);
    CountLevelAppend([e], kept, MEDIUM);
    CountLevelPrefix(logs, |r| - 1, HIGH);
    CountLevelPrefix(logs, |r| - 1, MEDIUM);
    StatusMonotone(r, logs);
  }

  /** Logging a HIGH event into a log of at most 100 entries never lowers the
      HIGH count (at most one old entry is dropped), so a CRITICAL status
      stays CRITICAL. */
  lemma HighEventKeepsCritical(logs: seq<LogEntry>, e: LogEntry)
    requires e.level == HIGH && |logs| <= MaxLogs
    ensures CountLevel(PushCapped(logs, e, MaxLogs), HIGH) >= CountLevel(logs, HIGH)
    ensures StatusOf(logs) == CRITICAL ==> StatusOf(PushCapped(logs, e, MaxLogs)) == CRITICAL
  {
    var r := PushCapped(logs, e, MaxLogs);
    var kept := logs[..|r| - 1];
    assert r == [e] + kept;
    CountLevelAppend([e], kept, HIGH);
    CountLevelPrefix(logs, |r| - 1, HIGH);
  }

  // ---------------------------------------------------------------------
  // Rate limiting
  // ---------------------------------------------------------------------

  const DefaultWindowMs: int := 60000
  const DefaultMaxAttempts: int := 10

  /** The stored timestamps still inside the trailing window, in their
      original order and with their repetitions. A timestamp exactly
      `windowMs` old is outside. */
  function Recent(attempts: seq<int>, now: int, windowMs: int): (r: seq<int>)
    ensures |r| <= |attempts|
    ensures forall t :: t in r <==> t in attempts && now - t < windowMs
    ensures forall t :: multiset(r)[t] == if now - t < windowMs then multiset(attempts)[t] else 0
    ensures (forall i :: 0 <= i < |attempts| ==> now - attempts[i] < windowMs) ==> r == attempts
  {
    if attempts == [] then []
    else
      assert attempts == [attempts[0]] + attempts[1..];
      if now - attempts[0] < windowMs then [attempts[0]] + Recent(attempts[1..], now, windowMs)
      else Recent(attempts[1..], now, windowMs)
  }

  /** Filtering distributes over concatenation, so the kept timestamps keep
      their relative order. */
  lemma {:induction false} RecentAppend(a: seq<int>, b: seq<int>, now: int, windowMs: int)
    ensures Recent(a + b, now, windowMs) == Recent(a, now, windowMs) + Recent(b, now, windowMs)
    decreases |a|
  {
    if a == [] {
      assert a + b == b;
    } else {
      assert (a + b)[1..] == a[1..] + b;
      RecentAppend(a[1..], b, now, windowMs);
    }
  }

  /** The stored list of an action; an unseen action starts from the empty list. */
  function Attempts(limiters: map<string, seq<int>>, action: string): seq<int> {
    if action in limiters then limiters[action] else []
  }

  /** A call is admitted exactly when fewer than `maxAttempts` stored
      timestamps fall inside the window. */
  predicate Admits(attempts: seq<int>, now: int, windowMs: int, maxAttempts: int) {
    |Recent(attempts, now, windowMs)| < maxAttempts
  }

  /** The list stored for the action after one call. */
  function RecordAttempt(attempts: seq<int>, now: int, windowMs: int, maxAttempts: int): (r: seq<int>)
    ensures Admits(attempts, now, windowMs, maxAttempts) ==>
      && 1 <= |r| <= maxAttempts
      && |r| <= |attempts| + 1
      && r[|r| - 1] == now
      && r[..|r| - 1] == Recent(attempts, now, windowMs)
      && forall t :: t in r[..|r| - 1] ==> t in attempts && now - t < windowMs
    ensures !Admits(attempts, now, windowMs, maxAttempts) ==> r == attempts
  {
    var recent := Recent(attempts, now, windowMs);
    if |recent| >= maxAttempts then attempts else recent + [now]
  }

  /** The whole limiter table after one call on `action`. */
  function AfterRateCheck(limiters: map<string, seq<int>>, action: string, now: int,
                          windowMs: int, maxAttempts: int): (r: map<string, seq<int>>)
    ensures r.Keys == limiters.Keys + {action}
    ensures forall k :: k in limiters && k != action ==> r[k] == limiters[k]
    ensures !Admits(Attempts(limiters, action), now, windowMs, maxAttempts) ==>
      r[action] == Attempts(limiters, action)
    ensures Admits(Attempts(limiters, action), now, windowMs, maxAttempts) ==>
      r[action] == Recent(Attempts(limiters, action), now, windowMs) + [now]
  {
    limiters[action := RecordAttempt(Attempts(limiters, action), now, windowMs, maxAttempts)]
  }

  /** With at least one attempt allowed, an admitted call leaves at most
      `maxAttempts` timestamps stored for its action. */
  lemma AdmittedListBounded(limiters: map<string, seq<int>>, action: string, now: int,
                            windowMs: int, maxAttempts: int)
    requires maxAttempts >= 1
    requires Admits(Attempts(limiters, action), now, windowMs, maxAttempts)
    ensures 1 <= |AfterRateCheck(limiters, action, now, windowMs, maxAttempts)[action]| <= maxAttempts
  {
  }

  function RateLimitEvent(action: string, recentCount: int): Event {
    Event(HIGH, "Rate limit exceeded", map["action" := Text(action), "attempts" := Number(recentCount)])
  }

  // ---------------------------------------------------------------------
  // CSRF token
  // ---------------------------------------------------------------------

  const CsrfFailedEvent: Event := Event(HIGH, "CSRF token validation failed", map[])

  // ---------------------------------------------------------------------
  // HTML sanitising
  // ---------------------------------------------------------------------

  /** The JavaScript values that reach `sanitizeHTML`. */
  datatype JsValue = JsString(str: string) | JsNumber(num: int) | JsNull | JsUndefined

  /** Strings are escaped by the browser (`escape`); any other value is
      returned as it is. */
  function SanitizeHTML(escape: string -> string, input: JsValue): (r: JsValue)
    ensures !input.JsString? ==> r == input
    ensures input.JsString? ==> r.JsString? && r.str == escape(input.str)
  {
    if !input.JsString? then input else JsString(escape(input.str))
  }

  // ---------------------------------------------------------------------
  // Image URL allow-list
  // ---------------------------------------------------------------------

  /** The parts of a parsed URL the check reads. */
  datatype Url = Url(protocol: string, hostname: string, pathname: string)

  const AllowedDomains: seq<string> := ["images.unsplash.com", "images.pexels.com", "trusted-cdn.com"]
  const AllowedProtocols: seq<string> := ["https:"]
  const AllowedExtensions: seq<string> := [".jpg", ".jpeg", ".png", ".gif", ".webp"]

  predicate HasAllowedExtension(path: string) {
    exists ext :: ext in AllowedExtensions && EndsWith(path, ext)
  }

  datatype UrlVerdict = UrlAccepted | UnsafeDomain | UnsafeProtocol | UnsafeExtension | InvalidUrl

  /** The decision of `validateImageURL` for a URL that `new URL` parsed
      (`Some`) or refused (`None`); the checks run domain, then protocol, then
      extension, and the first failing one names the verdict. */
  function CheckImageURL(parsed: Option<Url>, lower: string -> string): (v: UrlVerdict)
    ensures v == UrlAccepted <==>
      && parsed.Some?
      && parsed.value.hostname in AllowedDomains
      && parsed.value.protocol == "https:"
      && HasAllowedExtension(lower(parsed.value.pathname))
    ensures v == InvalidUrl <==> parsed.None?
    ensures v == UnsafeDomain <==> parsed.Some? && parsed.value.hostname !in AllowedDomains
    ensures v == UnsafeProtocol <==>
      parsed.Some? && parsed.value.hostname in AllowedDomains && parsed.value.protocol != "https:"
  {
    match parsed
    case None => InvalidUrl
    case Some(u) =>
      if u.hostname !in AllowedDomains then UnsafeDomain
      else if u.protocol !in AllowedProtocols then UnsafeProtocol
      else if !HasAllowedExtension(lower(u.pathname)) then UnsafeExtension
      else UrlAccepted
  }

  /** The event `validateImageURL` logs for each rejection. */
  function UrlEvent(v: UrlVerdict, url: string, parsed: Option<Url>, lower: string -> string): (e: Option<Event>)
    requires v == CheckImageURL(parsed, lower)
    ensures e.None? <==> v == UrlAccepted
    ensures e.Some? && e.value.level == HIGH <==> parsed.None?
  {
    match v
    case UrlAccepted => None
    case InvalidUrl => Some(Event(HIGH, "Invalid URL format", map["url" := Text(url)]))
    case UnsafeDomain =>
      Some(Event(MEDIUM, "Unsafe image domain", map["domain" := Text(parsed.value.hostname)]))
    case UnsafeProtocol =>
      Some(Event(MEDIUM, "Unsafe image protocol", map["protocol" := Text(parsed.value.protocol)]))
    case UnsafeExtension =>
      Some(Event(MEDIUM, "Unsafe file extension", map["pathname" := Text(lower(parsed.value.pathname))]))
  }

  /** Three concrete verdicts of the allow-list: an untrusted host is refused
      although scheme and extension are fine, a trusted host is accepted, and
      plain http on a trusted host is refused for its protocol. */
  lemma ImageUrlExamples(lower: string -> string)
    requires lower("/x.jpg") == "/x.jpg"
    ensures CheckImageURL(Some(Url("https:", "evil.com", "/x.jpg")), lower) == UnsafeDomain
    ensures CheckImageURL(Some(Url("https:", "images.unsplash.com", "/x.jpg")), lower) == UrlAccepted
    ensures CheckImageURL(Some(Url("http:", "images.unsplash.com", "/x.jpg")), lower) == UnsafeProtocol
  {
    assert EndsWith("/x.jpg", ".jpg");
  }

  // ---------------------------------------------------------------------
  // Uploaded files
  // ---------------------------------------------------------------------

  /** The declared media type and byte size of a selected file. */
  datatype FileInfo = FileInfo(mediaType: string, size: int)

  const AllowedTypes: seq<string> := ["image/jpeg", "image/png", "image/gif", "image/webp"]
  const MaxFileSize: int := 10 * 1024 * 1024

  datatype FileError = InvalidFileType | FileTooLarge

  /** The text of the error `validateFile` throws. */
  function FileErrorMessage(e: FileError): string {
    match e
    case InvalidFileType => "ประเภทไฟล์ไม่ได้รับการอนุญาต"
    case FileTooLarge => "ขนาดไฟล์ต้องไม่เกิน 10MB"
  }

  /** The type is checked first, then the size; a file of exactly 10 MiB passes. */
  function CheckFile(file: FileInfo): (r: Outcome<FileError>)
    ensures r == Pass <==> file.mediaType in AllowedTypes && file.size <= 10485760
    ensures r == Fail(InvalidFileType) <==> file.mediaType !in AllowedTypes
    ensures r == Fail(FileTooLarge) <==> file.mediaType in AllowedTypes && file.size > 10485760
  {
    if file.mediaType !in AllowedTypes then Fail(InvalidFileType)
    else if file.size > MaxFileSize then Fail(FileTooLarge)
    else Pass
  }

  function FileEvent(e: FileError, file: FileInfo): Event {
    match e
    case InvalidFileType => Event(MEDIUM, "Invalid file type", map["type" := Text(file.mediaType)])
    case FileTooLarge => Event(MEDIUM, "File too large", map["size" := Number(file.size)])
  }

  // ---------------------------------------------------------------------
  // The security system object
  // ---------------------------------------------------------------------

  class SecuritySystem {
    var logs: seq<LogEntry>
    var rateLimiters: map<string, seq<int>>
    var securityStatus: Status
    var csrfToken: string

    /** The log is capped and the displayed status is the rule applied to it. */
    ghost predicate Valid()
      reads this
    {
      |logs| <= MaxLogs && securityStatus == StatusOf(logs)
    }

    /** `token` is the random UUID generated at start-up; it is also what the
        session storage holds afterwards. */
    constructor (token: string)
      ensures Valid()
      ensures logs == [] && rateLimiters == map[] && securityStatus == SECURE && csrfToken == token
    {
      logs := [];
      rateLimiters := map[];
      securityStatus := SECURE;
      csrfToken := token;
    }

    method LogSecurityEvent(level: Level, message: string, details: map<string, Detail>, stamp: Stamp)
      modifies this
      ensures logs == PushCapped(old(logs), LogEntry(stamp.id, stamp.time, level, message, details), MaxLogs)
      ensures securityStatus == StatusOf(logs)
      ensures rateLimiters == old(rateLimiters) && csrfToken == old(csrfToken)
      ensures Valid()
    {
      var entry := LogEntry(stamp.id, stamp.time, level, message, details);
      logs := [entry] + logs;
      if |logs| > MaxLogs {
        logs := logs[..MaxLogs];
      }
      UpdateSecurityStatus();
    }

    method UpdateSecurityStatus()
      modifies this`securityStatus
      ensures securityStatus == StatusOf(logs)
    {
      var highRiskEvents := CountLevel(logs, HIGH);
      var mediumRiskEvents := CountLevel(logs, MEDIUM);
      if highRiskEvents > 5 {
        securityStatus := CRITICAL;
      } else if highRiskEvents > 2 || mediumRiskEvents > 10 {
        securityStatus := WARNING;
      } else {
        securityStatus := SECURE;
      }
    }

    /** Admits the call and records `now`, or rejects it, records nothing and
        logs a HIGH event. Other actions' lists are untouched. */
    method CheckRateLimit(action: string, now: int, windowMs: int, maxAttempts: int, stamp: Stamp)
      returns (allowed: bool)
      requires Valid()
      modifies this
      ensures Valid()
      ensures allowed == Admits(Attempts(old(rateLimiters), action), now, windowMs, maxAttempts)
      ensures rateLimiters == AfterRateCheck(old(rateLimiters), action, now, windowMs, maxAttempts)
      ensures allowed ==> logs == old(logs)
      ensures !allowed ==> logs == PushCapped(old(logs),
        Stamped(RateLimitEvent(action, |Recent(Attempts(old(rateLimiters), action), now, windowMs)|), stamp),
        MaxLogs)
      ensures csrfToken == old(csrfToken)
    {
      if action !in rateLimiters {
        rateLimiters := rateLimiters[action := []];
      }
      var attempts := rateLimiters[action];
      var recentAttempts := Recent(attempts, now, windowMs);
      if |recentAttempts| >= maxAttempts {
        var e := RateLimitEvent(action, |recentAttempts|);
        LogSecurityEvent(e.level, e.message, e.details, stamp);
        assert rateLimiters == AfterRateCheck(old(rateLimiters), action, now, windowMs, maxAttempts);
        return false;
      }
      recentAttempts := recentAttempts + [now];
      rateLimiters := rateLimiters[action := recentAttempts];
      return true;
    }

    /** `stored` is what the session storage holds under the CSRF key
        (`None` for null); a null token equals a missing stored token. */
    method ValidateCSRFToken(token: Option<string>, stored: Option<string>, stamp: Stamp)
      returns (isValid: bool)
      requires Valid()
      modifies this
      ensures Valid()
      ensures isValid <==> token == stored
      ensures isValid ==> logs == old(logs)
      ensures !isValid ==> logs == PushCapped(old(logs), Stamped(CsrfFailedEvent, stamp), MaxLogs)
      ensures rateLimiters == old(rateLimiters) && csrfToken == old(csrfToken)
    {
      isValid := token == stored;
      if !isValid {
        LogSecurityEvent(CsrfFailedEvent.level, CsrfFailedEvent.message, CsrfFailedEvent.details, stamp);
      }
    }

    method ValidateImageURL(url: string, parsed: Option<Url>, lower: string -> string, stamp: Stamp)
      returns (ok: bool)
      requires Valid()
      modifies this
      ensures Valid()
      ensures ok <==> CheckImageURL(parsed, lower) == UrlAccepted
      ensures ok ==> logs == old(logs)
      ensures !ok ==> logs == PushCapped(old(logs),
        Stamped(UrlEvent(CheckImageURL(parsed, lower), url, parsed, lower).value, stamp), MaxLogs)
      ensures rateLimiters == old(rateLimiters) && csrfToken == old(csrfToken)
    {
      var verdict := CheckImageURL(parsed, lower);
      var event := UrlEvent(verdict, url, parsed, lower);
      if event.Some? {
        LogSecurityEvent(event.value.level, event.value.message, event.value.details, stamp);
      }
      ok := verdict == UrlAccepted;
    }

    /** `Pass` stands for a successful check, `Fail` for the thrown error and its text. */
    method ValidateFile(file: FileInfo, stamp: Stamp) returns (r: Outcome<string>)
      requires Valid()
      modifies this
      ensures Valid()
      ensures r.Pass? <==> CheckFile(file) == Pass
      ensures r.Fail? ==> r.error == FileErrorMessage(CheckFile(file).error)
      ensures r.Pass? ==> logs == old(logs)
      ensures r.Fail? ==> logs == PushCapped(old(logs), Stamped(FileEvent(CheckFile(file).error, file), stamp), MaxLogs)
      ensures rateLimiters == old(rateLimiters) && csrfToken == old(csrfToken)
    {
      var verdict := CheckFile(file);
      if verdict.Fail? {
        var e := FileEvent(verdict.error, file);
        LogSecurityEvent(e.level, e.message, e.details, stamp);
        return Fail(FileErrorMessage(verdict.error));
      }
      r := Pass;
    }
  }
}
