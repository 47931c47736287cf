/**
 * Request handling: the course-code normaliser, the Basic authorization
 * header parser, the webhook that reports a section's new status, and the
 * guards of the register and resubscribe pages.
 */
module Views {
  import opened Wrappers
  import opened Choices
  import opened Strings
  import opened Models

  // ---------------------------------------------------------------------------
  // normalize_course_id

  predicate IsUpper(c: char) { 'A' <= c <= 'Z' }

  predicate IsDigit(c: char) { '0' <= c <= '9' }

  /** `s` starts with `letters` upper-case letters followed by six digits. */
  predicate MatchesAt(s: string, letters: nat) {
    && letters + 6 <= |s|
    && (forall i :: 0 <= i < letters ==> IsUpper(s[i]))
    && (forall i :: letters <= i < letters + 6 ==> IsDigit(s[i]))
  }

  /** The canonical section code: 3 or 4 upper-case letters, a dash, 3 digits, a dash, 3 digits. */
  predicate IsSectionCode(k: string) {
    && (|k| == 11 || |k| == 12)
    && var n := |k| - 8;
    && (forall i :: 0 <= i < n ==> IsUpper(k[i]))
    && k[n] == '-' && k[n + 4] == '-'
    && (forall i :: n < i < n + 4 ==> IsDigit(k[i]))
    && (forall i :: n + 4 < i < |k| ==> IsDigit(k[i]))
  }

  /** The string with every dash removed. */
  function StripDashes(s: string): string
    decreases |s|
  {
    if |s| == 0 then "" else (if s[0] == '-' then "" else [s[0]]) + StripDashes(s[1..])
  }

  lemma {:induction false} StripDashesAppend(a: string, b: string)
    ensures StripDashes(a + b) == StripDashes(a) + StripDashes(b)
    decreases |a|
  {
    if |a| > 0 {
      assert (a + b)[0] == a[0];
      assert (a + b)[1..] == a[1..] + b;
      StripDashesAppend(a[1..], b);
    } else {
      assert a + b == b;
    }
  }

  /** Removing the dashes from three dash-free parts joined by dashes concatenates them. */
  lemma StripDashesJoined(a: string, b: string, c: string)
    requires '-' !in a && '-' !in b && '-' !in c
    ensures StripDashes(a + "-" + b + "-" + c) == a + b + c
  {
    StripDashesNoDash(a);
    StripDashesNoDash(b);
    StripDashesNoDash(c);
    assert StripDashes("-") == "";
    var x1 := a + "-";
    StripDashesAppend(a, "-");
    assert StripDashes(x1) == a;
    var x2 := x1 + b;
    StripDashesAppend(x1, b);
    assert StripDashes(x2) == a + b;
    var x3 := x2 + "-";
    StripDashesAppend(x2, "-");
    assert StripDashes(x3) == a + b;
    StripDashesAppend(x3, c);
    assert a + "-" + b + "-" + c == x3 + c;
  }

  lemma {:induction false} StripDashesNoDash(s: string)
    requires '-' !in s
    ensures StripDashes(s) == s
    decreases |s|
  {
    if |s| > 0 {
      StripDashesNoDash(s[1..]);
    }
  }

  /** The three regex groups joined by dashes. */
  function Dashed(s: string, letters: nat): string
    requires letters + 6 <= |s|
  {
    s[..letters] + "-" + s[letters..letters + 3] + "-" + s[letters + 3..letters + 6]
  }

  /** A dashed match is a canonical code, and removing its dashes gives back the matched prefix. */
  lemma DashedRoundTrip(s: string, letters: nat)
    requires (letters == 3 || letters == 4) && MatchesAt(s, letters)
    ensures IsSectionCode(Dashed(s, letters))
    ensures StripDashes(Dashed(s, letters)) == s[..letters + 6]
  {
    var a, b, c := s[..letters], s[letters..letters + 3], s[letters + 3..letters + 6];
    assert '-' !in a by { assert forall i :: 0 <= i < |a| ==> IsUpper(a[i]); }
    assert '-' !in b by { assert forall i :: 0 <= i < 3 ==> IsDigit(b[i]); }
    assert '-' !in c by { assert forall i :: 0 <= i < 3 ==> IsDigit(c[i]); }
    StripDashesJoined(a, b, c);
    assert s[..letters + 6] == a + b + c;
    var k := Dashed(s, letters);
    assert k == a + "-" + b + "-" + c;
    assert forall i :: 0 <= i < letters ==> k[i] == s[i];
    assert forall i :: letters < i < letters + 4 ==> k[i] == s[i - 1];
    assert forall i :: letters + 4 < i < |k| ==> k[i] == s[i - 2];
  }

  /**
   * `course_id_re.match(c)` for the pattern `([A-Z]{3,4})(\d{3})(\d{3})`:
   * anchored at the start only, preferring four letters, and giving the
   * groups joined by dashes.
   */
  function NormalizeCourseId(c: string): (code: Option<string>)
    ensures code.Some? <==> MatchesAt(c, 4) || MatchesAt(c, 3)
    ensures code.Some? ==> IsSectionCode(code.value)
    ensures code.Some? ==> |code.value| <= |c| + 2 && StripDashes(code.value) == c[..|code.value| - 2]
    ensures MatchesAt(c, 4) ==> code.Some? && |code.value| == 12
  {
    if MatchesAt(c, 4) then
      DashedRoundTrip(c, 4);
      Some(Dashed(c, 4))
    else if MatchesAt(c, 3) then
      DashedRoundTrip(c, 3);
      Some(Dashed(c, 3))
    else None
  }

  /** Characters after the matched prefix are ignored. */
  lemma NormalizeIgnoresSuffix(c: string, rest: string)
    requires NormalizeCourseId(c).Some?
    ensures NormalizeCourseId(c + rest) == NormalizeCourseId(c)
  {
    var s := c + rest;
    assert forall i :: 0 <= i < |c| ==> s[i] == c[i];
    assert MatchesAt(c, 4) ==> MatchesAt(s, 4);
    if !MatchesAt(c, 4) {
      assert MatchesAt(c, 3) && IsDigit(c[3]);
      assert !MatchesAt(s, 4) by { assert !IsUpper(s[3]); }
      assert MatchesAt(s, 3);
      assert Dashed(s, 3) == Dashed(c, 3);
    } else {
      assert Dashed(s, 4) == Dashed(c, 4);
    }
  }

  /** The example of the webhook test: ANTH361401 becomes ANTH-361-401. */
  lemma NormalizeExample()
    ensures NormalizeCourseId("ANTH361401") == Some("ANTH-361-401")
  {
    assert MatchesAt("ANTH361401", 4);
    var s := "ANTH361401";
    assert s[..4] == "ANTH" && s[4..7] == "361" && s[7..10] == "401";
    assert Dashed(s, 4) == "ANTH-361-401";
  }

  // ---------------------------------------------------------------------------
  // extract_basic_auth

  /** What the header parser yields: a user and password, `(None, None)`, or an exception from the decoder. */
  datatype BasicAuth = Credentials(username: string, password: string) | NoCredentials | DecodeFailed

  /**
   * Splits the header on spaces; unless the first field is exactly `Basic`
   * and a second field exists, there are no credentials. The second field is
   * Base64-decoded (`b64decode` yields None where the decoder raises) and
   * split on colons: the first two fields are the user and the password.
   */
  function ExtractBasicAuth(header: string, b64decode: string -> Option<string>): BasicAuth {
    var parts := Split(header, ' ');
    if parts[0] != "Basic" || |parts| < 2 then NoCredentials
    else match b64decode(parts[1])
      case None => DecodeFailed
      case Some(decoded) =>
        var authParts := Split(decoded, ':');
        if |authParts| < 2 then NoCredentials else Credentials(authParts[0], authParts[1])
  }

  /** When each of the three outcomes occurs. */
  lemma BasicAuthOutcome(header: string, b64decode: string -> Option<string>)
    ensures var parts, auth := Split(header, ' '), ExtractBasicAuth(header, b64decode);
      && (auth.DecodeFailed? <==> parts[0] == "Basic" && |parts| >= 2 && b64decode(parts[1]).None?)
      && (auth.Credentials? <==>
            parts[0] == "Basic" && |parts| >= 2 && b64decode(parts[1]).Some? && ':' in b64decode(parts[1]).value)
  {
  }

  /**
   * The user is the decoded text before its first colon and the password the
   * text between the first colon and the next colon or the end; anything from
   * a second colon on is dropped.
   */
  lemma CredentialsAreFirstTwoFields(header: string, b64decode: string -> Option<string>)
    requires ExtractBasicAuth(header, b64decode).Credentials?
    ensures var decoded := b64decode(Split(header, ' ')[1]).value;
      var user, password := ExtractBasicAuth(header, b64decode).username, ExtractBasicAuth(header, b64decode).password;
      var end := |user| + 1 + |password|;
      && ':' !in user && ':' !in password
      && end <= |decoded|
      && decoded[..|user|] == user && decoded[|user|] == ':' && decoded[|user| + 1..end] == password
      && (end == |decoded| || decoded[end] == ':')
  {
    var decoded := b64decode(Split(header, ' ')[1]).value;
    var ps := Split(decoded, ':');
    var user, password := ps[0], ps[1];
    var tail := Join(ps[1..], ':');
    assert decoded == user + [':'] + tail;
    if |ps| == 2 {
      assert tail == password;
    } else {
      assert ps[1..][1..] == ps[2..];
      assert tail == password + [':'] + Join(ps[2..], ':');
    }
  }

  /** The scheme name is compared case-sensitively: `basic ...` carries no credentials. */
  lemma SchemeIsCaseSensitive(token: string, b64decode: string -> Option<string>)
    ensures ExtractBasicAuth("basic " + token, b64decode) == NoCredentials
  {
  }

  /** A password containing a colon is cut at that colon. */
  lemma PasswordStopsAtColon(token: string, user: string, password: string, more: string, b64decode: string -> Option<string>)
    requires ' ' !in token && ':' !in user && ':' !in password
    requires b64decode(token) == Some(user + ":" + password + ":" + more)
    ensures ExtractBasicAuth("Basic " + token, b64decode) == Credentials(user, password)
  {
    assert "Basic " + token == "Basic" + [' '] + token;
    SplitOfFieldThenRest("Basic", token, ' ');
    SplitOfField(token, ' ');
    assert user + ":" + password + ":" + more == user + [':'] + (password + [':'] + more);
    SplitOfFieldThenRest(user, password + [':'] + more, ':');
    SplitOfFieldThenRest(password, more, ':');
  }

  // ---------------------------------------------------------------------------
  // accept_webhook

  /** The decoded JSON body; only `result_data`, a list of objects with string values, is read. */
  datatype Json = Json(resultData: Option<seq<map<string, string>>>)

  /** What the webhook reads of a request. `body` is None when the body is not valid JSON. */
  datatype Request = Request(meta: map<string, string>, httpMethod: string, contentType: string, body: Option<Json>)

  /** One `alert_for_course` call: the task queued with the normalised id, the term and the tag. */
  datatype AlertCall = AlertCall(courseId: Option<string>, semester: string, sentBy: SentBy)

  /** How the webhook answers a request. */
  datatype Verdict =
    | Unauthorized                 // 401
    | MethodNotAllowed             // 405
    | UnsupportedMediaType         // 415
    | MalformedJson                // 400
    | MissingField(field: string)  // course_section, status or term absent
    | ServerError                  // an exception escapes the view
    | Received(alert: Option<AlertCall>)

  /** The `Authorization` entry, else `HTTP_AUTHORIZATION`, else the empty string. */
  function AuthorizationHeader(meta: map<string, string>): string {
    if "Authorization" in meta then meta["Authorization"]
    else if "HTTP_AUTHORIZATION" in meta then meta["HTTP_AUTHORIZATION"]
    else ""
  }

  /** `data.get('result_data', [{}])[0]`; None where the list is empty and indexing raises. */
  function FirstResult(data: Json): Option<map<string, string>> {
    match data.resultData
    case None => Some(map[])
    case Some(results) => if |results| == 0 then None else Some(results[0])
  }

  /**
   * The webhook's guards in order (credentials, method, content type, JSON
   * body, the three fields) and then its decision: an alert is queued exactly
   * when webhook alerts are switched on and the status is 'O'.
   */
  function AcceptWebhook(req: Request, b64decode: string -> Option<string>,
                         webhookUser: string, webhookPassword: string, sendFromWebhook: bool): Verdict
  {
    match ExtractBasicAuth(AuthorizationHeader(req.meta), b64decode)
    case DecodeFailed => ServerError
    case NoCredentials => Unauthorized
    case Credentials(user, password) =>
      if user != webhookUser || password != webhookPassword then Unauthorized
      else if req.httpMethod != "POST" then MethodNotAllowed
      else if !Contains(Lower(req.contentType), "json") then UnsupportedMediaType
      else match req.body
        case None => MalformedJson
        case Some(data) =>
          match FirstResult(data)
          case None => ServerError
          case Some(result) =>
            if "course_section" !in result then MissingField("course_section")
            else if "status" !in result then MissingField("status")
            else if "term" !in result then MissingField("term")
            else if sendFromWebhook && result["status"] == Open.Code() then
              Received(Some(AlertCall(NormalizeCourseId(result["course_section"]), result["term"], Webhook)))
            else Received(None)
  }

  /** The request passes the credential, method, content-type and JSON checks. */
  predicate PassesGuards(req: Request, b64decode: string -> Option<string>, webhookUser: string, webhookPassword: string) {
    && ExtractBasicAuth(AuthorizationHeader(req.meta), b64decode) == Credentials(webhookUser, webhookPassword)
    && req.httpMethod == "POST"
    && Contains(Lower(req.contentType), "json")
    && req.body.Some?
  }

  /**
   * Each guard rejects exactly when the ones before it passed and it fails,
   * and no rejection queues an alert.
   */
  lemma WebhookGuardOrder(req: Request, b64decode: string -> Option<string>,
                          webhookUser: string, webhookPassword: string, sendFromWebhook: bool)
    ensures var v, auth := AcceptWebhook(req, b64decode, webhookUser, webhookPassword, sendFromWebhook),
                           ExtractBasicAuth(AuthorizationHeader(req.meta), b64decode);
      var authorized := auth == Credentials(webhookUser, webhookPassword);
      && (v == Unauthorized <==> !auth.DecodeFailed? && !authorized)
      && (v == MethodNotAllowed <==> authorized && req.httpMethod != "POST")
      && (v == UnsupportedMediaType <==>
            authorized && req.httpMethod == "POST" && !Contains(Lower(req.contentType), "json"))
      && (v == MalformedJson <==>
            authorized && req.httpMethod == "POST" && Contains(Lower(req.contentType), "json") && req.body.None?)
      && (v.MissingField? || v.Received? ==> PassesGuards(req, b64decode, webhookUser, webhookPassword))
  {
  }

  /**
   * An alert is queued exactly when every guard passes, the first result
   * carries course_section, status and term, webhook alerts are on and the
   * status is 'O'; it carries the normalised course id, the term and the
   * webhook tag.
   */
  lemma WebhookAlertsIff(req: Request, b64decode: string -> Option<string>,
                         webhookUser: string, webhookPassword: string, sendFromWebhook: bool)
    ensures var v := AcceptWebhook(req, b64decode, webhookUser, webhookPassword, sendFromWebhook);
      (v.Received? && v.alert.Some?) <==>
        && PassesGuards(req, b64decode, webhookUser, webhookPassword)
        && FirstResult(req.body.value).Some?
        && var result := FirstResult(req.body.value).value;
        && "course_section" in result && "status" in result && "term" in result
        && sendFromWebhook && result["status"] == "O"
    ensures var v := AcceptWebhook(req, b64decode, webhookUser, webhookPassword, sendFromWebhook);
      v.Received? && v.alert.Some? ==>
        var result := FirstResult(req.body.value).value;
        v.alert.value == AlertCall(NormalizeCourseId(result["course_section"]), result["term"], Webhook)
  {
  }

  /** The status code of each verdict, as the webhook evidently means it. */
  function ResponseStatus(v: Verdict): (status: int)
    ensures status == 200 <==> v.Received?
    ensures v.ServerError? <==> status == 500
    ensures !v.Received? && !v.ServerError? ==> 400 <= status < 500
  {
    match v
    case Unauthorized => 401
    case MethodNotAllowed => 405
    case UnsupportedMediaType => 415
    case MalformedJson => 400
    case MissingField(_) => 400
    case ServerError => 500
    case Received(_) => 200
  }

  /**
   * The status code as views.py is written: a missing field is answered by
   * `HttpResponse(message, 400)`, whose second positional argument is the
   * content type, so the status stays 200.
   */
  function StatusAsWritten(v: Verdict): int {
    if v.MissingField? then 200 else ResponseStatus(v)
  }

  /**
   * A request that passes the guards but whose first result lacks
   * course_section is refused without an alert; as written it is answered
   * 200, while 400 is intended.
   */
  lemma MissingCourseSectionAnsweredOk(req: Request, b64decode: string -> Option<string>,
                                       webhookUser: string, webhookPassword: string, sendFromWebhook: bool)
    requires PassesGuards(req, b64decode, webhookUser, webhookPassword)
    requires FirstResult(req.body.value).Some? && "course_section" !in FirstResult(req.body.value).value
    ensures var v := AcceptWebhook(req, b64decode, webhookUser, webhookPassword, sendFromWebhook);
      v == MissingField("course_section") && StatusAsWritten(v) == 200 && ResponseStatus(v) == 400
  {
  }

  /**
   * The body `{"hello": "world"}`, which has no `result_data`, reads as an
   * empty first result: it is refused without an alert and, as written,
   * answered 200.
   */
  lemma MissingFieldAnsweredOk(req: Request, b64decode: string -> Option<string>,
                               webhookUser: string, webhookPassword: string, sendFromWebhook: bool)
    requires PassesGuards(req, b64decode, webhookUser, webhookPassword)
    requires req.body == Some(Json(None))
    ensures var v := AcceptWebhook(req, b64decode, webhookUser, webhookPassword, sendFromWebhook);
      v == MissingField("course_section") && StatusAsWritten(v) == 200 && ResponseStatus(v) == 400
  {
  }

  /** The text of an accepted webhook; only when an alert was queued does it say "sent". */
  function ReceivedMessage(alertsSent: bool): (message: string)
    ensures |message| >= 16 && message[..16] == "webhook recieved"
    ensures Contains(message, "sent") <==> alertsSent
  {
    var plain := "webhook recieved";
    if alertsSent then
      var full := plain + ", alerts sent";
      assert OccursAt(full, "sent", |full| - 4);
      full
    else
      assert forall i :: 0 <= i <= |plain| - 4 ==> !OccursAt(plain, "sent", i) by {
        forall i | 0 <= i <= |plain| - 4 ensures !OccursAt(plain, "sent", i) {
          assert plain[i..i + 4][0] == plain[i];
        }
      }
      plain
  }

  /**
   * The message of an accepted webhook says "sent" exactly when an alert was
   * queued: when webhook alerts are on and the first result's status is 'O'.
   */
  lemma WebhookMessageReportsAlert(req: Request, b64decode: string -> Option<string>,
                                   webhookUser: string, webhookPassword: string, sendFromWebhook: bool)
    requires AcceptWebhook(req, b64decode, webhookUser, webhookPassword, sendFromWebhook).Received?
    ensures var v := AcceptWebhook(req, b64decode, webhookUser, webhookPassword, sendFromWebhook);
      Contains(ReceivedMessage(v.alert.Some?), "sent") <==>
        sendFromWebhook && FirstResult(req.body.value).value["status"] == "O"
  {
  }

  // ---------------------------------------------------------------------------
  // register and resubscribe pages

  /** The banner kinds of the home page. */
  datatype Level = SuccessBanner | WarningBanner | DangerBanner | InfoBanner

  /** What a page request produces. */
  datatype Page = RedirectToIndex | NotFound | Banner(level: Level, subject: string)

  /** The banner kind shown for each registration answer. */
  function RegistrationBanner(status: RegStatus): Level {
    match status
    case Success => SuccessBanner
    case OpenRegExists => WarningBanner
    case NoContactInfo => DangerBanner
  }

  /** The course a registration banner names; the missing-contact banner names none. */
  function BannerSubject(status: RegStatus, course: string): string {
    if status == NoContactInfo then "" else course
  }

  /**
   * The register page: closed registration redirects to the index and
   * anything but POST is not found, both without touching the ledger; a POST
   * registers `course`, already resolved to `section`, and reports the answer.
   */
  method RegisterView(ledger: Ledger, registrationOpen: bool, httpMethod: string,
                      course: string, section: nat, email: Option<string>, phone: Option<string>) returns (page: Page)
    requires ledger.Valid()
    requires registrationOpen && httpMethod == "POST" ==> section < |ledger.sections|
    modifies ledger
    ensures ledger.Valid()
    ensures !registrationOpen ==> page == RedirectToIndex && unchanged(ledger)
    ensures registrationOpen && httpMethod != "POST" ==> page == NotFound && unchanged(ledger)
    ensures registrationOpen && httpMethod == "POST" ==>
      var status := RegistrationOutcome(old(ledger.regs), section, email, phone);
      && page == Banner(RegistrationBanner(status), BannerSubject(status, course))
      && ledger.sections == old(ledger.sections) && ledger.deliveries == old(ledger.deliveries)
      && ledger.regs == if status == Success then old(ledger.regs) + [NewRegistration(email, phone, section)] else old(ledger.regs)
  {
    if !registrationOpen {
      return RedirectToIndex;
    }
    if httpMethod == "POST" {
      var status := ledger.Register(section, email, phone);
      page := Banner(RegistrationBanner(status), BannerSubject(status, course));
    } else {
      page := NotFound;
    }
  }

  /**
   * The resubscribe page: an unknown id is not found and changes nothing;
   * otherwise the registration is resubscribed and the page names the section
   * of the registration that is now active, which is the requested one's.
   */
  method ResubscribeView(ledger: Ledger, id: int) returns (page: Page)
    requires ledger.Valid()
    modifies ledger
    ensures ledger.Valid()
    ensures !(0 <= id < |old(ledger.regs)|) ==> page == NotFound && unchanged(ledger)
    ensures 0 <= id < |old(ledger.regs)| ==>
      && ledger.sections == old(ledger.sections) && ledger.deliveries == old(ledger.deliveries)
      && page == Banner(InfoBanner, ledger.sections[old(ledger.regs[id]).section].normalized)
      && ledger.regs == match Resolve(old(ledger.regs), id)
         case Active(_) => old(ledger.regs)
         case Exhausted(tail) => old(ledger.regs) + [Resubscription(old(ledger.regs[id]), tail)]
  {
    if !(0 <= id < |ledger.regs|) {
      return NotFound;
    }
    var current := ledger.Resubscribe(id);
    page := Banner(InfoBanner, ledger.sections[ledger.regs[current].section].normalized);
  }
}
