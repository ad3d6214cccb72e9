/**
 * The login page's state machine as values: the session the page keeps, and one
 * transition function per handler. Each handler is atomic here: the reply of the
 * call it awaits is a parameter, and `calls` records the requests it issues.
 */
module LoginModel {
  import opened Wrappers
  import opened JsText
  import opened Api

  const ADMIN_EMAIL := "admin@admin.com"
  const MAX_ATTEMPTS := 3
  const OTP_SECONDS := 5 * 60
  const OTP_LENGTH := 6
  const ADMIN_ROUTE := "/admin"

  const FILL_FIELDS := "Please fill in all fields."
  const INVALID_ADMIN := "Invalid admin credentials."
  const SOMETHING_WRONG := "Something went wrong. Please try again."
  const NETWORK_ERROR := "Network error. Is the backend running?"
  const CAPTURE_FIRST := "Please capture your face photo first."
  const FULL_CODE := "Please enter the full 6-digit code."
  const SESSION_EXPIRED := "Session expired. Please start again."
  const OTP_EXPIRED := "This OTP has expired. Please request a new one."
  const INCORRECT_CODE := "Incorrect code. Please check your email and try again."
  const OTP_NETWORK_ERROR := "Network error. Please try again."
  const RESENT := "\U{2713} A new code has been sent to your email."
  const RESEND_FAILED := "Failed to resend. Please try again."

  datatype Step = Credentials | Face | Otp | Success | Failed

  /** What `saveAuth` receives on a successful login. */
  datatype Auth = Auth(token: string, role: string)

  /**
   * The page's state. `attempts` is the session counter (`attemptsRef.current`),
   * `ticking` says whether the one-second countdown interval is installed,
   * `calls` lists the requests sent so far, and `navigatedTo` the route the page
   * navigated to, if any.
   */
  datatype Session = Session(
    step: Step,
    email: string,
    password: string,
    faceImage: Option<string>,
    otpDigits: seq<string>,
    userId: string,
    error: string,
    otpFeedback: string,
    attempts: nat,
    countdown: nat,
    ticking: bool,
    calls: seq<Request>,
    navigatedTo: Option<string>)

  /** A handler's new session, and the credentials it saved, if any. */
  datatype Transition = Transition(next: Session, saved: Option<Auth>)

  function EmptyDigits(): (d: seq<string>)
    ensures |d| == OTP_LENGTH && forall i :: 0 <= i < |d| ==> d[i] == ""
  {
    seq(OTP_LENGTH, _ => "")
  }

  /** `/^\d?$/.test(val)`: the empty string or a single digit. */
  predicate IsSlot(val: string) {
    val == "" || (|val| == 1 && IsDigit(val[0]))
  }

  /** The state the page mounts with. */
  function Initial(): (s: Session)
    ensures Valid(s) && s.step == Credentials && s.attempts == 0 && s.calls == []
  {
    Session(Credentials, "", "", None, EmptyDigits(), "", "", "", 0, OTP_SECONDS, false, [], None)
  }

  /**
   * What holds of every state the page reaches: six slots, each empty or one
   * digit; the countdown never above five minutes; the interval only runs while
   * there is time left.
   */
  predicate Valid(s: Session) {
    && |s.otpDigits| == OTP_LENGTH
    && (forall i :: 0 <= i < |s.otpDigits| ==> IsSlot(s.otpDigits[i]))
    && s.countdown <= OTP_SECONDS
    && (s.ticking ==> s.countdown > 0)
  }

  /** `localStorage.setItem("role", role)` turns a missing role into the string "undefined". */
  function StoredRole(role: Option<string>): string {
    role.GetOr("undefined")
  }

  // ---------------------------------------------------------------- step changes and the countdown

  /**
   * `setStep(next)` together with the effect that depends on `step`: the effect
   * runs only when the step actually changes; entering "otp" restarts the
   * countdown at five minutes and installs the interval, any other step clears it.
   */
  function Enter(s: Session, next: Step): (r: Session)
    ensures r.step == next
    ensures next != s.step && next == Otp ==> r.countdown == OTP_SECONDS && r.ticking
    ensures next != Otp ==> r.countdown == s.countdown && (r.ticking <==> next == s.step && s.ticking)
    ensures r.(step := s.step, countdown := s.countdown, ticking := s.ticking) == s
  {
    if next == s.step then s
    else if next == Otp then s.(step := Otp, countdown := OTP_SECONDS, ticking := true)
    else s.(step := next, ticking := false)
  }

  /** One firing of the interval: count down, and at the last second stop at 0 and clear the interval. */
  function Tick(s: Session): (r: Session)
    ensures r.(countdown := s.countdown, ticking := s.ticking) == s
    ensures !s.ticking ==> r == s
    ensures s.ticking ==> r.countdown == (if s.countdown <= 1 then 0 else s.countdown - 1)
    ensures r.ticking <==> s.ticking && s.countdown > 1
  {
    if !s.ticking then s
    else if s.countdown <= 1 then s.(countdown := 0, ticking := false)
    else s.(countdown := s.countdown - 1)
  }

  /** `n` seconds of the interval. */
  function Ticks(s: Session, n: nat): Session
    decreases n
  {
    if n == 0 then s else Ticks(Tick(s), n - 1)
  }

  /** `isExpired`. */
  predicate IsExpired(s: Session) {
    s.countdown == 0
  }

  /** After `n` seconds the countdown has moved down by `n`, stopping at 0; nothing else changes. */
  lemma {:induction false} TicksCountDown(s: Session, n: nat)
    requires s.ticking ==> s.countdown > 0
    ensures !s.ticking ==> Ticks(s, n) == s
    ensures s.ticking ==> Ticks(s, n) == s.(countdown := if n < s.countdown then s.countdown - n else 0,
                                            ticking := n < s.countdown)
    decreases n
  {
    if n > 0 {
      TicksCountDown(Tick(s), n - 1);
    }
  }

  /** Once the countdown reaches 0 it stays there, and the step never changes by waiting. */
  lemma ExpiryIsAbsorbing(s: Session, n: nat)
    requires s.ticking ==> s.countdown > 0
    requires IsExpired(s)
    ensures IsExpired(Ticks(s, n)) && Ticks(s, n).step == s.step
  {
    TicksCountDown(s, n);
  }

  /** `String(n).padStart(2, "0")`. */
  function TwoDigits(n: nat): string {
    PadZeros(DecimalString(n), 2)
  }

  lemma TwoDigitsValue(n: nat)
    ensures var p := TwoDigits(n); |p| >= 2 && AllDigits(p) && DecimalValue(p) == n && (n < 100 ==> |p| == 2)
  {
    var d := DecimalString(n);
    DecimalRoundTrip(n);
    LeadingZeros(|PadZeros(d, 2)| - |d|, d);
  }

  lemma SplitAtColon(a: string, b: string)
    requires |b| == 2
    ensures var r := a + ":" + b; |r| >= 3 && r[|r| - 3] == ':' && r[..|r| - 3] == a && r[|r| - 2..] == b
  {
    var r := a + ":" + b;
    assert r[..|r| - 3] == a;
    assert r[|r| - 2..] == b;
  }

  /** Minutes and seconds, each padded to two digits, around a colon. */
  function Clock(m: nat, sec: nat): (r: string)
    requires sec < 100
    ensures |r| >= 5 && r[|r| - 3] == ':'
    ensures AllDigits(r[..|r| - 3]) && AllDigits(r[|r| - 2..])
    ensures DecimalValue(r[..|r| - 3]) == m
    ensures DecimalValue(r[|r| - 2..]) == sec
    ensures m < 100 ==> |r| == 5
  {
    var a := TwoDigits(m);
    var b := TwoDigits(sec);
    TwoDigitsValue(m);
    TwoDigitsValue(sec);
    SplitAtColon(a, b);
    a + ":" + b
  }

  lemma DivMod60(secs: nat)
    ensures 60 * (secs / 60) + secs % 60 == secs && secs % 60 < 60
    ensures secs < 6000 ==> secs / 60 < 100
  {
  }

  /** `formatTime`: "MM:SS", minutes and seconds in decimal, each padded to two digits. */
  function FormatTime(secs: nat): (r: string)
    ensures |r| >= 5 && r[|r| - 3] == ':'
    ensures AllDigits(r[..|r| - 3]) && AllDigits(r[|r| - 2..])
    ensures DecimalValue(r[..|r| - 3]) == secs / 60
    ensures DecimalValue(r[|r| - 2..]) == secs % 60
    ensures 60 * DecimalValue(r[..|r| - 3]) + DecimalValue(r[|r| - 2..]) == secs
    ensures secs < 6000 ==> |r| == 5
  {
    DivMod60(secs);
    Clock(secs / 60, secs % 60)
  }

  /** Reads "MM:SS" back: the digits before the colon are minutes, the two after it seconds. */
  function ParseTime(r: string): Option<nat> {
    if |r| >= 5 && r[|r| - 3] == ':' && AllDigits(r[..|r| - 3]) && AllDigits(r[|r| - 2..])
    then Some(60 * DecimalValue(r[..|r| - 3]) + DecimalValue(r[|r| - 2..]))
    else None
  }

  lemma FormatTimeRoundTrip(secs: nat)
    ensures ParseTime(FormatTime(secs)) == Some(secs)
  {
  }

  /** Different countdown values are shown differently. */
  lemma FormatTimeInjective(a: nat, b: nat)
    requires FormatTime(a) == FormatTime(b)
    ensures a == b
  {
    FormatTimeRoundTrip(a);
    FormatTimeRoundTrip(b);
  }

  lemma FormatTimeUnfold(secs: nat)
    ensures FormatTime(secs) == TwoDigits(secs / 60) + ":" + TwoDigits(secs % 60)
  {
    assert FormatTime(secs) == Clock(secs / 60, secs % 60);
  }

  lemma TwoDigitsOfDigit(d: nat)
    requires d < 10
    ensures TwoDigits(d) == ['0', DigitChar(d)]
  {
  }

  lemma FormatTimeExamples()
    ensures FormatTime(OTP_SECONDS) == "05:00"
    ensures FormatTime(61) == "01:01"
  {
    FormatTimeUnfold(OTP_SECONDS);
    FormatTimeUnfold(61);
    TwoDigitsOfDigit(5);
    TwoDigitsOfDigit(0);
    TwoDigitsOfDigit(1);
  }

  // ---------------------------------------------------------------- step 1: credentials

  /** `email.trim().toLowerCase() === ADMIN_EMAIL`. */
  predicate IsAdminEmail(email: string) {
    AsciiLower(Trim(email)) == ADMIN_EMAIL
  }

  lemma TrimStartSkips(pre: string, x: string)
    requires forall k :: 0 <= k < |pre| ==> IsJsSpace(pre[k])
    requires x == [] || !IsJsSpace(x[0])
    ensures TrimStart(pre + x) == x
  {
    var s := pre + x;
    var n := SpacesFrom(s, 0);
    assert s[|pre|..] == x;
  }

  lemma TrimEndSkips(x: string, post: string)
    requires forall k :: 0 <= k < |post| ==> IsJsSpace(post[k])
    requires x == [] || !IsJsSpace(x[|x| - 1])
    ensures TrimEnd(x + post) == x
  {
    var s := x + post;
    var n := SpacesUntil(s, |s|);
    assert s[..|x|] == x;
  }

  lemma TrimAround(pre: string, core: string, post: string)
    requires forall k :: 0 <= k < |pre| ==> IsJsSpace(pre[k])
    requires forall k :: 0 <= k < |post| ==> IsJsSpace(post[k])
    requires core != [] && !IsJsSpace(core[0]) && !IsJsSpace(core[|core| - 1])
    ensures Trim(pre + core + post) == core
  {
    TrimStartSkips(pre, core + post);
    assert pre + core + post == pre + (core + post);
    TrimEndSkips(core, post);
  }

  /** The administrator's address is recognised whatever its letter case and surrounding white space. */
  lemma AdminEmailTolerant(pre: string, core: string, post: string)
    requires forall k :: 0 <= k < |pre| ==> IsJsSpace(pre[k])
    requires forall k :: 0 <= k < |post| ==> IsJsSpace(post[k])
    requires AsciiLower(core) == ADMIN_EMAIL
    ensures IsAdminEmail(pre + core + post)
  {
    AdminCoreEnds(core);
    TrimAround(pre, core, post);
  }

  /** An address that lower-cases to the administrator's starts and ends with a letter. */
  lemma AdminCoreEnds(core: string)
    requires AsciiLower(core) == ADMIN_EMAIL
    ensures core != [] && !IsJsSpace(core[0]) && !IsJsSpace(core[|core| - 1])
  {
    AdminEmailEnds();
    LoweredEnds(core, ADMIN_EMAIL);
  }

  lemma LoweredEnds(core: string, target: string)
    requires AsciiLower(core) == target && target != []
    requires 'a' <= target[0] <= 'z' && 'a' <= target[|target| - 1] <= 'z'
    ensures core != [] && !IsJsSpace(core[0]) && !IsJsSpace(core[|core| - 1])
  {
    LetterNotSpace(core[0]);
    LetterNotSpace(core[|core| - 1]);
  }

  /** An address whose first character is neither white space nor an `a` is not the administrator's. */
  lemma NotAdminByFirst(email: string)
    requires email != [] && !IsJsSpace(email[0]) && LowerChar(email[0]) != 'a'
    ensures !IsAdminEmail(email)
  {
    TrimStartSkips([], email);
    assert [] + email == email;
    var trimmed := Trim(email);
    assert trimmed != [] && trimmed[0] == email[0];
    var lower := AsciiLower(trimmed);
    assert lower[0] == LowerChar(email[0]);
    AdminEmailEnds();
    FirstDiffers(lower, ADMIN_EMAIL);
  }

  lemma FirstDiffers(x: string, y: string)
    requires x != [] && y != [] && x[0] != y[0]
    ensures x != y
  {
  }

  lemma AdminEmailEnds()
    ensures |ADMIN_EMAIL| == 15 && ADMIN_EMAIL[0] == 'a' && ADMIN_EMAIL[14] == 'm'
  {
  }

  lemma LetterNotSpace(c: char)
    requires 'a' <= LowerChar(c) <= 'z'
    ensures !IsJsSpace(c)
  {
  }

  /** A reply that counts as a wrong password: HTTP 401 or an `error` field. */
  predicate IsRejection(r: Reply) {
    r.httpStatus == 401 || r.error != ""
  }

  /** "Incorrect password. N attempt(s) remaining." */
  function AttemptsLeftMessage(left: nat): string {
    "Incorrect password. " + DecimalString(left) + " attempt" + (if left != 1 then "s" else "") + " remaining."
  }

  /** The fields a credentials submission never changes, and how it may change the countdown. */
  predicate CredentialsFrame(s: Session, r: Session) {
    && r.email == s.email && r.password == s.password && r.faceImage == s.faceImage
    && r.otpDigits == s.otpDigits && r.otpFeedback == s.otpFeedback
    && (r.step == s.step || r.step == Face || r.step == Otp)
    && ((r.countdown == s.countdown && (r.ticking ==> s.ticking)) ||
        (s.step != Otp && r.step == Otp && r.countdown == OTP_SECONDS && r.ticking))
  }

  /**
   * `handleCredentials`: `reply` is what `login(email, password, null)` gives,
   * `issue` what `sendOtp(user_id, email)` gives when the attempts run out.
   */
  function SubmitCredentials(s: Session, reply: Call<Reply>, issue: Call<()>): (t: Transition)
    ensures CredentialsFrame(s, t.next)
    ensures t.saved.Some? ==> IsAdminEmail(s.email) && reply.Returned? && reply.value.token != ""
  {
    if s.email == "" || s.password == "" then
      Transition(s.(error := FILL_FIELDS), None)
    else
      var s1 := s.(error := "", calls := s.calls + [LoginRequest(s.email, s.password, None)]);
      if IsAdminEmail(s.email) then AdminReply(s1, reply) else PasswordReply(s1, reply, issue)
  }

  /** The administrator's branch, once the login request is sent. */
  function AdminReply(s: Session, reply: Call<Reply>): (t: Transition)
    ensures CredentialsFrame(s, t.next) && t.next.step == s.step
    ensures t.saved.Some? ==> reply.Returned? && reply.value.token != ""
  {
    match reply
    case Threw => Transition(s.(error := NETWORK_ERROR), None)
    case Returned(r) =>
      if r.token != "" then Transition(s.(navigatedTo := Some(ADMIN_ROUTE)), Some(Auth(r.token, StoredRole(r.role))))
      else Transition(s.(error := INVALID_ADMIN), None)
  }

  /** Everybody else's branch, once the login request is sent. */
  function PasswordReply(s: Session, reply: Call<Reply>, issue: Call<()>): (t: Transition)
    ensures CredentialsFrame(s, t.next) && t.saved.None?
  {
    match reply
    case Threw => Transition(s.(error := NETWORK_ERROR), None)
    case Returned(r) =>
      if r.status == "credentials_ok" then Transition(Enter(s, Face), None)
      else if IsRejection(r) then Transition(CountRejection(s, r, issue), None)
      else Transition(s.(error := SOMETHING_WRONG), None)
  }

  /** A wrong password: one more attempt, and at the limit the move to the OTP step. */
  function CountRejection(s: Session, r: Reply, issue: Call<()>): (next: Session)
    ensures CredentialsFrame(s, next) && next.attempts == s.attempts + 1
  {
    var n := s.attempts + 1;
    var s2 := s.(attempts := n);
    if n >= MAX_ATTEMPTS then
      if r.userId != "" then
        var s3 := s2.(calls := s2.calls + [SendOtpRequest(r.userId, s.email)]);
        match issue
        case Threw => s3.(error := NETWORK_ERROR)
        case Returned(_) => Enter(s3.(userId := r.userId), Otp)
      else Enter(s2, Otp)
    else s2.(error := AttemptsLeftMessage(MAX_ATTEMPTS - n))
  }

  /** A submission with an empty field sends nothing and changes only the error message. */
  lemma EmptyFieldsSendNothing(s: Session, reply: Call<Reply>, issue: Call<()>)
    requires s.email == "" || s.password == ""
    ensures SubmitCredentials(s, reply, issue) == Transition(s.(error := FILL_FIELDS), None)
  {
  }

  /**
   * The administrator's address never leads to the face or OTP steps and never
   * touches the counter: a token is saved and opens the admin area, anything
   * else is an error.
   */
  lemma AdminShortcut(s: Session, reply: Call<Reply>, issue: Call<()>)
    requires s.email != "" && s.password != "" && IsAdminEmail(s.email)
    ensures var t := SubmitCredentials(s, reply, issue);
      && t.next.step == s.step && t.next.attempts == s.attempts && t.next.userId == s.userId
      && t.next.countdown == s.countdown && t.next.ticking == s.ticking
      && t.next.calls == s.calls + [LoginRequest(s.email, s.password, None)]
      && (reply.Returned? && reply.value.token != "" ==>
            t.saved == Some(Auth(reply.value.token, StoredRole(reply.value.role))) && t.next.navigatedTo == Some(ADMIN_ROUTE))
      && (reply.Returned? && reply.value.token == "" ==> t.saved.None? && t.next.error == INVALID_ADMIN)
      && (reply.Threw? ==> t.saved.None? && t.next.error == NETWORK_ERROR)
  {
  }

  /**
   * A rejected password adds exactly one attempt. Below the limit the page stays
   * on the credentials step and names the attempts left; at the limit it moves
   * to the OTP step, having asked for a code only when the reply carried a user
   * id (and adopting that id only when the request did not throw).
   */
  lemma RejectedPassword(s: Session, r: Reply, issue: Call<()>)
    requires s.step == Credentials && s.email != "" && s.password != "" && !IsAdminEmail(s.email)
    requires r.status != "credentials_ok" && IsRejection(r)
    ensures var t := SubmitCredentials(s, Returned(r), issue);
      && t.saved.None?
      && t.next.attempts == s.attempts + 1
      && (s.attempts + 1 < MAX_ATTEMPTS ==>
            t.next.step == Credentials && t.next.error == AttemptsLeftMessage(MAX_ATTEMPTS - (s.attempts + 1))
            && t.next.calls == s.calls + [LoginRequest(s.email, s.password, None)])
      && (s.attempts + 1 >= MAX_ATTEMPTS && r.userId == "" ==>
            t.next.step == Otp && t.next.userId == s.userId && t.next.countdown == OTP_SECONDS
            && t.next.calls == s.calls + [LoginRequest(s.email, s.password, None)])
      && (s.attempts + 1 >= MAX_ATTEMPTS && r.userId != "" ==>
            t.next.calls == s.calls + [LoginRequest(s.email, s.password, None), SendOtpRequest(r.userId, s.email)]
            && (issue.Returned? ==> t.next.step == Otp && t.next.userId == r.userId && t.next.countdown == OTP_SECONDS)
            && (issue.Threw? ==> t.next.step == Credentials && t.next.userId == s.userId && t.next.error == NETWORK_ERROR))
  {
  }

  /**
   * Only a rejection counts: "credentials_ok" moves to the face step, while an
   * unrecognised reply or an exception keeps the step and the counter.
   */
  lemma RepliesThatDoNotCount(s: Session, reply: Call<Reply>, issue: Call<()>)
    requires s.step == Credentials && s.email != "" && s.password != "" && !IsAdminEmail(s.email)
    requires reply.Threw? || reply.value.status == "credentials_ok" || !IsRejection(reply.value)
    ensures var t := SubmitCredentials(s, reply, issue);
      && t.saved.None? && t.next.attempts == s.attempts && t.next.userId == s.userId
      && t.next.calls == s.calls + [LoginRequest(s.email, s.password, None)]
      && (reply.Returned? && reply.value.status == "credentials_ok" ==> t.next.step == Face && t.next.error == "")
      && (reply.Returned? && reply.value.status != "credentials_ok" ==> t.next.step == Credentials && t.next.error == SOMETHING_WRONG)
      && (reply.Threw? ==> t.next.step == Credentials && t.next.error == NETWORK_ERROR)
  {
  }

  /** From the credentials step the only steps reachable are credentials, face and OTP. */
  lemma CredentialsNeverTerminal(s: Session, reply: Call<Reply>, issue: Call<()>)
    requires s.step == Credentials
    ensures SubmitCredentials(s, reply, issue).next.step != Success
    ensures SubmitCredentials(s, reply, issue).next.step != Failed
  {
  }

  // ---------------------------------------------------------------- step 2: face

  /** The Back button of the face step. */
  function BackFromFace(s: Session): (r: Session)
    ensures r.step == Credentials && r.faceImage.None? && r.error == ""
    ensures r.attempts == s.attempts && r.calls == s.calls && r.otpDigits == s.otpDigits
    ensures r.countdown == s.countdown && (r.ticking <==> s.step == Credentials && s.ticking)
    ensures r.(step := s.step, faceImage := s.faceImage, error := s.error, ticking := s.ticking) == s
  {
    Enter(s, Credentials).(faceImage := None, error := "")
  }

  /** `handleFaceLogin`: `reply` is what `login(email, password, faceImage)` gives. */
  function SubmitFace(s: Session, reply: Call<Reply>): (t: Transition)
    ensures t.next.attempts == s.attempts && t.next.email == s.email && t.next.password == s.password
    ensures t.saved.Some? ==> t.next.step == Success
  {
    if s.faceImage.None? then
      Transition(s.(error := CAPTURE_FIRST), None)
    else
      var s1 := s.(error := "", calls := s.calls + [LoginRequest(s.email, s.password, s.faceImage)]);
      match reply
      case Threw => Transition(s1.(error := NETWORK_ERROR), None)
      case Returned(r) =>
        if r.token != "" then Transition(Enter(s1, Success), Some(Auth(r.token, StoredRole(r.role))))
        else if r.status == "otp_required" then Transition(Enter(s1.(userId := r.userId), Otp), None)
        else Transition(Enter(s1, Failed), None)
  }

  /**
   * The face step without an image sends nothing. With one: a token means
   * success and is saved; "otp_required" means the OTP step with the reply's
   * user id and a fresh countdown, without a separate code request; any other
   * reply fails; an exception stays on the face step.
   */
  lemma FaceOutcomes(s: Session, reply: Call<Reply>)
    requires s.step == Face
    ensures var t := SubmitFace(s, reply);
      && (s.faceImage.None? ==> t == Transition(s.(error := CAPTURE_FIRST), None))
      && (s.faceImage.Some? ==> t.next.calls == s.calls + [LoginRequest(s.email, s.password, s.faceImage)])
      && (s.faceImage.Some? && reply.Threw? ==> t.next.step == Face && t.saved.None? && t.next.error == NETWORK_ERROR)
      && (s.faceImage.Some? && reply.Returned? && reply.value.token != "" ==>
            t.next.step == Success && t.saved == Some(Auth(reply.value.token, StoredRole(reply.value.role))))
      && (s.faceImage.Some? && reply.Returned? && reply.value.token == "" && reply.value.status == "otp_required" ==>
            t.next.step == Otp && t.next.userId == reply.value.userId && t.next.countdown == OTP_SECONDS
            && t.next.ticking && t.saved.None?)
      && (s.faceImage.Some? && reply.Returned? && reply.value.token == "" && reply.value.status != "otp_required" ==>
            t.next.step == Failed && t.saved.None?)
  {
  }

  // ---------------------------------------------------------------- step 3: OTP

  /** `otpDigits.join("")`. */
  function Join(d: seq<string>): string {
    if d == [] then "" else d[0] + Join(d[1..])
  }

  /** The joined code of slots that each hold at most one character is shorter than the slot count exactly when a slot is empty. */
  lemma {:induction false} JoinShort(d: seq<string>)
    requires forall i :: 0 <= i < |d| ==> IsSlot(d[i])
    ensures |Join(d)| <= |d|
    ensures |Join(d)| < |d| <==> exists i :: 0 <= i < |d| && d[i] == ""
  {
    if d != [] {
      JoinShort(d[1..]);
      if exists i :: 0 <= i < |d[1..]| && d[1..][i] == "" {
        var i :| 0 <= i < |d[1..]| && d[1..][i] == "";
        assert d[i + 1] == "";
      }
      if exists i :: 0 <= i < |d| && d[i] == "" {
        var i :| 0 <= i < |d| && d[i] == "";
        if i > 0 {
          assert d[1..][i - 1] == "";
        }
      }
    }
  }

  lemma {:induction false} JoinAllDigits(d: seq<string>)
    requires forall i :: 0 <= i < |d| ==> IsSlot(d[i])
    ensures AllDigits(Join(d))
  {
    if d != [] {
      JoinAllDigits(d[1..]);
    }
  }

  /** `handleOtpChange(i, val)`: a value that is not empty or one digit is ignored; otherwise only slot `i` changes. */
  function ChangeDigit(s: Session, i: nat, val: string): (r: Session)
    requires i < |s.otpDigits|
    ensures |r.otpDigits| == |s.otpDigits|
    ensures IsSlot(val) ==> r.otpDigits[i] == val
    ensures forall j :: 0 <= j < |s.otpDigits| && j != i ==> r.otpDigits[j] == s.otpDigits[j]
    ensures !IsSlot(val) ==> r == s
    ensures r.(otpDigits := s.otpDigits) == s
  {
    if !IsSlot(val) then s else s.(otpDigits := s.otpDigits[i := val])
  }

  /** The six slots a pasted code fills, one digit each. */
  function Spread(code: string): (d: seq<string>)
    requires |code| == OTP_LENGTH
    ensures |d| == OTP_LENGTH && forall i :: 0 <= i < OTP_LENGTH ==> d[i] == [code[i]]
  {
    seq(OTP_LENGTH, i requires 0 <= i < OTP_LENGTH => [code[i]])
  }

  /**
   * `handleOtpPaste`: keep the digits of the pasted text; when at least six
   * remain, the first six replace all slots, otherwise nothing changes.
   */
  function PasteDigits(s: Session, text: string): (r: Session)
    ensures |DigitsOnly(text)| < OTP_LENGTH ==> r == s
    ensures |DigitsOnly(text)| >= OTP_LENGTH ==>
      |r.otpDigits| == OTP_LENGTH && forall i :: 0 <= i < OTP_LENGTH ==> r.otpDigits[i] == [DigitsOnly(text)[i]]
    ensures r.(otpDigits := s.otpDigits) == s
  {
    var code := Prefix(DigitsOnly(text), OTP_LENGTH);
    if |code| == OTP_LENGTH then s.(otpDigits := Spread(code)) else s
  }

  /** `handleOtpVerify`: the three local guards in order, then `verifyOtp(userId, otp)` giving `reply`. */
  function SubmitOtp(s: Session, reply: Call<Reply>): (t: Transition)
    ensures t.next.userId == s.userId && t.next.countdown == s.countdown && t.next.email == s.email
    ensures t.saved.Some? ==> t.next.step == Success && t.next.attempts == 0
  {
    var otp := Join(s.otpDigits);
    if |otp| < OTP_LENGTH then Transition(s.(otpFeedback := FULL_CODE), None)
    else if s.userId == "" then Transition(s.(otpFeedback := SESSION_EXPIRED), None)
    else if IsExpired(s) then Transition(s.(otpFeedback := OTP_EXPIRED), None)
    else
      VerifyReply(s.(otpFeedback := "", calls := s.calls + [VerifyOtpRequest(s.userId, otp)]), reply)
  }

  /** The reply to `verifyOtp`, once the request is sent: a token is stored and ends the login, anything else is reported. */
  function VerifyReply(s: Session, reply: Call<Reply>): (t: Transition)
    ensures t.saved.Some? <==> reply.Returned? && reply.value.token != ""
    ensures t.next.userId == s.userId && t.next.countdown == s.countdown && t.next.email == s.email
    ensures t.saved.Some? ==> t.next.step == Success && t.next.attempts == 0
    ensures t.saved.None? ==> t.next.step == s.step && t.next.calls == s.calls
  {
    match reply
    case Threw => Transition(s.(otpFeedback := OTP_NETWORK_ERROR), None)
    case Returned(r) =>
      if r.token != "" then Transition(Enter(s.(attempts := 0), Success), Some(Auth(r.token, StoredRole(r.role))))
      else Transition(s.(otpFeedback := INCORRECT_CODE, otpDigits := EmptyDigits()), None)
  }

  /** The code is sent exactly when all six slots are filled, a user id is known and time is left. */
  lemma OtpSentIff(s: Session, reply: Call<Reply>)
    requires Valid(s)
    ensures var t := SubmitOtp(s, reply);
      (|t.next.calls| > |s.calls|) <==>
        (forall i :: 0 <= i < OTP_LENGTH ==> s.otpDigits[i] != "") && s.userId != "" && s.countdown > 0
  {
    JoinShort(s.otpDigits);
  }

  /**
   * The guards, in order, each blocking the request with its own message: an
   * empty slot first, then a missing user id, then an expired countdown.
   */
  lemma OtpGuards(s: Session, reply: Call<Reply>)
    requires Valid(s)
    ensures var t := SubmitOtp(s, reply);
      && ((exists i :: 0 <= i < OTP_LENGTH && s.otpDigits[i] == "") ==> t == Transition(s.(otpFeedback := FULL_CODE), None))
      && ((forall i :: 0 <= i < OTP_LENGTH ==> s.otpDigits[i] != "") && s.userId == "" ==>
            t == Transition(s.(otpFeedback := SESSION_EXPIRED), None))
      && ((forall i :: 0 <= i < OTP_LENGTH ==> s.otpDigits[i] != "") && s.userId != "" && s.countdown == 0 ==>
            t == Transition(s.(otpFeedback := OTP_EXPIRED), None))
  {
    JoinShort(s.otpDigits);
  }

  /**
   * Once the code is sent: a token means success, saves it and resets the
   * counter; a rejected code clears all six slots and leaves the countdown
   * alone; an exception keeps the digits.
   */
  lemma OtpOutcomes(s: Session, reply: Call<Reply>)
    requires Valid(s) && s.step == Otp
    requires (forall i :: 0 <= i < OTP_LENGTH ==> s.otpDigits[i] != "") && s.userId != "" && s.countdown > 0
    ensures var t := SubmitOtp(s, reply);
      && t.next.calls == s.calls + [VerifyOtpRequest(s.userId, Join(s.otpDigits))]
      && (reply.Returned? && reply.value.token != "" ==>
            t.next.step == Success && t.next.attempts == 0 && !t.next.ticking
            && t.saved == Some(Auth(reply.value.token, StoredRole(reply.value.role))))
      && (reply.Returned? && reply.value.token == "" ==>
            t.next.step == Otp && t.next.otpDigits == EmptyDigits() && t.next.countdown == s.countdown
            && t.next.ticking == s.ticking && t.next.otpFeedback == INCORRECT_CODE && t.saved.None?)
      && (reply.Threw? ==>
            t.next.step == Otp && t.next.otpDigits == s.otpDigits && t.saved.None? && t.next.otpFeedback == OTP_NETWORK_ERROR)
  {
    JoinShort(s.otpDigits);
  }

  /** Joining slots of one character each lines the characters up in slot order. */
  lemma {:induction false} JoinSingles(d: seq<string>)
    requires forall i :: 0 <= i < |d| ==> |d[i]| == 1
    ensures |Join(d)| == |d|
    ensures forall i :: 0 <= i < |d| ==> Join(d)[i] == d[i][0]
  {
    if d != [] {
      JoinSingles(d[1..]);
      assert Join(d) == d[0] + Join(d[1..]);
      forall i | 0 <= i < |d|
        ensures Join(d)[i] == d[i][0]
      {
        if i > 0 {
          assert Join(d)[i] == Join(d[1..])[i - 1];
          assert d[1..][i - 1] == d[i];
        }
      }
    }
  }

  /** The code sent is six digits, the digit of each slot in slot order. */
  lemma OtpSentIsTheDigits(s: Session)
    requires Valid(s) && (forall i :: 0 <= i < OTP_LENGTH ==> s.otpDigits[i] != "")
    ensures |Join(s.otpDigits)| == OTP_LENGTH && AllDigits(Join(s.otpDigits))
    ensures forall i :: 0 <= i < OTP_LENGTH ==> Join(s.otpDigits)[i] == s.otpDigits[i][0]
  {
    JoinSingles(s.otpDigits);
    JoinAllDigits(s.otpDigits);
  }

  /**
   * `handleResend`: without a user id or email nothing happens; otherwise the
   * slots are cleared and a code requested, and only when the request does not
   * throw does the countdown restart at five minutes.
   */
  function Resend(s: Session, issue: Call<()>): (r: Session)
    ensures s.userId == "" || s.email == "" ==> r == s
    ensures s.userId != "" && s.email != "" ==>
      && r.otpDigits == EmptyDigits()
      && r.calls == s.calls + [SendOtpRequest(s.userId, s.email)]
      && r.step == s.step && r.attempts == s.attempts
      && (issue.Returned? ==> r.countdown == OTP_SECONDS && r.ticking && r.otpFeedback == RESENT)
      && (issue.Threw? ==> r.countdown == s.countdown && r.ticking == s.ticking && r.otpFeedback == RESEND_FAILED)
    ensures r.(otpFeedback := s.otpFeedback, otpDigits := s.otpDigits, calls := s.calls,
               countdown := s.countdown, ticking := s.ticking) == s
  {
    if s.userId == "" || s.email == "" then s
    else
      var s1 := s.(otpFeedback := "", otpDigits := EmptyDigits(), calls := s.calls + [SendOtpRequest(s.userId, s.email)]);
      match issue
      case Threw => s1.(otpFeedback := RESEND_FAILED)
      case Returned(_) => s1.(countdown := OTP_SECONDS, ticking := true, otpFeedback := RESENT)
  }

  // ---------------------------------------------------------------- restart

  /** `resetToLogin` (the Try Again button). */
  function ResetToLogin(s: Session): (r: Session)
    ensures r.step == Credentials && r.faceImage.None? && r.otpDigits == EmptyDigits() && r.attempts == 0
    ensures r.error == "" && r.otpFeedback == ""
    ensures r.email == s.email && r.password == s.password && r.userId == s.userId && r.calls == s.calls
    ensures r.countdown == s.countdown && (r.ticking <==> s.step == Credentials && s.ticking)
    ensures r.(step := s.step, faceImage := s.faceImage, otpDigits := s.otpDigits, error := s.error,
               otpFeedback := s.otpFeedback, attempts := s.attempts, ticking := s.ticking) == s
  {
    Enter(s, Credentials).(faceImage := None, otpDigits := EmptyDigits(), error := "", otpFeedback := "", attempts := 0)
  }

  lemma ResetIdempotent(s: Session)
    ensures ResetToLogin(ResetToLogin(s)) == ResetToLogin(s)
  {
  }

  /** Restarting from two states that differ only in their progress yields the same state. */
  lemma ResetForgetsProgress(s: Session, u: Session)
    requires s.email == u.email && s.password == u.password && s.userId == u.userId && s.calls == u.calls
    requires s.countdown == u.countdown && s.navigatedTo == u.navigatedTo
    requires s.step != Credentials && u.step != Credentials
    ensures ResetToLogin(s) == ResetToLogin(u)
  {
  }

  // ---------------------------------------------------------------- the invariant

  lemma CredentialsKeepValid(s: Session, reply: Call<Reply>, issue: Call<()>)
    requires Valid(s)
    ensures Valid(SubmitCredentials(s, reply, issue).next)
  {
  }

  lemma FaceKeepsValid(s: Session, reply: Call<Reply>)
    requires Valid(s)
    ensures Valid(SubmitFace(s, reply).next) && Valid(BackFromFace(s))
  {
  }

  lemma OtpKeepsValid(s: Session, reply: Call<Reply>, issue: Call<()>)
    requires Valid(s)
    ensures Valid(SubmitOtp(s, reply).next) && Valid(Resend(s, issue))
  {
  }

  lemma DigitsKeepValid(s: Session, i: nat, val: string, text: string)
    requires Valid(s) && i < OTP_LENGTH
    ensures Valid(ChangeDigit(s, i, val)) && Valid(PasteDigits(s, text))
  {
    var code := Prefix(DigitsOnly(text), OTP_LENGTH);
    if |code| == OTP_LENGTH {
      assert forall k :: 0 <= k < OTP_LENGTH ==> IsSlot(Spread(code)[k]);
    }
  }

  lemma ResetAndTickKeepValid(s: Session)
    requires Valid(s)
    ensures Valid(ResetToLogin(s)) && Valid(Tick(s))
  {
  }

  // ---------------------------------------------------------------- scenarios

  function Rejection(userId: string): Reply {
    Reply("", 401, "Invalid credentials", "", None, userId, "")
  }

  /**
   * Three wrong passwords: credentials, credentials, then the OTP step with the
   * counter at 3, one code request and a fresh countdown.
   */
  lemma ThreeWrongPasswords(email: string, password: string, uid: string)
    requires email != "" && password != "" && uid != "" && !IsAdminEmail(email)
    ensures var s0 := Initial().(email := email, password := password);
      var s1 := SubmitCredentials(s0, Returned(Rejection(uid)), Returned(())).next;
      var s2 := SubmitCredentials(s1, Returned(Rejection(uid)), Returned(())).next;
      var s3 := SubmitCredentials(s2, Returned(Rejection(uid)), Returned(())).next;
      && s1.step == Credentials && s1.attempts == 1 && s1.error == AttemptsLeftMessage(2)
      && s2.step == Credentials && s2.attempts == 2 && s2.error == AttemptsLeftMessage(1)
      && s3.step == Otp && s3.attempts == 3 && s3.userId == uid && s3.countdown == OTP_SECONDS
      && s3.calls == [LoginRequest(email, password, None), LoginRequest(email, password, None),
                      LoginRequest(email, password, None), SendOtpRequest(uid, email)]
  {
  }

  /**
   * The counter is not bounded by three: when the code request throws at the
   * third rejection the page stays on the credentials step, and the next
   * rejection takes the counter to four.
   */
  lemma CounterPassesLimit(email: string, password: string, uid: string)
    requires email != "" && password != "" && uid != "" && !IsAdminEmail(email)
    ensures var s0 := Initial().(email := email, password := password, attempts := 2);
      var s1 := SubmitCredentials(s0, Returned(Rejection(uid)), Threw).next;
      var s2 := SubmitCredentials(s1, Returned(Rejection(uid)), Returned(())).next;
      && s1.step == Credentials && s1.attempts == 3 && s1.error == NETWORK_ERROR
      && s2.step == Otp && s2.attempts == 4
  {
  }

  /** Password accepted, then the face accepted with a token: success, and the token is saved. */
  lemma PasswordThenFace(s: Session, ok: Reply, granted: Reply, image: string)
    requires s.step == Credentials && s.email != "" && s.password != "" && !IsAdminEmail(s.email)
    requires ok.status == "credentials_ok" && granted.token != ""
    ensures var s1 := SubmitCredentials(s, Returned(ok), Returned(())).next;
      var t := SubmitFace(s1.(faceImage := Some(image)), Returned(granted));
      s1.step == Face && t.next.step == Success && t.saved == Some(Auth(granted.token, StoredRole(granted.role)))
  {
  }

  /**
   * The face step answered with "otp_required", five minutes pass: the code can
   * no longer be submitted although every slot is filled.
   */
  lemma ExpiredCodeIsBlocked(s: Session, otpReply: Reply, code: string, reply: Call<Reply>)
    requires Valid(s) && s.step == Face && s.faceImage.Some?
    requires otpReply.token == "" && otpReply.status == "otp_required" && otpReply.userId != ""
    requires |code| == OTP_LENGTH && AllDigits(code)
    ensures var s1 := SubmitFace(s, Returned(otpReply)).next;
      var s2 := Ticks(s1, OTP_SECONDS).(otpDigits := Spread(code));
      && s1.step == Otp && s1.countdown == OTP_SECONDS
      && s2.step == Otp && IsExpired(s2) && !s2.ticking
      && SubmitOtp(s2, reply) == Transition(s2.(otpFeedback := OTP_EXPIRED), None)
  {
    var s1 := SubmitFace(s, Returned(otpReply)).next;
    TicksCountDown(s1, OTP_SECONDS);
    var s2 := Ticks(s1, OTP_SECONDS).(otpDigits := Spread(code));
    assert Valid(s2);
    OtpGuards(s2, reply);
  }
}
