/**
 * The login page as an object: its React state variables are fields that the
 * handlers update one assignment at a time, as the handlers do with their
 * setters. Each handler is proved to produce the state its transition function
 * in `LoginModel` describes, and the store it writes credentials to is the
 * `localStorage` of `AuthStore`.
 */
module LoginPage {
  import opened Wrappers
  import opened JsText
  import opened Api
  import opened LoginModel
  import AuthStore

  class Page {
    var step: Step
    var email: string
    var password: string
    var faceImage: Option<string>
    var otpDigits: seq<string>
    var userId: string
    var error: string
    var otpFeedback: string
    var attempts: nat
    var countdown: nat
    var ticking: bool
    var calls: seq<Request>
    var navigatedTo: Option<string>

    /** The fields as one session value. */
    function State(): Session
      reads this
    {
      Session(step, email, password, faceImage, otpDigits, userId, error, otpFeedback,
              attempts, countdown, ticking, calls, navigatedTo)
    }

    predicate Valid()
      reads this
    {
      LoginModel.Valid(State())
    }

    /** Mounting the page (the mount effect also zeroes the counter). */
    constructor ()
      ensures State() == Initial() && Valid()
    {
      step, email, password, faceImage := Credentials, "", "", None;
      otpDigits, userId, error, otpFeedback := EmptyDigits(), "", "", "";
      attempts, countdown, ticking := 0, OTP_SECONDS, false;
      calls, navigatedTo := [], None;
    }

    /** `isExpired`. */
    function IsExpired(): (b: bool)
      reads this
      ensures b <==> LoginModel.IsExpired(State())
    {
      countdown == 0
    }

    /** The countdown as the OTP step shows it. */
    function CountdownText(): (r: string)
      reads this
      ensures ParseTime(r) == Some(countdown)
      ensures countdown <= OTP_SECONDS ==> |r| == 5
    {
      FormatTimeRoundTrip(countdown);
      FormatTime(countdown)
    }

    /** The email input's `onChange`. */
    method SetEmail(value: string)
      modifies this
      ensures State() == old(State()).(email := value)
    {
      email := value;
    }

    /** The password input's `onChange`. */
    method SetPassword(value: string)
      modifies this
      ensures State() == old(State()).(password := value)
    {
      password := value;
    }

    /** The camera's `onCapture`: a photo, or `None` when the photo is retaken. */
    method CaptureFace(image: Option<string>)
      modifies this
      ensures State() == old(State()).(faceImage := image)
    {
      faceImage := image;
    }

    /** The camera's `onError`. */
    method CameraError(message: string)
      modifies this
      ensures State() == old(State()).(error := message)
    {
      error := message;
    }

    /** `setStep(next)` and the countdown effect that depends on `step`. */
    method SetStep(next: Step)
      modifies this
      ensures State() == Enter(old(State()), next)
    {
      if next != step {
        step := next;
        if next == Otp {
          countdown := OTP_SECONDS;
          ticking := true;
        } else {
          ticking := false;
        }
      }
    }

    /** One firing of the countdown interval. */
    method Tick()
      requires Valid()
      modifies this
      ensures State() == LoginModel.Tick(old(State())) && Valid()
    {
      if ticking {
        if countdown <= 1 {
          ticking := false;
          countdown := 0;
        } else {
          countdown := countdown - 1;
        }
      }
    }

    /** `saveAuth(token, role)` when a handler obtained credentials. */
    static method Save(store: AuthStore.Storage, saved: Option<Auth>)
      modifies store
      ensures saved.None? ==> store.items == old(store.items)
      ensures saved.Some? ==> store.items == AuthStore.AfterSave(old(store.items), saved.value.token, saved.value.role)
    {
      if saved.Some? {
        store.SaveAuth(saved.value.token, saved.value.role);
      }
    }

    /** `handleCredentials`. */
    method HandleCredentials(store: AuthStore.Storage, reply: Call<Reply>, issue: Call<()>)
      requires Valid()
      modifies this, store
      ensures var t := SubmitCredentials(old(State()), reply, issue);
        && State() == t.next && Valid()
        && (t.saved.None? ==> store.items == old(store.items))
        && (t.saved.Some? ==> store.items == AuthStore.AfterSave(old(store.items), t.saved.value.token, t.saved.value.role))
    {
      ghost var s := State();
      CredentialsKeepValid(s, reply, issue);
      if email == "" || password == "" {
        error := FILL_FIELDS;
        return;
      }
      error := "";
      calls := calls + [LoginRequest(email, password, None)];
      ghost var s1 := State();
      assert s1 == s.(error := "", calls := s.calls + [LoginRequest(s.email, s.password, None)]);
      if IsAdminEmail(email) {
        HandleAdminReply(store, reply);
        assert SubmitCredentials(s, reply, issue) == AdminReply(s1, reply);
      } else {
        HandlePasswordReply(reply, issue);
        assert SubmitCredentials(s, reply, issue) == PasswordReply(s1, reply, issue);
      }
    }

    /** The administrator's branch of `handleCredentials`, once the login request is sent. */
    method HandleAdminReply(store: AuthStore.Storage, reply: Call<Reply>)
      modifies this, store
      ensures var t := AdminReply(old(State()), reply);
        && State() == t.next
        && (t.saved.None? ==> store.items == old(store.items))
        && (t.saved.Some? ==> store.items == AuthStore.AfterSave(old(store.items), t.saved.value.token, t.saved.value.role))
    {
      match reply {
        case Threw =>
          error := NETWORK_ERROR;
        case Returned(r) =>
          if r.token != "" {
            Save(store, Some(Auth(r.token, StoredRole(r.role))));
            navigatedTo := Some(ADMIN_ROUTE);
          } else {
            error := INVALID_ADMIN;
          }
      }
    }

    /** The password branch of `handleCredentials`, once the login request is sent. */
    method HandlePasswordReply(reply: Call<Reply>, issue: Call<()>)
      modifies this
      ensures State() == PasswordReply(old(State()), reply, issue).next
    {
      match reply {
        case Threw =>
          error := NETWORK_ERROR;
        case Returned(r) =>
          if r.status == "credentials_ok" {
            SetStep(Face);
          } else if IsRejection(r) {
            HandleRejection(r, issue);
          } else {
            error := SOMETHING_WRONG;
          }
      }
    }

    /** The rejection branch of `handleCredentials`: a wrong password is counted. */
    method HandleRejection(r: Reply, issue: Call<()>)
      modifies this
      ensures State() == CountRejection(old(State()), r, issue)
    {
      ghost var s0 := State();
      var newAttempts := attempts + 1;
      attempts := newAttempts;
      if newAttempts >= MAX_ATTEMPTS {
        var uid := r.userId;
        if uid != "" {
          calls := calls + [SendOtpRequest(uid, email)];
          if issue.Threw? {
            error := NETWORK_ERROR;
            return;
          }
          userId := uid;
          assert State() == s0.(attempts := newAttempts, calls := s0.calls + [SendOtpRequest(uid, s0.email)], userId := uid);
        }
        SetStep(Otp);
      } else {
        error := AttemptsLeftMessage(MAX_ATTEMPTS - newAttempts);
      }
    }

    /** The Back button of the face step. */
    method BackFromFace()
      requires Valid()
      modifies this
      ensures State() == LoginModel.BackFromFace(old(State())) && Valid()
    {
      FaceKeepsValid(State(), Threw);
      SetStep(Credentials);
      faceImage := None;
      error := "";
    }

    /** `handleFaceLogin`. */
    method HandleFaceLogin(store: AuthStore.Storage, reply: Call<Reply>)
      requires Valid()
      modifies this, store
      ensures var t := SubmitFace(old(State()), reply);
        && State() == t.next && Valid()
        && (t.saved.None? ==> store.items == old(store.items))
        && (t.saved.Some? ==> store.items == AuthStore.AfterSave(old(store.items), t.saved.value.token, t.saved.value.role))
    {
      FaceKeepsValid(State(), reply);
      if faceImage.None? {
        error := CAPTURE_FIRST;
        return;
      }
      error := "";
      calls := calls + [LoginRequest(email, password, faceImage)];
      match reply {
        case Threw =>
          error := NETWORK_ERROR;
        case Returned(r) =>
          if r.token != "" {
            Save(store, Some(Auth(r.token, StoredRole(r.role))));
            SetStep(Success);
          } else if r.status == "otp_required" {
            userId := r.userId;
            SetStep(Otp);
          } else {
            SetStep(Failed);
          }
      }
    }

    /** `handleOtpChange(i, val)` for the slot at index `i`. */
    method HandleOtpChange(i: nat, val: string)
      requires Valid() && i < OTP_LENGTH
      modifies this
      ensures State() == ChangeDigit(old(State()), i, val) && Valid()
    {
      DigitsKeepValid(State(), i, val, "");
      if !IsSlot(val) {
        return;
      }
      var next := otpDigits;
      next := next[i := val];
      otpDigits := next;
    }

    /** `handleOtpPaste` with the clipboard's text. */
    method HandleOtpPaste(text: string)
      requires Valid()
      modifies this
      ensures State() == PasteDigits(old(State()), text) && Valid()
    {
      DigitsKeepValid(State(), 0, "", text);
      var code := Prefix(DigitsOnly(text), OTP_LENGTH);
      if |code| == OTP_LENGTH {
        otpDigits := Spread(code);
      }
    }

    /** `handleOtpVerify`. */
    method HandleOtpVerify(store: AuthStore.Storage, reply: Call<Reply>)
      requires Valid()
      modifies this, store
      ensures var t := SubmitOtp(old(State()), reply);
        && State() == t.next && Valid()
        && (t.saved.None? ==> store.items == old(store.items))
        && (t.saved.Some? ==> store.items == AuthStore.AfterSave(old(store.items), t.saved.value.token, t.saved.value.role))
    {
      ghost var s0 := State();
      OtpKeepsValid(s0, reply, Threw);
      var otp := Join(otpDigits);
      if |otp| < OTP_LENGTH {
        otpFeedback := FULL_CODE;
        return;
      }
      if userId == "" {
        otpFeedback := SESSION_EXPIRED;
        return;
      }
      if IsExpired() {
        otpFeedback := OTP_EXPIRED;
        return;
      }
      otpFeedback := "";
      calls := calls + [VerifyOtpRequest(userId, otp)];
      assert State() == s0.(otpFeedback := "", calls := s0.calls + [VerifyOtpRequest(s0.userId, otp)]);
      HandleVerifyReply(store, reply);
    }

    /** The reply branch of `handleOtpVerify`, once the code is sent. */
    method HandleVerifyReply(store: AuthStore.Storage, reply: Call<Reply>)
      modifies this, store
      ensures var t := VerifyReply(old(State()), reply);
        && State() == t.next
        && (t.saved.None? ==> store.items == old(store.items))
        && (t.saved.Some? ==> store.items == AuthStore.AfterSave(old(store.items), t.saved.value.token, t.saved.value.role))
    {
      match reply {
        case Threw =>
          otpFeedback := OTP_NETWORK_ERROR;
        case Returned(r) =>
          if r.token != "" {
            Save(store, Some(Auth(r.token, StoredRole(r.role))));
            attempts := 0;
            SetStep(Success);
          } else {
            otpFeedback := INCORRECT_CODE;
            otpDigits := EmptyDigits();
          }
      }
    }

    /** `handleResend`: `issue` is what `sendOtp(userId, email)` gives. */
    method HandleResend(issue: Call<()>)
      requires Valid()
      modifies this
      ensures State() == Resend(old(State()), issue) && Valid()
    {
      OtpKeepsValid(State(), Threw, issue);
      if userId == "" || email == "" {
        return;
      }
      otpFeedback := "";
      otpDigits := EmptyDigits();
      calls := calls + [SendOtpRequest(userId, email)];
      if issue.Threw? {
        otpFeedback := RESEND_FAILED;
        return;
      }
      countdown := OTP_SECONDS;
      ticking := true;
      otpFeedback := RESENT;
    }

    /** `resetToLogin`. */
    method ResetToLogin()
      requires Valid()
      modifies this
      ensures State() == LoginModel.ResetToLogin(old(State())) && Valid()
    {
      ResetAndTickKeepValid(State());
      SetStep(Credentials);
      faceImage := None;
      otpDigits := EmptyDigits();
      error := "";
      otpFeedback := "";
      attempts := 0;
    }
  }

  /**
   * A whole successful login through the face step, driven on the page object:
   * the token ends up in the store, which then counts as logged in.
   */
  method PasswordAndFaceLogin(store: AuthStore.Storage, ok: Reply, granted: Reply)
    requires ok.status == "credentials_ok" && granted.token != ""
    modifies store
    ensures AuthStore.LoggedIn(store.items)
    ensures AuthStore.Lookup(store.items, AuthStore.ROLE_KEY) == Some(StoredRole(granted.role))
  {
    var page := new Page();
    page.SetEmail("user@x.com");
    page.SetPassword("secret");
    NotAdminByFirst("user@x.com");
    ghost var s := page.State();
    PasswordThenFace(s, ok, granted, "data:image/jpeg;base64,AAAA");
    page.HandleCredentials(store, Returned(ok), Returned(()));
    page.CaptureFace(Some("data:image/jpeg;base64,AAAA"));
    page.HandleFaceLogin(store, Returned(granted));
  }
}
