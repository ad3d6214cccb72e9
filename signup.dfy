/**
 * The signup page: an information step whose four fields are validated in a
 * fixed order, a face step that sends the registration, and a final step.
 */
module Signup {
  import opened Wrappers
  import opened JsText
  import opened Api

  const MIN_PASSWORD := 6
  const FILL_ALL := "Please fill all fields"
  const MISMATCH := "Passwords do not match"
  const TOO_SHORT := "Password must be at least 6 characters"
  const CAPTURE_FIRST := "Please capture your face photo"
  const SIGNUP_FAILED := "Signup failed. Please try again."
  const NETWORK_ERROR := "Network error. Is the backend running?"

  datatype SignupStep = Info | FaceStep | Done

  /**
   * The checks of `handleInfo`, in order: a missing field, then differing
   * passwords, then a password shorter than six UTF-16 code units. `None` means
   * the information is accepted.
   */
  function InfoError(name: string, email: string, password: string, confirm: string): (r: Option<string>)
    ensures r.None? <==>
      name != "" && email != "" && password != "" && confirm != "" && password == confirm && Utf16Length(password) >= MIN_PASSWORD
    ensures name == "" || email == "" || password == "" || confirm == "" ==> r == Some(FILL_ALL)
    ensures name != "" && email != "" && password != "" && confirm != "" && password != confirm ==> r == Some(MISMATCH)
    ensures name != "" && email != "" && password != "" && password == confirm && Utf16Length(password) < MIN_PASSWORD ==>
      r == Some(TOO_SHORT)
  {
    if name == "" || email == "" || password == "" || confirm == "" then Some(FILL_ALL)
    else if password != confirm then Some(MISMATCH)
    else if Utf16Length(password) < MIN_PASSWORD then Some(TOO_SHORT)
    else None
  }

  /**
   * The mismatch check comes before the length check: while the confirmation
   * differs, the password's length makes no difference to the message.
   */
  lemma MismatchBeforeLength(name: string, email: string, p: string, q: string, confirm: string)
    requires name != "" && email != "" && confirm != "" && p != "" && q != ""
    requires p != confirm && q != confirm
    ensures InfoError(name, email, p, confirm) == InfoError(name, email, q, confirm) == Some(MISMATCH)
  {
  }

  /** What the registration reply means for the page. */
  datatype Outcome = Registered | Refused(message: string)

  /** `handleSignup` once the request is sent: a truthy `message` or `user_id` is success. */
  function SignupResult(reply: Call<Reply>): (o: Outcome)
    ensures o.Registered? <==> reply.Returned? && (reply.value.message != "" || reply.value.userId != "")
    ensures reply.Threw? ==> o == Refused(NETWORK_ERROR)
    ensures reply.Returned? && o.Refused? ==>
      o.message == if reply.value.error != "" then reply.value.error else SIGNUP_FAILED
    ensures o.Refused? ==> o.message != ""
  {
    match reply
    case Threw => Refused(NETWORK_ERROR)
    case Returned(r) =>
      if r.message != "" || r.userId != "" then Registered
      else Refused(if r.error != "" then r.error else SIGNUP_FAILED)
  }

  class Page {
    var step: SignupStep
    var name: string
    var email: string
    var password: string
    var confirm: string
    var faceImage: Option<string>
    var error: string
    var calls: seq<Request>

    constructor ()
      ensures step == Info && name == "" && email == "" && password == "" && confirm == ""
      ensures faceImage.None? && error == "" && calls == []
    {
      step, name, email, password, confirm := Info, "", "", "", "";
      faceImage, error, calls := None, "", [];
    }

    /** The four inputs' `onChange` handlers. */
    method SetName(value: string)
      modifies this`name
      ensures name == value
    {
      name := value;
    }

    method SetEmail(value: string)
      modifies this`email
      ensures email == value
    {
      email := value;
    }

    method SetPassword(value: string)
      modifies this`password
      ensures password == value
    {
      password := value;
    }

    method SetConfirm(value: string)
      modifies this`confirm
      ensures confirm == value
    {
      confirm := value;
    }

    /** The camera's `onCapture`: a photo, or `None` when the photo is retaken. */
    method CaptureFace(image: Option<string>)
      modifies this`faceImage
      ensures faceImage == image
    {
      faceImage := image;
    }

    /** The camera's `onError`. */
    method CameraError(message: string)
      modifies this`error
      ensures error == message
    {
      error := message;
    }

    /** `handleInfo`: a rejected form keeps the step and shows the reason; an accepted one clears it and moves on. */
    method HandleInfo()
      modifies this`error, this`step
      ensures var e := InfoError(name, email, password, confirm);
        && (e.Some? ==> error == e.value && step == old(step))
        && (e.None? ==> error == "" && step == FaceStep)
    {
      if name == "" || email == "" || password == "" || confirm == "" {
        error := FILL_ALL;
        return;
      }
      if password != confirm {
        error := MISMATCH;
        return;
      }
      if Utf16Length(password) < MIN_PASSWORD {
        error := TOO_SHORT;
        return;
      }
      error := "";
      step := FaceStep;
    }

    /**
     * `handleSignup`: without an image nothing is sent; otherwise the signup
     * request goes out and the step becomes `Done` exactly when it succeeds.
     */
    method HandleSignup(reply: Call<Reply>)
      modifies this`error, this`step, this`calls
      ensures faceImage.None? ==> error == CAPTURE_FIRST && step == old(step) && calls == old(calls)
      ensures faceImage.Some? ==>
        && calls == old(calls) + [SignupRequest(name, email, password, faceImage.value)]
        && (SignupResult(reply).Registered? ==> step == Done && error == "")
        && (SignupResult(reply).Refused? ==> step == old(step) && error == SignupResult(reply).message)
    {
      if faceImage.None? {
        error := CAPTURE_FIRST;
        return;
      }
      error := "";
      calls := calls + [SignupRequest(name, email, password, faceImage.value)];
      match reply {
        case Threw =>
          error := NETWORK_ERROR;
        case Returned(r) =>
          if r.message != "" || r.userId != "" {
            step := Done;
          } else {
            error := if r.error != "" then r.error else SIGNUP_FAILED;
          }
      }
    }

    /** The Back button of the face step. */
    method Back()
      modifies this`step, this`faceImage
      ensures step == Info && faceImage.None?
    {
      step := Info;
      faceImage := None;
    }
  }

  /** Filling the form with acceptable information leads to the face step. */
  method FillInfo() returns (page: Page)
    ensures fresh(page) && page.step == FaceStep
  {
    page := new Page();
    page.SetName("Ann");
    page.SetEmail("ann@x.com");
    page.SetPassword("abcdef");
    page.SetConfirm("abcdef");
    assert InfoError(page.name, page.email, page.password, page.confirm) == None;
    page.HandleInfo();
  }

  /** Filling the form and registering: the face step, then an account. */
  method RegisterScenario(reply: Reply)
    requires reply.userId != ""
  {
    var page := FillInfo();
    page.CaptureFace(Some("data:image/jpeg;base64,AAAA"));
    page.HandleSignup(Returned(reply));
    assert page.step == Done;
  }
}
