/**
 * `CaptchaField.clean` of trunk/djutils/apps/captcha/fields.py: it checks
 * the submitted answer against the captcha the middleware stored for the
 * current request.
 */
module CaptchaField {
  import opened Framework
  import AppsCaptchaMiddleware

  /** The two validation errors `clean` raises. */
  datatype CleanError = MustEnableCookies | Incorrect
  {
    /** The message shown to the user, before translation. */
    function Message(): string
    {
      match this
      case MustEnableCookies => "You must enable cookies."
      case Incorrect => "Incorrect! Try again."
    }
  }

  /**
   * The decision `clean` makes from the stored captcha and the submitted
   * value: a missing or empty captcha fails first, then a different value,
   * and otherwise the value is returned unchanged. The comparison is plain
   * equality, with no trimming and no case folding.
   */
  function Clean(captcha: Value, value: Value): (r: Result<Value, CleanError>)
    ensures !Truthy(captcha) ==> r == Err(MustEnableCookies)
    ensures Truthy(captcha) && value != captcha ==> r == Err(Incorrect)
    ensures r.Ok? <==> Truthy(captcha) && value == captcha
    ensures r.Ok? ==> r.value == value
  {
    if !Truthy(captcha) then Err(MustEnableCookies)
    else if value != captcha then Err(Incorrect)
    else Ok(value)
  }

  /** `CaptchaField().clean(value)`, reading the slot through `get_current_captcha`. */
  method CleanField(slot: AppsCaptchaMiddleware.CaptchaModule, value: Value) returns (r: Result<Value, CleanError>)
    ensures r == Clean(slot.GetCurrentCaptcha(), value)
  {
    var captcha := slot.GetCurrentCaptcha();
    if !Truthy(captcha) {
      return Err(MustEnableCookies);
    }
    if value != captcha {
      return Err(Incorrect);
    }
    return Ok(value);
  }

  /**
   * One request: the middleware copies the session's captcha into the
   * slot, then the form validates the submitted answer against it. Only
   * the answer stored in a non-empty session is accepted; without one the
   * user is told to enable cookies.
   */
  method ValidateRequest(slot: AppsCaptchaMiddleware.CaptchaModule, request: Request, value: Value)
    returns (r: Result<Value, CleanError>)
    modifies slot.threadLocals
    ensures r.Ok? <==>
      request.session.Some? && request.session.value != map[] && "captcha" in request.session.value
      && request.session.value["captcha"] != "" && value == StrV(request.session.value["captcha"])
    ensures r.Ok? ==> r.value == value
    ensures r == Err(MustEnableCookies) <==>
      !(request.session.Some? && request.session.value != map[] && "captcha" in request.session.value
        && request.session.value["captcha"] != "")
  {
    slot.ProcessRequest(request);
    r := CleanField(slot, value);
  }
}
