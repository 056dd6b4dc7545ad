/**
 * The per-request captcha slot of djutils/captcha/middleware.py. The module
 * owns its own thread-local object; `CaptchaMiddleware.process_request`
 * copies the session's captcha into it and `get_current_captcha` reads it
 * back. Module-level state becomes the object `CaptchaModule`, and one
 * thread's view of the thread-local object is modelled.
 */
module CaptchaMiddleware {
  import opened Framework

  /** The session key and thread-local attribute holding the expected answer. */
  const CaptchaKey := "captcha"

  /**
   * The value `process_request` stores: None when the request has no
   * session or an empty one, otherwise `session.get('captcha')`.
   */
  function SessionCaptcha(request: Request): (c: Value)
    ensures c == NoneV || c.StrV?
    ensures c.StrV? <==>
      request.session.Some? && request.session.value != map[] && CaptchaKey in request.session.value
    ensures c.StrV? ==> c.s == request.session.value[CaptchaKey]
  {
    match request.session
    case None => NoneV
    case Some(session) =>
      if session == map[] then NoneV
      else if CaptchaKey in session then StrV(session[CaptchaKey])
      else NoneV
  }

  /** `getattr(_thread_locals, 'captcha', None)` over the object's attributes. */
  function CurrentCaptcha(attrs: map<string, Value>): (c: Value)
    ensures CaptchaKey !in attrs ==> c == NoneV
  {
    if CaptchaKey in attrs then attrs[CaptchaKey] else NoneV
  }

  /** The module djutils/captcha/middleware.py with its private `_thread_locals`. */
  class CaptchaModule {
    const threadLocals: ThreadLocal

    /** Importing the module: `_thread_locals = local()` */
    constructor ()
      ensures fresh(threadLocals)
      ensures threadLocals.attrs == map[]
      ensures GetCurrentCaptcha() == NoneV
    {
      threadLocals := new ThreadLocal();
    }

    /** `get_current_captcha()` */
    function GetCurrentCaptcha(): (c: Value)
      reads threadLocals
      ensures CaptchaKey !in threadLocals.attrs ==> c == NoneV
      ensures CaptchaKey in threadLocals.attrs ==> c == threadLocals.attrs[CaptchaKey]
    {
      CurrentCaptcha(threadLocals.attrs)
    }

    /** `CaptchaMiddleware().process_request(request)`; it returns None, so the request goes on. */
    method ProcessRequest(request: Request)
      modifies threadLocals
      ensures threadLocals.attrs == old(threadLocals.attrs)[CaptchaKey := SessionCaptcha(request)]
      ensures GetCurrentCaptcha() == SessionCaptcha(request)
    {
      var captcha := NoneV;
      var session := request.session;
      if session.Some? && session.value != map[] {
        captcha := if CaptchaKey in session.value then StrV(session.value[CaptchaKey]) else NoneV;
      }
      threadLocals.attrs := threadLocals.attrs[CaptchaKey := captcha];
    }
  }
}
