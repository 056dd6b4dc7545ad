/**
 * The per-request captcha slot of djutils/apps/captcha/middleware.py. The
 * logic is that of CaptchaMiddleware, but the thread-local object is the
 * one shared with the other middleware of the project, so it may hold
 * other attributes, which `process_request` leaves alone.
 */
module AppsCaptchaMiddleware {
  import opened Framework
  import CaptchaMiddleware

  /** The module, bound to the project's shared thread-local object. */
  class CaptchaModule {
    const threadLocals: ThreadLocal

    constructor (shared: ThreadLocal)
      ensures threadLocals == shared
    {
      threadLocals := shared;
    }

    /** `get_current_captcha()`: None until some request has been processed. */
    function GetCurrentCaptcha(): (c: Value)
      reads threadLocals
      ensures CaptchaMiddleware.CaptchaKey !in threadLocals.attrs ==> c == NoneV
    {
      CaptchaMiddleware.CurrentCaptcha(threadLocals.attrs)
    }

    /** `CaptchaMiddleware().process_request(request)` */
    method ProcessRequest(request: Request)
      modifies threadLocals
      ensures threadLocals.attrs ==
        old(threadLocals.attrs)[CaptchaMiddleware.CaptchaKey := CaptchaMiddleware.SessionCaptcha(request)]
      ensures GetCurrentCaptcha() == CaptchaMiddleware.SessionCaptcha(request)
    {
      var captcha := NoneV;
      var session := request.session;
      if session.Some? && session.value != map[] {
        captcha := if CaptchaMiddleware.CaptchaKey in session.value
                   then StrV(session.value[CaptchaMiddleware.CaptchaKey]) else NoneV;
      }
      threadLocals.attrs := threadLocals.attrs[CaptchaMiddleware.CaptchaKey := captcha];
    }
  }
}
