/**
 * The direct-login renewal run of raw_renew.js:18-69 as one function over
 * the server's behaviour: solve the captcha of the login page, post the
 * login, build the session cookie, post the renewal, and stop at the first
 * error. The network is a parameter: `login` is the server's reply to a
 * login carrying a captcha answer, `renew` its reply to a renewal carrying
 * a cookie header. The run records the requests it makes, in order.
 */
module Renew {
  import opened Results
  import Captcha
  import Cookie
  import opened Response

  /** What the login endpoint returns: the reply and its `set-cookie` header, if any. */
  datatype LoginReply = LoginReply(reply: Reply, setCookie: Option<seq<string>>)

  /** A POST the script sends after fetching the login page. */
  datatype Request = LoginPost(answer: int) | RenewPost(cookie: string)

  /**
   * Why a run ends in failure; each ends the process with exit code 1. A
   * reply whose status is outside 200-299 rejects the request itself, so
   * the catch block reports it before any check of the reply is made.
   */
  datatype Failure =
    | CaptchaUnreadable          // "无法识别验证码"
    | LoginFailed(reason: string) // "登录失败: " followed by the reason
    | CookieMissing              // "未获取到登录 Cookie"
    | RenewFailed(reason: string) // "续期失败:" followed by the reason
    | RequestFailed(status: int)  // a status outside 200-299: "Request failed with status code " and the status

  datatype Outcome = Renewed(message: string) | Failed(failure: Failure)

  datatype Run = Run(requests: seq<Request>, outcome: Outcome)

  /** The process exit status: 0 after a successful renewal, 1 otherwise. */
  function ExitCode(o: Outcome): (code: int)
    ensures code == 0 <==> o.Renewed?
    ensures code == 0 || code == 1
  {
    if o.Renewed? then 0 else 1
  }

  /** One run of the script, given the captcha label of the login page (None when it is missing). */
  function Execute(captchaLabel: Option<string>, login: int -> LoginReply, renew: string -> Reply): (run: Run)
    ensures |run.requests| <= 2
    ensures run.requests == [] <==> run.outcome == Failed(CaptchaUnreadable)
    ensures run.requests == [] <==> Captcha.Solve(Captcha.LabelText(captchaLabel)).Err?
    ensures run.requests != [] ==>
      run.requests[0] == LoginPost(Captcha.Solve(Captcha.LabelText(captchaLabel)).value)
    ensures |run.requests| == 2 <==>
      run.requests != [] && !LoginRejected(login(run.requests[0].answer).reply) &&
      Cookie.Header(login(run.requests[0].answer).setCookie).Some?
    ensures |run.requests| == 2 ==>
      run.requests[1] == RenewPost(Cookie.Header(login(run.requests[0].answer).setCookie).value)
    ensures run.outcome.Renewed? <==> |run.requests| == 2 && RenewAccepted(renew(run.requests[1].cookie))
    ensures run.outcome.Renewed? ==> run.outcome.message == SuccessMessage(renew(run.requests[1].cookie))
    ensures run.requests != [] && !Delivered(login(run.requests[0].answer).reply) ==>
      run.outcome == Failed(RequestFailed(login(run.requests[0].answer).reply.status))
    ensures |run.requests| == 1 && Delivered(login(run.requests[0].answer).reply) &&
            LoginRejected(login(run.requests[0].answer).reply) ==>
      run.outcome == Failed(LoginFailed(FailureReason(login(run.requests[0].answer).reply)))
    ensures |run.requests| == 1 && !LoginRejected(login(run.requests[0].answer).reply) ==>
      run.outcome == Failed(CookieMissing)
    ensures |run.requests| == 2 && !Delivered(renew(run.requests[1].cookie)) ==>
      run.outcome == Failed(RequestFailed(renew(run.requests[1].cookie).status))
    ensures |run.requests| == 2 && Delivered(renew(run.requests[1].cookie)) &&
            !RenewAccepted(renew(run.requests[1].cookie)) ==>
      run.outcome == Failed(RenewFailed(FailureReason(renew(run.requests[1].cookie))))
  {
    match Captcha.Solve(Captcha.LabelText(captchaLabel))
    case Err(_) => Run([], Failed(CaptchaUnreadable))
    case Ok(answer) =>
      var lr := login(answer);
      if !Delivered(lr.reply) then Run([LoginPost(answer)], Failed(RequestFailed(lr.reply.status)))
      else if LoginRejected(lr.reply) then
        Run([LoginPost(answer)], Failed(LoginFailed(FailureReason(lr.reply))))
      else
        match Cookie.Header(lr.setCookie)
        case None => Run([LoginPost(answer)], Failed(CookieMissing))
        case Some(cookie) =>
          var rr := renew(cookie);
          var requests := [LoginPost(answer), RenewPost(cookie)];
          if !Delivered(rr) then Run(requests, Failed(RequestFailed(rr.status)))
          else if RenewAccepted(rr) then Run(requests, Renewed(SuccessMessage(rr)))
          else Run(requests, Failed(RenewFailed(FailureReason(rr))))
  }

  /**
   * The script exits with status 0 exactly when every step passes: the label
   * holds an expression, the login is accepted, the login reply yields a
   * cookie, and the renewal is accepted.
   */
  lemma ExitZeroWhenAllStepsPass(captchaLabel: Option<string>, login: int -> LoginReply, renew: string -> Reply)
    ensures ExitCode(Execute(captchaLabel, login, renew).outcome) == 0 <==>
      var solved := Captcha.Solve(Captcha.LabelText(captchaLabel));
      && solved.Ok?
      && !LoginRejected(login(solved.value).reply)
      && Cookie.Header(login(solved.value).setCookie).Some?
      && RenewAccepted(renew(Cookie.Header(login(solved.value).setCookie).value))
  {
  }

  /** A login endpoint that accepts every answer and sets the cookie "sid=1". */
  function AcceptingLogin(answer: int): LoginReply {
    LoginReply(Reply(200, "OK", Absent, None), Some(["sid=1"]))
  }

  /** A renew endpoint that replies `{success: true, message: "ok"}`. */
  function AcceptingRenew(cookie: string): Reply {
    Reply(200, "OK", Flag(true), Some("ok"))
  }

  /**
   * The label "7 + 2" is answered with 9; the login is accepted and sets one
   * cookie; the renewal is accepted. The run sends the login and the
   * renewal with the cookie "sid=1", logs "ok" and exits with 0.
   */
  lemma ExampleRenewed()
    ensures var run := Execute(Some("7 + 2"), AcceptingLogin, AcceptingRenew);
      && run.requests == [LoginPost(9), RenewPost("sid=1")]
      && run.outcome == Renewed("ok")
      && ExitCode(run.outcome) == 0
  {
    assert Captcha.Solve(Captcha.LabelText(Some("7 + 2"))).Ok? &&
           Captcha.Solve(Captcha.LabelText(Some("7 + 2"))).value == 9 by {
      Captcha.ExampleLoginPage();
    }
    assert Cookie.Header(Some(["sid=1"])) == Some("sid=1") by {
      Cookie.ExampleSessionCookie();
    }
    assert !LoginRejected(AcceptingLogin(9).reply);
    assert RenewAccepted(AcceptingRenew("sid=1")) && SuccessMessage(AcceptingRenew("sid=1")) == "ok";
  }
}
