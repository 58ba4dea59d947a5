/** The two rate limiters' settings and the replies their handlers send once
    a client is over the limit. The counting inside the limiter is not
    modelled; the handlers see the window's reset time and the clock. */
module RateLimiters {
  import Text

  const MAX_LOGIN_ATTEMPTS: nat := 50
  const MAX_REGISTRATION_ATTEMPTS: nat := 50
  const WINDOW_TIME_FOR_LOGIN: nat := 1 * 60 * 1000        // one minute, in milliseconds
  const WINDOW_TIME_FOR_REGISTRATION: nat := 60 * 60 * 1000 // one hour, in milliseconds

  datatype Limiter = Limiter(windowMs: nat, max: nat)

  function LoginLimiter(): Limiter {
    Limiter(WINDOW_TIME_FOR_LOGIN, MAX_LOGIN_ATTEMPTS)
  }

  function RegisterLimiter(): Limiter {
    Limiter(WINDOW_TIME_FOR_REGISTRATION, MAX_REGISTRATION_ATTEMPTS)
  }

  lemma LimiterSettings()
    ensures LoginLimiter() == Limiter(60000, 50)
    ensures RegisterLimiter() == Limiter(3600000, 50)
  {
  }

  /** `Math.ceil((resetTime - now) / 1000)` on whole milliseconds: the
      least whole number of seconds that covers the wait, negative when the
      reset time has already passed. */
  function RetryAfterSeconds(resetTime: int, now: int): (n: int)
    ensures (n - 1) * 1000 < resetTime - now <= n * 1000
  {
    (resetTime - now + 999) / 1000
  }

  /** A 429 reply: status, the `Retry-After` header, the JSON message. */
  datatype LimitReply = LimitReply(status: int, retryAfter: int, message: string)

  const LOGIN_PREFIX: string := "Too many login attempts, please try again later in "
  const REGISTER_PREFIX: string := "Too many registration attempts, please try again later"
  const SECONDS: string := " seconds"

  function LoginMessage(n: int): string {
    LOGIN_PREFIX + Text.IntToString(n) + SECONDS
  }

  function RegisterMessage(n: int): string {
    var retryAfterMessage := if n > 0 then " in " + Text.IntToString(n) + SECONDS else "";
    REGISTER_PREFIX + retryAfterMessage
  }

  function LoginLimitReply(resetTime: int, now: int): LimitReply {
    var retryAfterSeconds := RetryAfterSeconds(resetTime, now);
    LimitReply(429, retryAfterSeconds, LoginMessage(retryAfterSeconds))
  }

  function RegisterLimitReply(resetTime: int, now: int): LimitReply {
    var retryAfterSeconds := RetryAfterSeconds(resetTime, now);
    LimitReply(429, retryAfterSeconds, RegisterMessage(retryAfterSeconds))
  }

  /** The login reply always quotes its wait, and the number in the message
      reads back as the `Retry-After` value. */
  lemma LoginReplyQuotesWait(resetTime: int, now: int)
    ensures var r := LoginLimitReply(resetTime, now);
            var m := r.message;
            && r.status == 429
            && (r.retryAfter - 1) * 1000 < resetTime - now <= r.retryAfter * 1000
            && |m| > |LOGIN_PREFIX| + |SECONDS|
            && m[..|LOGIN_PREFIX|] == LOGIN_PREFIX && m[|m| - |SECONDS|..] == SECONDS
            && Text.IsIntText(m[|LOGIN_PREFIX|..|m| - |SECONDS|])
            && Text.ParseInt(m[|LOGIN_PREFIX|..|m| - |SECONDS|]) == r.retryAfter
  {
    var r := LoginLimitReply(resetTime, now);
    var digits := Text.IntToString(r.retryAfter);
    Text.IntToStringReadsBack(r.retryAfter);
    var m := LOGIN_PREFIX + digits + SECONDS;
    assert m[..|LOGIN_PREFIX|] == LOGIN_PREFIX;
    assert m[|m| - |SECONDS|..] == SECONDS;
    assert m[|LOGIN_PREFIX|..|m| - |SECONDS|] == digits;
  }

  /** The registration reply quotes its wait exactly when the wait is
      positive; otherwise the message ends at "later". */
  lemma RegisterReplyQuotesPositiveWait(resetTime: int, now: int)
    ensures var r := RegisterLimitReply(resetTime, now);
            && r.status == 429
            && (r.retryAfter - 1) * 1000 < resetTime - now <= r.retryAfter * 1000
            && (r.message == REGISTER_PREFIX <==> r.retryAfter <= 0)
            && (r.retryAfter > 0 ==>
                  var m := r.message;
                  && |m| > |REGISTER_PREFIX| + 4 + |SECONDS|
                  && m[..|REGISTER_PREFIX| + 4] == REGISTER_PREFIX + " in "
                  && m[|m| - |SECONDS|..] == SECONDS
                  && Text.IsIntText(m[|REGISTER_PREFIX| + 4..|m| - |SECONDS|])
                  && Text.ParseInt(m[|REGISTER_PREFIX| + 4..|m| - |SECONDS|]) == r.retryAfter)
  {
    var r := RegisterLimitReply(resetTime, now);
    if r.retryAfter > 0 {
      var digits := Text.IntToString(r.retryAfter);
      Text.IntToStringReadsBack(r.retryAfter);
      var m := REGISTER_PREFIX + (" in " + digits + SECONDS);
      assert r.message == m;
      assert |m| > |REGISTER_PREFIX|;
      assert m[..|REGISTER_PREFIX| + 4] == REGISTER_PREFIX + " in ";
      assert m[|m| - |SECONDS|..] == SECONDS;
      assert m[|REGISTER_PREFIX| + 4..|m| - |SECONDS|] == digits;
    }
  }
}
