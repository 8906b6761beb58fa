/** The Express middlewares of apps/api/src/middleware/validateTelegramData.ts.
    `validateTelegramData` reads initData from the `Authorization: tma …`
    or `X-Telegram-Init-Data` header, lets requests without it through in
    any mode but production (attaching a fixed development user), and
    otherwise only requires a non-empty `hash` and a decodable `user`: the
    signature itself is not checked. `optionalTelegramData` attaches what
    it can and always continues. */
module TelegramMiddleware {
  import opened Wrappers
  import opened Encoding
  import opened Telegram
  import opened Runtime
  import opened JsStrings
  import opened ApiResponse
  import opened InitDataValidation

  /** The two request headers the middlewares read. */
  datatype Headers = Headers(authorization: Option<string>, xTelegramInitData: Option<string>)

  const TmaScheme: string := "tma "
  const UserKey: string := "user"

  /** What the middlewares attach to the request (`TelegramRequest` in
      apps/api/src/types/telegram.ts). A `user` parameter that decodes to a
      falsy JSON value attaches `None`, like an absent one. */
  datatype Attached = Attached(telegramUser: Option<TelegramUser>, telegramInitData: Option<string>)

  /** Either the next handler is called, or a response is sent. */
  datatype Outcome = Next | Respond(reply: Reply<()>)

  /** The user attached in development when no initData is sent. */
  const DevUser: TelegramUser :=
    TelegramUser(123456789, "Dev", Some("User"), Some("devuser"), Some("en"), Some(false), None)

  /** The Authorization header with its first `tma ` removed when that is
      non-empty, else the custom header, and nothing when both are missing
      or empty. */
  function ExtractInitData(h: Headers): (r: Option<string>)
    ensures r.Some? ==> r.value != ""
    ensures r.None? ==> Truthy(h.xTelegramInitData).None?
    ensures Truthy(h.xTelegramInitData).None? && h.authorization.None? ==> r.None?
    ensures h.authorization.None? || ReplaceFirst(h.authorization.value, TmaScheme, "") == "" ==>
              r == Truthy(h.xTelegramInitData)
    ensures h.authorization.Some? && ReplaceFirst(h.authorization.value, TmaScheme, "") != "" ==>
              r == Some(ReplaceFirst(h.authorization.value, TmaScheme, ""))
  {
    var fromAuthorization :=
      if h.authorization.Some? then Truthy(Some(ReplaceFirst(h.authorization.value, TmaScheme, ""))) else None;
    if fromAuthorization.Some? then fromAuthorization else Truthy(h.xTelegramInitData)
  }

  /** `Authorization: tma <data>` yields `<data>` whatever the other header
      says. */
  lemma ExtractTmaAuthorization(data: string, x: Option<string>)
    requires data != ""
    ensures ExtractInitData(Headers(Some(TmaScheme + data), x)) == Some(data)
  {
    assert "" + TmaScheme + data == TmaScheme + data;
    ReplaceFirstAt("", TmaScheme, data, "");
    assert ReplaceFirst(TmaScheme + data, TmaScheme, "") == data;
  }

  /** An Authorization header without `tma ` in it is taken whole. */
  lemma ExtractPlainAuthorization(auth: string, x: Option<string>)
    requires auth != "" && !Includes(auth, TmaScheme)
    ensures ExtractInitData(Headers(Some(auth), x)) == Some(auth)
  {
  }

  /** A bare `tma ` falls back to the custom header. */
  lemma ExtractBareScheme(x: Option<string>)
    ensures ExtractInitData(Headers(Some(TmaScheme), x)) == Truthy(x)
  {
    ReplaceFirstAt("", TmaScheme, "", "");
    assert "" + TmaScheme + "" == TmaScheme;
  }

  /** The 401 for an unparsable envelope. */
  function InvalidInitData(nowMs: int): (r: Reply<()>)
    ensures r.status == 401 && r.error == Some(ApiError("INVALID_INIT_DATA", "Failed to parse Telegram initData"))
  {
    ErrorReply(401, "INVALID_INIT_DATA", "Failed to parse Telegram initData", nowMs)
  }

  /** The part of the try block both middlewares share: decode the `user`
      parameter when it is non-empty, attach it, then attach initData.
      `None` when `decodeURIComponent` or `JSON.parse` throws, in which case
      nothing has been attached. */
  function AttachInitData(p: Platform, initData: string, req: Attached): (r: Option<Attached>)
    ensures r.Some? ==> r.value.telegramInitData == Some(initData)
    ensures var userParam := Truthy(Get(p.searchParams(initData), UserKey));
            && (userParam.None? ==> r == Some(req.(telegramInitData := Some(initData))))
            && (userParam.Some? ==>
                  && (r.None? <==> p.decodeUriComponent(userParam.value).None?
                                   || p.parseUserJson(p.decodeUriComponent(userParam.value).value).Unparseable?)
                  && (r.Some? && r.value.telegramUser.Some? ==>
                        p.parseUserJson(p.decodeUriComponent(userParam.value).value) == UserObject(r.value.telegramUser.value))
                  && (p.decodeUriComponent(userParam.value).Some? ==>
                        var json := p.parseUserJson(p.decodeUriComponent(userParam.value).value);
                        && (json.UserObject? ==> r == Some(Attached(Some(json.user), Some(initData))))
                        && (json.FalsyValue? ==> r == Some(Attached(None, Some(initData))))))
  {
    var userParam := Truthy(Get(p.searchParams(initData), UserKey));
    if userParam.None? then Some(req.(telegramInitData := Some(initData)))
    else
      match p.decodeUriComponent(userParam.value)
      case None => None
      case Some(decoded) =>
        match p.parseUserJson(decoded)
        case Unparseable => None
        case FalsyValue => Some(Attached(None, Some(initData)))
        case UserObject(user) => Some(Attached(Some(user), Some(initData)))
  }

  /** `validateTelegramData`: the outcome and the request as it leaves. */
  function Authenticate(env: Env, p: Platform, h: Headers, req: Attached, nowMs: int): (r: (Outcome, Attached))
    ensures r.0.Respond? ==> r.1 == req && r.0.reply.status == 401 && !r.0.reply.success
    ensures ExtractInitData(h).Some? && r.0.Respond? ==> r.0 == Respond(InvalidInitData(nowMs))
    ensures ExtractInitData(h).Some? && r.0.Next? ==>
              && r.1.telegramInitData == ExtractInitData(h)
              && Truthy(Get(p.searchParams(ExtractInitData(h).value), HashKey)).Some?
              && Some(r.1) == AttachInitData(p, ExtractInitData(h).value, req)
    ensures ExtractInitData(h).None? ==>
              if IsProduction(env) then r.0 == Respond(ErrorReply(401, "MISSING_INIT_DATA", "Telegram initData is required", nowMs))
              else r == (Next, req.(telegramUser := Some(DevUser)))
  {
    match ExtractInitData(h)
    case None =>
      if !IsProduction(env) then (Next, req.(telegramUser := Some(DevUser)))
      else (Respond(ErrorReply(401, "MISSING_INIT_DATA", "Telegram initData is required", nowMs)), req)
    case Some(initData) =>
      if Truthy(Get(p.searchParams(initData), HashKey)).None? then (Respond(InvalidInitData(nowMs)), req)
      else
        match AttachInitData(p, initData, req)
        case None => (Respond(InvalidInitData(nowMs)), req)
        case Some(attached) => (Next, attached)
  }

  /** A request with initData passes exactly when its envelope has a
      non-empty `hash` and the user, if any, decodes; the mode, the bot
      token, HMAC and the key order play no part. */
  lemma AuthenticatePassesIff(env: Env, p: Platform, h: Headers, req: Attached, nowMs: int)
    requires ExtractInitData(h).Some?
    ensures var initData := ExtractInitData(h).value;
            Authenticate(env, p, h, req, nowMs).0.Next? <==>
              Truthy(Get(p.searchParams(initData), HashKey)).Some? && AttachInitData(p, initData, req).Some?
  {
  }

  /** The envelope's signature is never compared: two platforms that agree
      on query-string, URI and JSON decoding give the same outcome whatever
      their HMAC, and so does any other bot token. */
  lemma AuthenticateIgnoresSignature(env: Env, env': Env, p: Platform, p': Platform, h: Headers, req: Attached, nowMs: int)
    requires IsProduction(env) <==> IsProduction(env')
    requires p'.searchParams == p.searchParams && p'.decodeUriComponent == p.decodeUriComponent
    requires p'.parseUserJson == p.parseUserJson
    ensures Authenticate(env, p, h, req, nowMs) == Authenticate(env', p', h, req, nowMs)
  {
  }

  /** The service's signature check never accepts a hash of odd length,
      since a hex digest has even length. */
  lemma OddHashNeverSigned(env: Env, p: Platform, initData: string)
    requires !MockBypass(env, initData)
    requires Get(p.searchParams(initData), HashKey).Some?
    requires |Get(p.searchParams(initData), HashKey).value| % 2 == 1
    ensures !ValidateTelegramData(env, p, initData)
  {
    if Truthy(env.botToken).Some? {
      var params := p.searchParams(initData);
      var hash := Get(params, HashKey).value;
      var digest := p.hmacSha256(SecretKey(p, env.botToken.value), Utf8(DataCheckString(p, params)));
      var sig := Hex(digest);
      assert sig == Signature(p, env.botToken.value, params);
      assert sig != hash;
      if Utf8(sig) == Utf8(hash) {
        Utf8AsciiInjective(sig, hash);
      }
    }
  }

  /** An envelope whose hash has odd length is let through by the
      middleware although the service's signature check can never accept
      it. */
  lemma MiddlewareAcceptsForgedHash(env: Env, p: Platform, h: Headers, req: Attached, nowMs: int, initData: string)
    requires ExtractInitData(h) == Some(initData)
    requires !MockBypass(env, initData)
    requires Truthy(Get(p.searchParams(initData), HashKey)).Some?
    requires |Get(p.searchParams(initData), HashKey).value| % 2 == 1
    requires Truthy(Get(p.searchParams(initData), UserKey)).None?
    ensures Authenticate(env, p, h, req, nowMs).0.Next?
    ensures !ValidateTelegramData(env, p, initData)
  {
    OddHashNeverSigned(env, p, initData);
  }

  /** `optionalTelegramData`: the request as it leaves; the next handler is
      always called. */
  function AttachOptional(p: Platform, h: Headers, req: Attached): (r: Attached)
    ensures ExtractInitData(h).None? ==> r == req
    ensures r == req || r.telegramInitData == ExtractInitData(h)
    ensures ExtractInitData(h).Some? ==>
              var attached := AttachInitData(p, ExtractInitData(h).value, req);
              (attached.Some? ==> r == attached.value) && (attached.None? ==> r == req)
  {
    match ExtractInitData(h)
    case None => req
    case Some(initData) =>
      match AttachInitData(p, initData, req)
      case None => req
      case Some(attached) => attached
  }

  /** Where the strict middleware passes a request carrying initData, the
      optional one attaches the same things. */
  lemma OptionalAgreesWithStrict(env: Env, p: Platform, h: Headers, req: Attached, nowMs: int)
    requires ExtractInitData(h).Some?
    requires Authenticate(env, p, h, req, nowMs).0.Next?
    ensures AttachOptional(p, h, req) == Authenticate(env, p, h, req, nowMs).1
  {
  }

  /** The optional middleware does not look for a hash: an envelope the
      strict one rejects for lacking it still has its initData attached. */
  lemma OptionalNeedsNoHash(env: Env, p: Platform, h: Headers, req: Attached, nowMs: int)
    requires ExtractInitData(h).Some?
    requires var initData := ExtractInitData(h).value;
             Truthy(Get(p.searchParams(initData), HashKey)).None? && Truthy(Get(p.searchParams(initData), UserKey)).None?
    ensures Authenticate(env, p, h, req, nowMs).0 == Respond(InvalidInitData(nowMs))
    ensures AttachOptional(p, h, req) == req.(telegramInitData := ExtractInitData(h))
  {
  }

  /** An Express request as the middlewares see it. */
  class TelegramRequest {
    const headers: Headers
    var telegramUser: Option<TelegramUser>
    var telegramInitData: Option<string>

    constructor(headers: Headers)
      ensures this.headers == headers && telegramUser.None? && telegramInitData.None?
    {
      this.headers := headers;
      telegramUser := None;
      telegramInitData := None;
    }

    function Attachments(): Attached
      reads this
    {
      Attached(telegramUser, telegramInitData)
    }

    /** `validateTelegramData(req, res, next)`. */
    method ValidateTelegramData(env: Env, p: Platform, nowMs: int) returns (outcome: Outcome)
      modifies this
      ensures (outcome, Attachments()) == Authenticate(env, p, headers, old(Attachments()), nowMs)
    {
      var initData := ExtractInitData(headers);
      if initData.None? {
        if !IsProduction(env) {
          telegramUser := Some(DevUser);
          return Next;
        }
        return Respond(ErrorReply(401, "MISSING_INIT_DATA", "Telegram initData is required", nowMs));
      }
      var params := p.searchParams(initData.value);
      if Truthy(Get(params, HashKey)).None? {
        return Respond(InvalidInitData(nowMs));
      }
      var userParam := Truthy(Get(params, UserKey));
      if userParam.Some? {
        var decoded := p.decodeUriComponent(userParam.value);
        if decoded.None? || p.parseUserJson(decoded.value).Unparseable? {
          return Respond(InvalidInitData(nowMs));
        }
        var json := p.parseUserJson(decoded.value);
        telegramUser := if json.UserObject? then Some(json.user) else None;
      }
      telegramInitData := initData;
      outcome := Next;
    }

    /** `optionalTelegramData(req, res, next)`. */
    method OptionalTelegramData(p: Platform) returns (outcome: Outcome)
      modifies this
      ensures outcome == Next
      ensures Attachments() == AttachOptional(p, headers, old(Attachments()))
    {
      var initData := ExtractInitData(headers);
      if initData.Some? {
        var params := p.searchParams(initData.value);
        var userParam := Truthy(Get(params, UserKey));
        var parsed := true;
        if userParam.Some? {
          var decoded := p.decodeUriComponent(userParam.value);
          if decoded.None? || p.parseUserJson(decoded.value).Unparseable? {
            parsed := false;
          } else {
            var json := p.parseUserJson(decoded.value);
            telegramUser := if json.UserObject? then Some(json.user) else None;
          }
        }
        if parsed {
          telegramInitData := initData;
        }
      }
      outcome := Next;
    }
  }
}
