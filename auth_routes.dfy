/** `POST /auth/login` and `GET /auth/me` (apps/api/src/routes/auth.ts):
    a fixed chain of early exits (missing initData, bad signature, parse
    failure, database failure), each with its own status and error code,
    and the `isNewUser` flag of a successful login. */
module AuthRoutes {
  import opened Wrappers
  import opened Telegram
  import opened Runtime
  import opened JsStrings
  import opened JsNumbers
  import opened InitDataValidation
  import opened InitDataParsing
  import opened UserStore
  import opened ApiResponse

  /** The `data` of a successful login. */
  datatype LoginData = LoginData(user: DbUser, isNewUser: bool)

  type LoginReply = Reply<LoginData>

  /** The request body: `None` when `req.body` is undefined, otherwise its
      `initData` property (`None` when absent). */
  type Body = Option<Option<string>>

  /** Where the first three steps leave a login: rejected with a response,
      or on to the database with the parsed user. */
  datatype Gate = Reject(reply: LoginReply) | Proceed(user: TelegramUser)

  /** Steps 1-3: presence, signature, parse. */
  function LoginGate(env: Env, p: Platform, initData: Option<string>, nowMs: nat): (g: Gate)
    ensures Truthy(initData).None? ==> g == Reject(ErrorReply(400, "MISSING_INIT_DATA", "initData is required", nowMs))
    ensures Truthy(initData).Some? && !ValidateTelegramData(env, p, initData.value) ==>
              g == Reject(ErrorReply(401, "INVALID_SIGNATURE", "Telegram data validation failed", nowMs))
    ensures g.Proceed? <==>
              && Truthy(initData).Some? && ValidateTelegramData(env, p, initData.value)
              && ParseInitData(p, initData.value, nowMs).Some?
              && ParseInitData(p, initData.value, nowMs).value.user.Some?
    ensures g.Proceed? ==> g.user == ParseInitData(p, initData.value, nowMs).value.user.value
    ensures Truthy(initData).Some? && ValidateTelegramData(env, p, initData.value) && g.Reject? ==>
              g.reply == ErrorReply(400, "PARSE_ERROR", "Failed to parse user data", nowMs)
  {
    if Truthy(initData).None? then
      Reject(ErrorReply(400, "MISSING_INIT_DATA", "initData is required", nowMs))
    else if !ValidateTelegramData(env, p, initData.value) then
      Reject(ErrorReply(401, "INVALID_SIGNATURE", "Telegram data validation failed", nowMs))
    else
      var parsed := ParseInitData(p, initData.value, nowMs);
      if parsed.None? || parsed.value.user.None? then
        Reject(ErrorReply(400, "PARSE_ERROR", "Failed to parse user data", nowMs))
      else Proceed(parsed.value.user.value)
  }

  /** `Math.abs(updatedAt - createdAt) < 1000` */
  predicate IsNewUser(u: DbUser) {
    Abs(u.updatedAt - u.createdAt) < 1000
  }

  /** Step 4: the response for the upsert's result. */
  function ReplyToUpsert(dbUser: Option<DbUser>, nowMs: int): (r: LoginReply)
    ensures dbUser.None? ==> r == ErrorReply(500, "DATABASE_ERROR", "Failed to save user", nowMs)
    ensures dbUser.Some? ==> r.status == 200 && r.success && r.error.None?
                             && r.data == Some(LoginData(dbUser.value, IsNewUser(dbUser.value)))
  {
    if dbUser.None? then ErrorReply(500, "DATABASE_ERROR", "Failed to save user", nowMs)
    else Reply(200, true, Some(LoginData(dbUser.value, IsNewUser(dbUser.value))), None, nowMs)
  }

  /** The `catch` block: the error's own message, except in production. */
  function InternalError(env: Env, message: string, nowMs: int): (r: LoginReply)
    ensures r.status == 500 && !r.success && r.error.Some? && r.error.value.code == "INTERNAL_ERROR"
    ensures IsProduction(env) ==> r.error.value.message == "An unexpected error occurred"
    ensures !IsProduction(env) ==> r.error.value.message == message
  {
    ErrorReply(500, "INTERNAL_ERROR", if IsProduction(env) then "An unexpected error occurred" else message, nowMs)
  }

  /** The whole handler: the response and the `users` table afterwards.
      `thrownMessage` is the message of the TypeError that destructuring an
      undefined body raises. The upsert is called without a referral code. */
  function Login(env: Env, p: Platform, rows: Rows, faults: Faults, body: Body,
                 nowMs: nat, newCode: string, thrownMessage: string): (o: (LoginReply, Rows))
    ensures body.None? ==> o == (InternalError(env, thrownMessage, nowMs), rows)
    ensures body.Some? && LoginGate(env, p, body.value, nowMs).Reject? ==>
              o == (LoginGate(env, p, body.value, nowMs).reply, rows)
    ensures body.Some? && LoginGate(env, p, body.value, nowMs).Proceed? ==>
              var outcome := UpsertUser(env, rows, faults, LoginGate(env, p, body.value, nowMs).user, None, nowMs, newCode);
              o == (ReplyToUpsert(outcome.user, nowMs), outcome.rows)
  {
    if body.None? then (InternalError(env, thrownMessage, nowMs), rows)
    else
      match LoginGate(env, p, body.value, nowMs)
      case Reject(reply) => (reply, rows)
      case Proceed(user) =>
        var outcome := UpsertUser(env, rows, faults, user, None, nowMs, newCode);
        (ReplyToUpsert(outcome.user, nowMs), outcome.rows)
  }

  /** `GET /auth/me`: always 501. */
  function Me(nowMs: int): (r: Reply<()>)
    ensures r.status == 501 && !r.success && r.error == Some(ApiError("NOT_IMPLEMENTED", "Use /auth/login to authenticate"))
  {
    ErrorReply(501, "NOT_IMPLEMENTED", "Use /auth/login to authenticate", nowMs)
  }

  // ----- properties -----

  /** A missing or empty initData is answered 400 before anything is
      validated: the answer is the same for every environment and every
      platform, and the table is untouched. */
  lemma MissingInitDataFirst(env: Env, env': Env, p: Platform, p': Platform, rows: Rows, faults: Faults,
                             initData: Option<string>, nowMs: nat, newCode: string, msg: string)
    requires Truthy(initData).None?
    ensures var o := Login(env, p, rows, faults, Some(initData), nowMs, newCode, msg);
            && o.0.status == 400 && o.0.error == Some(ApiError("MISSING_INIT_DATA", "initData is required"))
            && o.1 == rows
            && o == Login(env', p', rows, faults, Some(initData), nowMs, newCode, msg)
  {
  }

  /** A bad signature is answered 401 and parsing is never attempted: the
      answer does not depend on how the user JSON would decode. */
  lemma BadSignatureSkipsParse(env: Env, p: Platform, json: string -> UserJson, rows: Rows, faults: Faults,
                               initData: string, nowMs: nat, newCode: string, msg: string)
    requires initData != "" && !ValidateTelegramData(env, p, initData)
    ensures var o := Login(env, p, rows, faults, Some(Some(initData)), nowMs, newCode, msg);
            && o.0.status == 401 && o.0.error == Some(ApiError("INVALID_SIGNATURE", "Telegram data validation failed"))
            && o.1 == rows
            && o == Login(env, p.(parseUserJson := json), rows, faults, Some(Some(initData)), nowMs, newCode, msg)
  {
    assert ValidateTelegramData(env, p.(parseUserJson := json), initData) == ValidateTelegramData(env, p, initData);
  }

  /** A signed initData that yields no user is answered 400 PARSE_ERROR. */
  lemma UnparsedIsParseError(env: Env, p: Platform, rows: Rows, faults: Faults,
                             initData: string, nowMs: nat, newCode: string, msg: string)
    requires initData != "" && ValidateTelegramData(env, p, initData)
    requires ParseInitData(p, initData, nowMs).None? || ParseInitData(p, initData, nowMs).value.user.None?
    ensures var o := Login(env, p, rows, faults, Some(Some(initData)), nowMs, newCode, msg);
            o.0.status == 400 && o.0.error == Some(ApiError("PARSE_ERROR", "Failed to parse user data")) && o.1 == rows
  {
  }

  /** Past the gate, the route is exactly an upsert without a referral
      code, and a failed write is answered 500 DATABASE_ERROR. */
  lemma LoginIsUpsertWithoutCode(env: Env, p: Platform, rows: Rows, faults: Faults,
                                 initData: string, nowMs: nat, newCode: string, msg: string)
    requires LoginGate(env, p, Some(initData), nowMs).Proceed?
    ensures var user := LoginGate(env, p, Some(initData), nowMs).user;
            var outcome := UpsertUser(env, rows, faults, user, None, nowMs, newCode);
            var o := Login(env, p, rows, faults, Some(Some(initData)), nowMs, newCode, msg);
            && o.1 == outcome.rows
            && (outcome.user.None? ==> o.0.status == 500 && o.0.error == Some(ApiError("DATABASE_ERROR", "Failed to save user")))
            && (outcome.user.Some? ==> o.0.status == 200 && o.0.data.value.user == outcome.user.value)
  {
  }

  /** So `start_param` never reaches referral attribution: a user first
      created through this route has no referrer, and an existing user's
      referrer is never changed by it. */
  lemma LoginNeverAttributes(env: Env, p: Platform, rows: Rows, faults: Faults,
                             initData: string, nowMs: nat, newCode: string, msg: string)
    requires IsSupabaseConfigured(env)
    requires LoginGate(env, p, Some(initData), nowMs).Proceed?
    ensures var user := LoginGate(env, p, Some(initData), nowMs).user;
            var o := Login(env, p, rows, faults, Some(Some(initData)), nowMs, newCode, msg);
            o.0.data.Some? ==>
              (o.0.data.value.user.referrerId.None? ||
               exists i :: 0 <= i < |rows| && rows[i].telegramId == user.id
                           && o.0.data.value.user.referrerId == rows[i].referrerId)
  {
    var user := LoginGate(env, p, Some(initData), nowMs).user;
    NoCodeNoAttribution(env, rows, faults, user, None, nowMs, newCode);
  }

  /** A freshly inserted row is reported as new; an updated row is
      reported as new exactly when it was created less than a second
      before this login. */
  lemma IsNewUserClassification(env: Env, rows: Rows, faults: Faults, user: TelegramUser,
                                nowMs: nat, newCode: string, i: int)
    requires ValidRows(rows) && IsSupabaseConfigured(env) && !faults.idLookupFails && !faults.writeFails
    ensures var o := UpsertUser(env, rows, faults, user, None, nowMs, newCode);
            && ((forall j :: 0 <= j < |rows| ==> rows[j].telegramId != user.id && rows[j].referralCode != newCode) ==>
                  IsNewUser(o.user.value))
            && (0 <= i < |rows| && rows[i].telegramId == user.id ==>
                  (IsNewUser(o.user.value) <==> -1000 < nowMs - rows[i].createdAt < 1000))
  {
    if forall j :: 0 <= j < |rows| ==> rows[j].telegramId != user.id && rows[j].referralCode != newCode {
      NewUserRow(env, rows, faults, user, None, nowMs, newCode);
    }
    if 0 <= i < |rows| && rows[i].telegramId == user.id {
      UpdateKeepsFirstTouchFields(env, rows, faults, user, None, nowMs, newCode, i);
    }
  }

  /** The error message of an unexpected exception is hidden in
      production and passed through otherwise. */
  lemma InternalErrorMessage(env: Env, p: Platform, rows: Rows, faults: Faults,
                             nowMs: nat, newCode: string, msg: string)
    ensures var o := Login(env, p, rows, faults, None, nowMs, newCode, msg);
            && o.0.status == 500 && o.0.error.value.code == "INTERNAL_ERROR" && o.1 == rows
            && o.0.error.value.message == (if IsProduction(env) then "An unexpected error occurred" else msg)
  {
  }

  /** The handler against a live table. */
  method HandleLogin(table: UsersTable, env: Env, p: Platform, faults: Faults, body: Body,
                     nowMs: nat, newCode: string, thrownMessage: string) returns (reply: LoginReply)
    requires table.Valid()
    modifies table
    ensures table.Valid()
    ensures (reply, table.rows) == Login(env, p, old(table.rows), faults, body, nowMs, newCode, thrownMessage)
  {
    if body.None? {
      return InternalError(env, thrownMessage, nowMs);
    }
    var gate := LoginGate(env, p, body.value, nowMs);
    if gate.Reject? {
      return gate.reply;
    }
    var dbUser := table.Upsert(env, faults, gate.user, None, nowMs, newCode);
    reply := ReplyToUpsert(dbUser, nowMs);
  }
}
