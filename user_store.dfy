/** The `users` table and the user-management half of
    apps/api/src/services/auth.service.ts: `upsertUser`, `getMockDbUser`,
    `getUserByTelegramId`, `getUserByReferralCode` and `getReferrals`.
    The table is the sequence of its rows; the database's failures are
    explicit inputs (`Faults`), and the referral code the database
    generates for a new row is the input `newCode`. */
module UserStore {
  import opened Wrappers
  import opened Telegram
  import opened Runtime
  import opened JsStrings
  import opened JsNumbers

  /** The rows of the `users` table. */
  type Rows = seq<DbUser>

  /** The table's constraints: `telegram_id` and `referral_code` are
      unique. */
  predicate ValidRows(rows: Rows) {
    forall i, j :: 0 <= i < j < |rows| ==>
      rows[i].telegramId != rows[j].telegramId && rows[i].referralCode != rows[j].referralCode
  }

  /** Which database calls fail (a network error, an exception in the
      client, a constraint violation other than the referral code). */
  datatype Faults = Faults(idLookupFails: bool, codeLookupFails: bool, writeFails: bool)

  // ----- lookups -----

  /** The filters `.eq('telegram_id', id)` and `.eq('referral_code', code)`. */
  function IdIs(id: int): DbUser -> bool {
    (u: DbUser) => u.telegramId == id
  }

  function CodeIs(code: string): DbUser -> bool {
    (u: DbUser) => u.referralCode == code
  }

  /** The first row at or after `from` that passes the filter. */
  function IndexWhere(rows: Rows, matches: DbUser -> bool, from: nat): (r: Option<nat>)
    ensures r.Some? ==> from <= r.value < |rows| && matches(rows[r.value])
    ensures forall j :: from <= j < |rows| && (r.None? || j < r.value) ==> !matches(rows[j])
    decreases |rows| - from
  {
    if from >= |rows| then None
    else if matches(rows[from]) then Some(from)
    else IndexWhere(rows, matches, from + 1)
  }

  /** `.single()`: the row when exactly one row passes the filter; none,
      or more than one, is an error. */
  function Single(rows: Rows, matches: DbUser -> bool): (r: Option<DbUser>)
    ensures r.Some? ==> r.value in rows && matches(r.value)
    ensures r.Some? ==> forall j, k :: 0 <= j < k < |rows| && matches(rows[j]) ==> !matches(rows[k])
    ensures r.None? ==> (forall j :: 0 <= j < |rows| ==> !matches(rows[j]))
                        || exists j, k :: 0 <= j < k < |rows| && matches(rows[j]) && matches(rows[k])
  {
    match IndexWhere(rows, matches, 0)
    case None => None
    case Some(i) =>
      match IndexWhere(rows, matches, i + 1)
      case None => Some(rows[i])
      case Some(k) => None
  }

  /** A filter that only one row passes finds that row. */
  lemma SingleFindsUnique(rows: Rows, matches: DbUser -> bool, i: int)
    requires 0 <= i < |rows| && matches(rows[i])
    requires forall j :: 0 <= j < |rows| && j != i ==> !matches(rows[j])
    ensures Single(rows, matches) == Some(rows[i])
  {
    var first := IndexWhere(rows, matches, 0);
    assert first == Some(i);
    assert IndexWhere(rows, matches, i + 1).None?;
  }

  /** `getUserByTelegramId(telegramId)`: `null` when the database is not
      configured, the query fails or no single row matches. */
  function GetUserByTelegramId(env: Env, rows: Rows, fails: bool, telegramId: int): (r: Option<DbUser>)
    ensures r.Some? ==> IsSupabaseConfigured(env) && !fails && r.value in rows && r.value.telegramId == telegramId
    ensures (!IsSupabaseConfigured(env) || fails) ==> r.None?
  {
    if !IsSupabaseConfigured(env) || fails then None
    else Single(rows, IdIs(telegramId))
  }

  /** `getUserByReferralCode(code)`, likewise. */
  function GetUserByReferralCode(env: Env, rows: Rows, fails: bool, code: string): (r: Option<DbUser>)
    ensures r.Some? ==> IsSupabaseConfigured(env) && !fails && r.value in rows && r.value.referralCode == code
    ensures (!IsSupabaseConfigured(env) || fails) ==> r.None?
  {
    if !IsSupabaseConfigured(env) || fails then None
    else Single(rows, CodeIs(code))
  }

  /** With the constraints in place, the lookup by id finds the row holding
      the id (when the database is there and the query works). */
  lemma GetUserByTelegramIdFinds(env: Env, rows: Rows, fails: bool, i: int)
    requires ValidRows(rows) && 0 <= i < |rows|
    requires IsSupabaseConfigured(env) && !fails
    ensures GetUserByTelegramId(env, rows, fails, rows[i].telegramId) == Some(rows[i])
  {
    SingleFindsUnique(rows, IdIs(rows[i].telegramId), i);
  }

  /** Likewise the lookup by code. */
  lemma GetUserByReferralCodeFinds(env: Env, rows: Rows, fails: bool, i: int)
    requires ValidRows(rows) && 0 <= i < |rows|
    requires IsSupabaseConfigured(env) && !fails
    ensures GetUserByReferralCode(env, rows, fails, rows[i].referralCode) == Some(rows[i])
  {
    SingleFindsUnique(rows, CodeIs(rows[i].referralCode), i);
  }

  // ----- the upsert -----

  /** The referrer recorded for a login: looked up only for a new user with
      a non-empty code; an unknown code or the user's own code yields none. */
  function ResolveReferrer(env: Env, rows: Rows, faults: Faults, user: TelegramUser,
                           isNewUser: bool, referralCode: Option<string>): (r: Option<int>)
    ensures r.Some? ==> isNewUser && Truthy(referralCode).Some? && r.value != user.id
    ensures r.Some? ==> var referrer := GetUserByReferralCode(env, rows, faults.codeLookupFails, referralCode.value);
                        referrer.Some? && referrer.value.telegramId == r.value
  {
    if isNewUser && Truthy(referralCode).Some? then
      match GetUserByReferralCode(env, rows, faults.codeLookupFails, referralCode.value)
      case None => None
      case Some(referrer) => if referrer.telegramId == user.id then None else Some(referrer.telegramId)
    else None
  }

  /** The object handed to `.upsert(...)`. `referrerId` is present only for
      a new user with a truthy (non-zero) referrer. */
  datatype Payload = Payload(
    telegramId: int,
    username: Option<string>,
    firstName: string,
    lastName: Option<string>,
    languageCode: string,
    isPremium: bool,
    photoUrl: Option<string>,
    lastLogin: int,
    referrerId: Option<int>)

  function PayloadOf(user: TelegramUser, now: int, isNewUser: bool, referrerId: Option<int>): (p: Payload)
    ensures p.telegramId == user.id && p.firstName == user.firstName && p.lastLogin == now
    ensures p.username.Some? <==> user.username.Some? && user.username.value != ""
    ensures p.username.Some? ==> p.username == user.username
    ensures p.lastName.Some? <==> user.lastName.Some? && user.lastName.value != ""
    ensures p.lastName.Some? ==> p.lastName == user.lastName
    ensures p.photoUrl.Some? <==> user.photoUrl.Some? && user.photoUrl.value != ""
    ensures p.photoUrl.Some? ==> p.photoUrl == user.photoUrl
    ensures p.languageCode == (if user.languageCode.Some? && user.languageCode.value != "" then user.languageCode.value else "en")
    ensures p.isPremium <==> user.isPremium == Some(true)
    ensures p.referrerId.Some? <==> isNewUser && referrerId.Some? && referrerId.value != 0
    ensures p.referrerId.Some? ==> p.referrerId == referrerId
  {
    Payload(
      user.id,
      Truthy(user.username),
      user.firstName,
      Truthy(user.lastName),
      OrElse(user.languageCode, "en"),
      user.isPremium == Some(true),
      Truthy(user.photoUrl),
      now,
      if isNewUser && referrerId.Some? && referrerId.value != 0 then referrerId else None)
  }

  /** `ON CONFLICT (telegram_id) DO UPDATE`: the columns in the payload are
      overwritten, `updated_at` is stamped, everything else is kept. */
  function Updated(row: DbUser, p: Payload, now: int): (r: DbUser)
    ensures r.telegramId == p.telegramId && r.createdAt == row.createdAt
    ensures r.role == row.role && r.referralCode == row.referralCode
    ensures r.referrerId == (if p.referrerId.Some? then p.referrerId else row.referrerId)
    ensures r.username == p.username && r.firstName == p.firstName && r.lastName == p.lastName
    ensures r.languageCode == p.languageCode && r.isPremium == p.isPremium && r.photoUrl == p.photoUrl
    ensures r.lastLogin == p.lastLogin && r.updatedAt == now
  {
    row.(telegramId := p.telegramId, username := p.username, firstName := p.firstName,
         lastName := p.lastName, languageCode := p.languageCode, isPremium := p.isPremium,
         photoUrl := p.photoUrl, lastLogin := p.lastLogin, updatedAt := now,
         referrerId := if p.referrerId.Some? then p.referrerId else row.referrerId)
  }

  /** A fresh row: the payload's columns, the role `user`, both timestamps
      `now`, and the generated referral code. */
  function Inserted(p: Payload, now: int, newCode: string): (r: DbUser)
    ensures r.telegramId == p.telegramId && r.role == "user" && r.referralCode == newCode
    ensures r.createdAt == now && r.updatedAt == now && r.referrerId == p.referrerId
    ensures r.username == p.username && r.firstName == p.firstName && r.lastName == p.lastName
    ensures r.languageCode == p.languageCode && r.isPremium == p.isPremium && r.photoUrl == p.photoUrl
    ensures r.lastLogin == p.lastLogin
  {
    DbUser(p.telegramId, p.username, p.firstName, p.lastName, p.languageCode, p.isPremium,
           "user", now, now, p.lastLogin, p.photoUrl, p.referrerId, newCode)
  }

  /** `getMockDbUser(user)`: the record returned without a database; its
      referral code is `r` followed by the first 15 characters of the id. */
  function MockDbUser(user: TelegramUser, now: int): (r: DbUser)
    ensures r.telegramId == user.id && r.role == "user" && r.referrerId == None
    ensures r.createdAt == now && r.updatedAt == now && r.lastLogin == now
    ensures r.firstName == user.firstName && r.photoUrl == Truthy(user.photoUrl)
    ensures r.username == Truthy(user.username) && r.lastName == Truthy(user.lastName)
    ensures r.languageCode == OrElse(user.languageCode, "en") && (r.isPremium <==> user.isPremium == Some(true))
    ensures |r.referralCode| <= 16 && r.referralCode != [] && r.referralCode[0] == 'r'
  {
    var digits := NumberToString(user.id);
    var code := "r" + digits[..if |digits| < 15 then |digits| else 15];
    DbUser(user.id, Truthy(user.username), user.firstName, Truthy(user.lastName),
           OrElse(user.languageCode, "en"), user.isPremium == Some(true), "user",
           now, now, now, Truthy(user.photoUrl), None, code)
  }

  /** The outcome of `upsertUser`: the returned record (`null` as `None`)
      and the table afterwards. */
  datatype UpsertOutcome = UpsertOutcome(user: Option<DbUser>, rows: Rows)

  /** `upsertUser(user, referralCode)`. Whether the user is new is decided
      by the lookup; which row the write hits is decided by the table. */
  function UpsertUser(env: Env, rows: Rows, faults: Faults, user: TelegramUser,
                      referralCode: Option<string>, now: int, newCode: string): (o: UpsertOutcome)
    ensures !IsSupabaseConfigured(env) ==> o == UpsertOutcome(Some(MockDbUser(user, now)), rows)
    ensures IsSupabaseConfigured(env) && o.user.None? ==> o.rows == rows
    ensures IsSupabaseConfigured(env) && o.user.Some? ==>
              && o.user.value.telegramId == user.id
              && ((exists i :: 0 <= i < |rows| && rows[i].telegramId == user.id && o.rows == rows[i := o.user.value])
                  || ((forall j :: 0 <= j < |rows| ==> rows[j].telegramId != user.id) && o.rows == rows + [o.user.value]))
    ensures faults.writeFails && IsSupabaseConfigured(env) ==> o.user.None?
  {
    if !IsSupabaseConfigured(env) then UpsertOutcome(Some(MockDbUser(user, now)), rows)
    else
      var existingUser := GetUserByTelegramId(env, rows, faults.idLookupFails, user.id);
      var isNewUser := existingUser.None?;
      var referrerId := ResolveReferrer(env, rows, faults, user, isNewUser, referralCode);
      var payload := PayloadOf(user, now, isNewUser, referrerId);
      if faults.writeFails then UpsertOutcome(None, rows)
      else
        match IndexWhere(rows, IdIs(user.id), 0)
        case Some(i) =>
          var row := Updated(rows[i], payload, now);
          UpsertOutcome(Some(row), rows[i := row])
        case None =>
          if IndexWhere(rows, CodeIs(newCode), 0).Some? then UpsertOutcome(None, rows)
          else
            var row := Inserted(payload, now, newCode);
            UpsertOutcome(Some(row), rows + [row])
  }

  // ----- properties of the upsert -----

  /** The upsert keeps the table's constraints. */
  lemma UpsertKeepsValid(env: Env, rows: Rows, faults: Faults, user: TelegramUser,
                         referralCode: Option<string>, now: int, newCode: string)
    requires ValidRows(rows)
    ensures ValidRows(UpsertUser(env, rows, faults, user, referralCode, now, newCode).rows)
  {
    var o := UpsertUser(env, rows, faults, user, referralCode, now, newCode);
    if IsSupabaseConfigured(env) && !faults.writeFails {
      match IndexWhere(rows, IdIs(user.id), 0)
      case Some(i) =>
        var row := o.user.value;
        assert o.rows == rows[i := row];
        assert row.referralCode == rows[i].referralCode;
        forall j, k | 0 <= j < k < |o.rows|
          ensures o.rows[j].telegramId != o.rows[k].telegramId && o.rows[j].referralCode != o.rows[k].referralCode
        {
          if j == i {
            assert o.rows[k] == rows[k];
          } else if k == i {
            assert o.rows[j] == rows[j];
          } else {
            assert o.rows[j] == rows[j] && o.rows[k] == rows[k];
          }
        }
      case None =>
        if IndexWhere(rows, CodeIs(newCode), 0).None? {
          var row := o.user.value;
          assert o.rows == rows + [row];
          forall j, k | 0 <= j < k < |o.rows|
            ensures o.rows[j].telegramId != o.rows[k].telegramId && o.rows[j].referralCode != o.rows[k].referralCode
          {
            assert o.rows[j] == rows[j];
            if k == |rows| {
              assert !IdIs(user.id)(rows[j]) && !CodeIs(newCode)(rows[j]);
            } else {
              assert o.rows[k] == rows[k];
            }
          }
        }
    }
  }

  /** An existing user who is found keeps `created_at`, `role`,
      `referral_code` and `referrer_id`, whatever code comes with the
      login; every profile column is refreshed from the login (the row is
      the update of the old one with the payload of a returning user) and
      `updated_at` is stamped. */
  lemma UpdateKeepsFirstTouchFields(env: Env, rows: Rows, faults: Faults, user: TelegramUser,
                                    referralCode: Option<string>, now: int, newCode: string, i: int)
    requires ValidRows(rows) && 0 <= i < |rows| && rows[i].telegramId == user.id
    requires IsSupabaseConfigured(env) && !faults.idLookupFails && !faults.writeFails
    ensures var o := UpsertUser(env, rows, faults, user, referralCode, now, newCode);
            && o.user.Some?
            && o.user.value.createdAt == rows[i].createdAt
            && o.user.value.role == rows[i].role
            && o.user.value.referralCode == rows[i].referralCode
            && o.user.value.referrerId == rows[i].referrerId
            && o.user.value.updatedAt == now && o.user.value.lastLogin == now
            && o.user.value.firstName == user.firstName
            && o.user.value == Updated(rows[i], PayloadOf(user, now, false, None), now)
            && o.rows == rows[i := o.user.value]
  {
    GetUserByTelegramIdFinds(env, rows, faults.idLookupFails, i);
    var first := IndexWhere(rows, IdIs(user.id), 0);
    assert first == Some(i);
  }

  /** For a found user the code plays no part: the same login with any
      other code, or with a failing code lookup, has the same outcome. */
  lemma ExistingUserIgnoresCode(env: Env, rows: Rows, faults: Faults, user: TelegramUser,
                                code1: Option<string>, code2: Option<string>, codeLookupFails: bool,
                                now: int, newCode: string, i: int)
    requires ValidRows(rows) && 0 <= i < |rows| && rows[i].telegramId == user.id
    requires IsSupabaseConfigured(env) && !faults.idLookupFails
    ensures UpsertUser(env, rows, faults, user, code1, now, newCode) ==
            UpsertUser(env, rows, faults.(codeLookupFails := codeLookupFails), user, code2, now, newCode)
  {
    GetUserByTelegramIdFinds(env, rows, faults.idLookupFails, i);
  }

  /** A new user's row: the payload of a new user with the resolved
      referrer, inserted with role `user`, both timestamps `now` and the
      generated code, so the profile defaults apply (`username` null when
      empty, `language_code` `en`, `is_premium` false); it is appended to
      the table. */
  lemma NewUserRow(env: Env, rows: Rows, faults: Faults, user: TelegramUser,
                   referralCode: Option<string>, now: int, newCode: string)
    requires IsSupabaseConfigured(env) && !faults.writeFails
    requires forall j :: 0 <= j < |rows| ==> rows[j].telegramId != user.id && rows[j].referralCode != newCode
    ensures var o := UpsertUser(env, rows, faults, user, referralCode, now, newCode);
            && o.user.Some?
            && o.user.value.role == "user" && o.user.value.referralCode == newCode
            && o.user.value.createdAt == now && o.user.value.updatedAt == now
            && (Truthy(user.username).None? ==> o.user.value.username.None?)
            && (Truthy(user.languageCode).None? ==> o.user.value.languageCode == "en")
            && (user.isPremium != Some(true) ==> !o.user.value.isPremium)
            && o.user.value == Inserted(PayloadOf(user, now, true, ResolveReferrer(env, rows, faults, user, true, referralCode)),
                                        now, newCode)
            && o.rows == rows + [o.user.value]
  {
  }

  /** A new row whose generated code is already taken is a write error:
      `null`, and the table is unchanged. */
  lemma CodeCollisionFails(env: Env, rows: Rows, faults: Faults, user: TelegramUser,
                           referralCode: Option<string>, now: int, newCode: string, other: int)
    requires IsSupabaseConfigured(env)
    requires forall j :: 0 <= j < |rows| ==> rows[j].telegramId != user.id
    requires 0 <= other < |rows| && rows[other].referralCode == newCode
    ensures UpsertUser(env, rows, faults, user, referralCode, now, newCode) == UpsertOutcome(None, rows)
  {
    assert CodeIs(newCode)(rows[other]);
  }

  /** A new user is attributed exactly when the code is held by a row with
      a non-zero id and the code lookup works; the referrer is that row,
      never the user. */
  lemma NewUserReferral(env: Env, rows: Rows, faults: Faults, user: TelegramUser,
                        referralCode: Option<string>, now: int, newCode: string)
    requires ValidRows(rows)
    requires IsSupabaseConfigured(env) && !faults.writeFails
    requires forall j :: 0 <= j < |rows| ==> rows[j].telegramId != user.id && rows[j].referralCode != newCode
    ensures var o := UpsertUser(env, rows, faults, user, referralCode, now, newCode);
            && o.user.Some?
            && (o.user.value.referrerId.Some? <==>
                  && Truthy(referralCode).Some? && !faults.codeLookupFails
                  && exists r :: 0 <= r < |rows| && rows[r].referralCode == referralCode.value && rows[r].telegramId != 0)
            && (o.user.value.referrerId.Some? ==>
                  && o.user.value.referrerId.value != user.id
                  && exists r :: 0 <= r < |rows| && rows[r].referralCode == referralCode.value
                                 && rows[r].telegramId == o.user.value.referrerId.value)
  {
    NewUserRow(env, rows, faults, user, referralCode, now, newCode);
    if Truthy(referralCode).Some? && !faults.codeLookupFails {
      var code := referralCode.value;
      var found := GetUserByReferralCode(env, rows, faults.codeLookupFails, code);
      if found.Some? {
        var r :| 0 <= r < |rows| && rows[r] == found.value;
        assert found.value.telegramId != user.id;
      }
      if exists r :: 0 <= r < |rows| && rows[r].referralCode == code && rows[r].telegramId != 0 {
        var r :| 0 <= r < |rows| && rows[r].referralCode == code && rows[r].telegramId != 0;
        GetUserByReferralCodeFinds(env, rows, faults.codeLookupFails, r);
      }
    }
  }

  /** A login with no code (missing or empty) never attributes anyone: a
      new row gets no referrer and an updated row keeps its own. */
  lemma NoCodeNoAttribution(env: Env, rows: Rows, faults: Faults, user: TelegramUser,
                            referralCode: Option<string>, now: int, newCode: string)
    requires Truthy(referralCode).None?
    requires IsSupabaseConfigured(env)
    ensures var o := UpsertUser(env, rows, faults, user, referralCode, now, newCode);
            o.user.Some? ==>
              (o.user.value.referrerId.None? ||
               exists i :: 0 <= i < |rows| && rows[i].telegramId == user.id && o.user.value.referrerId == rows[i].referrerId)
  {
  }

  /** Nobody becomes their own referrer unless they already were. */
  lemma NoSelfReferral(env: Env, rows: Rows, faults: Faults, user: TelegramUser,
                       referralCode: Option<string>, now: int, newCode: string)
    requires IsSupabaseConfigured(env)
    ensures var o := UpsertUser(env, rows, faults, user, referralCode, now, newCode);
            o.user.Some? && o.user.value.referrerId == Some(user.id) ==>
              exists i :: 0 <= i < |rows| && rows[i].telegramId == user.id && rows[i].referrerId == Some(user.id)
  {
  }

  /** A failing lookup by id makes an existing user look new, and then a
      referral code does overwrite that user's `referrer_id`: user 1,
      referred by 2, logs in with the code of user 3 and is re-attributed
      to 3. */
  lemma LookupErrorReattributes()
    ensures var env := Env(Some("production"), Some("t"), Some("u"), Some("k"), None);
            var u1 := DbUser(1, None, "A", None, "en", false, "user", 0, 0, 0, None, Some(2), "c1");
            var u2 := DbUser(2, None, "B", None, "en", false, "user", 0, 0, 0, None, None, "c2");
            var u3 := DbUser(3, None, "C", None, "en", false, "user", 0, 0, 0, None, None, "c3");
            var login := TelegramUser(1, "A", None, None, None, None, None);
            var o := UpsertUser(env, [u1, u2, u3], Faults(true, false, false), login, Some("c3"), 5000, "c4");
            && ValidRows([u1, u2, u3])
            && o.user.Some? && o.user.value.referrerId == Some(3)
  {
    var env := Env(Some("production"), Some("t"), Some("u"), Some("k"), None);
    var u1 := DbUser(1, None, "A", None, "en", false, "user", 0, 0, 0, None, Some(2), "c1");
    var u2 := DbUser(2, None, "B", None, "en", false, "user", 0, 0, 0, None, None, "c2");
    var u3 := DbUser(3, None, "C", None, "en", false, "user", 0, 0, 0, None, None, "c3");
    var rows := [u1, u2, u3];
    GetUserByReferralCodeFinds(env, rows, false, 2);
  }

  /** Without a database the mock record's code reads back as the id, for
      ids of up to 15 digits. */
  lemma MockDbUserCode(user: TelegramUser, now: int)
    requires 0 <= user.id < 1000000000000000
    ensures MockDbUser(user, now).referralCode == "r" + NumberToString(user.id)
    ensures ParseInt(MockDbUser(user, now).referralCode[1..]) == Some(user.id)
  {
    NatToStringLength(user.id);
    ParseIntOfNumberToString(user.id);
  }

  /** The decimal form of a number below 10^15 has at most 15 digits. */
  lemma NatToStringLength(n: nat)
    requires n < 1000000000000000
    ensures |NumberToString(n)| <= 15
  {
    assert Pow10(15) == 1000000000000000;
    NatToStringBound(n, 15);
  }

  /** A number below 10^k has at most k digits. */
  lemma {:induction false} NatToStringBound(n: nat, k: nat)
    requires k >= 1 && n < Pow10(k)
    ensures |NatToString(n)| <= k
    decreases k
  {
    if n >= 10 {
      assert Pow10(1) == 10;
      assert k != 1;
      assert n / 10 < Pow10(k - 1);
      NatToStringBound(n / 10, k - 1);
    }
  }

  function Pow10(k: nat): (p: nat)
    ensures p >= 1
  {
    if k == 0 then 1 else 10 * Pow10(k - 1)
  }

  // ----- referrals -----

  /** The rows that name `telegramId` as their referrer, in table order. */
  function ReferralsOf(rows: Rows, telegramId: int): (r: seq<DbUser>)
    ensures forall u :: u in r <==> u in rows && u.referrerId == Some(telegramId)
  {
    if rows == [] then []
    else
      var init := rows[..|rows| - 1];
      var last := rows[|rows| - 1];
      assert rows == init + [last];
      ReferralsOf(init, telegramId) + (if last.referrerId == Some(telegramId) then [last] else [])
  }

  /** One more row of the table adds that row to the filter when it
      names the referrer. */
  lemma ReferralsOfStep(rows: Rows, telegramId: int, i: int)
    requires 0 <= i < |rows|
    ensures ReferralsOf(rows[..i + 1], telegramId) ==
            ReferralsOf(rows[..i], telegramId) + (if rows[i].referrerId == Some(telegramId) then [rows[i]] else [])
  {
    assert rows[..i + 1][..i] == rows[..i];
  }

  /** A rearrangement of the filter holds only referred rows of the table. */
  lemma ReferralsOfMultiset(list: seq<DbUser>, rows: Rows, telegramId: int)
    requires multiset(list) == multiset(ReferralsOf(rows, telegramId))
    ensures forall u :: u in list ==> u in rows && u.referrerId == Some(telegramId)
  {
    forall u | u in list ensures u in rows && u.referrerId == Some(telegramId) {
      assert u in multiset(list);
    }
  }

  /** Newest first by `created_at`. */
  predicate NewestFirst(list: seq<DbUser>) {
    forall i, j :: 0 <= i < j < |list| ==> list[i].createdAt >= list[j].createdAt
  }

  /** Puts `u` after the rows created at or after it, keeping the list
      newest-first. */
  function InsertNewestFirst(list: seq<DbUser>, u: DbUser): (r: seq<DbUser>)
    ensures multiset(r) == multiset(list) + multiset{u}
  {
    if list == [] then [u]
    else if list[0].createdAt >= u.createdAt then
      assert list == [list[0]] + list[1..];
      [list[0]] + InsertNewestFirst(list[1..], u)
    else [u] + list
  }

  /** No row of the list was created after `c`. */
  predicate NoneNewerThan(list: seq<DbUser>, c: int) {
    forall k :: 0 <= k < |list| ==> list[k].createdAt <= c
  }

  lemma NewestFirstTail(list: seq<DbUser>)
    requires NewestFirst(list) && list != []
    ensures NewestFirst(list[1..]) && NoneNewerThan(list[1..], list[0].createdAt)
  {
    var tail := list[1..];
    forall k | 0 <= k < |tail| ensures tail[k] == list[k + 1] {}
  }

  lemma ConsNewestFirst(x: DbUser, rest: seq<DbUser>)
    requires NewestFirst(rest) && NoneNewerThan(rest, x.createdAt)
    ensures NewestFirst([x] + rest)
  {
    var r := [x] + rest;
    forall k | 0 < k < |r| ensures r[k] == rest[k - 1] {}
  }

  /** Inserting a row no newer than `c` keeps every row no newer than `c`. */
  lemma {:induction false} InsertNoneNewer(list: seq<DbUser>, u: DbUser, c: int)
    requires NoneNewerThan(list, c) && u.createdAt <= c
    ensures NoneNewerThan(InsertNewestFirst(list, u), c)
  {
    if list != [] && list[0].createdAt >= u.createdAt {
      var tail := list[1..];
      assert NoneNewerThan(tail, c) by {
        forall k | 0 <= k < |tail| ensures tail[k] == list[k + 1] {}
      }
      InsertNoneNewer(tail, u, c);
      var r := [list[0]] + InsertNewestFirst(tail, u);
      forall k | 0 < k < |r| ensures r[k] == InsertNewestFirst(tail, u)[k - 1] {}
    } else if list != [] {
      var r := [u] + list;
      forall k | 0 < k < |r| ensures r[k] == list[k - 1] {}
    }
  }

  lemma {:induction false} InsertNewestFirstSorted(list: seq<DbUser>, u: DbUser)
    requires NewestFirst(list)
    ensures NewestFirst(InsertNewestFirst(list, u))
  {
    if list != [] && list[0].createdAt >= u.createdAt {
      var tail := list[1..];
      NewestFirstTail(list);
      InsertNewestFirstSorted(tail, u);
      InsertNoneNewer(tail, u, list[0].createdAt);
      ConsNewestFirst(list[0], InsertNewestFirst(tail, u));
    } else if list != [] {
      assert NoneNewerThan(list, u.createdAt) by {
        forall k | 0 <= k < |list| ensures list[k].createdAt <= list[0].createdAt {
          if k > 0 {
            assert list[0].createdAt >= list[k].createdAt;
          }
        }
      }
      ConsNewestFirst(u, list);
    }
  }

  class UsersTable {
    var rows: Rows

    predicate Valid()
      reads this
    {
      ValidRows(rows)
    }

    constructor ()
      ensures rows == [] && Valid()
    {
      rows := [];
    }

    /** `upsertUser(user, referralCode)` against this table. */
    method Upsert(env: Env, faults: Faults, user: TelegramUser, referralCode: Option<string>,
                  now: int, newCode: string) returns (result: Option<DbUser>)
      requires Valid()
      modifies this
      ensures Valid()
      ensures var o := UpsertUser(env, old(rows), faults, user, referralCode, now, newCode);
              result == o.user && rows == o.rows
    {
      UpsertKeepsValid(env, rows, faults, user, referralCode, now, newCode);
      if !IsSupabaseConfigured(env) {
        return Some(MockDbUser(user, now));
      }
      var existingUser := GetUserByTelegramId(env, rows, faults.idLookupFails, user.id);
      var isNewUser := existingUser.None?;
      var referrerId: Option<int> := None;
      if isNewUser && Truthy(referralCode).Some? {
        var referrer := GetUserByReferralCode(env, rows, faults.codeLookupFails, referralCode.value);
        if referrer.Some? && referrer.value.telegramId != user.id {
          referrerId := Some(referrer.value.telegramId);
        }
      }
      var payload := PayloadOf(user, now, isNewUser, referrerId);
      if faults.writeFails {
        return None;
      }
      var conflict := IndexWhere(rows, IdIs(user.id), 0);
      if conflict.Some? {
        var row := Updated(rows[conflict.value], payload, now);
        rows := rows[conflict.value := row];
        return Some(row);
      }
      if IndexWhere(rows, CodeIs(newCode), 0).Some? {
        return None;
      }
      var row := Inserted(payload, now, newCode);
      rows := rows + [row];
      result := Some(row);
    }

    /** `getReferrals(telegramId)`: the rows referred by `telegramId`,
        each as often as in the table, newest first; empty without a
        database or when the query fails. */
    method GetReferrals(env: Env, fails: bool, telegramId: int) returns (list: seq<DbUser>)
      ensures !IsSupabaseConfigured(env) || fails ==> list == []
      ensures IsSupabaseConfigured(env) && !fails ==>
                && multiset(list) == multiset(ReferralsOf(rows, telegramId))
                && NewestFirst(list)
      ensures forall u :: u in list ==> u in rows && u.referrerId == Some(telegramId)
    {
      list := [];
      if !IsSupabaseConfigured(env) || fails {
        return;
      }
      var table := rows;
      var i := 0;
      while i < |table|
        invariant 0 <= i <= |table|
        invariant multiset(list) == multiset(ReferralsOf(table[..i], telegramId))
        invariant NewestFirst(list)
      {
        ReferralsOfStep(table, telegramId, i);
        var row := table[i];
        if row.referrerId == Some(telegramId) {
          InsertNewestFirstSorted(list, row);
          list := InsertNewestFirst(list, row);
        }
        i := i + 1;
      }
      assert table[..i] == table;
      ReferralsOfMultiset(list, table, telegramId);
    }
  }
}
