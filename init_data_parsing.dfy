/** Parsing of initData into a `ParsedInitData` (`parseInitData`,
    `getMockParsedData` and `hashCode` in apps/api/src/services/auth.service.ts).
    Mock sentinels (`mock_data`, `mock_<identifier>`, optionally followed by
    `|<start_param>`) are turned into a synthetic user whose id is derived
    from the identifier by a 32-bit string hash; anything else is read as a
    query string whose `user` parameter holds the JSON-encoded user. */
module InitDataParsing {
  import opened Wrappers
  import opened Encoding
  import opened Telegram
  import opened Runtime
  import opened JsStrings
  import opened JsNumbers
  import opened InitDataValidation

  const MockDataUserId: int := 123456789
  const MockIdModulus: int := 1000000000

  // ----- hashCode -----

  /** The value of `hashCode` on a sequence of UTF-16 code units: starting
      from 0, each unit `c` takes `h` to ToInt32(31 * h + c). */
  function StringHash(units: seq<int>): (h: int)
    ensures IsInt32(h)
    ensures units == [] ==> h == 0
  {
    if units == [] then 0
    else ToInt32(31 * StringHash(units[..|units| - 1]) + units[|units| - 1])
  }

  /** One step of the loop: `hash = ((hash << 5) - hash) + char` followed by
      `hash = hash & hash`. The shift wraps `hash * 32` to 32 bits and the
      `& hash` wraps the sum; both wraps together equal one wrap of
      `31 * hash + char`. */
  lemma HashStep(h: int, c: int)
    ensures ToInt32(ToInt32(h * 32) - h + c) == ToInt32(31 * h + c)
  {
    var shifted := ToInt32(h * 32);
    var k := (h * 32 - shifted) / TwoTo32;
    assert h * 32 - shifted == TwoTo32 * k;
    assert (shifted - h + c) - (31 * h + c) == -(TwoTo32 * k);
    assert ((shifted - h + c) - (31 * h + c)) % TwoTo32 == 0;
    ToInt32Congruent(shifted - h + c, 31 * h + c);
  }

  /** `hashCode(str)`, running over the string's UTF-16 code units. */
  method HashCode(str: string) returns (hash: int)
    ensures hash == StringHash(Utf16(str))
    ensures IsInt32(hash)
  {
    var units := Utf16(str);
    hash := 0;
    var i := 0;
    while i < |units|
      invariant 0 <= i <= |units|
      invariant hash == StringHash(units[..i])
    {
      var unit := units[i];
      HashStep(hash, unit);
      assert units[..i + 1][..i] == units[..i];
      hash := ToInt32(ToInt32(hash * 32) - hash + unit);
      i := i + 1;
    }
    assert units[..i] == units;
  }

  /** The numeric id of a mock identifier:
      `Math.abs(hashCode(identifier)) % 1000000000`. */
  function MockUserId(identifier: string): (id: int)
    ensures 0 <= id < MockIdModulus
  {
    Abs(StringHash(Utf16(identifier))) % MockIdModulus
  }

  // ----- getMockParsedData -----

  /** The sentinel before the first `|`, and the piece after it if there is
      one (only the second `|`-separated piece is kept). */
  function MockIdentifier(initData: string): string {
    if Includes(initData, "|") then Split(initData, '|')[0] else initData
  }

  function MockStartParam(initData: string): Option<string> {
    if Includes(initData, "|") then
      var parts := Split(initData, '|');
      assert |parts| >= 2 by {
        IncludesChar(initData, '|');
      }
      Some(parts[1])
    else None
  }

  /** The user of a sentinel other than `mock_data`, from the identifier
      with its `mock_` prefix removed. */
  function MockNamedUserOf(userIdentifier: string): TelegramUser {
    var firstName := ToUpperCase(CharAt0(userIdentifier)) + ReplaceFirst(SliceFrom1(userIdentifier), "_", " ");
    TelegramUser(MockUserId(userIdentifier), firstName, Some("User"),
                 Some(ReplaceFirst(userIdentifier, "_", "")), Some("en"), Some(false), None)
  }

  /** The user a sentinel identifier stands for. */
  function MockUser(identifier: string): TelegramUser {
    if identifier == MockData then
      TelegramUser(MockDataUserId, "Test", Some("User"), Some("testuser"), Some("en"), Some(false), None)
    else MockNamedUserOf(ReplaceFirst(identifier, MockPrefix, ""))
  }

  /** `getMockParsedData(initData)`; `nowMs` stands for `Date.now()`. */
  function MockParsedData(initData: string, nowMs: nat): (r: ParsedInitData)
    ensures r.user.Some? && r.user.value.lastName == Some("User") && r.user.value.languageCode == Some("en")
    ensures r.user.value.isPremium == Some(false) && r.user.value.photoUrl.None?
    ensures r.hash == "mock_hash" && r.authDate == Some(nowMs / 1000)
    ensures r.queryId.None? && r.chatInstance.None? && r.chatType.None?
    ensures r.startParam.Some? <==> '|' in initData
  {
    IncludesChar(initData, '|');
    ParsedInitData(Some(MockUser(MockIdentifier(initData))), Some(nowMs / 1000), "mock_hash",
                   None, None, None, MockStartParam(initData))
  }

  // ----- parseInitData -----

  /** `parseInitData(initData)`; `None` for `null`. */
  function ParseInitData(p: Platform, initData: string, nowMs: nat): (r: Option<ParsedInitData>)
    ensures IsMockSentinel(initData) ==> r == Some(MockParsedData(initData, nowMs))
    ensures !IsMockSentinel(initData) && Truthy(Get(p.searchParams(initData), "user")).None? ==> r.None?
  {
    if IsMockSentinel(initData) then Some(MockParsedData(initData, nowMs))
    else
      var params := p.searchParams(initData);
      var userJson := Truthy(Get(params, "user"));
      if userJson.None? then None
      else
        var user: Option<TelegramUser> :=
          match p.parseUserJson(userJson.value)
          case UserObject(u) => Some(u)
          case _ => None;
        if p.parseUserJson(userJson.value).Unparseable? then None
        else Some(ParsedInitData(
          user,
          ParseInt(OrElse(Get(params, "auth_date"), "0")),
          OrElse(Get(params, "hash"), ""),
          Truthy(Get(params, "query_id")),
          Truthy(Get(params, "chat_instance")),
          Truthy(Get(params, "chat_type")),
          Truthy(Get(params, "start_param"))))
  }

  // ----- properties -----

  /** For real initData the result is `null` exactly when the `user`
      parameter is missing or empty or is not valid JSON; otherwise every
      field comes from its parameter: `auth_date` defaults to 0, `hash` to
      the empty string, and the optional fields are absent when their
      parameter is missing or empty. */
  lemma ParseRealInitData(p: Platform, initData: string, nowMs: nat)
    requires !IsMockSentinel(initData)
    ensures var params := p.searchParams(initData);
            var userJson := Get(params, "user");
            var r := ParseInitData(p, initData, nowMs);
            && (r.None? <==> Truthy(userJson).None? || p.parseUserJson(userJson.value).Unparseable?)
            && (r.Some? ==>
                && (r.value.user.Some? <==> p.parseUserJson(userJson.value).UserObject?)
                && (r.value.user.Some? ==> r.value.user.value == p.parseUserJson(userJson.value).user)
                && (Truthy(Get(params, "auth_date")).None? ==> r.value.authDate == Some(0))
                && (Truthy(Get(params, "hash")).None? ==> r.value.hash == "")
                && (Truthy(Get(params, "hash")).Some? ==> r.value.hash == Get(params, "hash").value)
                && (Truthy(Get(params, "auth_date")).Some? ==> r.value.authDate == ParseInt(Get(params, "auth_date").value))
                && r.value.queryId == Truthy(Get(params, "query_id"))
                && r.value.chatInstance == Truthy(Get(params, "chat_instance"))
                && r.value.chatType == Truthy(Get(params, "chat_type"))
                && (r.value.startParam.Some? <==> Truthy(Get(params, "start_param")).Some?)
                && (r.value.startParam.Some? ==> r.value.startParam == Get(params, "start_param")))
  {
    var params := p.searchParams(initData);
    var userJson := Get(params, "user");
    if Truthy(userJson).Some? && !p.parseUserJson(userJson.value).Unparseable? {
      var authDate := ParseInt(OrElse(Get(params, "auth_date"), "0"));
      if Truthy(Get(params, "auth_date")).None? {
        assert OrElse(Get(params, "auth_date"), "0") == "0";
        assert ParseInt("0") == Some(0) by {
          ParseIntOfNumberToString(0);
        }
      }
      var user: Option<TelegramUser> :=
        match p.parseUserJson(userJson.value)
        case UserObject(u) => Some(u)
        case _ => None;
      assert ParseInitData(p, initData, nowMs) == Some(ParsedInitData(
        user, authDate, OrElse(Get(params, "hash"), ""),
        Truthy(Get(params, "query_id")), Truthy(Get(params, "chat_instance")),
        Truthy(Get(params, "chat_type")), Truthy(Get(params, "start_param"))));
    }
  }

  /** An `auth_date` written in decimal is read back as that number. */
  lemma AuthDateRoundTrip(p: Platform, initData: string, nowMs: nat, authDate: int)
    requires !IsMockSentinel(initData)
    requires Get(p.searchParams(initData), "auth_date") == Some(NumberToString(authDate))
    requires ParseInitData(p, initData, nowMs).Some?
    ensures ParseInitData(p, initData, nowMs).value.authDate == Some(authDate)
  {
    ParseIntOfNumberToString(authDate);
  }

  /** Whatever follows the digits of `auth_date` is ignored: `12abc` is
      read as 12. */
  lemma AuthDateTrailingIgnored(p: Platform, initData: string, nowMs: nat, authDate: nat, rest: string)
    requires !IsMockSentinel(initData)
    requires rest == [] || !IsDigit(rest[0])
    requires Get(p.searchParams(initData), "auth_date") == Some(NumberToString(authDate) + rest)
    requires ParseInitData(p, initData, nowMs).Some?
    ensures ParseInitData(p, initData, nowMs).value.authDate == Some(authDate)
  {
    assert NumberToString(authDate) == NatToString(authDate);
    ParseIntIgnoresTrailing(authDate, rest);
  }

  /** An `auth_date` with no leading digit is read as NaN. */
  lemma AuthDateWithoutDigitsIsNaN(p: Platform, initData: string, nowMs: nat, rest: string)
    requires !IsMockSentinel(initData)
    requires rest != [] && !IsDigit(rest[0]) && !IsJsWhiteSpace(rest[0]) && rest[0] != '-' && rest[0] != '+'
    requires Get(p.searchParams(initData), "auth_date") == Some(rest)
    requires ParseInitData(p, initData, nowMs).Some?
    ensures ParseInitData(p, initData, nowMs).value.authDate.None?
  {
    assert TrimStart(rest) == rest;
  }

  /** `mock_data`, with or without a start parameter, is the fixed test
      user 123456789 / `testuser`. */
  lemma MockDataUser(suffix: string, nowMs: nat)
    requires suffix == "" || (suffix[0] == '|')
    ensures var r := MockParsedData(MockData + suffix, nowMs);
            && r.user == Some(TelegramUser(MockDataUserId, "Test", Some("User"), Some("testuser"), Some("en"), Some(false), None))
            && r.hash == "mock_hash"
            && r.authDate == Some(nowMs / 1000)
  {
    var s := MockData + suffix;
    assert '|' !in MockData;
    if suffix == "" {
      assert s == MockData;
      IncludesChar(s, '|');
    } else {
      assert s == MockData + "|" + suffix[1..];
      SplitFirst(MockData, '|', suffix[1..]);
      assert s[|MockData|] == '|';
      IncludesChar(s, '|');
    }
  }

  /** `a` does not contain `c` when neither piece of `x + y` does. */
  lemma NotInConcat(x: string, y: string, c: char)
    requires c !in x && c !in y
    ensures c !in x + y
  {
    assert forall i :: 0 <= i < |x + y| ==> (x + y)[i] == (if i < |x| then x[i] else y[i - |x|]);
  }

  /** `mock_X|P`: the identifier is `mock_X` and the start parameter is the
      piece between the first and the second `|` (anything after a second
      `|` is dropped); without `|` there is no start parameter. */
  lemma MockSentinelParts(x: string, rest: string, nowMs: nat)
    requires '|' !in x
    ensures MockIdentifier(MockPrefix + x) == MockPrefix + x
    ensures MockParsedData(MockPrefix + x, nowMs).startParam == None
    ensures MockIdentifier(MockPrefix + x + "|" + rest) == MockPrefix + x
    ensures MockParsedData(MockPrefix + x + "|" + rest, nowMs).startParam == Some(Split(rest, '|')[0])
  {
    var a := MockPrefix + x;
    NotInConcat(MockPrefix, x, '|');
    IncludesChar(a, '|');
    var s := a + "|" + rest;
    assert s == a + ['|'] + rest;
    SplitFirst(a, '|', rest);
    assert s[|a|] == '|';
    IncludesChar(s, '|');
    assert Split(s, '|')[1] == Split(rest, '|')[0];
  }

  /** The sentinel `mock_<a>_<b>` with no `|` denotes the identifier `a_b`. */
  lemma MockNamedIdentifier(a: string, b: string)
    requires '|' !in a && '|' !in b
    ensures var s := MockPrefix + (a + "_" + b);
            MockIdentifier(s) == s && ReplaceFirst(s, MockPrefix, "") == a + "_" + b
  {
    var ident := a + "_" + b;
    var s := MockPrefix + ident;
    NotInConcat(a, "_", '|');
    NotInConcat(a + "_", b, '|');
    NotInConcat(MockPrefix, ident, '|');
    IncludesChar(s, '|');
    ReplaceFirstAt("", MockPrefix, ident, "");
    assert "" + MockPrefix + ident == s;
    assert "" + "" + ident == ident;
  }

  /** For `mock_<a>_<b>` (no `|`, no `_` in `a`) other than `mock_data`,
      the id is the hash of `a_b` reduced below 10^9, the username is `ab`,
      and the last name, language and premium flag are fixed. */
  lemma MockNamedUser(a: string, b: string, nowMs: nat)
    requires '|' !in a && '|' !in b && '_' !in a
    requires MockPrefix + (a + "_" + b) != MockData
    ensures var u := MockParsedData(MockPrefix + (a + "_" + b), nowMs).user.value;
            && u.id == MockUserId(a + "_" + b)
            && 0 <= u.id < MockIdModulus
            && u.username == Some(a + b)
            && u.lastName == Some("User") && u.languageCode == Some("en") && u.isPremium == Some(false)
  {
    var ident := a + "_" + b;
    var s := MockPrefix + ident;
    MockNamedIdentifier(a, b);
    assert MockUser(MockIdentifier(s)) == MockNamedUserOf(ident);
    DropFirstUnderscore(a, b);
  }

  /** Any named sentinel `mock_<x>`, with or without `|<start>`: the user
      is built from `x`, so the id is the reduced hash of `x` and the
      username is `x` with its first `_` removed. */
  lemma MockAnyNamed(x: string, rest: string, nowMs: nat)
    requires '|' !in x && MockPrefix + x != MockData
    ensures var u := MockParsedData(MockPrefix + x, nowMs).user.value;
            u.id == MockUserId(x) && u.username == Some(ReplaceFirst(x, "_", ""))
    ensures var u := MockParsedData(MockPrefix + x + "|" + rest, nowMs).user.value;
            u.id == MockUserId(x) && u.username == Some(ReplaceFirst(x, "_", ""))
  {
    MockSentinelParts(x, rest, nowMs);
    ReplaceFirstAt("", MockPrefix, x, "");
    assert "" + MockPrefix + x == MockPrefix + x;
    assert "" + "" + x == x;
  }

  /** Removing the first `_` of `a_b` when `a` has none. */
  lemma DropFirstUnderscore(a: string, b: string)
    requires '_' !in a
    ensures ReplaceFirst(a + "_" + b, "_", "") == a + b
  {
    ReplaceFirstChar(a, '_', b, "");
    assert a + "" + b == a + b;
  }

  /** The first name of `c` + `a_b` (with no `_` in `a`) is `c` upper-cased,
      then `a`, a space, and `b` unchanged. */
  lemma MockFirstName(c: char, a: string, b: string)
    requires '_' !in a
    ensures MockNamedUserOf([c] + a + "_" + b).firstName == [ToUpperAscii(c)] + a + " " + b
  {
    var ident := [c] + a + "_" + b;
    assert CharAt0(ident) == [c];
    assert SliceFrom1(ident) == a + "_" + b by {
      assert CharAt0(ident) + SliceFrom1(ident) == ident;
      assert ident == [c] + (a + "_" + b);
    }
    ReplaceFirstChar(a, '_', b, " ");
    assert a + ['_'] + b == a + "_" + b;
    assert ToUpperCase([c]) == [ToUpperAscii(c)];
    assert [ToUpperAscii(c)] + (a + " " + b) == [ToUpperAscii(c)] + a + " " + b;
  }

  /** The mock id is a function of the identifier alone: two sentinels
      with the same identifier get the same id whatever start parameter
      they carry. */
  lemma MockIdIgnoresStartParam(x: string, p1: string, p2: string, nowMs: nat)
    requires '|' !in x
    ensures MockParsedData(MockPrefix + x + "|" + p1, nowMs).user ==
            MockParsedData(MockPrefix + x + "|" + p2, nowMs).user
  {
    MockSentinelParts(x, p1, nowMs);
    MockSentinelParts(x, p2, nowMs);
  }
}
