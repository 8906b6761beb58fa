/** Signature check of Telegram Mini App initData (`validateTelegramData`
    in apps/api/src/services/auth.service.ts), following "Validating data
    received via the Mini App" in Telegram's Bot API documentation: the
    data-check-string is every pair but `hash`, sorted by key, written
    `key=value` and joined with line feeds; the secret key is
    HMAC-SHA-256 of the bot token keyed with "WebAppData"; the signature is
    the hex HMAC-SHA-256 of the data-check-string under that secret key. */
module InitDataValidation {
  import opened Wrappers
  import opened Encoding
  import opened Runtime
  import opened JsStrings
  import opened PairSort

  const MockData: string := "mock_data"
  const MockPrefix: string := "mock_"
  const HashKey: string := "hash"
  const WebAppData: string := "WebAppData"

  /** `initData === 'mock_data' || initData.startsWith('mock_')` */
  predicate IsMockSentinel(initData: string) {
    initData == MockData || StartsWith(initData, MockPrefix)
  }

  /** The first test is subsumed by the second: a sentinel is exactly a
      string that starts with `mock_`. */
  lemma MockSentinelIsPrefix(initData: string)
    ensures IsMockSentinel(initData) <==> StartsWith(initData, MockPrefix)
  {
    if initData == MockData {
      assert initData[..|MockPrefix|] == MockPrefix;
    }
  }

  /** The development bypass: only when NODE_ENV is exactly `development`. */
  predicate MockBypass(env: Env, initData: string) {
    IsDevelopment(env) && IsMockSentinel(initData)
  }

  /** The pairs that are signed, in the order they are written. */
  function DataCheckPairs(p: Platform, params: seq<Pair>): seq<Pair> {
    SortByKey(p.localeBefore, Delete(params, HashKey))
  }

  function Line(pair: Pair): string {
    pair.0 + "=" + pair.1
  }

  function Lines(pairs: seq<Pair>): (lines: seq<string>)
    ensures |lines| == |pairs|
    ensures forall i :: 0 <= i < |pairs| ==> lines[i] == Line(pairs[i])
  {
    if pairs == [] then [] else [Line(pairs[0])] + Lines(pairs[1..])
  }

  /** The data-check-string. */
  function DataCheckString(p: Platform, params: seq<Pair>): (s: string)
    ensures DataCheckPairs(p, params) == [] ==> s == ""
    ensures DataCheckPairs(p, params) != [] &&
            (forall i :: 0 <= i < |DataCheckPairs(p, params)| ==> '\n' !in Line(DataCheckPairs(p, params)[i])) ==>
              Split(s, '\n') == Lines(DataCheckPairs(p, params))
  {
    var lines := Lines(DataCheckPairs(p, params));
    if lines != [] && forall i :: 0 <= i < |lines| ==> '\n' !in lines[i] then
      SplitJoin(lines, '\n');
      Join(lines, "\n")
    else
      Join(lines, "\n")
  }

  /** The signed pairs are exactly the pairs not named `hash`, each as
      often as in the envelope, and they are in key order. */
  lemma DataCheckPairsExact(p: Platform, params: seq<Pair>)
    ensures forall i :: 0 <= i < |DataCheckPairs(p, params)| ==> DataCheckPairs(p, params)[i].0 != HashKey
    ensures forall x :: multiset(DataCheckPairs(p, params))[x] ==
                        if x.0 == HashKey then 0 else multiset(params)[x]
    ensures StrictTotalOrder(p.localeBefore) ==> SortedByKey(p.localeBefore, DataCheckPairs(p, params))
  {
    var kept := Delete(params, HashKey);
    var sorted := DataCheckPairs(p, params);
    forall i | 0 <= i < |sorted| ensures sorted[i].0 != HashKey {
      assert sorted[i] in multiset(kept);
      var k :| 0 <= k < |kept| && kept[k] == sorted[i];
    }
    if StrictTotalOrder(p.localeBefore) {
      SortSorted(p.localeBefore, kept);
    }
  }

  /** Removing pairs keeps the remaining keys distinct. */
  lemma {:induction false} DeleteKeepsDistinctKeys(params: seq<Pair>, key: string)
    requires DistinctKeys(params)
    ensures DistinctKeys(Delete(params, key))
  {
    if params != [] {
      var rest := params[1..];
      assert DistinctKeys(rest) by {
        forall i, j | 0 <= i < j < |rest| ensures rest[i].0 != rest[j].0 {
          assert rest[i] == params[i + 1] && rest[j] == params[j + 1];
        }
      }
      DeleteKeepsDistinctKeys(rest, key);
      var d := Delete(rest, key);
      if params[0].0 != key {
        var r := [params[0]] + d;
        forall j | 0 <= j < |d| ensures params[0].0 != d[j].0 {
          assert d[j] in multiset(rest);
          var k :| 0 <= k < |rest| && rest[k] == d[j];
          assert params[k + 1] == d[j];
        }
        forall i, j | 0 <= i < j < |r| ensures r[i].0 != r[j].0 {
          if i > 0 {
            assert r[i] == d[i - 1] && r[j] == d[j - 1];
          } else {
            assert r[j] == d[j - 1];
          }
        }
      }
    }
  }

  /** For an envelope with distinct keys, the data-check-string does not
      depend on the order of the pairs. */
  lemma DataCheckStringOrderIndependent(p: Platform, params: seq<Pair>, reordered: seq<Pair>)
    requires StrictTotalOrder(p.localeBefore)
    requires DistinctKeys(params)
    requires multiset(params) == multiset(reordered)
    ensures DataCheckString(p, params) == DataCheckString(p, reordered)
  {
    var kept, kept' := Delete(params, HashKey), Delete(reordered, HashKey);
    assert multiset(kept) == multiset(kept');
    DeleteKeepsDistinctKeys(params, HashKey);
    SortIndependentOfOrder(p.localeBefore, kept, kept');
  }

  /** The secret key: HMAC-SHA-256 of the bot token keyed with "WebAppData". */
  function SecretKey(p: Platform, botToken: string): seq<byte> {
    p.hmacSha256(Utf8(WebAppData), Utf8(botToken))
  }

  /** The expected `hash`: the hex HMAC-SHA-256 of the data-check-string
      under the secret key. */
  function Signature(p: Platform, botToken: string, params: seq<Pair>): (sig: string)
    ensures IsAscii(sig) && |sig| % 2 == 0 && forall i :: 0 <= i < |sig| ==> IsHexDigit(sig[i])
    ensures Unhex(sig) == p.hmacSha256(SecretKey(p, botToken), Utf8(DataCheckString(p, params)))
  {
    var digest := p.hmacSha256(SecretKey(p, botToken), Utf8(DataCheckString(p, params)));
    UnhexHex(digest);
    Hex(digest)
  }

  /** `crypto.timingSafeEqual(a, b)`: throws a RangeError when the lengths
      differ, and compares the bytes otherwise. */
  function TimingSafeEqual(a: seq<byte>, b: seq<byte>): (r: Result<bool, string>)
    ensures r.Err? <==> |a| != |b|
    ensures r.Ok? ==> (r.value <==> a == b)
  {
    if |a| != |b| then Err("Input buffers must have the same byte length") else Ok(a == b)
  }

  /** `validateTelegramData(initData)`. Never throws: a length mismatch in
      the comparison is caught and reads as `false`. */
  function ValidateTelegramData(env: Env, p: Platform, initData: string): (ok: bool)
    ensures MockBypass(env, initData) ==> ok
    ensures !MockBypass(env, initData) && Truthy(env.botToken).None? ==> !ok
    ensures !MockBypass(env, initData) && Truthy(Get(p.searchParams(initData), HashKey)).None? ==> !ok
  {
    if MockBypass(env, initData) then true
    else if Truthy(env.botToken).None? then false
    else
      var params := p.searchParams(initData);
      var hash := Get(params, HashKey);
      if Truthy(hash).None? then false
      else
        match TimingSafeEqual(Utf8(Signature(p, env.botToken.value, params)), Utf8(hash.value))
        case Err(_) => false
        case Ok(equal) => equal
  }

  /** The verdict is true exactly when the development bypass applies, or
      a bot token is configured, the envelope carries a non-empty `hash`,
      and that hash is the expected signature. */
  lemma ValidateTelegramDataIff(env: Env, p: Platform, initData: string)
    ensures ValidateTelegramData(env, p, initData) <==>
      || MockBypass(env, initData)
      || (&& Truthy(env.botToken).Some?
          && var hash := Get(p.searchParams(initData), HashKey);
          && Truthy(hash).Some?
          && Signature(p, env.botToken.value, p.searchParams(initData)) == hash.value)
  {
    if !MockBypass(env, initData) && Truthy(env.botToken).Some? {
      var params := p.searchParams(initData);
      var hash := Get(params, HashKey);
      if Truthy(hash).Some? {
        var sig := Signature(p, env.botToken.value, params);
        if Utf8(sig) == Utf8(hash.value) {
          Utf8AsciiInjective(sig, hash.value);
        }
      }
    }
  }

  /** Outside development a mock sentinel gets no special treatment: the
      verdict is the one the signature check gives any other string. */
  lemma NoBypassOutsideDevelopment(env: Env, env': Env, p: Platform, initData: string)
    requires !IsDevelopment(env)
    requires env'.botToken == env.botToken && env'.nodeEnv != Some("development")
    ensures ValidateTelegramData(env, p, initData) == ValidateTelegramData(env', p, initData)
  {
  }

  /** A string that is not a sentinel is checked the same way in every
      mode. */
  lemma ModeIrrelevantForRealData(env: Env, env': Env, p: Platform, initData: string)
    requires !IsMockSentinel(initData)
    requires env'.botToken == env.botToken
    ensures ValidateTelegramData(env, p, initData) == ValidateTelegramData(env', p, initData)
  {
  }
}
