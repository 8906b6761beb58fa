/** What the backend takes from its surroundings: the environment variables
    it reads, and the library calls whose internals are not modelled
    (query-string decoding, JSON decoding of the user, `decodeURIComponent`,
    HMAC-SHA-256 and `localeCompare`), passed in as function values. */
module Runtime {
  import opened Wrappers
  import opened Encoding
  import opened Telegram
  import JsStrings

  /** One decoded `key=value` pair of a query string. */
  type Pair = (string, string)

  /** `process.env` as far as the backend reads it. */
  datatype Env = Env(
    nodeEnv: Option<string>,
    botToken: Option<string>,
    supabaseUrl: Option<string>,
    supabaseServiceRoleKey: Option<string>,
    allowedOrigins: Option<string>)

  predicate IsProduction(env: Env) {
    env.nodeEnv == Some("production")
  }

  predicate IsDevelopment(env: Env) {
    env.nodeEnv == Some("development")
  }

  /** `isSupabaseConfigured()`: both the URL and the service-role key are
      set to non-empty strings. */
  function IsSupabaseConfigured(env: Env): (b: bool)
    ensures b <==> env.supabaseUrl.Some? && env.supabaseUrl.value != ""
                   && env.supabaseServiceRoleKey.Some? && env.supabaseServiceRoleKey.value != ""
  {
    JsStrings.Truthy(env.supabaseUrl).Some? && JsStrings.Truthy(env.supabaseServiceRoleKey).Some?
  }

  /** What `JSON.parse` of the user parameter yields: an exception, a falsy
      value, or a user object. */
  datatype UserJson = Unparseable | FalsyValue | UserObject(user: TelegramUser)

  /** The library calls, as total functions:
      - `searchParams(s)`: the decoded pairs of `new URLSearchParams(s)`, in order;
      - `localeBefore(a, b)`: `a.localeCompare(b) < 0`;
      - `hmacSha256(key, data)`: the raw HMAC-SHA-256 digest;
      - `parseUserJson(s)`: `JSON.parse(s)` of a user;
      - `decodeUriComponent(s)`: `None` when it throws a URIError. */
  datatype Platform = Platform(
    searchParams: string -> seq<Pair>,
    localeBefore: (string, string) -> bool,
    hmacSha256: (seq<byte>, seq<byte>) -> seq<byte>,
    parseUserJson: string -> UserJson,
    decodeUriComponent: string -> Option<string>)

  /** The key order is a strict total order on strings. */
  ghost predicate StrictTotalOrder(before: (string, string) -> bool) {
    && (forall a :: !before(a, a))
    && (forall a, b, c :: before(a, b) && before(b, c) ==> before(a, c))
    && (forall a, b :: a != b ==> before(a, b) || before(b, a))
  }

  /** `params.get(key)`: the value of the first pair named `key`. */
  function Get(params: seq<Pair>, key: string): (r: Option<string>)
    ensures r.None? <==> forall i :: 0 <= i < |params| ==> params[i].0 != key
    ensures r.Some? ==> exists i :: 0 <= i < |params| && params[i] == (key, r.value)
                                    && forall j :: 0 <= j < i ==> params[j].0 != key
  {
    if params == [] then None
    else if params[0].0 == key then Some(params[0].1)
    else
      var r := Get(params[1..], key);
      assert forall i :: 0 < i < |params| ==> params[i] == params[1..][i - 1];
      r
  }

  /** `params.delete(key)`: every pair named `key` goes, the others stay,
      each as often as before and in their order (`DeleteConcat`,
      `DeleteKeeps`). */
  function Delete(params: seq<Pair>, key: string): (r: seq<Pair>)
    ensures forall i :: 0 <= i < |r| ==> r[i].0 != key
    ensures forall x :: multiset(r)[x] == if x.0 == key then 0 else multiset(params)[x]
  {
    if params == [] then []
    else
      assert params == [params[0]] + params[1..];
      if params[0].0 == key then Delete(params[1..], key)
      else [params[0]] + Delete(params[1..], key)
  }

  /** Deleting from a concatenation deletes from each part. */
  lemma {:induction false} DeleteConcat(a: seq<Pair>, b: seq<Pair>, key: string)
    ensures Delete(a + b, key) == Delete(a, key) + Delete(b, key)
  {
    if a == [] {
      assert a + b == b;
    } else {
      assert (a + b)[0] == a[0] && (a + b)[1..] == a[1..] + b;
      DeleteConcat(a[1..], b, key);
    }
  }

  /** A pair with another key survives its deletion in place: the pairs
      before it stay before it and those after it stay after it. */
  lemma DeleteKeeps(a: seq<Pair>, x: Pair, b: seq<Pair>, key: string)
    requires x.0 != key
    ensures Delete(a + [x] + b, key) == Delete(a, key) + [x] + Delete(b, key)
  {
    var dx := Delete([x], key);
    assert [x][1..] == [];
    assert dx == [x];
    DeleteConcat(a + [x], b, key);
    DeleteConcat(a, [x], key);
  }
}
