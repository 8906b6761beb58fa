/** The origin check of the API's CORS configuration
    (apps/api/src/middleware/cors.ts): a request without an Origin is
    allowed, as is one whose origin is on the ALLOWED_ORIGINS list or
    contains `vercel.app`; outside production, origins mentioning
    localhost or a tunnelling service are allowed too; anything else is
    refused with an error naming the origin. */
module Cors {
  import opened Wrappers
  import opened Runtime
  import opened JsStrings

  const DefaultOrigin: string := "http://localhost:3000"
  const VercelHost: string := "vercel.app"

  /** The callback's answer: allow, or an error carrying a message. */
  datatype Verdict = Allow | Deny(message: string)

  /** `ALLOWED_ORIGINS?.split(',') || ['http://localhost:3000']`. A split
      array is never falsy, so a set but empty variable gives the one
      entry `""` and not the default. Entries are not trimmed. */
  function AllowedOrigins(env: Env): (list: seq<string>)
    ensures env.allowedOrigins.None? ==> list == [DefaultOrigin]
    ensures env.allowedOrigins.Some? ==>
              && Join(list, ",") == env.allowedOrigins.value
              && forall i :: 0 <= i < |list| ==> ',' !in list[i]
  {
    if env.allowedOrigins.Some? then Split(env.allowedOrigins.value, ',') else [DefaultOrigin]
  }

  /** The origin mentions localhost or one of the tunnelling services. */
  predicate MentionsDevHost(origin: string) {
    || Includes(origin, "localhost")
    || Includes(origin, "ngrok-free.app")
    || Includes(origin, "ngrok.io")
    || Includes(origin, "trycloudflare.com")
  }

  /** The origin callback. */
  function OriginDecision(env: Env, origin: Option<string>): (v: Verdict)
    ensures v == Allow <==>
              || Truthy(origin).None?
              || origin.value in AllowedOrigins(env)
              || Includes(origin.value, VercelHost)
              || (!IsProduction(env) && MentionsDevHost(origin.value))
    ensures v.Deny? ==> v.message == "Origin " + origin.value + " not allowed by CORS"
  {
    if Truthy(origin).None? then Allow
    else if origin.value in AllowedOrigins(env) then Allow
    else if Includes(origin.value, VercelHost) then Allow
    else if !IsProduction(env) && MentionsDevHost(origin.value) then Allow
    else Deny("Origin " + origin.value + " not allowed by CORS")
  }

  /** Production never allows more than another mode does with the same
      list. */
  lemma ProductionIsStricter(prod: Env, dev: Env, origin: Option<string>)
    requires IsProduction(prod) && !IsProduction(dev)
    requires dev.allowedOrigins == prod.allowedOrigins
    ensures OriginDecision(prod, origin) == Allow ==> OriginDecision(dev, origin) == Allow
  {
  }

  /** With ALLOWED_ORIGINS unset the web app's development address is
      allowed even in production. */
  lemma DefaultListAllowsLocalFrontend(env: Env)
    requires env.allowedOrigins.None?
    ensures OriginDecision(env, Some(DefaultOrigin)) == Allow
  {
  }

  /** Every comma-separated entry of ALLOWED_ORIGINS is allowed, verbatim. */
  lemma ConfiguredEntriesAllowed(env: Env, entries: seq<string>, i: int)
    requires forall k :: 0 <= k < |entries| ==> ',' !in entries[k]
    requires env.allowedOrigins == Some(Join(entries, ","))
    requires 0 <= i < |entries|
    ensures OriginDecision(env, Some(entries[i])) == Allow
  {
    SplitJoin(entries, ',');
  }

  /** An empty ALLOWED_ORIGINS drops the default: in production only
      vercel.app origins (and requests without one) remain allowed. */
  lemma EmptyListAllowsOnlyVercelInProduction(env: Env, origin: string)
    requires env.allowedOrigins == Some("") && IsProduction(env)
    requires origin != ""
    ensures OriginDecision(env, Some(origin)) == Allow <==> Includes(origin, VercelHost)
  {
    assert AllowedOrigins(env) == [""];
  }

  /** The vercel.app test is a substring test: any origin that contains
      those characters anywhere, on any host, is allowed in every mode. */
  lemma VercelAnywhereAllowed(env: Env, before: string, after: string)
    ensures OriginDecision(env, Some(before + VercelHost + after)) == Allow
  {
    IncludesInfix(before, VercelHost, after);
  }

  /** An origin outside the list that mentions no allowed host is refused
      with its own name in the message, in every mode. */
  lemma UnknownOriginRefused(env: Env, origin: string)
    requires origin != "" && origin !in AllowedOrigins(env)
    requires !Includes(origin, VercelHost) && !MentionsDevHost(origin)
    ensures OriginDecision(env, Some(origin)) == Deny("Origin " + origin + " not allowed by CORS")
  {
  }
}
