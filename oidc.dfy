/**
 * The pure pieces of the OpenID Connect login flow in server.js: the base64url
 * helper, query-parameter building (URLSearchParams `set` semantics), the
 * discovery URL, the `/callback` state gate, the nonce comparison, the session
 * record written on success, and the provider logout URL.
 */
module Oidc {
  import opened Common
  import opened Text
  import opened JsValue

  // ------------------------------------------------------------------
  // toBase64Url
  // ------------------------------------------------------------------

  predicate IsStdBase64Char(c: char) {
    'A' <= c <= 'Z' || 'a' <= c <= 'z' || '0' <= c <= '9' || c == '+' || c == '/'
  }

  predicate IsUrlBase64Char(c: char) {
    'A' <= c <= 'Z' || 'a' <= c <= 'z' || '0' <= c <= '9' || c == '-' || c == '_'
  }

  /** The number of `=` characters at the end of `s`. */
  function PadCount(s: string): nat {
    |s| - |StripTrailing(s, '=')|
  }

  /**
   * What `Buffer.toString('base64')` produces: a multiple of four characters from
   * the standard alphabet, ending in at most two `=`.
   */
  predicate CanonicalBase64(s: string) {
    && |s| % 4 == 0
    && PadCount(s) <= 2
    && forall i :: 0 <= i < |s| - PadCount(s) ==> IsStdBase64Char(s[i])
  }

  function Repeat(c: char, n: nat): (r: string)
    ensures |r| == n && forall i :: 0 <= i < n ==> r[i] == c
  {
    seq(n, _ => c)
  }

  /** `toBase64Url` applied to the standard base64 text `b64` of a buffer. */
  function ToBase64Url(b64: string): (r: string)
    ensures forall i :: 0 <= i < |r| ==> r[i] != '+' && r[i] != '/'
    ensures r == [] || r[|r| - 1] != '='
  {
    StripTrailing(ReplaceChar(ReplaceChar(b64, '+', '-'), '/', '_'), '=')
  }

  /** The inverse a receiver applies: undo the two substitutions and restore the padding. */
  function FromBase64Url(u: string): string {
    ReplaceChar(ReplaceChar(u, '-', '+'), '_', '/') + Repeat('=', (4 - |u| % 4) % 4)
  }

  function UrlSafeChar(c: char): char {
    if c == '+' then '-' else if c == '/' then '_' else c
  }

  function StdChar(c: char): char {
    if c == '-' then '+' else if c == '_' then '/' else c
  }

  lemma UrlSafeMapping(s: string)
    ensures var m := ReplaceChar(ReplaceChar(s, '+', '-'), '/', '_');
      |m| == |s| && forall i :: 0 <= i < |s| ==> m[i] == UrlSafeChar(s[i])
  {
  }

  lemma StdMapping(u: string)
    ensures var m := ReplaceChar(ReplaceChar(u, '-', '+'), '_', '/');
      |m| == |u| && forall i :: 0 <= i < |u| ==> m[i] == StdChar(u[i])
  {
  }

  /** On canonical input, `toBase64Url` maps the characters before the padding and drops the padding. */
  lemma ToBase64UrlDropsPadding(s: string)
    requires CanonicalBase64(s)
    ensures |ToBase64Url(s)| == |s| - PadCount(s)
    ensures forall i :: 0 <= i < |ToBase64Url(s)| ==> ToBase64Url(s)[i] == UrlSafeChar(s[i])
  {
    var n, p := |s|, PadCount(s);
    var m := ReplaceChar(ReplaceChar(s, '+', '-'), '/', '_');
    UrlSafeMapping(s);
    var body, pad := m[..n - p], m[n - p..];
    forall i | 0 <= i < |pad|
      ensures pad[i] == '='
    {
      assert pad[i] == m[n - p + i];
      assert s[n - p + i] == '=';
    }
    if body != [] {
      assert body[|body| - 1] == UrlSafeChar(s[n - p - 1]);
      assert IsStdBase64Char(s[n - p - 1]);
    }
    assert m == body + pad;
    StripTrailingOfClean(body, pad, '=');
    var u := ToBase64Url(s);
    assert u == body;
    forall i | 0 <= i < |u|
      ensures u[i] == UrlSafeChar(s[i])
    {
      assert u[i] == m[i];
    }
  }

  /**
   * On the output of `Buffer.toString('base64')`, `toBase64Url` yields only URL-safe
   * characters and loses nothing: putting the padding and the two characters back
   * recovers the input exactly.
   */
  lemma Base64UrlRoundTrip(s: string)
    requires CanonicalBase64(s)
    ensures forall i :: 0 <= i < |ToBase64Url(s)| ==> IsUrlBase64Char(ToBase64Url(s)[i])
    ensures |ToBase64Url(s)| == |s| - PadCount(s)
    ensures FromBase64Url(ToBase64Url(s)) == s
  {
    var n, p := |s|, PadCount(s);
    var u := ToBase64Url(s);
    ToBase64UrlDropsPadding(s);
    forall i | 0 <= i < |u|
      ensures IsUrlBase64Char(u[i])
    {
      assert u[i] == UrlSafeChar(s[i]);
      assert IsStdBase64Char(s[i]);
    }
    PaddingRestored(n, p);
    var core := ReplaceChar(ReplaceChar(u, '-', '+'), '_', '/');
    StdMapping(u);
    var back := core + Repeat('=', p);
    assert FromBase64Url(u) == back;
    forall i | 0 <= i < n
      ensures back[i] == s[i]
    {
      if i < n - p {
        assert back[i] == StdChar(u[i]);
        assert u[i] == UrlSafeChar(s[i]);
        assert IsStdBase64Char(s[i]);
      } else {
        assert back[i] == '=';
        assert s[i] == '=';
      }
    }
    assert back == s;
  }

  /** The padding a receiver restores from the unpadded length is what was dropped. */
  lemma PaddingRestored(n: nat, p: nat)
    requires n % 4 == 0 && p <= 2 && p <= n
    ensures (4 - (n - p) % 4) % 4 == p
  {
  }

  // ------------------------------------------------------------------
  // URLs and URLSearchParams
  // ------------------------------------------------------------------

  /** A query string as its list of name-value pairs, in order. */
  type Query = seq<(string, string)>

  /** A parsed URL: everything up to the query, and the query's pairs. */
  datatype Url = Url(base: string, query: Query)

  /** `searchParams.get(name)`: the value of the first pair with that name. */
  function Get(q: Query, name: string): Option<string> {
    if q == [] then None
    else if q[0].0 == name then Some(q[0].1)
    else Get(q[1..], name)
  }

  /** The number of pairs named `name`. */
  function Count(q: Query, name: string): nat {
    if q == [] then 0 else (if q[0].0 == name then 1 else 0) + Count(q[1..], name)
  }

  function RemoveAll(q: Query, name: string): (r: Query)
    ensures Count(r, name) == 0 && Get(r, name) == None
    ensures forall n :: n != name ==> Get(r, n) == Get(q, n)
    ensures forall n :: n != name ==> Count(r, n) == Count(q, n)
  {
    if q == [] then []
    else if q[0].0 == name then RemoveAll(q[1..], name)
    else [q[0]] + RemoveAll(q[1..], name)
  }

  /**
   * `searchParams.set(name, value)`: the first pair named `name` takes the new value and
   * the others are removed; with no such pair, one is appended. Afterwards there is
   * exactly one pair with that name and every other name reads as before.
   */
  function Set(q: Query, name: string, value: string): (r: Query)
    ensures Get(r, name) == Some(value) && Count(r, name) == 1
    ensures forall n :: n != name ==> Get(r, n) == Get(q, n)
    ensures forall n :: n != name ==> Count(r, n) == Count(q, n)
  {
    if q == [] then [(name, value)]
    else if q[0].0 == name then [(name, value)] + RemoveAll(q[1..], name)
    else [q[0]] + Set(q[1..], name, value)
  }

  /** A sequence of `set` calls, in order. */
  function SetAll(q: Query, pairs: Query): Query
    decreases |pairs|
  {
    if pairs == [] then q else SetAll(Set(q, pairs[0].0, pairs[0].1), pairs[1..])
  }

  predicate DistinctNames(pairs: Query) {
    forall i, j :: 0 <= i < j < |pairs| ==> pairs[i].0 != pairs[j].0
  }

  lemma {:induction false} SetAllKeepsOthers(q: Query, pairs: Query, name: string)
    requires forall j :: 0 <= j < |pairs| ==> pairs[j].0 != name
    ensures Get(SetAll(q, pairs), name) == Get(q, name)
    decreases |pairs|
  {
    if pairs != [] {
      SetAllKeepsOthers(Set(q, pairs[0].0, pairs[0].1), pairs[1..], name);
    }
  }

  lemma {:induction false} SetAllSetsOne(q: Query, pairs: Query, j: nat)
    requires DistinctNames(pairs) && j < |pairs|
    ensures Get(SetAll(q, pairs), pairs[j].0) == Some(pairs[j].1)
    decreases |pairs|
  {
    var q' := Set(q, pairs[0].0, pairs[0].1);
    if j == 0 {
      SetAllKeepsOthers(q', pairs[1..], pairs[0].0);
    } else {
      SetAllSetsOne(q', pairs[1..], j - 1);
    }
  }

  lemma {:induction false} SetAllKeepsCount(q: Query, pairs: Query, name: string)
    requires forall j :: 0 <= j < |pairs| ==> pairs[j].0 != name
    ensures Count(SetAll(q, pairs), name) == Count(q, name)
    decreases |pairs|
  {
    if pairs != [] {
      SetAllKeepsCount(Set(q, pairs[0].0, pairs[0].1), pairs[1..], name);
    }
  }

  /** After a series of `set` calls with distinct names, each name set occurs exactly once. */
  lemma {:induction false} SetAllCountsOne(q: Query, pairs: Query)
    requires DistinctNames(pairs)
    ensures forall j :: 0 <= j < |pairs| ==> Count(SetAll(q, pairs), pairs[j].0) == 1
    decreases |pairs|
  {
    if pairs != [] {
      var q' := Set(q, pairs[0].0, pairs[0].1);
      SetAllKeepsCount(q', pairs[1..], pairs[0].0);
      SetAllCountsOne(q', pairs[1..]);
      assert forall j :: 1 <= j < |pairs| ==> pairs[j].0 == pairs[1..][j - 1].0;
    }
  }

  /** In a list with distinct names, each name reads as its own value. */
  lemma {:induction false} GetDistinct(q: Query, j: nat)
    requires DistinctNames(q) && j < |q|
    ensures Get(q, q[j].0) == Some(q[j].1)
  {
    if j > 0 {
      GetDistinct(q[1..], j - 1);
    }
  }

  lemma {:induction false} GetAbsent(q: Query, name: string)
    requires forall j :: 0 <= j < |q| ==> q[j].0 != name
    ensures Get(q, name) == None
  {
    if q != [] {
      GetAbsent(q[1..], name);
    }
  }

  /**
   * After a series of `set` calls with distinct names, every name set reads as its value
   * and every other name reads as before.
   */
  lemma SetAllReads(q: Query, pairs: Query)
    requires DistinctNames(pairs)
    ensures forall j :: 0 <= j < |pairs| ==> Get(SetAll(q, pairs), pairs[j].0) == Some(pairs[j].1)
    ensures forall n :: (forall j :: 0 <= j < |pairs| ==> pairs[j].0 != n) ==> Get(SetAll(q, pairs), n) == Get(q, n)
  {
    forall j | 0 <= j < |pairs|
      ensures Get(SetAll(q, pairs), pairs[j].0) == Some(pairs[j].1)
    {
      SetAllSetsOne(q, pairs, j);
    }
    forall n | forall j :: 0 <= j < |pairs| ==> pairs[j].0 != n
      ensures Get(SetAll(q, pairs), n) == Get(q, n)
    {
      SetAllKeepsOthers(q, pairs, n);
    }
  }

  /** A name outside the list of names set reads as before. */
  lemma SetAllKeepsUnnamed(q: Query, pairs: Query, names: seq<string>)
    requires |pairs| == |names| && forall j :: 0 <= j < |pairs| ==> pairs[j].0 == names[j]
    ensures forall n :: n !in names ==> Get(SetAll(q, pairs), n) == Get(q, n)
  {
    forall n | n !in names
      ensures Get(SetAll(q, pairs), n) == Get(q, n)
    {
      SetAllKeepsOthers(q, pairs, n);
    }
  }

  // ------------------------------------------------------------------
  // Discovery URL
  // ------------------------------------------------------------------

  const WellKnownSuffix := "/.well-known/openid-configuration"

  /** The discovery document's location: the issuer without trailing slashes, plus the well-known path. */
  function WellKnownUrl(issuerBaseUrl: string): (u: string)
    ensures |u| >= |WellKnownSuffix| && u[|u| - |WellKnownSuffix|..] == WellKnownSuffix
    ensures var base := u[..|u| - |WellKnownSuffix|]; base == [] || base[|base| - 1] != '/'
  {
    StripTrailing(issuerBaseUrl, '/') + WellKnownSuffix
  }

  /** Trailing slashes on the configured issuer do not change the discovery URL. */
  lemma WellKnownIgnoresTrailingSlashes(issuerBaseUrl: string, k: nat)
    ensures WellKnownUrl(issuerBaseUrl + Repeat('/', k)) == WellKnownUrl(issuerBaseUrl)
  {
    var r := StripTrailing(issuerBaseUrl, '/');
    var tail := issuerBaseUrl[|r|..] + Repeat('/', k);
    assert issuerBaseUrl + Repeat('/', k) == r + tail;
    StripTrailingOfClean(r, tail, '/');
  }

  // ------------------------------------------------------------------
  // Authorization request (/login)
  // ------------------------------------------------------------------

  /** The names `/login` sets on the authorization endpoint's query, in order. */
  const AuthParamNames: seq<string> :=
    ["client_id", "redirect_uri", "response_type", "scope", "state", "nonce",
     "code_challenge", "code_challenge_method", "prompt", "max_age"]

  /** No name is set twice. */
  lemma AuthParamNamesDistinct()
    ensures forall i, j :: 0 <= i < j < |AuthParamNames| ==> AuthParamNames[i] != AuthParamNames[j]
  {
  }

  /** The ten `set` calls of `/login`, in order, named as AuthParamNames lists them. */
  function AuthPairs(clientId: string, redirectUri: string, scopes: string,
                     state: string, nonce: string, codeChallenge: string): (pairs: Query)
    ensures |pairs| == |AuthParamNames|
    ensures forall j :: 0 <= j < |pairs| ==> pairs[j].0 == AuthParamNames[j]
  {
    [("client_id", clientId), ("redirect_uri", redirectUri), ("response_type", "code"),
     ("scope", scopes), ("state", state), ("nonce", nonce),
     ("code_challenge", codeChallenge), ("code_challenge_method", "S256"),
     ("prompt", "login"), ("max_age", "0")]
  }

  /**
   * The authorization URL: the endpoint with the ten parameters set. Every one of them
   * reads as given (re-authentication forced by `prompt=login` and `max_age=0`), and any
   * other parameter the endpoint already carried is kept.
   */
  function AuthorizationUrl(endpoint: Url, clientId: string, redirectUri: string, scopes: string,
                            state: string, nonce: string, codeChallenge: string): (u: Url)
    ensures u.base == endpoint.base
    ensures Get(u.query, "client_id") == Some(clientId)
    ensures Get(u.query, "redirect_uri") == Some(redirectUri)
    ensures Get(u.query, "response_type") == Some("code")
    ensures Get(u.query, "scope") == Some(scopes)
    ensures Get(u.query, "state") == Some(state)
    ensures Get(u.query, "nonce") == Some(nonce)
    ensures Get(u.query, "code_challenge") == Some(codeChallenge)
    ensures Get(u.query, "code_challenge_method") == Some("S256")
    ensures Get(u.query, "prompt") == Some("login")
    ensures Get(u.query, "max_age") == Some("0")
    ensures forall n :: n !in AuthParamNames ==> Get(u.query, n) == Get(endpoint.query, n)
  {
    var pairs := AuthPairs(clientId, redirectUri, scopes, state, nonce, codeChallenge);
    AuthParamNamesDistinct();
    assert DistinctNames(pairs);
    var q := endpoint.query;
    SetAllSetsOne(q, pairs, 0); SetAllSetsOne(q, pairs, 1); SetAllSetsOne(q, pairs, 2);
    SetAllSetsOne(q, pairs, 3); SetAllSetsOne(q, pairs, 4); SetAllSetsOne(q, pairs, 5);
    SetAllSetsOne(q, pairs, 6); SetAllSetsOne(q, pairs, 7); SetAllSetsOne(q, pairs, 8);
    SetAllSetsOne(q, pairs, 9);
    SetAllKeepsUnnamed(q, pairs, AuthParamNames);
    Url(endpoint.base, SetAll(endpoint.query, pairs))
  }

  /** Each of the ten parameters occurs exactly once in the authorization URL, as `set` leaves it. */
  lemma AuthorizationUrlSetsOnce(endpoint: Url, clientId: string, redirectUri: string, scopes: string,
                                 state: string, nonce: string, codeChallenge: string)
    ensures var u := AuthorizationUrl(endpoint, clientId, redirectUri, scopes, state, nonce, codeChallenge);
      forall j :: 0 <= j < |AuthParamNames| ==> Count(u.query, AuthParamNames[j]) == 1
  {
    var pairs := AuthPairs(clientId, redirectUri, scopes, state, nonce, codeChallenge);
    AuthParamNamesDistinct();
    SetAllCountsOne(endpoint.query, pairs);
  }

  // ------------------------------------------------------------------
  // Token request (/callback)
  // ------------------------------------------------------------------

  /** A JavaScript string value that is defined and non-empty (truthy). */
  predicate Present(v: Option<string>) {
    v.Some? && v.value != ""
  }

  /** Setting a name the list does not hold appends one pair at the end. */
  lemma {:induction false} SetAbsentAppends(q: Query, name: string, value: string)
    requires forall j :: 0 <= j < |q| ==> q[j].0 != name
    ensures Set(q, name, value) == q + [(name, value)]
  {
    if q != [] {
      SetAbsentAppends(q[1..], name, value);
      assert q == [q[0]] + q[1..];
    }
  }

  /** The names the token request may carry. */
  const TokenFieldNames: set<string> :=
    {"grant_type", "code", "redirect_uri", "client_id", "code_verifier", "client_secret"}

  /**
   * The form body of the token request: the five fields of the object literal, in
   * order, and `client_secret` only when one is configured. An absent verifier is
   * stringified by URLSearchParams as "undefined". The form holds no other field, and
   * its length shows that none of its fields appears twice.
   */
  function TokenRequestBody(code: string, redirectUri: string, clientId: string,
                            codeVerifier: Option<string>, clientSecret: Option<string>): (q: Query)
    ensures Get(q, "grant_type") == Some("authorization_code")
    ensures Get(q, "code") == Some(code)
    ensures Get(q, "redirect_uri") == Some(redirectUri)
    ensures Get(q, "client_id") == Some(clientId)
    ensures Get(q, "code_verifier") == Some(codeVerifier.GetOr("undefined"))
    ensures Get(q, "client_secret") == if Present(clientSecret) then clientSecret else None
    ensures |q| == if Present(clientSecret) then 6 else 5
    ensures forall n :: n !in TokenFieldNames ==> Get(q, n) == None
  {
    var fields := [("grant_type", "authorization_code"), ("code", code), ("redirect_uri", redirectUri),
                   ("client_id", clientId), ("code_verifier", codeVerifier.GetOr("undefined"))];
    GetDistinct(fields, 0);
    GetDistinct(fields, 1);
    GetDistinct(fields, 2);
    GetDistinct(fields, 3);
    GetDistinct(fields, 4);
    GetAbsent(fields, "client_secret");
    assert forall n :: n !in TokenFieldNames ==> Get(fields, n) == None by {
      forall n | n !in TokenFieldNames {
        GetAbsent(fields, n);
      }
    }
    if Present(clientSecret) then
      SetAbsentAppends(fields, "client_secret", clientSecret.value);
      Set(fields, "client_secret", clientSecret.value)
    else fields
  }

  // ------------------------------------------------------------------
  // Callback gate, nonce check and session record
  // ------------------------------------------------------------------

  datatype GateOutcome = GateRejected(message: string) | GatePassed(code: string)

  /**
   * The first two checks of `/callback`: a missing or empty code, or a missing, empty or
   * different state, is rejected (the code is checked first).
   */
  function CallbackGate(code: Option<string>, state: Option<string>, storedState: Option<string>): (g: GateOutcome)
    ensures g.GatePassed? <==> Present(code) && Present(state) && state == storedState
    ensures g.GatePassed? ==> g.code == code.value
    ensures !Present(code) ==> g == GateRejected("Kein Code in Callback.")
    ensures Present(code) && g.GateRejected? ==> g == GateRejected("Ungültiger State.")
  {
    if !Present(code) then GateRejected("Kein Code in Callback.")
    else if !Present(state) || state != storedState then GateRejected("Ungültiger State.")
    else GatePassed(code.value)
  }

  /** Once the pending state is gone, no callback passes the gate, whatever it carries. */
  lemma NoGateWithoutPendingState(code: Option<string>, state: Option<string>)
    ensures CallbackGate(code, state, None).GateRejected?
  {
  }

  /** `payload.nonce !== nonce`, negated: strict equality of the claim with the stored value. */
  predicate NonceMatches(payload: map<string, Json>, storedNonce: Option<string>) {
    match storedNonce
    case Some(n) => "nonce" in payload && payload["nonce"] == JStr(n)
    case None => "nonce" !in payload
  }

  /** With a nonce stored, a payload without the claim or with any other value is refused. */
  lemma NonceMismatchRejected(payload: map<string, Json>, storedNonce: string)
    requires "nonce" !in payload || payload["nonce"] != JStr(storedNonce)
    ensures !NonceMatches(payload, Some(storedNonce))
  {
  }

  /** `tokens.id_token` when it is truthy. */
  function IdTokenOf(tokens: map<string, Json>): (r: Option<Json>)
    ensures r.Some? <==> "id_token" in tokens && Truthy(tokens["id_token"])
    ensures r.Some? ==> r.value == tokens["id_token"]
  {
    if "id_token" in tokens && Truthy(tokens["id_token"]) then Some(tokens["id_token"]) else None
  }

  /** `req.session.user`: the verified claims, the token response without `id_token`, and the raw ID token. */
  datatype SessionUser = SessionUser(claims: map<string, Json>, tokens: map<string, Json>, idToken: string)

  /** `const { id_token, ...restTokens } = tokens` and the record built from it. */
  function Materialize(payload: map<string, Json>, tokens: map<string, Json>, idToken: string): (u: SessionUser)
    ensures u.claims == payload && u.idToken == idToken
    ensures "id_token" !in u.tokens
    ensures u.tokens.Keys == tokens.Keys - {"id_token"}
    ensures forall k :: k in u.tokens ==> u.tokens[k] == tokens[k]
  {
    SessionUser(payload, tokens - {"id_token"}, idToken)
  }

  // ------------------------------------------------------------------
  // Provider logout URL
  // ------------------------------------------------------------------

  /**
   * The end-session URL returned by `/logout`: `id_token_hint` is set only for a
   * non-empty hint, `post_logout_redirect_uri` always, everything else is kept.
   */
  function LogoutUrl(endpoint: Url, idTokenHint: Option<string>, frontendOrigin: string): (u: Url)
    ensures u.base == endpoint.base
    ensures Get(u.query, "post_logout_redirect_uri") == Some(frontendOrigin + "/")
    ensures Get(u.query, "id_token_hint") ==
      if Present(idTokenHint) then idTokenHint else Get(endpoint.query, "id_token_hint")
    ensures forall n :: n != "id_token_hint" && n != "post_logout_redirect_uri" ==>
      Get(u.query, n) == Get(endpoint.query, n)
  {
    var q := if Present(idTokenHint) then Set(endpoint.query, "id_token_hint", idTokenHint.value) else endpoint.query;
    Url(endpoint.base, Set(q, "post_logout_redirect_uri", frontendOrigin + "/"))
  }
}
