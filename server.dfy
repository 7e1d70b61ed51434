/**
 * The request handlers of server.js over the state they share: the cached discovery
 * document, the per-subject board stores and, per browser, the session. Each handler is
 * one atomic method; the network, the identity provider's answers, the random bytes and
 * the hash functions are inputs.
 */
module Server {
  import opened Common
  import opened JsValue
  import opened Oidc
  import opened DeviceAuth
  import opened Board

  /** The environment the server reads at start-up. */
  datatype Config = Config(
    clientId: string,
    clientSecret: Option<string>,
    redirectUri: string,
    scopes: string,
    frontendOrigin: string,
    issuerBaseUrl: string,
    deviceApiKeys: string,
    boardUserSub: string)

  /** The fields of the discovery document the handlers destructure; `None` is a missing one. */
  datatype OidcMeta = OidcMeta(
    authorizationEndpoint: Option<Url>,
    tokenEndpoint: Option<string>,
    issuer: Option<string>,
    jwksUri: Option<string>,
    endSessionEndpoint: Option<Url>)

  /** What `fetch(wellKnown)` followed by `r.json()` yields. */
  datatype DiscoveryResponse =
    | DiscoveryOk(meta: OidcMeta)
    | DiscoveryHttpError(status: int, text: string)
    | DiscoveryNotJson
    | DiscoveryUnreachable

  /** Why `getOidcMeta` threw. */
  datatype DiscoveryError = DiscoveryFailed(status: int, text: string) | FetchFailed

  /** What the token endpoint POST followed by `tokenRes.json()` yields. */
  datatype TokenResponse =
    | TokenOk(fields: map<string, Json>)
    | TokenHttpError(status: int, text: string)
    | TokenNotJson
    | TokenUnreachable

  /** The outcome of `jwt.verify` for the token and options it is given. */
  datatype VerifyResult = Verified(payload: map<string, Json>) | VerifyFailed(reason: string)

  /** The algorithms `/callback` allows for the ID token. */
  const Algorithms: seq<string> := ["RS256", "PS256", "ES256"]

  /** The effects of a handler in order: the deletion of the pending fields and each outgoing call. */
  datatype Step =
    | ClearPending
    | FetchDiscovery(url: string)
    | PostToken(endpoint: string, form: Query)
    | VerifyIdToken(token: string, jwksUri: Option<string>, audience: string, issuer: Option<string>, algorithms: seq<string>)

  /** The JSON document `/device/snapshot` sends and hashes. */
  datatype Payload = Payload(date: string, people: seq<Person>, statuses: seq<string>, ts: int)

  datatype Body =
    | Text(text: string)
    | ErrorJson(error: string)
    | Redirect(url: Url)
    | RedirectTo(location: string)
    | LogoutJson(ok: bool, providerLogout: Option<Url>, appRedirect: string)
    | PeopleJson(people: seq<Person>)
    | SavedJson(people: seq<Person>)
    | EventsJson(events: Events)
    | SnapshotJson(payload: Payload)
    | Empty

  /** A response: status, `ETag` header, body, and whether `Cache-Control: no-cache` is set. */
  datatype Response = Response(status: int, etag: Option<string>, body: Body, noCache: bool := false)

  const NotLoggedIn := Response(401, None, ErrorJson("Nicht eingeloggt"))
  const BadSlot := Response(400, None, ErrorJson("slot muss 1, 2 oder 3 sein"))
  const MissingFields := Response(400, None, ErrorJson("date und status sind Pflichtfelder."))
  const CallbackFailed := Response(500, None, Text("Callback fehlgeschlagen."))

  /** The discovery document a call of `getOidcMeta` ends up with, if any. */
  function Discovered(cache: Option<OidcMeta>, resp: DiscoveryResponse): (m: Option<OidcMeta>)
    ensures cache.Some? ==> m == cache
    ensures cache.None? ==> (m.Some? <==> resp.DiscoveryOk?)
    ensures cache.None? && resp.DiscoveryOk? ==> m == Some(resp.meta)
  {
    if cache.Some? then cache else if resp.DiscoveryOk? then Some(resp.meta) else None
  }

  /**
   * The store table after a lookup for `key`: a subject seen for the first time gets a
   * fresh store, an existing store and every other subject's store stay as they were.
   */
  function WithStore(stores: map<Json, Store>, key: Json): (r: map<Json, Store>)
    ensures r.Keys == stores.Keys + {key}
    ensures key in stores ==> r == stores
    ensures key !in stores ==> r[key] == NewStore()
    ensures forall k :: k in stores ==> r[k] == stores[k]
  {
    if key in stores then stores else stores[key := NewStore()]
  }

  /** `toBase64Url` over the standard base64 text of some bytes. */
  function Encode(base64: seq<Byte> -> string, bytes: seq<Byte>): string {
    ToBase64Url(base64(bytes))
  }

  /** One browser's session record. */
  class Session {
    var oidcState: Option<string>
    var oidcNonce: Option<string>
    var codeVerifier: Option<string>
    var user: Option<SessionUser>

    constructor ()
      ensures oidcState.None? && oidcNonce.None? && codeVerifier.None? && user.None?
    {
      oidcState, oidcNonce, codeVerifier, user := None, None, None, None;
    }

    /** `req.session.user?.id_token`. */
    function IdTokenHint(): (h: Option<string>)
      reads this
      ensures h.Some? <==> user.Some?
      ensures h.Some? ==> h.value == user.value.idToken
    {
      if user.Some? then Some(user.value.idToken) else None
    }
  }

  class Server {
    const config: Config
    const deviceKeys: seq<string>
    var oidcMeta: Option<OidcMeta>
    var userStores: map<Json, Store>

    /** Every store is well formed. */
    ghost predicate Valid()
      reads this
    {
      forall k :: k in userStores ==> WellFormed(userStores[k])
    }

    /** The allow-list is parsed once, at start-up; the cache and the table start empty. */
    constructor (config: Config)
      ensures Valid()
      ensures this.config == config && deviceKeys == ParseDeviceKeys(config.deviceApiKeys)
      ensures oidcMeta.None? && userStores == map[]
    {
      this.config := config;
      deviceKeys := ParseDeviceKeys(config.deviceApiKeys);
      oidcMeta := None;
      userStores := map[];
    }

    // ----------------------------------------------------------------
    // Discovery
    // ----------------------------------------------------------------

    /**
     * `getOidcMeta`: a cached document is returned without a request; otherwise the
     * well-known URL is fetched, and only a successful answer is cached.
     */
    method GetOidcMeta(resp: DiscoveryResponse) returns (r: Result<OidcMeta, DiscoveryError>, steps: seq<Step>)
      modifies this
      ensures userStores == old(userStores)
      ensures old(oidcMeta).Some? ==> r == Ok(old(oidcMeta).value) && steps == [] && oidcMeta == old(oidcMeta)
      ensures old(oidcMeta).None? ==> steps == [FetchDiscovery(WellKnownUrl(config.issuerBaseUrl))]
      ensures old(oidcMeta).None? && !resp.DiscoveryOk? ==> r.Err? && oidcMeta.None?
      ensures r.Ok? <==> Discovered(old(oidcMeta), resp).Some?
      ensures r.Ok? ==> oidcMeta == Some(r.value)
      ensures oidcMeta == Discovered(old(oidcMeta), resp)
    {
      if oidcMeta.Some? {
        return Ok(oidcMeta.value), [];
      }
      steps := [FetchDiscovery(WellKnownUrl(config.issuerBaseUrl))];
      match resp
      case DiscoveryHttpError(status, text) =>
        r := Err(DiscoveryFailed(status, text));
      case DiscoveryNotJson =>
        r := Err(FetchFailed);
      case DiscoveryUnreachable =>
        r := Err(FetchFailed);
      case DiscoveryOk(meta) =>
        oidcMeta := Some(meta);
        r := Ok(meta);
    }

    // ----------------------------------------------------------------
    // Store lookup
    // ----------------------------------------------------------------

    /**
     * `ensureStoreFor`: without a logged-in user nothing is created and the caller
     * answers 401; otherwise the subject's store exists afterwards.
     */
    method EnsureStoreFor(session: Session) returns (key: Option<Json>)
      requires Valid()
      modifies this
      ensures Valid() && oidcMeta == old(oidcMeta)
      ensures session.user.None? ==> key.None? && userStores == old(userStores)
      ensures session.user.Some? ==> key == Some(SubjectKey(session.user.value.claims))
      ensures key.Some? ==> userStores == WithStore(old(userStores), key.value)
    {
      if session.user.None? {
        return None;
      }
      var sub := SubjectKey(session.user.value.claims);
      NewStoreWellFormed();
      userStores := WithStore(userStores, sub);
      key := Some(sub);
    }

    /** `getBoardStore`: the store of `BOARD_USER_SUB` (or `anon`), created on first use. */
    method GetBoardStore() returns (key: Json)
      requires Valid()
      modifies this
      ensures Valid() && oidcMeta == old(oidcMeta)
      ensures key == BoardKey(config.boardUserSub)
      ensures userStores == WithStore(old(userStores), key)
    {
      key := BoardKey(config.boardUserSub);
      NewStoreWellFormed();
      userStores := WithStore(userStores, key);
    }

    // ----------------------------------------------------------------
    // /login
    // ----------------------------------------------------------------

    /**
     * `GET /login`. After discovery the PKCE verifier and challenge, the state and the
     * nonce are derived from the random bytes, the three pending values are parked in
     * the session, and only then is the authorization endpoint parsed.
     */
    method Login(session: Session, disc: DiscoveryResponse,
                 verifierBytes: seq<Byte>, stateBytes: seq<Byte>, nonceBytes: seq<Byte>,
                 base64: seq<Byte> -> string, sha256: string -> seq<Byte>)
      returns (resp: Response, steps: seq<Step>)
      requires Valid()
      requires |verifierBytes| == 32 && |stateBytes| == 16 && |nonceBytes| == 16
      modifies this, session
      ensures Valid() && userStores == old(userStores)
      ensures session.user == old(session.user)
      ensures oidcMeta == Discovered(old(oidcMeta), disc)
      ensures steps == (if old(oidcMeta).None? then [FetchDiscovery(WellKnownUrl(config.issuerBaseUrl))] else [])
      ensures var m := Discovered(old(oidcMeta), disc);
        m.None? ==>
          resp == Response(500, None, Text("Login konnte nicht gestartet werden.")) &&
          session.oidcState == old(session.oidcState) && session.oidcNonce == old(session.oidcNonce) &&
          session.codeVerifier == old(session.codeVerifier)
      ensures var m := Discovered(old(oidcMeta), disc);
        var verifier := Encode(base64, verifierBytes);
        var state := Encode(base64, stateBytes);
        var nonce := Encode(base64, nonceBytes);
        m.Some? ==>
          && session.oidcState == Some(state) && session.oidcNonce == Some(nonce)
          && session.codeVerifier == Some(verifier)
          && (m.value.authorizationEndpoint.None? ==>
                resp == Response(500, None, Text("Login konnte nicht gestartet werden.")))
          && (m.value.authorizationEndpoint.Some? ==>
                resp == Response(302, None, Redirect(AuthorizationUrl(
                  m.value.authorizationEndpoint.value, config.clientId, config.redirectUri, config.scopes,
                  state, nonce, ToBase64Url(base64(sha256(verifier)))))))
    {
      var meta;
      meta, steps := GetOidcMeta(disc);
      if meta.Err? {
        return Response(500, None, Text("Login konnte nicht gestartet werden.")), steps;
      }
      var codeVerifier := ToBase64Url(base64(verifierBytes));
      var codeChallenge := ToBase64Url(base64(sha256(codeVerifier)));
      var state := ToBase64Url(base64(stateBytes));
      var nonce := ToBase64Url(base64(nonceBytes));

      session.oidcState := Some(state);
      session.oidcNonce := Some(nonce);
      session.codeVerifier := Some(codeVerifier);

      match meta.value.authorizationEndpoint
      case None =>
        resp := Response(500, None, Text("Login konnte nicht gestartet werden."));
      case Some(endpoint) =>
        var url := AuthorizationUrl(endpoint, config.clientId, config.redirectUri, config.scopes,
                                    state, nonce, codeChallenge);
        resp := Response(302, None, Redirect(url));
    }

    // ----------------------------------------------------------------
    // /callback
    // ----------------------------------------------------------------

    /**
     * `GET /callback`. The gate runs on the session as it is; once it passes, the three
     * pending values are deleted before any outgoing call, so they are gone whatever
     * happens next. The user is stored only after a verified ID token whose nonce is the
     * one parked at login.
     */
    method Callback(session: Session, code: Option<string>, state: Option<string>,
                    disc: DiscoveryResponse, tokenResp: TokenResponse, verify: VerifyResult)
      returns (resp: Response, steps: seq<Step>)
      requires Valid()
      modifies this, session
      ensures Valid() && userStores == old(userStores)
      ensures var g := CallbackGate(code, state, old(session.oidcState));
        g.GateRejected? ==>
          resp == Response(400, None, Text(g.message)) && steps == [] &&
          oidcMeta == old(oidcMeta) && unchanged(session)
      ensures CallbackGate(code, state, old(session.oidcState)).GatePassed? ==>
        && oidcMeta == Discovered(old(oidcMeta), disc)
        && session.oidcState.None? && session.oidcNonce.None? && session.codeVerifier.None?
        && steps != [] && steps[0] == ClearPending
        && StepsFollow(steps[1..], TokenRequestBody(code.value, config.redirectUri, config.clientId,
                                                    old(session.codeVerifier), config.clientSecret), config.clientId)
        && steps == [ClearPending] + ExchangeSteps(old(oidcMeta), disc, config.issuerBaseUrl, config.clientId,
                                                   TokenRequestBody(code.value, config.redirectUri, config.clientId,
                                                                    old(session.codeVerifier), config.clientSecret),
                                                   tokenResp)
        && ExchangeOutcome(Discovered(old(oidcMeta), disc), tokenResp, verify, old(session.oidcNonce), resp)
      ensures resp.status == 302 <==>
        && CallbackGate(code, state, old(session.oidcState)).GatePassed?
        && ExchangeSucceeds(Discovered(old(oidcMeta), disc), tokenResp, verify, old(session.oidcNonce))
      ensures resp.status == 302 ==>
        && resp == Response(302, None, RedirectTo(config.frontendOrigin + "/"))
        && session.user == Some(Materialize(verify.payload, tokenResp.fields, IdTokenOf(tokenResp.fields).value.s))
      ensures resp.status != 302 ==> session.user == old(session.user)
    {
      var gate := CallbackGate(code, state, session.oidcState);
      if gate.GateRejected? {
        return Response(400, None, Text(gate.message)), [];
      }
      var codeVerifier := session.codeVerifier;
      var nonce := session.oidcNonce;
      session.oidcState, session.codeVerifier, session.oidcNonce := None, None, None;
      var rest;
      resp, rest := Exchange(session, gate.code, codeVerifier, nonce, disc, tokenResp, verify);
      steps := [ClearPending] + rest;
    }

    /** The part of `/callback` after the gate: discovery, the token request, and the ID token. */
    method Exchange(session: Session, code: string, codeVerifier: Option<string>, nonce: Option<string>,
                    disc: DiscoveryResponse, tokenResp: TokenResponse, verify: VerifyResult)
      returns (resp: Response, steps: seq<Step>)
      requires Valid()
      modifies this, session
      ensures Valid() && userStores == old(userStores)
      ensures session.oidcState == old(session.oidcState) && session.oidcNonce == old(session.oidcNonce)
      ensures session.codeVerifier == old(session.codeVerifier)
      ensures oidcMeta == Discovered(old(oidcMeta), disc)
      ensures StepsFollow(steps, TokenRequestBody(code, config.redirectUri, config.clientId, codeVerifier, config.clientSecret),
                          config.clientId)
      ensures var m := Discovered(old(oidcMeta), disc);
        var fetch := if old(oidcMeta).None? then [FetchDiscovery(WellKnownUrl(config.issuerBaseUrl))] else [];
        steps == fetch + if m.Some? && m.value.tokenEndpoint.Some?
          then RedeemSteps(TokenRequestBody(code, config.redirectUri, config.clientId, codeVerifier, config.clientSecret),
                           m.value.tokenEndpoint.value, tokenResp, m.value, config.clientId)
          else []
      ensures ExchangeOutcome(Discovered(old(oidcMeta), disc), tokenResp, verify, nonce, resp)
      ensures resp.status == 302 <==> ExchangeSucceeds(Discovered(old(oidcMeta), disc), tokenResp, verify, nonce)
      ensures resp.status == 302 ==>
        && resp == Response(302, None, RedirectTo(config.frontendOrigin + "/"))
        && session.user == Some(Materialize(verify.payload, tokenResp.fields, IdTokenOf(tokenResp.fields).value.s))
      ensures resp.status != 302 ==> session.user == old(session.user)
    {
      var form := TokenRequestBody(code, config.redirectUri, config.clientId, codeVerifier, config.clientSecret);
      var meta, fetched := GetOidcMeta(disc);
      steps := fetched;
      if meta.Err? || meta.value.tokenEndpoint.None? {
        return CallbackFailed, steps;
      }
      var redeemed;
      resp, redeemed := RedeemCode(session, form, meta.value.tokenEndpoint.value, tokenResp, verify, nonce, meta.value);
      StepsFollowConcat(steps, redeemed, form, config.clientId);
      steps := steps + redeemed;
      assert Discovered(old(oidcMeta), disc) == Some(meta.value);
    }

    /**
     * The token request to the discovered endpoint and what follows from its answer: an
     * HTTP error gives 502, an unreadable or missing answer gives 500, and JSON goes on to
     * the ID token checks.
     */
    method RedeemCode(session: Session, form: Query, tokenEndpoint: string, tokenResp: TokenResponse,
                      verify: VerifyResult, nonce: Option<string>, meta: OidcMeta)
      returns (resp: Response, steps: seq<Step>)
      modifies session
      ensures session.oidcState == old(session.oidcState) && session.oidcNonce == old(session.oidcNonce)
      ensures session.codeVerifier == old(session.codeVerifier)
      ensures steps != [] && steps[0] == PostToken(tokenEndpoint, form)
      ensures StepsFollow(steps, form, config.clientId)
      ensures steps == RedeemSteps(form, tokenEndpoint, tokenResp, meta, config.clientId)
      ensures TokenResponseOutcome(tokenResp, verify, nonce, resp)
      ensures resp.status == 302 <==> tokenResp.TokenOk? && CallbackSucceeds(tokenResp.fields, verify, nonce)
      ensures resp.status == 302 ==>
        && resp == Response(302, None, RedirectTo(config.frontendOrigin + "/"))
        && session.user == Some(Materialize(verify.payload, tokenResp.fields, IdTokenOf(tokenResp.fields).value.s))
      ensures resp.status != 302 ==> session.user == old(session.user)
    {
      steps := [PostToken(tokenEndpoint, form)];
      match tokenResp
      case TokenHttpError(_, _) =>
        resp := Response(502, None, Text("Token-Austausch fehlgeschlagen."));
      case TokenNotJson =>
        resp := CallbackFailed;
      case TokenUnreachable =>
        resp := CallbackFailed;
      case TokenOk(tokens) =>
        var checked;
        resp, checked := AcceptTokens(session, tokens, verify, nonce, meta);
        StepsFollowConcat(steps, checked, form, config.clientId);
        steps := steps + checked;
    }

    /**
     * The part of `/callback` after the token endpoint answered with JSON: the ID token
     * must be there, verify, and carry the parked nonce before the user is stored.
     */
    method AcceptTokens(session: Session, tokens: map<string, Json>, verify: VerifyResult,
                        nonce: Option<string>, meta: OidcMeta)
      returns (resp: Response, steps: seq<Step>)
      modifies session
      ensures session.oidcState == old(session.oidcState) && session.oidcNonce == old(session.oidcNonce)
      ensures session.codeVerifier == old(session.codeVerifier)
      ensures CallbackTokenOutcome(tokens, verify, nonce, resp)
      ensures resp.status == 302 <==> CallbackSucceeds(tokens, verify, nonce)
      ensures resp.status == 302 ==>
        && resp == Response(302, None, RedirectTo(config.frontendOrigin + "/"))
        && session.user == Some(Materialize(verify.payload, tokens, IdTokenOf(tokens).value.s))
      ensures resp.status != 302 ==> session.user == old(session.user)
      ensures |steps| <= 1
      ensures |steps| == 1 <==> IdTokenOf(tokens).Some? && IdTokenOf(tokens).value.JStr?
      ensures |steps| == 1 ==>
        steps[0] == VerifyIdToken(IdTokenOf(tokens).value.s, meta.jwksUri, config.clientId, meta.issuer, Algorithms)
      ensures steps == VerifySteps(tokens, meta, config.clientId)
    {
      var idToken := IdTokenOf(tokens);
      steps := [];
      if idToken.None? {
        return Response(500, None, Text("Kein ID Token erhalten.")), steps;
      }
      if !idToken.value.JStr? {
        return Response(401, None, Text("Ungültiges ID Token.")), steps;
      }
      var token := idToken.value.s;
      steps := [VerifyIdToken(token, meta.jwksUri, config.clientId, meta.issuer, Algorithms)];
      match verify
      case VerifyFailed(_) =>
        resp := Response(401, None, Text("Ungültiges ID Token."));
      case Verified(payload) =>
        if !NonceMatches(payload, nonce) {
          resp := Response(401, None, Text("Nonce stimmt nicht überein."));
        } else {
          session.user := Some(Materialize(payload, tokens, token));
          resp := Response(302, None, RedirectTo(config.frontendOrigin + "/"));
        }
    }

    // ----------------------------------------------------------------
    // /logout
    // ----------------------------------------------------------------

    /**
     * `POST /logout`: discovery failures only mean there is no provider logout; the
     * session is emptied, and the provider URL is returned next to the app's own.
     */
    method Logout(session: Session, disc: DiscoveryResponse) returns (resp: Response, steps: seq<Step>)
      requires Valid()
      modifies this, session
      ensures Valid() && userStores == old(userStores)
      ensures session.oidcState.None? && session.oidcNonce.None? && session.codeVerifier.None? && session.user.None?
      ensures oidcMeta == Discovered(old(oidcMeta), disc)
      ensures steps == (if old(oidcMeta).None? then [FetchDiscovery(WellKnownUrl(config.issuerBaseUrl))] else [])
      ensures var m := Discovered(old(oidcMeta), disc);
        var endpoint := if m.Some? then m.value.endSessionEndpoint else None;
        var hint := if old(session.user).Some? then Some(old(session.user).value.idToken) else None;
        resp == Response(200, None, LogoutJson(true,
          if endpoint.Some? then Some(LogoutUrl(endpoint.value, hint, config.frontendOrigin)) else None,
          config.frontendOrigin + "/"))
    {
      var meta;
      meta, steps := GetOidcMeta(disc);
      var endpoint := if meta.Ok? then meta.value.endSessionEndpoint else None;
      var hint := session.IdTokenHint();

      session.oidcState, session.oidcNonce, session.codeVerifier, session.user := None, None, None, None;

      var provider := if endpoint.Some? then Some(LogoutUrl(endpoint.value, hint, config.frontendOrigin)) else None;
      resp := Response(200, None, LogoutJson(true, provider, config.frontendOrigin + "/"));
    }

    // ----------------------------------------------------------------
    // /people
    // ----------------------------------------------------------------

    /** `GET /people`. */
    method GetPeople(session: Session) returns (resp: Response)
      requires Valid()
      modifies this
      ensures Valid() && oidcMeta == old(oidcMeta)
      ensures session.user.None? ==> resp == NotLoggedIn && userStores == old(userStores)
      ensures session.user.Some? ==>
        var k := SubjectKey(session.user.value.claims);
        userStores == WithStore(old(userStores), k) &&
        resp == Response(200, None, PeopleJson(userStores[k].people))
    {
      var key := EnsureStoreFor(session);
      if key.None? {
        return NotLoggedIn;
      }
      resp := Response(200, None, PeopleJson(userStores[key.value].people));
    }

    /**
     * `PUT /people/:slot`. The store is created before the slot is checked; a valid slot
     * gets the trimmed name and role of the body, and no other slot changes.
     */
    method PutPeople(session: Session, slot: Option<int>, body: PersonBody) returns (resp: Response)
      requires Valid()
      modifies this
      ensures Valid() && oidcMeta == old(oidcMeta)
      ensures session.user.None? ==> resp == NotLoggedIn && userStores == old(userStores)
      ensures session.user.Some? && !ValidSlot(slot) ==>
        resp == BadSlot && userStores == WithStore(old(userStores), SubjectKey(session.user.value.claims))
      ensures session.user.Some? && ValidSlot(slot) ==>
        var k := SubjectKey(session.user.value.claims);
        var before := WithStore(old(userStores), k);
        userStores == before[k := SetSlot(before[k], slot.value, IncomingPerson(body))] &&
        resp == Response(200, None, SavedJson(userStores[k].people))
    {
      var key := EnsureStoreFor(session);
      if key.None? {
        return NotLoggedIn;
      }
      if !ValidSlot(slot) {
        return BadSlot;
      }
      resp := WriteSlot(key.value, slot.value, IncomingPerson(body));
    }

    /** `store.people[slot - 1] = person` and the `{ ok: true, people }` answer. */
    method WriteSlot(k: Json, slot: int, person: Person) returns (resp: Response)
      requires Valid() && k in userStores && ValidSlot(Some(slot))
      modifies this
      ensures Valid() && oidcMeta == old(oidcMeta)
      ensures userStores == old(userStores)[k := SetSlot(old(userStores)[k], slot, person)]
      ensures resp == Response(200, None, SavedJson(userStores[k].people))
    {
      var store := SetSlot(userStores[k], slot, person);
      userStores := userStores[k := store];
      resp := Response(200, None, SavedJson(store.people));
    }

    /** `DELETE /people/:slot`: the slot becomes `{name: '', role: ''}`. */
    method DeletePeople(session: Session, slot: Option<int>) returns (resp: Response)
      requires Valid()
      modifies this
      ensures Valid() && oidcMeta == old(oidcMeta)
      ensures session.user.None? ==> resp == NotLoggedIn && userStores == old(userStores)
      ensures session.user.Some? && !ValidSlot(slot) ==>
        resp == BadSlot && userStores == WithStore(old(userStores), SubjectKey(session.user.value.claims))
      ensures session.user.Some? && ValidSlot(slot) ==>
        var k := SubjectKey(session.user.value.claims);
        var before := WithStore(old(userStores), k);
        userStores == before[k := SetSlot(before[k], slot.value, EmptyPerson)] &&
        resp == Response(200, None, SavedJson(userStores[k].people))
    {
      var key := EnsureStoreFor(session);
      if key.None? {
        return NotLoggedIn;
      }
      if !ValidSlot(slot) {
        return BadSlot;
      }
      resp := WriteSlot(key.value, slot.value, EmptyPerson);
    }

    // ----------------------------------------------------------------
    // /events
    // ----------------------------------------------------------------

    /** `GET /events`. */
    method GetEvents(session: Session) returns (resp: Response)
      requires Valid()
      modifies this
      ensures Valid() && oidcMeta == old(oidcMeta)
      ensures session.user.None? ==> resp == NotLoggedIn && userStores == old(userStores)
      ensures session.user.Some? ==>
        var k := SubjectKey(session.user.value.claims);
        userStores == WithStore(old(userStores), k) &&
        resp == Response(200, None, EventsJson(userStores[k].eventsByDate))
    {
      var key := EnsureStoreFor(session);
      if key.None? {
        return NotLoggedIn;
      }
      resp := Response(200, None, EventsJson(userStores[key.value].eventsByDate));
    }

    /** `POST /events`: both fields must be non-empty; the status is added once. */
    method PostEvents(session: Session, date: Option<string>, status: Option<string>) returns (resp: Response)
      requires Valid()
      modifies this
      ensures Valid() && oidcMeta == old(oidcMeta)
      ensures session.user.None? ==> resp == NotLoggedIn && userStores == old(userStores)
      ensures session.user.Some? && !(Present(date) && Present(status)) ==>
        resp == MissingFields && userStores == WithStore(old(userStores), SubjectKey(session.user.value.claims))
      ensures session.user.Some? && Present(date) && Present(status) ==>
        var k := SubjectKey(session.user.value.claims);
        var before := WithStore(old(userStores), k);
        userStores == before[k := before[k].(eventsByDate := AddStatus(before[k].eventsByDate, date.value, status.value))] &&
        resp == Response(200, None, EventsJson(userStores[k].eventsByDate))
    {
      var key := EnsureStoreFor(session);
      if key.None? {
        return NotLoggedIn;
      }
      if !(Present(date) && Present(status)) {
        return MissingFields;
      }
      var k := key.value;
      var store := userStores[k];
      AddStatusWellFormed(store.eventsByDate, date.value, status.value);
      userStores := userStores[k := store.(eventsByDate := AddStatus(store.eventsByDate, date.value, status.value))];
      resp := Response(200, None, EventsJson(userStores[k].eventsByDate));
    }

    /** `DELETE /events`: one occurrence goes, and the day with it once its list is empty. */
    method DeleteEvents(session: Session, date: Option<string>, status: Option<string>) returns (resp: Response)
      requires Valid()
      modifies this
      ensures Valid() && oidcMeta == old(oidcMeta)
      ensures session.user.None? ==> resp == NotLoggedIn && userStores == old(userStores)
      ensures session.user.Some? && !(Present(date) && Present(status)) ==>
        resp == MissingFields && userStores == WithStore(old(userStores), SubjectKey(session.user.value.claims))
      ensures session.user.Some? && Present(date) && Present(status) ==>
        var k := SubjectKey(session.user.value.claims);
        var before := WithStore(old(userStores), k);
        userStores == before[k := before[k].(eventsByDate := RemoveStatus(before[k].eventsByDate, date.value, status.value))] &&
        resp == Response(200, None, EventsJson(userStores[k].eventsByDate))
    {
      var key := EnsureStoreFor(session);
      if key.None? {
        return NotLoggedIn;
      }
      if !(Present(date) && Present(status)) {
        return MissingFields;
      }
      var k := key.value;
      var store := userStores[k];
      RemoveStatusWellFormed(store.eventsByDate, date.value, status.value);
      userStores := userStores[k := store.(eventsByDate := RemoveStatus(store.eventsByDate, date.value, status.value))];
      resp := Response(200, None, EventsJson(userStores[k].eventsByDate));
    }

    // ----------------------------------------------------------------
    // /device/snapshot
    // ----------------------------------------------------------------

    /**
     * `GET /device/snapshot` behind `requireDeviceAuth`. An unauthorised device is
     * answered 401 before any store is touched. Otherwise the payload of today's board,
     * including the current time, is hashed; a matching `If-None-Match` gets 304 without
     * a body, anything else 200 with the tag.
     */
    method DeviceSnapshot(authorization: Option<string>, ifNoneMatch: Option<string>,
                          today: string, now: int, etagFor: Payload -> string)
      returns (resp: Response)
      requires Valid()
      modifies this
      ensures Valid() && oidcMeta == old(oidcMeta)
      ensures !DeviceAuthorized(deviceKeys, authorization.GetOr("")) ==>
        resp == Response(401, None, ErrorJson("Unauthorized device")) && userStores == old(userStores)
      ensures DeviceAuthorized(deviceKeys, authorization.GetOr("")) ==>
        var k := BoardKey(config.boardUserSub);
        userStores == WithStore(old(userStores), k) &&
        var payload := Payload(today, userStores[k].people, StatusesOn(userStores[k].eventsByDate, today), now);
        var tag := etagFor(payload);
        && (NotModified(ifNoneMatch, tag) ==> resp == Response(304, None, Empty))
        && (!NotModified(ifNoneMatch, tag) ==> resp == Response(200, Some(tag), SnapshotJson(payload), true))
    {
      if !DeviceAuthorized(deviceKeys, authorization.GetOr("")) {
        return Response(401, None, ErrorJson("Unauthorized device"));
      }
      var k := GetBoardStore();
      var store := userStores[k];
      var payload := Payload(today, store.people, StatusesOn(store.eventsByDate, today), now);
      var tag := etagFor(payload);
      if NotModified(ifNoneMatch, tag) {
        return Response(304, None, Empty);
      }
      resp := Response(200, Some(tag), SnapshotJson(payload), true);
    }

    // ----------------------------------------------------------------
    // Scenarios
    // ----------------------------------------------------------------

    /** A callback replayed with the same query is refused: the first one consumed the state. */
    method ReplayedCallback(session: Session, code: Option<string>, state: Option<string>,
                            disc: DiscoveryResponse, tokenResp: TokenResponse, verify: VerifyResult,
                            disc2: DiscoveryResponse, tokenResp2: TokenResponse, verify2: VerifyResult)
      returns (first: Response, second: Response)
      requires Valid()
      modifies this, session
      ensures Valid()
      ensures second.status == 400
    {
      var steps;
      first, steps := Callback(session, code, state, disc, tokenResp, verify);
      if first.status != 400 {
        NoGateWithoutPendingState(code, state);
      }
      second, steps := Callback(session, code, state, disc2, tokenResp2, verify2);
    }

    /** Logout leaves nothing for a later callback to use, so such a callback is refused. */
    method CallbackAfterLogout(session: Session, disc: DiscoveryResponse, code: Option<string>, state: Option<string>,
                               disc2: DiscoveryResponse, tokenResp: TokenResponse, verify: VerifyResult)
      returns (resp: Response)
      requires Valid()
      modifies this, session
      ensures Valid()
      ensures resp.status == 400 && session.user.None?
    {
      var out, steps := Logout(session, disc);
      NoGateWithoutPendingState(code, state);
      resp, steps := Callback(session, code, state, disc2, tokenResp, verify);
    }
  }

  // ------------------------------------------------------------------
  // After the token response
  // ------------------------------------------------------------------

  /**
   * No step of `steps` deletes the pending fields, every token request carries `form`,
   * and every ID-token check asks for `audience` and the allowed algorithms.
   */
  predicate StepsFollow(steps: seq<Step>, form: Query, audience: string) {
    forall i :: 0 <= i < |steps| ==>
      && !steps[i].ClearPending?
      && (steps[i].PostToken? ==> steps[i].form == form)
      && (steps[i].VerifyIdToken? ==> steps[i].audience == audience && steps[i].algorithms == Algorithms)
  }

  /** The ID-token check that follows a token answer: one, when it holds a string `id_token`. */
  function VerifySteps(tokens: map<string, Json>, meta: OidcMeta, clientId: string): seq<Step> {
    var idToken := IdTokenOf(tokens);
    if idToken.Some? && idToken.value.JStr?
    then [VerifyIdToken(idToken.value.s, meta.jwksUri, clientId, meta.issuer, Algorithms)]
    else []
  }

  /** The token POST to `tokenEndpoint`, followed by the ID-token check when the answer is JSON. */
  function RedeemSteps(form: Query, tokenEndpoint: string, tokenResp: TokenResponse, meta: OidcMeta,
                       clientId: string): seq<Step> {
    [PostToken(tokenEndpoint, form)] + (if tokenResp.TokenOk? then VerifySteps(tokenResp.fields, meta, clientId) else [])
  }

  /**
   * The outgoing calls of `/callback` after the gate: discovery when nothing is cached,
   * then, with a discovered token endpoint, the token request and the ID-token check
   * against the discovered document.
   */
  function ExchangeSteps(cached: Option<OidcMeta>, disc: DiscoveryResponse, issuerBaseUrl: string,
                         clientId: string, form: Query, tokenResp: TokenResponse): seq<Step> {
    var m := Discovered(cached, disc);
    (if cached.None? then [FetchDiscovery(WellKnownUrl(issuerBaseUrl))] else [])
    + (if m.Some? && m.value.tokenEndpoint.Some?
       then RedeemSteps(form, m.value.tokenEndpoint.value, tokenResp, m.value, clientId)
       else [])
  }

  /**
   * What the exchange's calls amount to: discovery comes first and only without a cached
   * document; there is at most one token request, and it goes to the discovered token
   * endpoint; the ID token is checked right after it, against the discovered issuer and
   * key set, for the client id and the allowed algorithms.
   */
  lemma {:induction false} ExchangeStepsShape(cached: Option<OidcMeta>, disc: DiscoveryResponse, issuerBaseUrl: string,
                                              clientId: string, form: Query, tokenResp: TokenResponse)
    ensures var s := ExchangeSteps(cached, disc, issuerBaseUrl, clientId, form, tokenResp);
      var m := Discovered(cached, disc);
      && StepsFollow(s, form, clientId)
      && (forall i :: 0 <= i < |s| && s[i].FetchDiscovery? ==> i == 0 && cached.None?)
      && (forall i :: 0 <= i < |s| && s[i].PostToken? ==> m.Some? && m.value.tokenEndpoint == Some(s[i].endpoint))
      && (forall i, j :: 0 <= i < j < |s| && s[i].PostToken? ==> !s[j].PostToken?)
      && (forall i :: 0 <= i < |s| && s[i].VerifyIdToken? ==>
            && 0 < i && s[i - 1].PostToken?
            && m.Some? && s[i].issuer == m.value.issuer && s[i].jwksUri == m.value.jwksUri)
  {
    var s := ExchangeSteps(cached, disc, issuerBaseUrl, clientId, form, tokenResp);
    forall i | 0 <= i < |s|
      ensures StepFits(s, i, cached, Discovered(cached, disc), form, clientId)
    {
      ExchangeStepAt(cached, disc, issuerBaseUrl, clientId, form, tokenResp, i);
    }
    FittingSteps(s, cached, Discovered(cached, disc), form, clientId);
  }

  /**
   * Call `i` of an exchange's list fits the discovered document `m`: no deletion of the
   * pending values; discovery only first and only without a cached document; the token
   * POST in the one position after it, to the discovered endpoint with `form`; an
   * ID-token check only right after a POST, against the discovered issuer and key set.
   */
  predicate StepFits(s: seq<Step>, i: int, cached: Option<OidcMeta>, m: Option<OidcMeta>, form: Query, clientId: string)
    requires 0 <= i < |s|
  {
    && !s[i].ClearPending?
    && (s[i].FetchDiscovery? ==> i == 0 && cached.None?)
    && (s[i].PostToken? ==> i == (if cached.None? then 1 else 0) && s[i].form == form
                            && m.Some? && m.value.tokenEndpoint == Some(s[i].endpoint))
    && (s[i].VerifyIdToken? ==>
          && 0 < i && s[i - 1].PostToken?
          && m.Some? && s[i].issuer == m.value.issuer && s[i].jwksUri == m.value.jwksUri
          && s[i].audience == clientId && s[i].algorithms == Algorithms)
  }

  lemma FittingSteps(s: seq<Step>, cached: Option<OidcMeta>, m: Option<OidcMeta>, form: Query, clientId: string)
    requires forall i :: 0 <= i < |s| ==> StepFits(s, i, cached, m, form, clientId)
    ensures StepsFollow(s, form, clientId)
    ensures forall i :: 0 <= i < |s| && s[i].FetchDiscovery? ==> i == 0 && cached.None?
    ensures forall i :: 0 <= i < |s| && s[i].PostToken? ==> m.Some? && m.value.tokenEndpoint == Some(s[i].endpoint)
    ensures forall i, j :: 0 <= i < j < |s| && s[i].PostToken? ==> !s[j].PostToken?
    ensures forall i :: 0 <= i < |s| && s[i].VerifyIdToken? ==>
      && 0 < i && s[i - 1].PostToken?
      && m.Some? && s[i].issuer == m.value.issuer && s[i].jwksUri == m.value.jwksUri
  {
    forall i, j | 0 <= i < j < |s| && s[i].PostToken?
      ensures !s[j].PostToken?
    {
      assert StepFits(s, i, cached, m, form, clientId) && StepFits(s, j, cached, m, form, clientId);
    }
    forall i | 0 <= i < |s|
      ensures !s[i].ClearPending?
      ensures s[i].PostToken? ==> s[i].form == form
      ensures s[i].VerifyIdToken? ==> s[i].audience == clientId && s[i].algorithms == Algorithms
      ensures s[i].FetchDiscovery? ==> i == 0 && cached.None?
      ensures s[i].PostToken? ==> m.Some? && m.value.tokenEndpoint == Some(s[i].endpoint)
    {
      assert StepFits(s, i, cached, m, form, clientId);
    }
    forall i | 0 <= i < |s| && s[i].VerifyIdToken?
      ensures 0 < i && s[i - 1].PostToken?
      ensures m.Some? && s[i].issuer == m.value.issuer && s[i].jwksUri == m.value.jwksUri
    {
      assert StepFits(s, i, cached, m, form, clientId);
    }
  }

  /** One call of the exchange's list, by position. */
  lemma ExchangeStepAt(cached: Option<OidcMeta>, disc: DiscoveryResponse, issuerBaseUrl: string,
                       clientId: string, form: Query, tokenResp: TokenResponse, i: int)
    requires 0 <= i < |ExchangeSteps(cached, disc, issuerBaseUrl, clientId, form, tokenResp)|
    ensures StepFits(ExchangeSteps(cached, disc, issuerBaseUrl, clientId, form, tokenResp), i,
                     cached, Discovered(cached, disc), form, clientId)
  {
    var m := Discovered(cached, disc);
    var fetch: seq<Step> := if cached.None? then [FetchDiscovery(WellKnownUrl(issuerBaseUrl))] else [];
    if m.Some? && m.value.tokenEndpoint.Some? {
      var r := RedeemSteps(form, m.value.tokenEndpoint.value, tokenResp, m.value, clientId);
      RedeemStepsShape(form, m.value.tokenEndpoint.value, tokenResp, m.value, clientId);
      var s := fetch + r;
      assert s == ExchangeSteps(cached, disc, issuerBaseUrl, clientId, form, tokenResp);
      assert s[i] == if i < |fetch| then fetch[i] else r[i - |fetch|];
      if i > 0 {
        assert s[i - 1] == if i - 1 < |fetch| then fetch[i - 1] else r[i - 1 - |fetch|];
      }
    } else {
      assert ExchangeSteps(cached, disc, issuerBaseUrl, clientId, form, tokenResp) == fetch;
    }
  }

  /** The token POST comes first and is the only one; an ID-token check after it uses the document. */
  lemma RedeemStepsShape(form: Query, tokenEndpoint: string, tokenResp: TokenResponse, meta: OidcMeta, clientId: string)
    ensures var r := RedeemSteps(form, tokenEndpoint, tokenResp, meta, clientId);
      && 1 <= |r| <= 2 && r[0] == PostToken(tokenEndpoint, form)
      && (|r| == 2 ==> r[1].VerifyIdToken? && r[1].issuer == meta.issuer && r[1].jwksUri == meta.jwksUri
                       && r[1].audience == clientId && r[1].algorithms == Algorithms)
  {
  }

  lemma StepsFollowConcat(a: seq<Step>, b: seq<Step>, form: Query, audience: string)
    requires StepsFollow(a, form, audience) && StepsFollow(b, form, audience)
    ensures StepsFollow(a + b, form, audience)
  {
    forall i | 0 <= i < |a + b|
      ensures (a + b)[i] == if i < |a| then a[i] else b[i - |a|]
    {
    }
  }

  /** The discovery document, token response and verification result under which the exchange logs the user in. */
  predicate ExchangeSucceeds(m: Option<OidcMeta>, tokenResp: TokenResponse, verify: VerifyResult, storedNonce: Option<string>) {
    && m.Some? && m.value.tokenEndpoint.Some?
    && tokenResp.TokenOk? && CallbackSucceeds(tokenResp.fields, verify, storedNonce)
  }

  /** The answer of `/callback` once the gate has passed, failure by failure. */
  predicate ExchangeOutcome(m: Option<OidcMeta>, tokenResp: TokenResponse, verify: VerifyResult,
                            storedNonce: Option<string>, resp: Response) {
    && (m.None? ==> resp == CallbackFailed)
    && (m.Some? && m.value.tokenEndpoint.None? ==> resp == CallbackFailed)
    && (m.Some? && m.value.tokenEndpoint.Some? ==> TokenResponseOutcome(tokenResp, verify, storedNonce, resp))
  }

  /** The answer of `/callback` once the token endpoint has been asked, failure by failure. */
  predicate TokenResponseOutcome(tokenResp: TokenResponse, verify: VerifyResult, storedNonce: Option<string>,
                                 resp: Response) {
    && (tokenResp.TokenHttpError? ==> resp == Response(502, None, Text("Token-Austausch fehlgeschlagen.")))
    && (tokenResp.TokenNotJson? || tokenResp.TokenUnreachable? ==> resp == CallbackFailed)
    && (tokenResp.TokenOk? ==> CallbackTokenOutcome(tokenResp.fields, verify, storedNonce, resp))
  }

  /** A token response and a verification result under which `/callback` logs the user in. */
  predicate CallbackSucceeds(tokens: map<string, Json>, verify: VerifyResult, storedNonce: Option<string>) {
    && IdTokenOf(tokens).Some? && IdTokenOf(tokens).value.JStr?
    && verify.Verified? && NonceMatches(verify.payload, storedNonce)
  }

  /** The answer of `/callback` once the token endpoint has returned JSON. */
  predicate CallbackTokenOutcome(tokens: map<string, Json>, verify: VerifyResult, storedNonce: Option<string>, resp: Response) {
    && (IdTokenOf(tokens).None? ==> resp == Response(500, None, Text("Kein ID Token erhalten.")))
    && (IdTokenOf(tokens).Some? && (!IdTokenOf(tokens).value.JStr? || verify.VerifyFailed?) ==>
          resp == Response(401, None, Text("Ungültiges ID Token.")))
    && (IdTokenOf(tokens).Some? && IdTokenOf(tokens).value.JStr? && verify.Verified? &&
        !NonceMatches(verify.payload, storedNonce) ==>
          resp == Response(401, None, Text("Nonce stimmt nicht überein.")))
  }
}
