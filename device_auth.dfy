/**
 * The device gate of server.js: the allow-list parsed from `DEVICE_API_KEYS`, the
 * `Authorization: Bearer <token>` match, and the conditional-GET decision of
 * `/device/snapshot`.
 */
module DeviceAuth {
  import opened Common
  import opened Text

  // ------------------------------------------------------------------
  // DEVICE_KEYS
  // ------------------------------------------------------------------

  /** `.filter(Boolean)` on strings: keeps the non-empty ones, in order. */
  function KeepNonEmpty(parts: seq<string>): (r: seq<string>)
    ensures forall i :: 0 <= i < |r| ==> r[i] != []
    ensures forall x :: x in r <==> x in parts && x != []
  {
    if parts == [] then []
    else if parts[0] == [] then KeepNonEmpty(parts[1..])
    else [parts[0]] + KeepNonEmpty(parts[1..])
  }

  /** `.map(s => s.trim())`. */
  function TrimEach(parts: seq<string>): (r: seq<string>)
    ensures |r| == |parts| && forall i :: 0 <= i < |parts| ==> r[i] == Trim(parts[i])
  {
    seq(|parts|, i requires 0 <= i < |parts| => Trim(parts[i]))
  }

  /** `(DEVICE_API_KEYS || '').split(',').map(s => s.trim()).filter(Boolean)`. */
  function ParseDeviceKeys(env: string): (keys: seq<string>)
    ensures forall i :: 0 <= i < |keys| ==> keys[i] != ""
  {
    KeepNonEmpty(TrimEach(Split(env, ',')))
  }

  lemma TrimKeepsAbsent(s: string, c: char)
    requires c !in s
    ensures c !in Trim(s)
  {
    var r, k := Trim(s), |s| - |TrimStart(s)|;
    assert r == s[k..k + |r|];
    forall i | 0 <= i < |r|
      ensures r[i] != c
    {
      assert r[i] == s[k + i];
      assert s[k + i] in s;
    }
  }

  /** Every key on the allow-list is a trimmed segment of the variable, non-empty, without a comma. */
  lemma DeviceKeyIsTrimmedSegment(env: string, key: string)
    requires key in ParseDeviceKeys(env)
    ensures key != "" && Trim(key) == key && ',' !in key
    ensures exists seg :: seg in Split(env, ',') && Trim(seg) == key
  {
    var parts := Split(env, ',');
    var trimmed := TrimEach(parts);
    assert key in trimmed;
    var i :| 0 <= i < |trimmed| && trimmed[i] == key;
    assert parts[i] in parts;
    TrimIdempotent(parts[i]);
    TrimKeepsAbsent(parts[i], ',');
  }

  /** Every segment that is non-empty once trimmed is on the allow-list. */
  lemma TrimmedSegmentIsDeviceKey(env: string, seg: string)
    requires seg in Split(env, ',') && Trim(seg) != ""
    ensures Trim(seg) in ParseDeviceKeys(env)
  {
    var parts := Split(env, ',');
    var i :| 0 <= i < |parts| && parts[i] == seg;
    assert TrimEach(parts)[i] == Trim(seg);
  }

  // ------------------------------------------------------------------
  // Bearer match: auth.match(/^Bearer\s+(.+)$/i)
  // ------------------------------------------------------------------

  /**
   * `auth` is `Bearer` (letters in any case), then whitespace up to index `i`, then a
   * non-empty token from `i` to the end in which `.` matches every character.
   */
  predicate BearerSplitAt(auth: string, i: int) {
    && 7 <= i < |auth|
    && StartsWithIgnoreCase(auth, "bearer")
    && AllSpace(auth[6..i])
    && NoLineTerminator(auth[i..])
  }

  /**
   * The captured group of the regular expression, with its backtracking made explicit:
   * `\s+` first takes the whole whitespace run; if nothing is left for `(.+)` it gives
   * back one character.
   */
  function BearerToken(auth: string): (t: Option<string>)
    ensures t.Some? ==> StartsWithIgnoreCase(auth, "bearer") && t.value != "" && |t.value| < |auth| - 6
  {
    if !StartsWithIgnoreCase(auth, "bearer") then None
    else
      var rest := auth[6..];
      var k := |rest| - |TrimStart(rest)|;
      if k == 0 then None
      else if k < |rest| then (if NoLineTerminator(rest[k..]) then Some(rest[k..]) else None)
      else if k >= 2 && !IsLineTerminator(rest[k - 1]) then Some(rest[k - 1..])
      else None
  }

  /** Every captured token is a suffix at which the header splits as the pattern demands. */
  lemma BearerTokenSound(auth: string)
    requires BearerToken(auth).Some?
    ensures var t := BearerToken(auth).value;
      t != "" && t == auth[|auth| - |t|..] && BearerSplitAt(auth, |auth| - |t|)
  {
    var t := BearerToken(auth).value;
    var rest := auth[6..];
    var k := |rest| - |TrimStart(rest)|;
    assert AllSpace(rest[..k]);
    if k < |rest| {
      assert t == rest[k..];
      assert auth[6 + k..] == t;
      assert auth[6..6 + k] == rest[..k];
    } else {
      assert t == rest[k - 1..];
      assert auth[6 + k - 1..] == t;
      assert auth[6..6 + k - 1] == rest[..k - 1];
      var pre, all := rest[..k - 1], rest[..k];
      forall j | 0 <= j < |pre|
        ensures IsJsSpace(pre[j])
      {
        assert pre[j] == all[j];
      }
    }
  }

  /**
   * Whenever the header matches the pattern at some split, a token is captured, and it
   * is the shortest one: the whitespace run is taken greedily.
   */
  lemma BearerTokenComplete(auth: string, i: int)
    requires BearerSplitAt(auth, i)
    ensures BearerToken(auth).Some?
    ensures |auth| - |BearerToken(auth).value| >= i
  {
    var rest, tail := auth[6..], auth[i..];
    assert rest[..i - 6] == auth[6..i];
    TrimStartPastSpaces(rest, i - 6);
    var k := |rest| - |TrimStart(rest)|;
    if k < |rest| {
      var t := rest[k..];
      assert t == tail[6 + k - i..];
      forall j | 0 <= j < |t|
        ensures !IsLineTerminator(t[j])
      {
        assert t[j] == tail[j + 6 + k - i];
      }
      assert BearerToken(auth) == Some(t);
    } else {
      assert k == |rest| && k >= 2;
      assert rest[k - 1] == tail[|tail| - 1];
      assert BearerToken(auth) == Some(rest[k - 1..]);
    }
  }

  /** A header written as `Bearer <token>` gives back the token. */
  lemma BearerOfHeader(token: string)
    requires token != "" && !IsJsSpace(token[0]) && NoLineTerminator(token)
    ensures BearerToken("Bearer " + token) == Some(token)
  {
    var auth := "Bearer " + token;
    assert LowerAscii('B') == 'b';
    assert auth[..6] == "Bearer";
    assert StartsWithIgnoreCase(auth, "bearer");
    var rest := auth[6..];
    assert rest == [' '] + token;
    assert rest[1..] == token;
    assert TrimStart(rest) == TrimStart(token) == token;
  }

  /** `requireDeviceAuth`: the header's token, when there is one, must be on the allow-list. */
  predicate DeviceAuthorized(keys: seq<string>, authorization: string) {
    match BearerToken(authorization)
    case Some(key) => key != "" && key in keys
    case None => false
  }

  /** A device passes only with a token in the allow-list, taken from a header of the right shape. */
  lemma AuthorizedHasListedToken(keys: seq<string>, authorization: string)
    requires DeviceAuthorized(keys, authorization)
    ensures exists i :: BearerSplitAt(authorization, i) && authorization[i..] in keys
  {
    BearerTokenSound(authorization);
    var t := BearerToken(authorization).value;
    assert BearerSplitAt(authorization, |authorization| - |t|);
  }

  // ------------------------------------------------------------------
  // Conditional GET
  // ------------------------------------------------------------------

  /** `inm && inm === tag`. */
  predicate NotModified(ifNoneMatch: Option<string>, tag: string) {
    ifNoneMatch.Some? && ifNoneMatch.value != "" && ifNoneMatch.value == tag
  }
}
