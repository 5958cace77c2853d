/**
Signing with the latest database key and verifying against every active one, with the file-based key as fallback.

Signatures are abstract: a token names the key pair it was signed with, and it verifies under exactly that pair.
Claim times are whole seconds, as in a JWT.
*/
module TokenService {
  import opened Wrappers
  import opened JwtKeys
  import KR = KeyRotation

  datatype Claims = Claims(sub: string, kind: string, nbf: int, exp: int)

  datatype Token =
    | Token(pair: Version, algorithm: string, claims: Claims)
    | Malformed

  datatype TokenError = ExpiredSignature | JwtError | NoKey

  /** The session argument: absent, failing, or answering. */
  datatype Session = NoSession | Failing | Answering

  const ALGORITHM: string := "RS256"

  function Seconds(t: Instant): int {
    t / SECOND
  }

  predicate Signed(token: Token, pair: Version, algorithm: string) {
    token.Token? && token.pair == pair && token.algorithm == algorithm
  }

  /** `jwt.decode` with one key: signature, then `nbf`, then `exp`. */
  function JwtDecode(token: Token, pair: Version, algorithm: string, now: int): Result<Claims, TokenError> {
    if !Signed(token, pair, algorithm) then Err(JwtError)
    else if now < token.claims.nbf then Err(JwtError)
    else if token.claims.exp < now then Err(ExpiredSignature)
    else Ok(token.claims)
  }

  /** `listed` may be the answer of `get_active_keys`. */
  predicate IsActiveListing(keys: Keys, listed: seq<nat>) {
    && (forall k :: 0 <= k < |listed| ==> listed[k] < |keys| && keys[listed[k]].isActive)
    && (forall i :: 0 <= i < |keys| && keys[i].isActive ==> i in listed)
    && (forall j, k :: 0 <= j < k < |listed| ==>
          listed[j] != listed[k] && keys[listed[j]].expiresAt >= keys[listed[k]].expiresAt)
  }

  predicate SignedByActive(token: Token, keys: Keys) {
    exists i :: 0 <= i < |keys| && keys[i].isActive && Signed(token, keys[i].version, keys[i].algorithm)
  }

  predicate SignedByFile(token: Token, fileKey: Option<Version>) {
    fileKey.Some? && Signed(token, fileKey.value, ALGORITHM)
  }

  predicate Current(token: Token, now: int) {
    token.Token? && token.claims.nbf <= now <= token.claims.exp
  }

  class TokenService {
    /** The file-based key pair; None when it was not loaded. */
    const fileKey: Option<Version>

    constructor (fileKey: Option<Version>)
      ensures this.fileKey == fileKey
    {
      this.fileKey := fileKey;
    }

    /**
    Sound and complete: a payload comes back exactly for an unexpired token signed by some active key or by the
    file-based key. Expiry found with a database key is caught again and the file-based key has the last word, so
    only a token of the file-based key is ever reported as expired.
    */
    method DecodeToken(token: Token, session: Session, keys: Keys, listed: seq<nat>, now: int)
      returns (result: Result<Claims, TokenError>)
      requires IsActiveListing(keys, listed)
      ensures result.Ok? <==>
              && Current(token, now)
              && (SignedByFile(token, fileKey) || (session.Answering? && SignedByActive(token, keys)))
      ensures result.Ok? <==>
              && token.Token? && token.claims.nbf <= now <= token.claims.exp
              && ((fileKey == Some(token.pair) && token.algorithm == "RS256")
                  || (session.Answering? && exists key :: key in keys && key.isActive && key.version == token.pair
                                                          && key.algorithm == token.algorithm))
      ensures result.Ok? ==> result.value == token.claims
      ensures result == Err(ExpiredSignature) <==>
              SignedByFile(token, fileKey) && token.claims.nbf <= now && token.claims.exp < now
      ensures result.Err? ==> result.error != NoKey
    {
      if session.Answering? {
        var k := 0;
        var expired := false;
        while k < |listed| && !expired
          invariant 0 <= k <= |listed|
          invariant expired ==> token.Token? && token.claims.nbf <= now && token.claims.exp < now
          invariant !expired && Current(token, now) ==>
              forall j :: 0 <= j < k ==> !Signed(token, keys[listed[j]].version, keys[listed[j]].algorithm)
        {
          var key := keys[listed[k]];
          var attempt := JwtDecode(token, key.version, key.algorithm, now);
          if attempt.Ok? {
            return attempt;
          }
          if attempt.error == ExpiredSignature {
            expired := true;
          }
          k := k + 1;
        }
      }
      if fileKey.Some? {
        var attempt := JwtDecode(token, fileKey.value, ALGORITHM, now);
        if attempt.Ok? || attempt.error == ExpiredSignature {
          return attempt;
        }
      }
      return Err(JwtError);
    }

    /** Every error becomes None, and so does a payload of another kind. */
    method ValidateToken(token: Token, kind: string, session: Session, keys: Keys, listed: seq<nat>, now: int)
      returns (payload: Option<Claims>)
      requires IsActiveListing(keys, listed)
      ensures payload.Some? <==>
              && Current(token, now) && token.claims.kind == kind
              && (SignedByFile(token, fileKey) || (session.Answering? && SignedByActive(token, keys)))
      ensures payload.Some? ==> payload.value == token.claims
    {
      var result := DecodeToken(token, session, keys, listed, now);
      if result.Ok? && result.value.kind == kind {
        return Some(result.value);
      }
      return None;
    }

    /** The latest database key signs; without one, or when the query fails, the file-based key does. */
    method CreateAccessToken(sub: string, life: nat, session: Session, keys: Keys, latest: Option<nat>, now: Instant)
      returns (result: Result<Token, TokenError>)
      requires IsLatestOrNone(keys, latest)
      ensures result.Ok? <==> (session.Answering? && !NoneActive(keys)) || fileKey.Some?
      ensures result.Err? ==> result.error == NoKey
      ensures result.Ok? ==> IssuedToken(result.value, sub, life, now)
      ensures result.Ok? ==>
                && result.value.claims.sub == sub && result.value.claims.kind == "service_account"
                && result.value.claims.nbf == now / SECOND && result.value.claims.exp == (now + life) / SECOND
                && if session.Answering? && latest.Some?
                   then result.value.pair == keys[latest.value].version
                        && result.value.algorithm == keys[latest.value].algorithm
                   else fileKey == Some(result.value.pair) && result.value.algorithm == "RS256"
      ensures result.Ok? && session.Answering? && latest.Some? ==>
                Signed(result.value, keys[latest.value].version, keys[latest.value].algorithm)
      ensures result.Ok? && (!session.Answering? || latest.None?) ==> SignedByFile(result.value, fileKey)
    {
      var claims := Claims(sub, "service_account", Seconds(now), Seconds(now + life));
      if session.Answering? && latest.Some? {
        var key := keys[latest.value];
        return Ok(Token(key.version, key.algorithm, claims));
      }
      if fileKey.None? {
        return Err(NoKey);
      }
      return Ok(Token(fileKey.value, ALGORITHM, claims));
    }
  }

  /** What every issued token says about itself. */
  predicate IssuedToken(token: Token, sub: string, life: nat, now: Instant) {
    && token.Token?
    && token.claims == Claims(sub, "service_account", Seconds(now), Seconds(now + life))
  }

  /** The token that world `w` of the rotation protocol records as `t`. */
  predicate Issued(w: KR.World, t: KR.Signed, token: Token, sub: string, life: nat) {
    && t.key < |w.keys|
    && IssuedToken(token, sub, life, t.at)
    && Signed(token, w.keys[t.key].version, w.keys[t.key].algorithm)
  }

  /**
  Token continuity as a client sees it: at every moment of its life, across any number of rotations and whatever
  the order of the active keys, `decode_token` gives back the claims of a token signed by the latest key.
  */
  method DecodeAfterRotations(service: TokenService, start: KR.World, steps: seq<KR.Step>, life: nat, d: nat,
                              t: KR.Signed, token: Token, sub: string, listed: seq<nat>)
    returns (result: Result<Claims, TokenError>)
    requires life + d <= 24 * HOUR && 2 * d <= KEY_VALIDITY
    requires KR.Start(start) && KR.IsRun(start, steps) && KR.OnTimeRun(start, steps, d)
    requires t in KR.Run(start, steps).tokens && KR.Run(start, steps).now <= t.at + life
    requires Issued(KR.Run(start, steps), t, token, sub, life)
    requires IsActiveListing(KR.Run(start, steps).keys, listed)
    ensures result == Ok(token.claims)
  {
    var w := KR.Run(start, steps);
    KR.TokenContinuity(start, steps, life, d);
    KR.RunKeepsInv(start, steps, life, d);
    assert KR.TokenOk(w, t, life, d);
    assert SignedByActive(token, w.keys);
    result := service.DecodeToken(token, Answering, w.keys, listed, Seconds(w.now));
  }

  /** The documented ExpiredSignatureError never comes for a key that only the database holds. */
  method ExpiredDatabaseTokenIsJwtError(service: TokenService, keys: Keys, listed: seq<nat>, token: Token, now: int)
    returns (result: Result<Claims, TokenError>)
    requires IsActiveListing(keys, listed)
    requires SignedByActive(token, keys) && !SignedByFile(token, service.fileKey) && token.claims.exp < now
    ensures result == Err(JwtError)
  {
    result := service.DecodeToken(token, Answering, keys, listed, now);
  }

  /** The default kind of `validate_token` is "access", which no issued token carries. */
  method DefaultKindRejectsIssuedTokens(service: TokenService, keys: Keys, listed: seq<nat>, token: Token, sub: string,
                                        life: nat, at: Instant, now: int)
    returns (payload: Option<Claims>)
    requires IsActiveListing(keys, listed) && IssuedToken(token, sub, life, at)
    ensures payload == None
  {
    payload := service.ValidateToken(token, "access", Answering, keys, listed, now);
  }
}
