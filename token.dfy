/** Token creation in the `plugin` variant: the claim set is composed from the
    role's claims and, when the role allows it, the caller's; the `exp` claim is
    set from the TTL; the role's secret is read, or rotated when there is none;
    and the token type named by the caller is dispatched case-insensitively. */
module Token {
  import opened Vault
  import opened JwtBackend
  import GoMaps

  /** `unicode.ToLower` on ASCII characters. */
  function LowerChar(c: char): char
  {
    if 'A' <= c <= 'Z' then (c as int + 32) as char else c
  }

  /** `strings.ToLower`, restricted to ASCII. */
  function ToLower(s: string): (r: string)
    ensures |r| == |s|
    ensures forall i :: 0 <= i < |s| ==> r[i] == LowerChar(s[i])
  {
    if |s| == 0 then "" else [LowerChar(s[0])] + ToLower(s[1..])
  }

  /** Two strings are equal up to ASCII case (`strings.EqualFold` on ASCII). */
  predicate EqualFold(a: string, b: string)
  {
    |a| == |b| && forall i :: 0 <= i < |a| ==> LowerChar(a[i]) == LowerChar(b[i])
  }

  /** Lower-casing twice changes nothing more. */
  lemma ToLowerIdempotent(s: string)
    ensures ToLower(ToLower(s)) == ToLower(s)
  {
  }

  /** Comparing the lower-cased string with a lower-case literal is the same
      as comparing the two up to case. */
  lemma LowerEqualsFold(s: string, lit: string)
    requires ToLower(lit) == lit
    ensures ToLower(s) == lit <==> EqualFold(s, lit)
  {
  }

  /** The token types `createTokenEntry` distinguishes after lower-casing. */
  datatype TokenKind = JwsKind | JwtKind | UnsupportedKind(name: string)

  /** The `switch` of `createTokenEntry` on the lower-cased token type. */
  function ClassifyTokenType(tokenType: string): (k: TokenKind)
    ensures k == JwtKind <==> EqualFold(tokenType, "jwt")
    ensures k == JwsKind <==> EqualFold(tokenType, "jws")
    ensures k.UnsupportedKind? ==> k.name == ToLower(tokenType)
  {
    LowerEqualsFold(tokenType, "jwt");
    LowerEqualsFold(tokenType, "jws");
    var t := ToLower(tokenType);
    if t == "jws" then JwsKind
    else if t == "jwt" then JwtKind
    else UnsupportedKind(t)
  }

  /** The role's claims after `createJwtToken` has merged the caller's in:
      unchanged unless custom claims are allowed, and then every caller claim
      is present with the caller's value while the other role claims keep theirs. */
  function MergedClaims(roleClaims: map<string, string>, custom: map<string, string>, allowCustomClaims: bool): (m: map<string, string>)
    ensures !allowCustomClaims ==> m == roleClaims
    ensures allowCustomClaims ==> m.Keys == roleClaims.Keys + custom.Keys
    ensures allowCustomClaims ==> forall k :: k in custom ==> m[k] == custom[k]
    ensures forall k :: k in roleClaims && k !in custom ==> m[k] == roleClaims[k]
  {
    if allowCustomClaims then roleClaims + custom else roleClaims
  }

  /** `claims.SetExpiration(exp)`: the `exp` claim becomes `exp`, replacing
      any claim of that name copied from the role or the caller. */
  function SetExpiration(claims: map<string, string>, exp: int): (jwt: Jwt)
    ensures jwt.expiration == exp && "exp" !in jwt.claims
    ensures jwt.claims.Keys == claims.Keys - {"exp"}
    ensures forall k :: k in claims && k != "exp" ==> jwt.claims[k] == claims[k]
  {
    Jwt(claims - {"exp"}, exp)
  }

  /** The secret `createJwtToken` signs with: the stored one when the read
      finds it, a freshly rotated one when the read finds nothing, and the
      read's or the rotation's error otherwise. */
  function AcquireSecret(b: Backend, role: RoleRecord): (t: Traced<Result<Secret>, Call>)
    ensures 1 <= |t.calls| <= 2 && t.calls[0] == ReadSecret(role.roleId, role.secretId)
    ensures |t.calls| == 2 <==> b.readSecret(role.roleId, role.secretId).Absent?
    ensures |t.calls| == 2 ==> t.calls[1] == RotateSecret(role.roleId, role.secretId, role.secretTtl)
    ensures b.readSecret(role.roleId, role.secretId).Found? ==> t.result == Ok(b.readSecret(role.roleId, role.secretId).value)
    ensures b.readSecret(role.roleId, role.secretId).Failed? ==> t.result == Err(b.readSecret(role.roleId, role.secretId).error)
    ensures b.readSecret(role.roleId, role.secretId).Absent? ==> t.result == b.rotateSecret(role.roleId, role.secretId, role.secretTtl)
  {
    var read := ReadSecret(role.roleId, role.secretId);
    match b.readSecret(role.roleId, role.secretId)
    case Failed(e) => Traced(Err(e), [read])
    case Found(s) => Traced(Ok(s), [read])
    case Absent =>
      Traced(b.rotateSecret(role.roleId, role.secretId, role.secretTtl),
             [read, RotateSecret(role.roleId, role.secretId, role.secretTtl)])
  }

  /** What `createJwtToken` returns for a role whose stored value is `role`,
      at time `now` (seconds since the epoch): `{"ClientToken": token}`, the
      token being the merged claims with `exp = now + ttl` serialised with
      the acquired secret's key. */
  function CreateJwtTokenSpec(b: Backend, entry: TokenCreateEntry, role: RoleRecord, now: int): (t: Traced<Result<map<string, string>>, Call>)
    ensures t.result.Ok? <==> AcquireSecret(b, role).result.Ok?
    ensures forall c :: c in t.calls && c.Serialize? ==>
      c.jwt == SetExpiration(MergedClaims(role.claims, entry.claims, role.allowCustomClaims), now + entry.ttl)
    ensures forall c :: c in t.calls && c.Serialize? ==>
      c.jwt.expiration == now + entry.ttl && "exp" !in c.jwt.claims
    ensures t.result.Err? ==> t == Traced(Err(AcquireSecret(b, role).result.error), AcquireSecret(b, role).calls)
    ensures t.result.Ok? ==>
      var key := AcquireSecret(b, role).result.value.key;
      var jwt := SetExpiration(MergedClaims(role.claims, entry.claims, role.allowCustomClaims), now + entry.ttl);
      t.calls == AcquireSecret(b, role).calls + [Serialize(jwt, key)] &&
      t.result.value == map["ClientToken" := b.serialize(jwt, key)]
  {
    var jwt := SetExpiration(MergedClaims(role.claims, entry.claims, role.allowCustomClaims), now + entry.ttl);
    var acquired := AcquireSecret(b, role);
    match acquired.result
    case Err(e) => Traced(Err(e), acquired.calls)
    case Ok(secret) =>
      Traced(Ok(map["ClientToken" := b.serialize(jwt, secret.key)]), acquired.calls + [Serialize(jwt, secret.key)])
  }

  /** `createJwtToken`. When the role allows custom claims, the caller's
      claims are written into the role's own claim map before the token's
      claims are copied from it. */
  method CreateJwtToken(b: Backend, entry: TokenCreateEntry, role: RoleEntry, now: int)
    returns (out: Result<map<string, string>>, calls: seq<Call>)
    modifies role`claims
    ensures role.claims == MergedClaims(old(role.claims), entry.claims, role.allowCustomClaims)
    ensures Traced(out, calls) == CreateJwtTokenSpec(b, entry, old(role.Record()), now)
  {
    ghost var stored := role.Record();
    if role.allowCustomClaims {
      // caller claims overwrite the role's, in the role entry itself
      role.claims := GoMaps.Overlay(role.claims, entry.claims);
    }
    var claims := GoMaps.Overlay(map[], role.claims);
    var jwt := SetExpiration(claims, now + entry.ttl);
    assert jwt == SetExpiration(MergedClaims(stored.claims, entry.claims, stored.allowCustomClaims), now + entry.ttl);
    ghost var acquired := AcquireSecret(b, stored);

    calls := [ReadSecret(role.roleId, role.secretId)];
    var secret: Secret;
    match b.readSecret(role.roleId, role.secretId) {
      case Failed(e) =>
        out := Err(e);
        return;
      case Found(s) =>
        secret := s;
      case Absent =>
        calls := calls + [RotateSecret(role.roleId, role.secretId, role.secretTtl)];
        match b.rotateSecret(role.roleId, role.secretId, role.secretTtl) {
          case Err(e) =>
            out := Err(e);
            return;
          case Ok(s) =>
            secret := s;
        }
    }

    var serialized := b.serialize(jwt, secret.key);
    calls := calls + [Serialize(jwt, secret.key)];
    out := Ok(map["ClientToken" := serialized]);
  }

  /** What `createTokenEntry` returns: `"jws"` gives no output and no error,
      `"jwt"` creates a token, and every other type is an error; the type is
      compared without regard to case. */
  function CreateTokenEntrySpec(b: Backend, entry: TokenCreateEntry, role: RoleRecord, now: int): (t: Traced<Result<Option<map<string, string>>>, Call>)
    ensures EqualFold(entry.tokenType, "jws") ==> t == Traced(Ok(None), [])
    ensures !EqualFold(entry.tokenType, "jws") && !EqualFold(entry.tokenType, "jwt") ==>
      t == Traced(Err(Error("unsupported token type " + ToLower(entry.tokenType))), [])
    ensures EqualFold(entry.tokenType, "jwt") ==>
      var j := CreateJwtTokenSpec(b, entry.(tokenType := ToLower(entry.tokenType)), role, now);
      t.calls == j.calls &&
      t.result == (if j.result.Ok? then Ok(Some(j.result.value)) else Err(j.result.error))
    ensures t.result.Ok? && t.result.value.Some? ==> EqualFold(entry.tokenType, "jwt")
  {
    var createEntry := entry.(tokenType := ToLower(entry.tokenType));
    match ClassifyTokenType(entry.tokenType)
    case JwsKind => Traced(Ok(None), [])
    case JwtKind =>
      var j := CreateJwtTokenSpec(b, createEntry, role, now);
      Traced(if j.result.Ok? then Ok(Some(j.result.value)) else Err(j.result.error), j.calls)
    case UnsupportedKind(name) => Traced(Err(Error("unsupported token type " + name)), [])
  }

  /** `"JWT"`, `"Jwt"` and `"jwt"` are one token type: lower-casing the
      requested type first changes nothing about the outcome. */
  lemma TokenTypeCaseInsensitive(b: Backend, entry: TokenCreateEntry, role: RoleRecord, now: int)
    ensures CreateTokenEntrySpec(b, entry, role, now)
         == CreateTokenEntrySpec(b, entry.(tokenType := ToLower(entry.tokenType)), role, now)
  {
    ToLowerIdempotent(entry.tokenType);
    var lowered := entry.(tokenType := ToLower(entry.tokenType));
    assert lowered.(tokenType := ToLower(lowered.tokenType)) == lowered;
    assert ClassifyTokenType(lowered.tokenType) == ClassifyTokenType(entry.tokenType);
  }

  /** `createTokenEntry`: lower-cases the token type and dispatches on it. */
  method CreateTokenEntry(b: Backend, entry: TokenCreateEntry, role: RoleEntry, now: int)
    returns (out: Result<Option<map<string, string>>>, calls: seq<Call>)
    modifies role`claims
    ensures role.claims == if EqualFold(entry.tokenType, "jwt")
                           then MergedClaims(old(role.claims), entry.claims, role.allowCustomClaims)
                           else old(role.claims)
    ensures Traced(out, calls) == CreateTokenEntrySpec(b, entry, old(role.Record()), now)
  {
    var createEntry := entry.(tokenType := ToLower(entry.tokenType));
    match ClassifyTokenType(entry.tokenType)
    case JwsKind =>
      out, calls := Ok(None), [];
    case JwtKind =>
      var token;
      token, calls := CreateJwtToken(b, createEntry, role, now);
      out := if token.Ok? then Ok(Some(token.value)) else Err(token.error);
    case UnsupportedKind(name) =>
      out, calls := Err(Error("unsupported token type " + name)), [];
  }
}
