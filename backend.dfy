/** The state and collaborators of the plugin's `JwtBackend` as the token
    paths of the `plugin` variant see them. Storage, the salted HMAC and the
    JWT library are functions supplied by the caller. */
module JwtBackend {
  import opened Vault

  /** The decoded issuance request (`TokenCreateEntry`). */
  datatype TokenCreateEntry = TokenCreateEntry(
    ttl: int,
    claims: map<string, string>,
    roleName: string,
    roleId: string,
    keyName: string,
    tokenType: string)

  /** A role as stored (`RoleStorageEntry`), the fields the token paths read. */
  datatype RoleRecord = RoleRecord(
    roleId: string,
    secretId: string,
    secretTtl: int,
    tokenTtl: int,
    hmac: string,
    allowCustomClaims: bool,
    claims: map<string, string>)

  /** A `*RoleStorageEntry` decoded from storage for one request. Token
      creation writes caller claims into its `claims` map in place. */
  class RoleEntry {
    const roleId: string
    const secretId: string
    const secretTtl: int
    const tokenTtl: int
    const hmac: string
    const allowCustomClaims: bool
    var claims: map<string, string>

    constructor (r: RoleRecord)
      ensures Record() == r
    {
      roleId := r.roleId;
      secretId := r.secretId;
      secretTtl := r.secretTtl;
      tokenTtl := r.tokenTtl;
      hmac := r.hmac;
      allowCustomClaims := r.allowCustomClaims;
      claims := r.claims;
    }

    /** The entry's current value. */
    function Record(): RoleRecord
      reads this
    {
      RoleRecord(roleId, secretId, secretTtl, tokenTtl, hmac, allowCustomClaims, claims)
    }
  }

  /** A stored signing secret; only its key material is used here. */
  datatype Secret = Secret(key: string)

  /** A JWT's claim set: the string claims other than `exp`, and the numeric
      `exp` claim (seconds since the epoch), of which a claim set has one. */
  datatype Jwt = Jwt(claims: map<string, string>, expiration: int)

  /** The collaborator calls the token paths make. */
  datatype Call =
    | ParseJwt(token: string)
    | GetRoleEntry(roleName: string)
    | GetHmac(roleId: string)
    | ReadSecret(roleId: string, secretId: string)
    | RotateSecret(roleId: string, secretId: string, ttl: int)
    | ValidateJwt(token: string, key: string, at: int)
    | Serialize(jwt: Jwt, key: string)

  /** The collaborators: role and secret storage, secret rotation, the
      backend salt's HMAC, and HS256 parsing, validation and serialisation. */
  datatype Backend = Backend(
    getRoleEntry: string -> Lookup<RoleRecord>,
    readSecret: (string, string) -> Lookup<Secret>,
    rotateSecret: (string, string, int) -> Result<Secret>,
    hmac: string -> string,
    parseJwt: string -> Result<Jwt>,
    validateJwt: (string, string, int) -> Option<Error>,
    serialize: (Jwt, string) -> string)

  /** What the JWT library is relied on for: a claim set serialised with a
      key parses back to itself, and validates against that same key at any
      time before its `exp` claim (times are whole seconds, so the second
      that starts at `exp` is not relied on). */
  ghost predicate SignatureRoundTrip(b: Backend)
  {
    (forall jwt: Jwt, key: string :: "exp" !in jwt.claims ==> b.parseJwt(b.serialize(jwt, key)) == Ok(jwt)) &&
    (forall jwt: Jwt, key: string, at: int ::
       "exp" !in jwt.claims && at < jwt.expiration ==> b.validateJwt(b.serialize(jwt, key), key, at) == None)
  }
}
