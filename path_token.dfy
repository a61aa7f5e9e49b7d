/** The token paths of the `plugin` variant: `validateToken`, `createToken`
    (gated by the salted HMAC of the caller's role id) and the field schema
    `pathToken` registers for both. */
module PathToken {
  import opened Vault
  import opened JwtBackend
  import opened Token
  import GoMaps

  /** The data the handlers answer with: the token output map of
      `createTokenEntry` (nil for `"jws"`) and `{"is_valid": ...}`. */
  datatype Payload = ClientToken(output: Option<map<string, string>>) | Validation(isValid: bool)

  /** A validation request: the `role_name` and `token` fields. */
  datatype ValidateRequest = ValidateRequest(roleName: string, token: string)

  /** An issuance request: the `role_name` and `role_id` fields and the
      outcome of decoding the raw request fields into a `TokenCreateEntry`. */
  datatype CreateRequest = CreateRequest(roleName: string, roleId: string, decoded: Result<TokenCreateEntry>)

  /** The handler answered `{"is_valid": valid}` with no error. */
  predicate IsValidity(r: Reply<Payload>, valid: bool)
  {
    r == Reply(DataResponse(Validation(valid)), None)
  }

  /** The handler answered with an error response carrying a Go error. */
  predicate IsError(r: Reply<Payload>)
  {
    r.Reply? && r.response.ErrorResponse? && r.err.Some?
  }

  /** The role name validation uses: the supplied one, or when it is empty
      the token's `roleName` claim, which must then be present. */
  function RoleNameFor(req: ValidateRequest, jwt: Jwt): Option<string>
  {
    if req.roleName != "" then Some(req.roleName)
    else if "roleName" in jwt.claims then Some(jwt.claims["roleName"])
    else None
  }

  /** The token parses, a role name is known, and the role is stored. */
  predicate RoleResolved(b: Backend, req: ValidateRequest)
  {
    b.parseJwt(req.token).Ok? &&
    RoleNameFor(req, b.parseJwt(req.token).value).Some? &&
    b.getRoleEntry(RoleNameFor(req, b.parseJwt(req.token).value).value).Found?
  }

  function ResolvedRole(b: Backend, req: ValidateRequest): RoleRecord
    requires RoleResolved(b, req)
  {
    b.getRoleEntry(RoleNameFor(req, b.parseJwt(req.token).value).value).value
  }

  function StoredSecret(b: Backend, req: ValidateRequest): Lookup<Secret>
    requires RoleResolved(b, req)
  {
    b.readSecret(ResolvedRole(b, req).roleId, ResolvedRole(b, req).secretId)
  }

  /** `validateToken` at time `now` (the JWT library's clock, in seconds
      since the epoch): parse the token, find the role, read (never rotate)
      its secret and check the token's signature and expiry with it. */
  function ValidateToken(b: Backend, req: ValidateRequest, now: int): (t: Traced<Reply<Payload>, Call>)
    ensures |t.calls| >= 1 && t.calls[0] == ParseJwt(req.token)
    ensures b.parseJwt(req.token).Err? ==>
      t == Traced(Reply(ErrorResponse("unable to parse token"), Some(b.parseJwt(req.token).error)), [ParseJwt(req.token)])
    ensures forall c :: c in t.calls && c.GetRoleEntry? ==>
      b.parseJwt(req.token).Ok? &&
      (req.roleName != "" ==> c.roleName == req.roleName) &&
      (req.roleName == "" ==>
        "roleName" in b.parseJwt(req.token).value.claims && c.roleName == b.parseJwt(req.token).value.claims["roleName"])
    ensures b.parseJwt(req.token).Ok? && RoleNameFor(req, b.parseJwt(req.token).value).None? ==>
      t.result.Panic? && t.calls == [ParseJwt(req.token)]
    ensures b.parseJwt(req.token).Ok? && RoleNameFor(req, b.parseJwt(req.token).value).Some? ==>
      var name := RoleNameFor(req, b.parseJwt(req.token).value).value;
      |t.calls| >= 2 && t.calls[1] == GetRoleEntry(name) &&
      (b.getRoleEntry(name).Failed? ==>
        t.result == Reply(ErrorResponse("unable to retrieve role details"), Some(b.getRoleEntry(name).error)) &&
        |t.calls| == 2) &&
      (b.getRoleEntry(name).Absent? ==> t.result.Panic? && |t.calls| == 2)
    ensures forall c :: c in t.calls ==> !c.RotateSecret? && !c.Serialize? && !c.GetHmac?
    ensures forall c :: c in t.calls && c.ValidateJwt? ==> c.at == now
    ensures RoleResolved(b, req) ==>
      var role := ResolvedRole(b, req);
      t.calls == [ParseJwt(req.token), GetRoleEntry(RoleNameFor(req, b.parseJwt(req.token).value).value),
                  ReadSecret(role.roleId, role.secretId)] +
                 (if StoredSecret(b, req).Found? then [ValidateJwt(req.token, StoredSecret(b, req).value.key, now)] else [])
    ensures IsValidity(t.result, true) <==>
      RoleResolved(b, req) && StoredSecret(b, req).Found? && b.validateJwt(req.token, StoredSecret(b, req).value.key, now).None?
    ensures IsValidity(t.result, false) <==> RoleResolved(b, req) && StoredSecret(b, req).Absent?
    ensures RoleResolved(b, req) && StoredSecret(b, req).Failed? ==>
      t.result == Reply(ErrorResponse("unable to retrieve role secrets"), Some(StoredSecret(b, req).error))
    ensures RoleResolved(b, req) && StoredSecret(b, req).Found? &&
            b.validateJwt(req.token, StoredSecret(b, req).value.key, now).Some? ==>
      t.result == Reply(ErrorResponse("Invalid Token"), b.validateJwt(req.token, StoredSecret(b, req).value.key, now))
    ensures t.result.Panic? <==> b.parseJwt(req.token).Ok? && !RoleResolved(b, req) && !IsError(t.result)
  {
    var parse := [ParseJwt(req.token)];
    match b.parseJwt(req.token)
    case Err(e) => Traced(Reply(ErrorResponse("unable to parse token"), Some(e)), parse)
    case Ok(jwt) =>
      match RoleNameFor(req, jwt)
      case None =>
        // the missing claim fails the `.(string)` assertion
        Traced(Panic("interface conversion: roleName claim is nil, not string"), parse)
      case Some(roleName) =>
        var lookup := parse + [GetRoleEntry(roleName)];
        match b.getRoleEntry(roleName)
        case Failed(e) => Traced(Reply(ErrorResponse("unable to retrieve role details"), Some(e)), lookup)
        case Absent => Traced(Panic("nil pointer dereference: role"), lookup)
        case Found(role) =>
          var read := lookup + [ReadSecret(role.roleId, role.secretId)];
          match b.readSecret(role.roleId, role.secretId)
          case Failed(e) => Traced(Reply(ErrorResponse("unable to retrieve role secrets"), Some(e)), read)
          case Absent => Traced(Reply(DataResponse(Validation(false)), None), read)
          case Found(secret) =>
            var check := read + [ValidateJwt(req.token, secret.key, now)];
            match b.validateJwt(req.token, secret.key, now)
            case Some(e) => Traced(Reply(ErrorResponse("Invalid Token"), Some(e)), check)
            case None => Traced(Reply(DataResponse(Validation(true)), None), check)
  }

  /** What `createToken` answers: the role must be stored, the HMAC of the
      caller's role id must equal the role's, and the request must decode;
      the token is then created with the role's own TTL. */
  function CreateTokenSpec(b: Backend, req: CreateRequest, now: int): (t: Traced<Reply<Payload>, Call>)
    ensures |t.calls| >= 1 && t.calls[0] == GetRoleEntry(req.roleName)
    ensures b.getRoleEntry(req.roleName).Failed? ==>
      t == Traced(Reply(ErrorResponse("Role note recognised"), None), [GetRoleEntry(req.roleName)])
    ensures b.getRoleEntry(req.roleName).Found? && b.hmac(req.roleId) != b.getRoleEntry(req.roleName).value.hmac ==>
      t == Traced(Reply(ErrorResponse("unauthorized access"), None), [GetRoleEntry(req.roleName), GetHmac(req.roleId)])
    ensures b.getRoleEntry(req.roleName).Absent? ==>
      t.result.Panic? && t.calls == [GetRoleEntry(req.roleName), GetHmac(req.roleId)]
    ensures b.getRoleEntry(req.roleName).Found? && b.hmac(req.roleId) == b.getRoleEntry(req.roleName).value.hmac ==>
      var gate := [GetRoleEntry(req.roleName), GetHmac(req.roleId)];
      (req.decoded.Err? ==>
        t == Traced(Reply(ErrorResponse("Error decoding role"), Some(req.decoded.error)), gate)) &&
      (req.decoded.Ok? ==>
        var entry := req.decoded.value.(ttl := b.getRoleEntry(req.roleName).value.tokenTtl);
        var created := CreateTokenEntrySpec(b, entry, b.getRoleEntry(req.roleName).value, now);
        t.calls == gate + created.calls &&
        (created.result.Err? ==> t.result == Reply(ErrorResponse("Error creating token"), Some(created.result.error))) &&
        (created.result.Ok? ==> t.result == Reply(DataResponse(ClientToken(created.result.value)), None)))
    ensures forall c :: c in t.calls && (c.ReadSecret? || c.RotateSecret? || c.Serialize?) ==>
      b.getRoleEntry(req.roleName).Found? && b.hmac(req.roleId) == b.getRoleEntry(req.roleName).value.hmac
    ensures forall c :: c in t.calls && c.Serialize? ==>
      c.jwt.expiration == now + b.getRoleEntry(req.roleName).value.tokenTtl
    ensures t.result.Reply? && t.result.response.DataResponse? ==>
      b.getRoleEntry(req.roleName).Found? && b.hmac(req.roleId) == b.getRoleEntry(req.roleName).value.hmac &&
      req.decoded.Ok? &&
      var entry := req.decoded.value.(ttl := b.getRoleEntry(req.roleName).value.tokenTtl);
      var created := CreateTokenEntrySpec(b, entry, b.getRoleEntry(req.roleName).value, now);
      created.result.Ok? && t.result == Reply(DataResponse(ClientToken(created.result.value)), None)
  {
    var lookup := [GetRoleEntry(req.roleName)];
    match b.getRoleEntry(req.roleName)
    case Failed(_) => Traced(Reply(ErrorResponse("Role note recognised"), None), lookup)
    case Absent =>
      // the HMAC is computed, then the nil role is dereferenced
      Traced(Panic("nil pointer dereference: roleEntry"), lookup + [GetHmac(req.roleId)])
    case Found(role) =>
      var gate := lookup + [GetHmac(req.roleId)];
      if b.hmac(req.roleId) != role.hmac then
        Traced(Reply(ErrorResponse("unauthorized access"), None), gate)
      else
        match req.decoded
        case Err(e) => Traced(Reply(ErrorResponse("Error decoding role"), Some(e)), gate)
        case Ok(decoded) =>
          var created := CreateTokenEntrySpec(b, decoded.(ttl := role.tokenTtl), role, now);
          match created.result
          case Err(e) => Traced(Reply(ErrorResponse("Error creating token"), Some(e)), gate + created.calls)
          case Ok(output) => Traced(Reply(DataResponse(ClientToken(output)), None), gate + created.calls)
  }

  /** `createToken`. The role entry is decoded afresh for the request, so the
      claims `createJwtToken` merges into it do not outlive the call. */
  method CreateToken(b: Backend, req: CreateRequest, now: int) returns (reply: Reply<Payload>, calls: seq<Call>)
    ensures Traced(reply, calls) == CreateTokenSpec(b, req, now)
  {
    calls := [GetRoleEntry(req.roleName)];
    var lookup := b.getRoleEntry(req.roleName);
    if lookup.Failed? {
      reply := Reply(ErrorResponse("Role note recognised"), None);
      return;
    }

    var hmac := b.hmac(req.roleId);
    calls := calls + [GetHmac(req.roleId)];
    if lookup.Absent? {
      reply := Panic("nil pointer dereference: roleEntry");
      return;
    }
    var roleEntry := new RoleEntry(lookup.value);
    if hmac != roleEntry.hmac {
      reply := Reply(ErrorResponse("unauthorized access"), None);
      return;
    }

    if req.decoded.Err? {
      reply := Reply(ErrorResponse("Error decoding role"), Some(req.decoded.error));
      return;
    }
    var tokenEntry := req.decoded.value.(ttl := roleEntry.tokenTtl);

    var token, created := CreateTokenEntry(b, tokenEntry, roleEntry, now);
    calls := calls + created;
    match token {
      case Err(e) =>
        reply := Reply(ErrorResponse("Error creating token"), Some(e));
      case Ok(output) =>
        reply := Reply(DataResponse(ClientToken(output)), None);
    }
  }

  /** A token issued at `now` for a role whose secret is already stored
      validates against that role at any time `later` before its expiry,
      provided the JWT library verifies what it signs. */
  lemma IssueThenValidate(b: Backend, req: CreateRequest, now: int, later: int)
    requires SignatureRoundTrip(b)
    requires req.roleName != ""
    requires b.getRoleEntry(req.roleName).Found?
    requires b.hmac(req.roleId) == b.getRoleEntry(req.roleName).value.hmac
    requires req.decoded.Ok? && EqualFold(req.decoded.value.tokenType, "jwt")
    requires b.readSecret(b.getRoleEntry(req.roleName).value.roleId, b.getRoleEntry(req.roleName).value.secretId).Found?
    requires later < now + b.getRoleEntry(req.roleName).value.tokenTtl
    ensures var t := CreateTokenSpec(b, req, now).result;
      t.Reply? && t.response.DataResponse? && t.response.data.ClientToken? &&
      t.response.data.output.Some? && "ClientToken" in t.response.data.output.value &&
      IsValidity(ValidateToken(b, ValidateRequest(req.roleName, t.response.data.output.value["ClientToken"]), later).result, true)
  {
  }

  /** The kinds of field `pathToken`'s schema uses. */
  datatype FieldType = TypeString | TypeCommaStringSlice | TypeDurationSecond

  /** A `framework.FieldSchema`. */
  datatype FieldSchema = FieldSchema(fieldType: FieldType, description: string, default: Option<int>)

  const ValidateTokenSchema: map<string, FieldSchema> := map[
    "role_name" := FieldSchema(TypeString, "The role associated with this token", None),
    "token" := FieldSchema(TypeString, "The Token to validate", None)]

  const CreateTokenSchema: map<string, FieldSchema> := map[
    "claims" := FieldSchema(TypeCommaStringSlice, "The custom claims that are aplied to the token", None),
    "payload" := FieldSchema(TypeCommaStringSlice, "The custom payload applied to the token", None),
    "role_name" := FieldSchema(TypeString, "The name of the role to use in the token", None),
    "role_id" := FieldSchema(TypeString, "The unique identifier for the role to use in the token", None),
    "ttl" := FieldSchema(TypeDurationSecond, "The duration in seconds after which the token will expire", Some(600))]

  /** The field schema `pathToken` gives both token paths: every field of
      either schema, the validation schema's entry winning on `role_name`. */
  method PathTokenSchema() returns (tokenSchema: map<string, FieldSchema>)
    ensures tokenSchema.Keys == CreateTokenSchema.Keys + ValidateTokenSchema.Keys
    ensures tokenSchema.Keys == {"claims", "payload", "role_name", "role_id", "ttl", "token"}
    ensures forall k :: k in ValidateTokenSchema ==> tokenSchema[k] == ValidateTokenSchema[k]
    ensures forall k :: k in CreateTokenSchema && k !in ValidateTokenSchema ==> tokenSchema[k] == CreateTokenSchema[k]
    ensures tokenSchema["role_name"] == FieldSchema(TypeString, "The role associated with this token", None)
  {
    tokenSchema := GoMaps.Overlay(map[], CreateTokenSchema);
    tokenSchema := GoMaps.Overlay(tokenSchema, ValidateTokenSchema);
  }
}
