/** The token paths of the JWT-Secrets-Plugin variant: `issueToken`, which
    resolves the requested TTL against the role's bounds before handing the
    request to `createToken`, the stub `validateToken`, and two string helpers. */
module Issue {
  import opened Vault

  /** The fields of the stored role that this variant reads. */
  datatype RoleEntry = RoleEntry(key: string, tokenTtl: int, maxTokenTtl: int)

  /** The stored signing-key configuration; this variant only passes it on. */
  datatype KeyEntry = KeyEntry(name: string, algorithm: string)

  /** The decoded request; `ttl == 0` means "use the role's default". */
  datatype TokenCreateEntry = TokenCreateEntry(ttl: int, claims: map<string, string>, roleName: string)

  /** A request to `token/issue/<role_name>`: the role name field and the
      outcome of decoding the raw request fields into a `TokenCreateEntry`. */
  datatype IssueRequest = IssueRequest(roleName: string, decoded: Result<TokenCreateEntry>)

  /** The data maps the handlers answer with: `{"token": ...}` and `{"is_valid": ...}`. */
  datatype Payload = IssuedToken(token: string) | Validation(isValid: bool)

  /** The collaborators `issueToken` calls. */
  datatype Call =
    | GetRoleEntry(roleName: string)
    | GetKeyEntry(keyName: string)
    | CreateToken(entry: TokenCreateEntry, role: RoleEntry, key: KeyEntry)

  /** Storage lookups and the token creation the handler delegates to. */
  datatype Backend = Backend(
    getRoleEntry: string -> Lookup<RoleEntry>,
    getKeyEntry: string -> Lookup<KeyEntry>,
    createToken: (TokenCreateEntry, RoleEntry, KeyEntry) -> Result<string>)

  /** `%q` of a string without characters that need escaping. */
  function Quote(s: string): string
  {
    "\"" + s + "\""
  }

  function RoleNotRecognised(roleName: string): string
  {
    "Role name " + Quote(roleName) + " not recognised"
  }

  function KeyNotRecognised(keyName: string, roleName: string): string
  {
    "Key name " + Quote(keyName) + " for role name " + Quote(roleName) + " not recognized"
  }

  /** The TTL `issueToken` passes on: a zero request takes the role's default,
      and the result is then clipped to the role's maximum, silently. */
  function EffectiveTtl(requested: int, tokenTtl: int, maxTokenTtl: int): (ttl: int)
    ensures ttl <= maxTokenTtl
    ensures requested == 0 ==> ttl == (if tokenTtl > maxTokenTtl then maxTokenTtl else tokenTtl)
    ensures requested != 0 && requested > maxTokenTtl ==> ttl == maxTokenTtl
    ensures requested != 0 && requested <= maxTokenTtl ==> ttl == requested
  {
    var t := if requested == 0 then tokenTtl else requested;
    if t > maxTokenTtl then maxTokenTtl else t
  }

  /** The handler of `token/issue/<role_name>`. The role must resolve before
      its key is looked up, and the key before the request is decoded; only
      then is the TTL resolved, in place, and the token created. */
  method IssueToken(b: Backend, req: IssueRequest) returns (reply: Reply<Payload>, calls: seq<Call>)
    ensures |calls| >= 1 && calls[0] == GetRoleEntry(req.roleName)
    ensures !b.getRoleEntry(req.roleName).Found? ==>
      var msg := RoleNotRecognised(req.roleName);
      reply == Reply(ErrorResponse(msg), Some(Error(msg))) && calls == [GetRoleEntry(req.roleName)]
    ensures b.getRoleEntry(req.roleName).Found? ==>
      var role := b.getRoleEntry(req.roleName).value;
      |calls| >= 2 && calls[1] == GetKeyEntry(role.key) &&
      (!b.getKeyEntry(role.key).Found? ==>
        var msg := KeyNotRecognised(role.key, req.roleName);
        reply == Reply(ErrorResponse(msg), Some(Error(msg))) && |calls| == 2) &&
      (b.getKeyEntry(role.key).Found? && req.decoded.Err? ==>
        reply == Reply(ErrorResponse("Error decoding token"), Some(req.decoded.error)) && |calls| == 2) &&
      (b.getKeyEntry(role.key).Found? && req.decoded.Ok? ==>
        var entry := req.decoded.value;
        calls == [GetRoleEntry(req.roleName), GetKeyEntry(role.key),
                  CreateToken(entry.(ttl := EffectiveTtl(entry.ttl, role.tokenTtl, role.maxTokenTtl)),
                              role, b.getKeyEntry(role.key).value)])
    ensures forall c :: c in calls && c.CreateToken? ==>
      c.entry.ttl <= c.role.maxTokenTtl &&
      c.entry == req.decoded.value.(ttl := EffectiveTtl(req.decoded.value.ttl, c.role.tokenTtl, c.role.maxTokenTtl))
    ensures |calls| <= 3
    ensures |calls| == 3 ==>
      calls[2].CreateToken? &&
      match b.createToken(calls[2].entry, calls[2].role, calls[2].key)
      case Ok(token) => reply == Reply(DataResponse(IssuedToken(token)), None)
      case Err(e) => reply == Reply(ErrorResponse("Error creating token, " + e.message), Some(e))
    ensures reply.Reply? && reply.response.DataResponse? ==> |calls| == 3
  {
    calls := [GetRoleEntry(req.roleName)];
    var roleLookup := b.getRoleEntry(req.roleName);
    if !roleLookup.Found? {
      var msg := RoleNotRecognised(req.roleName);
      reply := Reply(ErrorResponse(msg), Some(Error(msg)));
      return;
    }
    var role := roleLookup.value;

    calls := calls + [GetKeyEntry(role.key)];
    var keyLookup := b.getKeyEntry(role.key);
    if !keyLookup.Found? {
      var msg := KeyNotRecognised(role.key, req.roleName);
      reply := Reply(ErrorResponse(msg), Some(Error(msg)));
      return;
    }

    if req.decoded.Err? {
      reply := Reply(ErrorResponse("Error decoding token"), Some(req.decoded.error));
      return;
    }
    var tokenEntry := req.decoded.value;

    if tokenEntry.ttl == 0 {
      // no TTL requested: take the role's default
      tokenEntry := tokenEntry.(ttl := role.tokenTtl);
    }
    if tokenEntry.ttl > role.maxTokenTtl {
      // over the ceiling: clip
      tokenEntry := tokenEntry.(ttl := role.maxTokenTtl);
    }

    calls := calls + [CreateToken(tokenEntry, role, keyLookup.value)];
    match b.createToken(tokenEntry, role, keyLookup.value)
    case Err(e) =>
      reply := Reply(ErrorResponse("Error creating token, " + e.message), Some(e));
    case Ok(token) =>
      reply := Reply(DataResponse(IssuedToken(token)), None);
  }

  /** The request to `token/validate/<role_name>`. */
  datatype ValidateRequest = ValidateRequest(roleName: string, token: string)

  /** This variant's `validateToken` is a stub: it reports every token valid. */
  function ValidateToken(req: ValidateRequest): (r: Reply<Payload>)
    ensures r.Reply? && r.err == None && r.response == DataResponse(Validation(true))
  {
    Reply(DataResponse(Validation(true)), None)
  }

  /** `strings.Index(s, string(c))`: the first position of `c`, or -1. */
  function Index(s: string, c: char): (i: int)
    ensures -1 <= i < |s|
    ensures i == -1 <==> c !in s
    ensures i >= 0 ==> s[i] == c && c !in s[..i]
  {
    if |s| == 0 then -1
    else if s[0] == c then 0
    else
      var j := Index(s[1..], c);
      assert s[1..][..(if j >= 0 then j else 0)] == s[1..1 + (if j >= 0 then j else 0)];
      if j == -1 then -1 else j + 1
  }

  /** `getRoleName`: everything after the first dash of a display name, or
      the whole name when it has no dash. */
  function GetRoleName(displayName: string): (r: string)
    ensures '-' !in displayName ==> r == displayName
    ensures '-' in displayName ==>
      var p := |displayName| - |r| - 1;
      0 <= p && displayName == displayName[..p] + "-" + r && '-' !in displayName[..p]
  {
    var index := Index(displayName, '-');
    if index != -1 then
      assert displayName == displayName[..index] + "-" + displayName[index + 1..];
      displayName[index + 1..]
    else displayName
  }

  /** `contains`: a linear search that stops at the first match. */
  function Contains(elems: seq<string>, value: string): (found: bool)
    ensures found <==> exists i :: 0 <= i < |elems| && elems[i] == value
  {
    if |elems| == 0 then false
    else if elems[0] == value then true
    else
      assert forall i :: 1 <= i < |elems| ==> elems[i] == elems[1..][i - 1];
      Contains(elems[1..], value)
  }
}
