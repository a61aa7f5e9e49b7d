# vault_jwt_plugin: token issuance and validation policy, in Dafny

This project models the token paths of a HashiCorp Vault secrets plugin that
issues and validates JSON Web Tokens for named roles. Two variants of the
plugin are modelled side by side, each as written:

- `JWT-Secrets-Plugin/plugin/path_issue.go` (module `Issue`): `issueToken`
  looks up the role, then the role's key, decodes the request, resolves the
  requested TTL against the role (a zero TTL takes the role's `TokenTTL`, and
  the result is clipped to `MaxTokenTTL`), and hands the request to
  `createToken`. This variant's `validateToken` is a stub that reports every
  token valid. `getRoleName` and `contains` are string helpers.
- `plugin/` (modules `JwtBackend`, `Token`, `PathToken`): `createToken` checks
  the salted HMAC of the caller's `role_id` against the role's stored HMAC and
  forces the TTL to the role's `TokenTTL`. `createTokenEntry` lower-cases the
  token type and dispatches over `"jwt"`, `"jws"` and everything else.
  `createJwtToken` merges caller claims into the role's own claim map when the
  role allows custom claims. It sets the `exp` claim (section 4.1.4 of RFC 7519)
  to now plus the TTL. It reads the role's secret, or rotates it when none is
  stored, and serialises the token with it. `validateToken` parses the token
  and takes the role name from the request or the token's `roleName` claim. It
  then reads the role's secret, never rotating it, and validates the signature.
  `pathToken` gives both paths the union of the two field schemas.

Collaborators are function-typed fields of a `Backend` value: the other
variant's `createToken` (so that variant's claims, `exp` and signing are not
modelled), role, key and secret storage, secret rotation, the backend salt's HMAC, and the JWT library's
parse, validate and serialise (HS256, section 3.2 of RFC 7518). The current time
is a parameter `now`, in seconds since the epoch; validation passes it to the
library, which checks the signature and the `exp` claim. Request decoding is an input
of type `Result<TokenCreateEntry>`. Every flow returns the collaborator calls
it made, in order (`Traced(result, calls)`). This lets the contracts say which
calls happen, and in which order, as well as what is answered. A handler's
answer is a `Reply`: a response plus an optional Go error. Where the Go code
would dereference a nil pointer or fail a type assertion, the answer is a
`Panic`.

`plugin/`'s `RoleStorageEntry` is the class `JwtBackend.RoleEntry`. Its `claims`
map is updated in place by `Token.CreateJwtToken`. `PathToken.CreateToken`
allocates a fresh entry per request, on the assumption stated under
"## Left out". The loop
`for k, v := range src { dst[k] = v }` appears three times in the source. It is
modelled once, as `GoMaps.Overlay`.

Behaviour of the code worth noting:

- A signature that fails validation gives the error response `"Invalid Token"`
  with the library's error, not `is_valid: false`.
- A role that `getRoleEntry` reports absent without an error is dereferenced by
  `plugin/` (a panic), not reported as "not found".
- `createJwtToken` mutates the role's claim map rather than composing a new one.
- `plugin/`'s `createToken` does not clip the TTL. It always uses the role's
  `TokenTTL`. Clipping to the maximum happens only in the other variant.
- In the other variant, "a request above the maximum becomes the maximum" holds
  for every nonzero request. A zero request takes the default, then clipped.
  With a negative maximum, zero is itself above the maximum.
- The HMAC comparison is a plain `!=`.

## Model

| member | source | states |
|---|---|---|
| `Issue.EffectiveTtl` | JWT-Secrets-Plugin/plugin/path_issue.go:67-75 | the effective TTL never exceeds `MaxTokenTTL`; a zero request gives the role default clipped to the maximum; a nonzero request above the maximum gives exactly the maximum; a nonzero request within it passes unchanged |
| `Issue.IssueToken` | JWT-Secrets-Plugin/plugin/path_issue.go:45-88 | a missing or failed role lookup answers "Role name … not recognised" before any key lookup; a missing key answers before decoding or token creation; a decode failure answers "Error decoding token"; otherwise `createToken` is called exactly once, with the decoded entry whose TTL is `EffectiveTtl` (so at most `MaxTokenTTL`), and its token or error is answered |
| `Issue.ValidateToken` | JWT-Secrets-Plugin/plugin/path_issue.go:91-102 | every request is answered `is_valid: true` with no error |
| `Issue.Index` | JWT-Secrets-Plugin/plugin/path_issue.go:166-167 | the position of the first occurrence of the character, -1 exactly when it does not occur |
| `Issue.GetRoleName` | JWT-Secrets-Plugin/plugin/path_issue.go:165-172 | without a dash the name is returned unchanged; with one, the name is a dash-free prefix, a dash, then the result |
| `Issue.Contains` | JWT-Secrets-Plugin/plugin/path_issue.go:174-182 | true exactly when some element equals the value |
| `GoMaps.Overlay` | plugin/token.go:33-40 | the copy loop yields every key of both maps, the source map's value winning on shared keys and the destination's kept elsewhere |
| `Token.ToLower` | plugin/token.go:64 | lower-casing keeps the length and lower-cases each ASCII letter in place |
| `Token.ToLowerIdempotent` | plugin/token.go:64 | lower-casing an already lower-cased type changes nothing |
| `Token.LowerEqualsFold` | plugin/token.go:64-70 | comparing the lower-cased type with a lower-case literal is equality up to ASCII case |
| `Token.ClassifyTokenType` | plugin/token.go:63-74 | the type selects `jwt` exactly when it equals "jwt" up to case, `jws` exactly when it equals "jws" up to case, and is otherwise unsupported under its lower-cased name |
| `Token.MergedClaims` | plugin/token.go:31-40 | without `AllowCustomClaims` the claims are the role's; with it, every key of either map, the caller's value winning on shared keys and the role's kept for the rest |
| `Token.SetExpiration` | plugin/token.go:42 | the claim set's `exp` is the given time and no copied claim named `exp` survives; every other claim is kept |
| `Token.AcquireSecret` | plugin/token.go:46-55 | the secret is read first; a found secret is used as-is and no rotation happens; a read error is returned with no rotation; only a read that finds nothing rotates, exactly once, with the role's `RoleID`, `SecretID` and `SecretTTL`, and a rotation error is returned |
| `Token.CreateJwtTokenSpec` | plugin/token.go:28-61 | the token succeeds exactly when a secret is acquired; it serialises the merged claims with `exp = now + TTL` under the acquired key, a role or caller claim named `exp` being overwritten, and answers `{"ClientToken": …}`; on failure nothing is serialised |
| `Token.CreateJwtToken` | plugin/token.go:28-61 | the role's claim map is merged in place (caller claims win, other role claims keep their values) and the result and calls are those of `CreateJwtTokenSpec` for the role's value on entry |
| `Token.CreateTokenEntrySpec` | plugin/token.go:63-74 | "jws" in any case answers no output and no error with no calls; "jwt" in any case creates the JWT; any other type is the error "unsupported token type" plus the lower-cased type, with no calls; output exists only for "jwt" |
| `Token.TokenTypeCaseInsensitive` | plugin/token.go:63-66 | lower-casing the requested token type first does not change the outcome |
| `Token.CreateTokenEntry` | plugin/token.go:63-74 | answers as `CreateTokenEntrySpec`; the role's claims are merged only when the type is "jwt" up to case |
| `PathToken.ValidateToken` | plugin/path_token.go:51-90 | a parse failure answers "unable to parse token" with no further calls; the role name used is the supplied one, or the token's `roleName` claim when it is empty, a missing claim panicking; a failed role lookup answers "unable to retrieve role details" with its error, and an absent role panics; the signature and expiry are checked at the given time; validation never rotates or signs; `is_valid: true` exactly when parse, role lookup, secret read and signature check all succeed; `is_valid: false` exactly when the role resolves and no secret is stored; a failed secret read or signature check is an error response |
| `PathToken.CreateTokenSpec` | plugin/path_token.go:93-122 | a failed role lookup answers "Role note recognised" with a nil error; an absent role panics after the HMAC is computed; an HMAC mismatch answers "unauthorized access" with a nil error and no secret, rotation or signing calls; any serialised token carries `exp = now + TokenTTL` of the role whatever the request asked; a decode failure answers "Error decoding role" and a `createTokenEntry` error "Error creating token", each with the error; a created entry is answered as its output with a nil error, and a token is answered only after the HMAC matched and the entry was created |
| `PathToken.CreateToken` | plugin/path_token.go:93-122 | answers and calls exactly as `CreateTokenSpec` |
| `PathToken.IssueThenValidate` | plugin/path_token.go:51-122 | a token issued at `now` for a role whose secret is stored validates as `is_valid: true` against that role at any time before `now + TokenTTL`, given that the JWT library verifies what it signs before its `exp` |
| `PathToken.PathTokenSchema` | plugin/path_token.go:124-132 | the schema has every key of the create and validate schemas, and the validate schema's entry wins on `role_name` |

## Left out

- Vault framework plumbing: path patterns, callbacks, `FieldData.Get` and the
  `framework.FieldSchema` declarations of the other variant, whose `pathToken`
  only registers paths.
- `mapstructure.Decode`: its outcome is an input of the handlers.
- The bodies of `getRoleEntry`, `getKeyEntry`, `readSecret`, `rotateSecret`,
  the salt's `GetHMAC`, the JWT library and the other variant's `createToken`:
  they are function parameters.
- Token.AcquireSecret: `rotateSecret` is assumed to return a non-nil secret
  whenever it returns no error; a `(nil, nil)` rotation, on which Go panics
  when the token is serialised, is not modelled.
  Rotation's write to storage is therefore not visible to later lookups.
- The ignored errors of `backend.Salt()` and `token.Serialize`: the salt is
  assumed available and serialisation is a total function.
- `time.Now()`: a parameter in whole seconds.
- JwtBackend.RoleEntry: the body of `getRoleEntry` is not part of this model;
  it is assumed to decode a fresh `*RoleStorageEntry` per call. Were the
  pointer shared between requests, the in-place merge of caller claims would
  carry them into later requests, which the model does not capture.
- Strings are sequences of characters, not bytes: `Issue.Index` returns a
  character offset where `strings.Index` returns a byte offset (the result of
  `getRoleName` is the same), and invalid UTF-8 cannot be represented.
- Claims other than `exp` are strings; `exp` is a whole number of seconds.
- Token.CreateJwtTokenSpec: `exp` is `now + TTL` in unbounded integers; the
  int64 nanosecond overflow of `time.Duration(TTL) * time.Second` for TTLs
  beyond about 292 years is not modelled.
- Token.CreateJwtToken: a nil `roleEntry.Claims` map, on which Go panics when
  a caller claim is written, is not distinguished from an empty map.
- PathToken.ValidateToken: claims are modelled as strings, so a `roleName`
  claim of another JSON type (a panic in Go) is not modelled.
- Issue.IssueToken: `%q` is modelled as plain double quotes without Go's
  escaping, and `%#v` of the creation error as the error's text. The
  key-not-recognised message is passed to `fmt.Errorf` as a format string
  after being formatted once, so a `%` in a key name is read as a verb again
  (key `k%s` gives `"k%!s(MISSING)"`); `KeyNotRecognised` keeps the key as
  written. Role names cannot contain `%`, as the path pattern admits only
  word characters, `.` and `-`.
- Token.ToLower: Unicode case mapping is restricted to ASCII.
- The other variant's `refreshToken`: its live body only answers an empty
  response; its commented-out flow is dead code.
- Concurrent issuers racing to rotate the same secret: the model is sequential.
- Constant-time comparison of HMACs cannot be stated; the source compares with `!=`.
