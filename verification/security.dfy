/** Request authentication (`ApiKeyAuth`): the `X-API-Key` header is validated
    against the key store, and then the key's permissions are checked against
    the ones the route requires, with `admin` granting everything. */
module Security {
  import opened Base
  import opened ApiKeys

  /** An `HTTPException`: status code, detail, and whether it carries the
      `WWW-Authenticate: ApiKey` challenge header. */
  datatype HttpError = HttpError(status: int, detail: string, challenge: bool)

  const HeaderMissing: HttpError := HttpError(401, "API Key header is missing", true)
  const InvalidKey: HttpError := HttpError(403, "Invalid or expired API key", true)
  const NotActive: HttpError := HttpError(403, "API key is not active", false)

  /** The 403 listing the missing permissions, comma separated, in required order. */
  function MissingPermissionsError(missing: seq<string>): HttpError
  {
    HttpError(403, "Missing required permissions: " + Join(", ", missing), false)
  }

  /** The permission that bypasses every other permission check. */
  const Admin: string := "admin"

  /** An `ApiKeyAuth` dependency; `None` is a route with no permission requirement. */
  datatype ApiKeyAuth = ApiKeyAuth(requiredPermissions: Option<seq<string>>)

  /** `get_api_key`: any valid active key. */
  const AnyValidKey: ApiKeyAuth := ApiKeyAuth(None)

  /** `require_permissions(permissions)`. */
  function RequirePermissions(permissions: seq<string>): (auth: ApiKeyAuth)
    ensures forall key: ApiKey :: key.status == Active ==>
      (CheckKey(auth, key).Success? <==> Admin in key.permissions || forall p :: p in permissions ==> p in key.permissions)
  {
    ApiKeyAuth(Some(permissions))
  }

  /** The required permissions the key does not hold, in the order they were required. */
  function MissingPermissions(required: seq<string>, held: seq<string>): (missing: seq<string>)
    ensures forall p :: p in missing <==> p in required && p !in held
    ensures |missing| <= |required|
    ensures missing == [] <==> forall p :: p in required ==> p in held
    decreases |required|
  {
    if |required| == 0 then []
    else
      var rest := MissingPermissions(required[1..], held);
      assert forall p :: p in required <==> p == required[0] || p in required[1..];
      if required[0] in held then rest else [required[0]] + rest
  }

  /** The comprehension distributes over concatenation, so the order of the required
      list is kept. */
  lemma {:induction false} MissingPermissionsAppend(a: seq<string>, b: seq<string>, held: seq<string>)
    ensures MissingPermissions(a + b, held) == MissingPermissions(a, held) + MissingPermissions(b, held)
    decreases |a|
  {
    if |a| == 0 {
      assert a + b == b;
    } else {
      assert (a + b)[0] == a[0];
      assert (a + b)[1..] == a[1..] + b;
      MissingPermissionsAppend(a[1..], b, held);
    }
  }

  /** Whether a key passes the permission check of `auth`. */
  predicate Authorised(auth: ApiKeyAuth, permissions: seq<string>)
  {
    || Admin in permissions
    || auth.requiredPermissions.None?
    || forall p :: p in auth.requiredPermissions.value ==> p in permissions
  }

  /** The checks `__call__` makes once a key has been found: status, then the admin
      bypass, then the required permissions (an empty list requires nothing). */
  function CheckKey(auth: ApiKeyAuth, key: ApiKey): (r: Result<ApiKey, HttpError>)
    ensures r.Success? ==> r.value == key
    ensures r.Success? <==> key.status == Active && Authorised(auth, key.permissions)
    ensures key.status != Active ==> r == Failure(NotActive)
    ensures key.status == Active && !Authorised(auth, key.permissions) ==>
      && auth.requiredPermissions.Some?
      && MissingPermissions(auth.requiredPermissions.value, key.permissions) != []
      && r == Failure(MissingPermissionsError(MissingPermissions(auth.requiredPermissions.value, key.permissions)))
  {
    if key.status != Active then Failure(NotActive)
    else if Admin in key.permissions then Success(key)
    else if auth.requiredPermissions.Some? && auth.requiredPermissions.value != [] then
      var missing := MissingPermissions(auth.requiredPermissions.value, key.permissions);
      if missing != [] then Failure(MissingPermissionsError(missing)) else Success(key)
    else Success(key)
  }

  /** An empty requirement list is falsy in the source and requires nothing. */
  lemma EmptyRequirementIsNone(key: ApiKey)
    ensures CheckKey(RequirePermissions([]), key) == CheckKey(AnyValidKey, key)
  {
  }

  /** An active admin key passes every permission check. */
  lemma AdminBypass(auth: ApiKeyAuth, key: ApiKey)
    requires key.status == Active && Admin in key.permissions
    ensures CheckKey(auth, key) == Success(key)
  {
  }

  /** The result of `__call__` together with the store after the `last_used` update. */
  datatype AuthOutcome = AuthOutcome(result: Result<ApiKey, HttpError>, store: Store)

  /** `ApiKeyAuth.__call__`: `header` is the header's value, `None` when it is absent. */
  function Authenticate(auth: ApiKeyAuth, header: Option<string>, store: Store, hash: Hash, now: int): (o: AuthOutcome)
    ensures header.None? || header == Some("") ==> o == AuthOutcome(Failure(HeaderMissing), store)
    ensures header.Some? && header != Some("") ==>
      var v := ValidateApiKey(store, header.value, hash, now);
      && o.store == v.store
      && (v.key.None? <==> o.result == Failure(InvalidKey))
      && (v.key.Some? ==> o.result == CheckKey(auth, v.key.value))
    ensures o.result.Success? ==> o.result.value.status == Active && Authorised(auth, o.result.value.permissions)
  {
    if header.None? || header.value == "" then AuthOutcome(Failure(HeaderMissing), store)
    else
      var v := ValidateApiKey(store, header.value, hash, now);
      match v.key
      case None => AuthOutcome(Failure(InvalidKey), v.store)
      case Some(key) =>
        var r := CheckKey(auth, key);
        assert r != Failure(InvalidKey);
        AuthOutcome(r, v.store)
  }

  /** The "not active" rejection cannot happen: validation only ever finds active keys. */
  lemma NotActiveUnreachable(auth: ApiKeyAuth, header: Option<string>, store: Store, hash: Hash, now: int)
    ensures Authenticate(auth, header, store, hash, now).result != Failure(NotActive)
  {
    if header.Some? && header.value != "" {
      var v := ValidateApiKey(store, header.value, hash, now);
      if v.key.Some? {
        assert v.key.value.status == Active;
      }
    }
  }

  /** End to end: the string handed out for a freshly created key authenticates for a
      route requiring `required` exactly when the key was created with `admin` or with
      every required permission, and the stored key's `last_used` is set either way. */
  lemma CreatedKeyAuthenticates(store: Store, name: string, permissions: seq<string>, createdBy: Option<string>,
                                objectId: string, choice: nat -> nat, hash: Hash, created: int, now: int,
                                required: seq<string>)
    requires IsObjectIdHex(objectId)
    requires forall k :: k in store ==> k.keyId != objectId
    ensures var c := CreateApiKey(store, name, permissions, createdBy, objectId, choice, hash, created);
      var o := Authenticate(RequirePermissions(required), Some(c.token), c.store, hash, now);
      && (o.result.Success? <==> Admin in permissions || forall p :: p in required ==> p in permissions)
      && o.store == store + [c.key.(lastUsed := Some(now))]
  {
    var c := CreateApiKey(store, name, permissions, createdBy, objectId, choice, hash, created);
    CreateThenValidate(store, name, permissions, createdBy, objectId, choice, hash, created, now);
    assert c.token != "" by {
      assert '.' in c.token;
    }
  }
}
