/** API key issuance and lookup (`ApiKeyService`) over an abstract record store.
    The store is the collection's documents in natural order, the hash stands for
    SHA-256 of the raw key, the random generator is a choice function, and the time
    stamp is a parameter. */
module ApiKeys {
  import opened Base

  /** `ApiKeyStatus`. */
  datatype Status = Active | Revoked | Expired

  /** One stored document, with the fields of `ApiKey`. */
  datatype ApiKey = ApiKey(
    keyId: string,
    name: string,
    hashedKey: string,
    status: Status,
    createdAt: int,
    permissions: seq<string>,
    lastUsed: Option<int>,
    createdBy: Option<string>)

  type Store = seq<ApiKey>

  /** The key hash, `sha256(key).hexdigest()`, left uninterpreted. */
  type Hash = string -> string

  ghost predicate UniqueIds(store: Store)
  {
    forall i, j :: 0 <= i < |store| && 0 <= j < |store| && store[i].keyId == store[j].keyId ==> i == j
  }

  predicate IsAlnum(c: char)
  {
    'a' <= c <= 'z' || 'A' <= c <= 'Z' || '0' <= c <= '9'
  }

  /** `string.ascii_letters + string.digits`. */
  const Alphabet: string :=
    seq(26, i requires 0 <= i < 26 => (97 + i) as char)
    + seq(26, i requires 0 <= i < 26 => (65 + i) as char)
    + seq(10, i requires 0 <= i < 10 => (48 + i) as char)

  lemma AlphabetIsAlnum()
    ensures |Alphabet| == 62
    ensures forall i :: 0 <= i < |Alphabet| ==> IsAlnum(Alphabet[i])
  {
  }

  const DefaultKeyLength: int := 32

  /** `_generate_key(length)`: character i is `secrets.choice(alphabet)`, here the
      alphabet entry `choice(i)` picks. */
  function GenerateKey(length: int, choice: nat -> nat): (key: string)
    ensures |key| == if length < 0 then 0 else length
    ensures forall i :: 0 <= i < |key| ==> IsAlnum(key[i])
    ensures '.' !in key
    decreases length
  {
    AlphabetIsAlnum();
    if length <= 0 then []
    else GenerateKey(length - 1, choice) + [Alphabet[choice(length - 1) % |Alphabet|]]
  }

  predicate IsHexDigit(c: char)
  {
    '0' <= c <= '9' || 'a' <= c <= 'f'
  }

  /** `str(ObjectId())`: 24 lower-case hexadecimal digits. */
  predicate IsObjectIdHex(s: string)
  {
    |s| == 24 && forall i :: 0 <= i < |s| ==> IsHexDigit(s[i])
  }

  lemma ObjectIdHasNoDot(s: string)
    requires IsObjectIdHex(s)
    ensures '.' !in s
  {
    assert forall i :: 0 <= i < |s| ==> IsHexDigit(s[i]);
  }

  /** `token.split(".", 1)` unpacked into two names; `None` when there is no '.', where
      the unpacking raises. */
  function SplitKey(token: string): (parts: Option<(string, string)>)
    ensures parts.None? <==> '.' !in token
    ensures parts.Some? ==> token == parts.value.0 + "." + parts.value.1 && '.' !in parts.value.0
    decreases |token|
  {
    if |token| == 0 then None
    else if token[0] == '.' then Some(([], token[1..]))
    else
      match SplitKey(token[1..])
      case None => None
      case Some(p) => Some(([token[0]] + p.0, p.1))
  }

  /** Splitting at the first '.' undoes joining with a '.' whenever the first part has none. */
  lemma {:induction false} SplitKeyJoin(a: string, b: string)
    requires '.' !in a
    ensures SplitKey(a + "." + b) == Some((a, b))
    decreases |a|
  {
    if |a| > 0 {
      assert (a + "." + b)[1..] == a[1..] + "." + b;
      SplitKeyJoin(a[1..], b);
      assert [a[0]] + a[1..] == a;
    }
  }

  /** Index of the first document satisfying `p`, as MongoDB's single-document operations pick it. */
  function FirstIndex(store: Store, p: ApiKey -> bool): (r: Option<nat>)
    ensures r.None? <==> forall j :: 0 <= j < |store| ==> !p(store[j])
    ensures r.Some? ==> r.value < |store| && p(store[r.value]) && forall j :: 0 <= j < r.value ==> !p(store[j])
    decreases |store|
  {
    if |store| == 0 then None
    else if p(store[0]) then Some(0)
    else
      assert forall j :: 1 <= j < |store| ==> store[j] == store[1..][j - 1];
      match FirstIndex(store[1..], p)
      case None => None
      case Some(i) => Some(i + 1)
  }

  /** The outcome of `create_api_key`: the string handed to the caller, the new
      document, and the store after the insert. */
  datatype Created = Created(token: string, key: ApiKey, store: Store)

  /** `create_api_key(key_data, created_by)`: `objectId` is the fresh `ObjectId`,
      `choice` drives the key generator and `now` is the creation time. */
  function CreateApiKey(store: Store, name: string, permissions: seq<string>, createdBy: Option<string>,
                        objectId: string, choice: nat -> nat, hash: Hash, now: int): (c: Created)
    requires IsObjectIdHex(objectId)
    ensures c.store == store + [c.key]
    ensures c.key == ApiKey(objectId, name, c.key.hashedKey, Active, now, permissions, None, createdBy)
    ensures c.key.hashedKey == hash(GenerateKey(DefaultKeyLength, choice))
    ensures SplitKey(c.token).Some?
    ensures var parts := SplitKey(c.token).value;
      && parts.0 == objectId
      && parts.1 == GenerateKey(DefaultKeyLength, choice)
      && hash(parts.1) == c.key.hashedKey
      && |parts.1| == DefaultKeyLength
      && forall i :: 0 <= i < |parts.1| ==> IsAlnum(parts.1[i])
  {
    var raw := GenerateKey(DefaultKeyLength, choice);
    var key := ApiKey(objectId, name, hash(raw), Active, now, permissions, None, createdBy);
    ObjectIdHasNoDot(objectId);
    SplitKeyJoin(objectId, raw);
    Created(objectId + "." + raw, key, store + [key])
  }

  /** A fresh key id keeps the ids unique. */
  lemma CreateKeepsIdsUnique(store: Store, name: string, permissions: seq<string>, createdBy: Option<string>,
                             objectId: string, choice: nat -> nat, hash: Hash, now: int)
    requires IsObjectIdHex(objectId)
    requires UniqueIds(store)
    requires forall k :: k in store ==> k.keyId != objectId
    ensures UniqueIds(CreateApiKey(store, name, permissions, createdBy, objectId, choice, hash, now).store)
  {
    var s := CreateApiKey(store, name, permissions, createdBy, objectId, choice, hash, now).store;
    forall i, j | 0 <= i < |s| && 0 <= j < |s| && s[i].keyId == s[j].keyId
      ensures i == j
    {
      if i < |store| {
        assert s[i] in store;
      }
      if j < |store| {
        assert s[j] in store;
      }
    }
  }

  /** A document `validate_api_key` accepts for key id `keyId` and hashed key `hashed`. */
  predicate Matches(k: ApiKey, keyId: string, hashed: string)
  {
    k.keyId == keyId && k.hashedKey == hashed && k.status == Active
  }

  /** The outcome of `validate_api_key`: the document found, if any, and the store after
      the `last_used` update. */
  datatype Validation = Validation(key: Option<ApiKey>, store: Store)

  /** `validate_api_key(api_key)` at time `now`: `find_one_and_update` on key id,
      hash and status, returning the document after its `last_used` is set. */
  function ValidateApiKey(store: Store, token: string, hash: Hash, now: int): (v: Validation)
    ensures '.' !in token ==> v == Validation(None, store)
    ensures v.key.None? ==> v.store == store
    ensures v.key.Some? <==>
      SplitKey(token).Some? && exists i :: 0 <= i < |store| && Matches(store[i], SplitKey(token).value.0, hash(SplitKey(token).value.1))
    ensures v.key.Some? ==>
      && SplitKey(token).Some?
      && Matches(v.key.value, SplitKey(token).value.0, hash(SplitKey(token).value.1))
      && v.key.value.lastUsed == Some(now)
      && exists i ::
        && 0 <= i < |store|
        && Matches(store[i], SplitKey(token).value.0, hash(SplitKey(token).value.1))
        && v.key.value == store[i].(lastUsed := Some(now))
        && v.store == store[i := v.key.value]
  {
    match SplitKey(token)
    case None => Validation(None, store)
    case Some(parts) =>
      var hashed := hash(parts.1);
      match FirstIndex(store, (k: ApiKey) => Matches(k, parts.0, hashed))
      case None => Validation(None, store)
      case Some(i) =>
        var updated := store[i].(lastUsed := Some(now));
        Validation(Some(updated), store[i := updated])
  }

  /** Round trip: the string `create_api_key` hands out validates to the new document,
      whose `last_used` is then set; nothing else in the store changes. */
  lemma CreateThenValidate(store: Store, name: string, permissions: seq<string>, createdBy: Option<string>,
                           objectId: string, choice: nat -> nat, hash: Hash, created: int, now: int)
    requires IsObjectIdHex(objectId)
    requires forall k :: k in store ==> k.keyId != objectId
    ensures var c := CreateApiKey(store, name, permissions, createdBy, objectId, choice, hash, created);
      var v := ValidateApiKey(c.store, c.token, hash, now);
      && v.key == Some(c.key.(lastUsed := Some(now)))
      && v.store == store + [c.key.(lastUsed := Some(now))]
  {
    var c := CreateApiKey(store, name, permissions, createdBy, objectId, choice, hash, created);
    var parts := SplitKey(c.token).value;
    forall j | 0 <= j < |store|
      ensures !Matches(store[j], parts.0, hash(parts.1))
    {
      assert store[j] in store;
    }
    ValidateFindsLast(store, c.key, c.token, hash, now);
  }

  /** A token matching only the newest document validates to that document. */
  lemma ValidateFindsLast(store: Store, key: ApiKey, token: string, hash: Hash, now: int)
    requires SplitKey(token).Some?
    requires Matches(key, SplitKey(token).value.0, hash(SplitKey(token).value.1))
    requires forall j :: 0 <= j < |store| ==> !Matches(store[j], SplitKey(token).value.0, hash(SplitKey(token).value.1))
    ensures ValidateApiKey(store + [key], token, hash, now)
         == Validation(Some(key.(lastUsed := Some(now))), store + [key.(lastUsed := Some(now))])
  {
    var s := store + [key];
    var parts := SplitKey(token).value;
    var v := ValidateApiKey(s, token, hash, now);
    assert Matches(s[|store|], parts.0, hash(parts.1));
    var i :| 0 <= i < |s| && Matches(s[i], parts.0, hash(parts.1))
      && v.key.value == s[i].(lastUsed := Some(now)) && v.store == s[i := v.key.value];
    assert i == |store|;
  }

  /** A token carrying the right key id but a raw key whose digest differs from the
      generated key's is rejected; for a collision-free hash that is every other raw key. */
  lemma OtherRawKeyRejected(store: Store, name: string, permissions: seq<string>, createdBy: Option<string>,
                            objectId: string, choice: nat -> nat, hash: Hash, created: int, now: int, guess: string)
    requires IsObjectIdHex(objectId)
    requires forall k :: k in store ==> k.keyId != objectId
    requires hash(guess) != hash(GenerateKey(DefaultKeyLength, choice))
    ensures var c := CreateApiKey(store, name, permissions, createdBy, objectId, choice, hash, created);
      ValidateApiKey(c.store, objectId + "." + guess, hash, now).key.None?
  {
    var c := CreateApiKey(store, name, permissions, createdBy, objectId, choice, hash, created);
    ObjectIdHasNoDot(objectId);
    SplitKeyJoin(objectId, guess);
    forall i | 0 <= i < |store|
      ensures !Matches(store[i], objectId, hash(guess))
    {
      assert store[i] in store;
    }
    assert !Matches(c.key, objectId, hash(guess));
    assert forall i :: 0 <= i < |c.store| ==> c.store[i] == if i < |store| then store[i] else c.key;
  }

  /** `revoke_api_key(key_id)`: the first active document with that id becomes
      revoked; the result says whether one was modified. */
  function RevokeApiKey(store: Store, keyId: string): (r: (bool, Store))
    ensures r.0 <==> exists i :: 0 <= i < |store| && store[i].keyId == keyId && store[i].status == Active
    ensures !r.0 ==> r.1 == store
    ensures r.0 ==>
      exists i ::
        && 0 <= i < |store|
        && store[i].keyId == keyId && store[i].status == Active
        && r.1 == store[i := store[i].(status := Revoked)]
  {
    match FirstIndex(store, (k: ApiKey) => k.keyId == keyId && k.status == Active)
    case None => (false, store)
    case Some(i) => (true, store[i := store[i].(status := Revoked)])
  }

  /** Revoking twice: with unique ids the second revocation finds nothing to revoke. */
  lemma RevokeTwice(store: Store, keyId: string)
    requires UniqueIds(store)
    ensures !RevokeApiKey(RevokeApiKey(store, keyId).1, keyId).0
  {
    var r := RevokeApiKey(store, keyId);
    if r.0 {
      var i :| 0 <= i < |store| && store[i].keyId == keyId && store[i].status == Active
        && r.1 == store[i := store[i].(status := Revoked)];
      forall j | 0 <= j < |r.1|
        ensures !(r.1[j].keyId == keyId && r.1[j].status == Active)
      {
        if j != i {
          assert r.1[j] == store[j];
        }
      }
    }
  }

  /** `delete_api_key(key_id)`: removes the first document with that id. */
  function DeleteApiKey(store: Store, keyId: string): (r: (bool, Store))
    ensures r.0 <==> exists i :: 0 <= i < |store| && store[i].keyId == keyId
    ensures !r.0 ==> r.1 == store
    ensures r.0 ==>
      exists i :: 0 <= i < |store| && store[i].keyId == keyId && r.1 == store[..i] + store[i + 1..]
  {
    match FirstIndex(store, (k: ApiKey) => k.keyId == keyId)
    case None => (false, store)
    case Some(i) => (true, store[..i] + store[i + 1..])
  }

  /** Position j of the store with entry i removed holds the store's entry at j or j + 1. */
  lemma RemoveAtIndex(store: Store, i: nat, j: nat)
    requires i < |store| && j < |store| - 1
    ensures (store[..i] + store[i + 1..])[j] == store[if j < i then j else j + 1]
  {
  }

  /** Removing one entry keeps the ids unique and, with them unique, leaves no entry
      with the removed entry's id. */
  lemma RemoveAtUnique(store: Store, i: nat)
    requires i < |store| && UniqueIds(store)
    ensures UniqueIds(store[..i] + store[i + 1..])
    ensures forall k :: k in store[..i] + store[i + 1..] ==> k.keyId != store[i].keyId
  {
    var s := store[..i] + store[i + 1..];
    forall a, b | 0 <= a < |s| && 0 <= b < |s| && s[a].keyId == s[b].keyId
      ensures a == b
    {
      RemoveAtIndex(store, i, a);
      RemoveAtIndex(store, i, b);
    }
    forall k | k in s
      ensures k.keyId != store[i].keyId
    {
      var j :| 0 <= j < |s| && s[j] == k;
      RemoveAtIndex(store, i, j);
    }
  }

  /** With unique ids, nothing with the deleted id is left and the ids stay unique. */
  lemma DeleteRemovesId(store: Store, keyId: string)
    requires UniqueIds(store)
    ensures var s := DeleteApiKey(store, keyId).1;
      UniqueIds(s) && forall k :: k in s ==> k.keyId != keyId
  {
    var r := DeleteApiKey(store, keyId);
    if r.0 {
      var i :| 0 <= i < |store| && store[i].keyId == keyId && r.1 == store[..i] + store[i + 1..];
      RemoveAtUnique(store, i);
    } else {
      forall k | k in store
        ensures k.keyId != keyId
      {
        var j :| 0 <= j < |store| && store[j] == k;
      }
    }
  }

  /** `get_api_key(key_id)`: the first document with that id. */
  function GetApiKey(store: Store, keyId: string): (r: Option<ApiKey>)
    ensures r.None? <==> forall k :: k in store ==> k.keyId != keyId
    ensures r.Some? ==> r.value in store && r.value.keyId == keyId
  {
    match FirstIndex(store, (k: ApiKey) => k.keyId == keyId)
    case None => None
    case Some(i) => Some(store[i])
  }

  /** The documents with the given status, in store order. */
  function WithStatus(store: Store, status: Status): (r: Store)
    ensures forall k :: k in r <==> k in store && k.status == status
    ensures |r| <= |store|
    decreases |store|
  {
    if |store| == 0 then []
    else if store[0].status == status then [store[0]] + WithStatus(store[1..], status)
    else WithStatus(store[1..], status)
  }

  /** Filtering distributes over concatenation, so `WithStatus` keeps the store's
      order and each matching document exactly once. */
  lemma {:induction false} WithStatusAppend(a: Store, b: Store, status: Status)
    ensures WithStatus(a + b, status) == WithStatus(a, status) + WithStatus(b, status)
    decreases |a|
  {
    if |a| > 0 {
      assert (a + b)[0] == a[0];
      assert (a + b)[1..] == a[1..] + b;
      WithStatusAppend(a[1..], b, status);
    } else {
      assert a + b == b;
    }
  }

  /** The positions of the documents with the given status. */
  function StatusIndices(store: Store, status: Status): set<int>
  {
    set i | 0 <= i < |store| && store[i].status == status
  }

  /** Appending a document adds its position exactly when it has the status. */
  lemma StatusIndicesSnoc(p: Store, x: ApiKey, status: Status)
    ensures StatusIndices(p + [x], status) == StatusIndices(p, status) + (if x.status == status then {|p|} else {})
  {
    var s := p + [x];
    assert forall i :: 0 <= i < |p| ==> s[i] == p[i];
    assert s[|p|] == x;
  }

  /** The filtered store has one document per matching position. */
  lemma {:induction false} WithStatusCount(store: Store, status: Status)
    ensures |WithStatus(store, status)| == |StatusIndices(store, status)|
    decreases |store|
  {
    if |store| > 0 {
      var p := store[..|store| - 1];
      var x := store[|store| - 1];
      assert store == p + [x];
      WithStatusAppend(p, [x], status);
      assert [x][1..] == [];
      WithStatusCount(p, status);
      StatusIndicesSnoc(p, x, status);
      assert |p| !in StatusIndices(p, status);
    }
  }

  /** pymongo refuses a negative `skip` with a `ValueError`. */
  datatype PageError = NegativeSkip

  /** The most documents a cursor limit lets through: none for 0 (no limit), |limit| otherwise. */
  function LimitBound(limit: int): nat
  {
    if limit < 0 then -limit else limit
  }

  /** `.skip(skip).limit(limit)` applied to `items`. */
  function Page(items: Store, skip: nat, limit: int): (page: Store)
    ensures limit != 0 ==> |page| <= LimitBound(limit)
    ensures forall i :: 0 <= i < |page| ==> skip + i < |items| && page[i] == items[skip + i]
    ensures skip + |page| >= |items| || (limit != 0 && |page| == LimitBound(limit))
  {
    var from := if skip < |items| then skip else |items|;
    var available := |items| - from;
    var count := if limit == 0 || LimitBound(limit) > available then available else LimitBound(limit);
    items[from..from + count]
  }

  /** `find({"status": status}).skip(skip).limit(limit)`: a `limit` of 0 means no
      limit, and a negative one returns a single batch of at most |limit| documents. */
  function ListApiKeysByStatus(store: Store, status: Status, skip: int, limit: int): (r: Result<Store, PageError>)
    ensures r.Success? <==> skip >= 0
    ensures r.Success? ==>
      var matching := WithStatus(store, status);
      && (limit != 0 ==> |r.value| <= LimitBound(limit))
      && (forall i :: 0 <= i < |r.value| ==> skip + i < |matching| && r.value[i] == matching[skip + i])
      && (skip + |r.value| >= |matching| || (limit != 0 && |r.value| == LimitBound(limit)))
  {
    if skip < 0 then Failure(NegativeSkip)
    else Success(Page(WithStatus(store, status), skip, limit))
  }

  /** The `skip` and `limit` defaults of both listing calls. */
  const DefaultSkip: int := 0
  const DefaultLimit: int := 100

  /** `list_api_keys(skip, limit)`: the skip/limit window over the active documents. */
  function ListApiKeys(store: Store, skip: int, limit: int): (r: Result<Store, PageError>)
    ensures r.Success? <==> skip >= 0
    ensures r.Success? ==> forall k :: k in r.value ==> k in store && k.status == Active
    ensures r.Success? ==>
      var active := WithStatus(store, Active);
      && (limit != 0 ==> |r.value| <= LimitBound(limit))
      && (forall i :: 0 <= i < |r.value| ==> skip + i < |active| && r.value[i] == active[skip + i])
      && (skip + |r.value| >= |active| || (limit != 0 && |r.value| == LimitBound(limit)))
  {
    var r := ListApiKeysByStatus(store, Active, skip, limit);
    if r.Success? then
      assert forall k :: k in r.value ==> k in WithStatus(store, Active);
      r
    else r
  }

  /** Called with its defaults, `list_api_keys` returns the first hundred active
      documents, or all of them when there are fewer. */
  lemma DefaultListing(store: Store)
    ensures var active := WithStatus(store, Active);
      var n := if |active| < DefaultLimit then |active| else DefaultLimit;
      ListApiKeys(store, DefaultSkip, DefaultLimit) == Success(active[..n])
  {
    var active := WithStatus(store, Active);
    var r := ListApiKeys(store, DefaultSkip, DefaultLimit).value;
    var n := if |active| < DefaultLimit then |active| else DefaultLimit;
    assert |r| == n;
    assert r == active[..n];
  }

  /** Consecutive pages tile the listing: a page of n followed by everything after it
      is everything from the same start. */
  lemma PageTile(items: Store, skip: nat, n: nat)
    requires n > 0
    ensures Page(items, skip, n) + Page(items, skip + n, 0) == Page(items, skip, 0)
  {
    if skip < |items| && skip + n < |items| {
      assert items[skip..] == items[skip..skip + n] + items[skip + n..];
    }
  }

  lemma PagesTile(store: Store, status: Status, skip: int, n: int)
    requires skip >= 0 && n > 0
    ensures ListApiKeysByStatus(store, status, skip, n).value + ListApiKeysByStatus(store, status, skip + n, 0).value
         == ListApiKeysByStatus(store, status, skip, 0).value
  {
    PageTile(WithStatus(store, status), skip, n);
  }

  /** `count_api_keys(status)`: every document, or those with the given status. */
  function CountApiKeys(store: Store, status: Option<Status>): (n: nat)
    ensures n <= |store|
    ensures status.None? ==> n == |store|
    ensures status.Some? ==> (n == 0 <==> forall k :: k in store ==> k.status != status.value)
    ensures status.Some? ==> n == |StatusIndices(store, status.value)|
  {
    match status
    case None => |store|
    case Some(s) =>
      var matching := WithStatus(store, s);
      assert |matching| > 0 ==> matching[0] in matching;
      WithStatusCount(store, s);
      |matching|
  }

  /** Every document has exactly one of the three statuses. */
  lemma {:induction false} CountsAddUp(store: Store)
    ensures CountApiKeys(store, None)
         == CountApiKeys(store, Some(Active)) + CountApiKeys(store, Some(Revoked)) + CountApiKeys(store, Some(Expired))
    decreases |store|
  {
    if |store| > 0 {
      CountsAddUp(store[1..]);
    }
  }
}
