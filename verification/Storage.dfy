/** The tenant-scoped object store: one flat map of prefixed keys that behaves as a map per tenant. */
module Storage {
  import opened Text

  type Bytes = seq<bv8>

  datatype StoreError = InvalidKey | NotFound

  function TenantKeyPrefix(tenant: string): string {
    "tenant/" + (tenant + "/")
  }

  /** Keys a caller may use: not empty, absolute, tenant-prefixed, or with a parent segment. */
  predicate ValidKey(key: string) {
    key != "" && !("/" <= key) && !("tenant/" <= key) && ".." !in Split(key, "/")
  }

  function ObjectKey(tenant: string, key: string): Result<string, StoreError> {
    if ValidKey(key) then Ok(TenantKeyPrefix(tenant) + key) else Err(InvalidKey)
  }

  method BuildObjectKey(tenant: string, key: string) returns (r: Result<string, StoreError>)
    ensures r == ObjectKey(tenant, key)
  {
    if key == "" {
      return Err(InvalidKey);
    }
    if "/" <= key || "tenant/" <= key {
      return Err(InvalidKey);
    }
    var parts, i := Split(key, "/"), 0;
    while i < |parts|
      invariant 0 <= i <= |parts| && ".." !in parts[..i]
    {
      if parts[i] == ".." {
        return Err(InvalidKey);
      }
      i := i + 1;
    }
    assert parts[..i] == parts;
    return Ok(TenantKeyPrefix(tenant) + key);
  }

  /** Two dots stand at i as a whole segment: between slashes or the ends of the key. */
  predicate ParentAt(key: string, i: int) {
    && At(key, "..", i)
    && (i == 0 || key[i - 1] == '/')
    && (i + 2 == |key| || key[i + 2] == '/')
  }

  ghost predicate HasParent(key: string) {
    exists i :: ParentAt(key, i)
  }

  lemma {:induction false} ParentOfPiece(key: string)
    requires '/' !in key
    ensures HasParent(key) <==> key == ".."
  {
    if key == ".." {
      assert ParentAt(key, 0);
    }
    assert forall k :: 0 <= k < |key| ==> key[k] != '/';
    forall i | ParentAt(key, i) ensures key == ".." {
      assert key[i..i + 2] == key;
    }
  }

  lemma {:induction false} SliceAfter(a: string, b: string, i: nat)
    requires i + 2 <= |b|
    ensures (a + b)[|a| + i..|a| + i + 2] == b[i..i + 2]
  {
  }

  lemma {:induction false} ParentAfterSlash(first: string, rest: string)
    requires '/' !in first
    ensures HasParent(first + "/" + rest) <==> first == ".." || HasParent(rest)
  {
    var key, n := first + "/" + rest, |first| + 1;
    if first == ".." {
      assert ParentAt(key, 0);
    }
    forall i | ParentAt(rest, i) ensures ParentAt(key, i + n) {
      SliceAfter(first + "/", rest, i);
    }
    assert forall k :: 0 <= k < |first| ==> key[k] == first[k] != '/';
    forall i | ParentAt(key, i) ensures first == ".." || ParentAt(rest, i - n) {
      if i >= n {
        SliceAfter(first + "/", rest, i - n);
      } else {
        assert key[i..i + 2][0] == '.' && key[i..i + 2][1] == '.';
        assert i + 2 <= |first|;
        assert key[0..2] == first;
      }
    }
  }

  lemma {:induction false} ParentIsPiece(key: string)
    ensures ".." in Split(key, "/") <==> HasParent(key)
    decreases |key|
  {
    hide HasParent;
    var i := IndexOf(key, "/");
    IndexOfNone(key, '/');
    if i < 0 {
      ParentOfPiece(key);
      assert Split(key, "/") == [key];
    } else {
      var first, rest := key[..i], key[i + 1..];
      assert key[i] == key[i..i + 1][0] == '/';
      assert '/' !in first by {
        assert forall k :: 0 <= k < i && key[k] == '/' ==> At(key, "/", k);
      }
      assert key == first + "/" + rest;
      ParentIsPiece(rest);
      ParentAfterSlash(first, rest);
      assert Split(key, "/") == [first] + Split(rest, "/");
    }
  }

  /**
   * The keys that are accepted, said of their characters: not empty, not beginning with a slash or with
   * the tenant prefix, and without two dots that stand alone between slashes or the ends.
   */
  lemma {:induction false} ValidKeyIff(key: string)
    ensures ValidKey(key) <==>
            key != "" && key[0] != '/' && !(|key| >= 7 && key[..7] == "tenant/") && !HasParent(key)
  {
    hide HasParent, Split;
    ParentIsPiece(key);
  }

  /** A slash-free tenant is the part of its prefix before the second slash. */
  lemma {:induction false} PrefixFixesTenant(t: string, u: string, key: string)
    requires '/' !in t && '/' !in u
    requires TenantKeyPrefix(t) <= TenantKeyPrefix(u) + key
    ensures t == u
  {
    var full := TenantKeyPrefix(u) + key;
    var rest := full[7..];
    assert rest == u + ['/'] + key;
    assert rest[..|t| + 1] == t + ['/'];
    var after := rest[|t| + 1..];
    assert rest == t + ['/'] + after;
    IndexAfter(u, '/', key);
    IndexAfter(t, '/', after);
    assert t == rest[..|t|] && u == rest[..|u|];
  }

  /** Distinct pairs of a slash-free tenant and a key never share an object. */
  lemma {:induction false} ObjectKeyIsInjective(t: string, k: string, u: string, l: string)
    requires '/' !in t && '/' !in u
    ensures TenantKeyPrefix(t) + k == TenantKeyPrefix(u) + l <==> t == u && k == l
  {
    var p := TenantKeyPrefix(t) + k;
    if p == TenantKeyPrefix(u) + l {
      assert TenantKeyPrefix(t) <= TenantKeyPrefix(u) + l;
      PrefixFixesTenant(t, u, l);
      assert k == p[|TenantKeyPrefix(t)|..] && l == p[|TenantKeyPrefix(u)|..];
    }
  }

  /** With a slash in a tenant ID, objects of one tenant lie under the prefix of another. */
  lemma {:induction false} SlashTenantIsShared(t: string, sub: string, key: string)
    ensures TenantKeyPrefix(t) <= TenantKeyPrefix(t + "/" + sub) + key
  {
    var full := TenantKeyPrefix(t + "/" + sub) + key;
    assert full == TenantKeyPrefix(t) + (sub + "/" + key);
  }

  // ---------- the specification: a map per tenant ----------

  type Abstract = map<string, map<string, Bytes>>

  function Objects(a: Abstract, tenant: string): map<string, Bytes> {
    if tenant in a then a[tenant] else map[]
  }

  datatype Op =
    | Put(tenant: string, key: string, data: Bytes)
    | Get(tenant: string, key: string)
    | Delete(tenant: string, key: string)
    | DeleteTenant(tenant: string)

  datatype Reply = Done | Data(data: Bytes) | Failed(error: StoreError)

  /** The abstract store: each operation touches only the tenant it names. */
  function AbstractStep(a: Abstract, op: Op): (Abstract, Reply) {
    var mine := Objects(a, op.tenant);
    match op
    case Put(t, k, data) => if ValidKey(k) then (a[t := mine[k := data]], Done) else (a, Failed(InvalidKey))
    case Get(t, k) =>
      (a, if !ValidKey(k) then Failed(InvalidKey) else if k in mine then Data(mine[k]) else Failed(NotFound))
    case Delete(t, k) => if ValidKey(k) then (a[t := mine - {k}], Done) else (a, Failed(InvalidKey))
    case DeleteTenant(t) => (a[t := map[]], Done)
  }

  /** The flat store's step on its one map. */
  function FlatStep(objects: map<string, Bytes>, op: Op): (map<string, Bytes>, Reply) {
    match op
    case Put(t, k, data) =>
      if ValidKey(k) then (objects[TenantKeyPrefix(t) + k := data], Done) else (objects, Failed(InvalidKey))
    case Get(t, k) =>
      var full := TenantKeyPrefix(t) + k;
      (objects, if !ValidKey(k) then Failed(InvalidKey)
                else if full in objects then Data(objects[full]) else Failed(NotFound))
    case Delete(t, k) =>
      if ValidKey(k) then (objects - {TenantKeyPrefix(t) + k}, Done) else (objects, Failed(InvalidKey))
    case DeleteTenant(t) => (map k | k in objects && !(TenantKeyPrefix(t) <= k) :: objects[k], Done)
  }

  /** One tenant's view of the flat map is its abstract map. */
  ghost predicate View(objects: map<string, Bytes>, mine: map<string, Bytes>, t: string) {
    forall k :: (k in mine <==> TenantKeyPrefix(t) + k in objects)
             && (k in mine ==> objects[TenantKeyPrefix(t) + k] == mine[k])
  }

  /** The flat map holds exactly the abstract objects of every slash-free tenant. */
  ghost predicate Represents(objects: map<string, Bytes>, a: Abstract) {
    forall t :: '/' !in t ==> View(objects, Objects(a, t), t)
  }

  /** Writing or removing one full key changes only the view of its own tenant. */
  lemma {:induction false} OtherViewsKeep(objects: map<string, Bytes>, after: map<string, Bytes>, mine: map<string,
                                          Bytes>,
                                          t: string, u: string)
    requires '/' !in t && '/' !in u && t != u && View(objects, mine, u)
    requires forall full :: !(TenantKeyPrefix(t) <= full) ==>
               (full in after <==> full in objects) && (full in objects ==> after[full] == objects[full])
    ensures View(after, mine, u)
  {
    hide TenantKeyPrefix;
    forall k ensures !(TenantKeyPrefix(t) <= TenantKeyPrefix(u) + k) {
      if TenantKeyPrefix(t) <= TenantKeyPrefix(u) + k {
        PrefixFixesTenant(t, u, k);
      }
    }
  }

  lemma {:induction false} OwnKeysDiffer(t: string, k: string)
    ensures forall l :: TenantKeyPrefix(t) + k == TenantKeyPrefix(t) + l <==> k == l
    ensures forall l :: TenantKeyPrefix(t) <= TenantKeyPrefix(t) + l
  {
    forall l ensures TenantKeyPrefix(t) + k == TenantKeyPrefix(t) + l <==> k == l {
      var n := |TenantKeyPrefix(t)|;
      assert (TenantKeyPrefix(t) + k)[n..] == k && (TenantKeyPrefix(t) + l)[n..] == l;
    }
  }

  /** The tenant that an operation names sees its abstract effect. */
  lemma {:induction false} OwnViewFollows(objects: map<string, Bytes>, mine: map<string, Bytes>, op: Op)
    requires View(objects, mine, op.tenant)
    ensures var after := FlatStep(objects, op).0;
            match op
            case Put(t, k, data) => ValidKey(k) ==> View(after, mine[k := data], t)
            case Get(t, k) => View(after, mine, t)
            case Delete(t, k) => ValidKey(k) ==> View(after, mine - {k}, t)
            case DeleteTenant(t) => View(after, map[], t)
  {
    hide TenantKeyPrefix, ValidKey;
    match op
    case Put(t, k, data) => OwnKeysDiffer(t, k);
    case Get(t, k) =>
    case Delete(t, k) => OwnKeysDiffer(t, k);
    case DeleteTenant(t) => OwnKeysDiffer(t, "");
  }

  lemma {:induction false} OnlyOwnPrefixChanges(objects: map<string, Bytes>, op: Op)
    ensures var after := FlatStep(objects, op).0;
            forall full :: !(TenantKeyPrefix(op.tenant) <= full) ==>
              (full in after <==> full in objects) && (full in objects ==> after[full] == objects[full])
  {
    hide ValidKey, TenantKeyPrefix;
    if op.Put? || op.Delete? {
      OwnKeysDiffer(op.tenant, op.key);
    }
  }

  /** One operation of a slash-free tenant: same reply, and the flat map follows the abstract step. */
  lemma {:induction false} StepRefines(objects: map<string, Bytes>, a: Abstract, op: Op)
    requires Represents(objects, a) && '/' !in op.tenant
    ensures FlatStep(objects, op).1 == AbstractStep(a, op).1
    ensures Represents(FlatStep(objects, op).0, AbstractStep(a, op).0)
  {
    var after, a' := FlatStep(objects, op).0, AbstractStep(a, op).0;
    OwnViewFollows(objects, Objects(a, op.tenant), op);
    OnlyOwnPrefixChanges(objects, op);
    hide ValidKey, TenantKeyPrefix, View;
    forall t | '/' !in t ensures View(after, Objects(a', t), t) {
      if t != op.tenant {
        OtherViewsKeep(objects, after, Objects(a, t), op.tenant, t);
      }
    }
    if op.Get? && ValidKey(op.key) {
      ReplyFollows(objects, Objects(a, op.tenant), op);
    }
  }

  lemma {:induction false} ReplyFollows(objects: map<string, Bytes>, mine: map<string, Bytes>, op: Op)
    requires View(objects, mine, op.tenant) && op.Get? && ValidKey(op.key)
    ensures FlatStep(objects, op).1 == if op.key in mine then Data(mine[op.key]) else Failed(NotFound)
  {
  }

  /** The reply to a read of the flat map. */
  function Read(objects: map<string, Bytes>, tenant: string, key: string): Reply {
    FlatStep(objects, Get(tenant, key)).1
  }

  /**
   * What a caller sees of the store: it reads what it wrote last, nothing after deleting, and no write
   * or delete shows at any other key; an invalid key is refused everywhere and changes nothing.
   */
  lemma {:induction false} ReadsWhatWasWritten(objects: map<string, Bytes>, t: string, k: string, data: Bytes,
                                               u: string, l: string)
    requires '/' !in t && '/' !in u
    ensures var put, deleted := FlatStep(objects, Put(t, k, data)), FlatStep(objects, Delete(t, k));
            && (ValidKey(k) ==>
                  && put.1 == deleted.1 == Done
                  && Read(put.0, t, k) == Data(data) && Read(deleted.0, t, k) == Failed(NotFound))
            && (u != t || l != k ==> Read(put.0, u, l) == Read(deleted.0, u, l) == Read(objects, u, l))
            && (!ValidKey(k) ==>
                  put == deleted == (objects, Failed(InvalidKey)) && Read(objects, t, k) == Failed(InvalidKey))
    ensures FlatStep(objects, Get(t, k)).0 == objects
  {
    hide ValidKey, TenantKeyPrefix;
    ObjectKeyIsInjective(t, k, u, l);
  }

  function AbstractRun(a: Abstract, ops: seq<Op>): (Abstract, seq<Reply>)
    decreases |ops|
  {
    if ops == [] then (a, [])
    else
      var (a', reply) := AbstractStep(a, ops[0]);
      var (end, rest) := AbstractRun(a', ops[1..]);
      (end, [reply] + rest)
  }

  function FlatRun(objects: map<string, Bytes>, ops: seq<Op>): (map<string, Bytes>, seq<Reply>)
    decreases |ops|
  {
    if ops == [] then (objects, [])
    else
      var (after, reply) := FlatStep(objects, ops[0]);
      var (end, rest) := FlatRun(after, ops[1..]);
      (end, [reply] + rest)
  }

  /** Every sequence of operations of slash-free tenants behaves as on a separate map per tenant. */
  lemma {:induction false} FlatStoreRefines(objects: map<string, Bytes>, a: Abstract, ops: seq<Op>)
    requires Represents(objects, a) && forall i :: 0 <= i < |ops| ==> '/' !in ops[i].tenant
    ensures FlatRun(objects, ops).1 == AbstractRun(a, ops).1
    ensures Represents(FlatRun(objects, ops).0, AbstractRun(a, ops).0)
    decreases |ops|
  {
    hide Represents, FlatStep, AbstractStep;
    if ops != [] {
      StepRefines(objects, a, ops[0]);
      FlatStoreRefines(FlatStep(objects, ops[0]).0, AbstractStep(a, ops[0]).0, ops[1..]);
    }
  }

  /** From the empty store on, no sequence of operations can tell the flat map from a map per tenant. */
  lemma {:induction false} FlatStoreFromEmpty(ops: seq<Op>)
    requires forall i :: 0 <= i < |ops| ==> '/' !in ops[i].tenant
    ensures FlatRun(map[], ops).1 == AbstractRun(map[], ops).1
  {
    FlatStoreRefines(map[], map[], ops);
  }

  /** Deleting a tenant removes all its objects and no object of another slash-free tenant. */
  lemma {:induction false} DeleteTenantIsExact(objects: map<string, Bytes>, t: string, u: string, key: string)
    requires '/' !in t && '/' !in u
    ensures var full, after := TenantKeyPrefix(u) + key, FlatStep(objects, DeleteTenant(t)).0;
            && (full in after <==> full in objects && u != t)
            && (full in after ==> after[full] == objects[full])
  {
    hide TenantKeyPrefix;
    var full := TenantKeyPrefix(u) + key;
    OwnKeysDiffer(u, key);
    if TenantKeyPrefix(t) <= full {
      PrefixFixesTenant(t, u, key);
    }
  }

  // ---------- the in-memory store ----------

  class MemoryObjectStore {
    var objects: map<string, Bytes>

    constructor ()
      ensures objects == map[]
    {
      objects := map[];
    }

    method PutObject(tenant: string, key: string, data: Bytes) returns (reply: Reply)
      modifies this
      ensures (objects, reply) == FlatStep(old(objects), Put(tenant, key, data))
    {
      var full := BuildObjectKey(tenant, key);
      if full.Err? {
        return Failed(full.error);
      }
      objects := objects[full.value := data];
      return Done;
    }

    method GetObject(tenant: string, key: string) returns (reply: Reply)
      ensures (objects, reply) == FlatStep(objects, Get(tenant, key))
    {
      var full := BuildObjectKey(tenant, key);
      if full.Err? {
        return Failed(full.error);
      }
      if full.value !in objects {
        return Failed(NotFound);
      }
      return Data(objects[full.value]);
    }

    method DeleteObject(tenant: string, key: string) returns (reply: Reply)
      modifies this
      ensures (objects, reply) == FlatStep(old(objects), Delete(tenant, key))
    {
      var full := BuildObjectKey(tenant, key);
      if full.Err? {
        return Failed(full.error);
      }
      objects := objects - {full.value};
      return Done;
    }

    /** Range over the keys in any order, deleting the tenant's. */
    method DeleteTenantObjects(tenant: string)
      modifies this
      ensures objects == FlatStep(old(objects), DeleteTenant(tenant)).0
    {
      var prefix := TenantKeyPrefix(tenant);
      var left := objects.Keys;
      while left != {}
        invariant left <= old(objects).Keys
        invariant forall k :: k in objects <==> k in old(objects) && (k in left || !(prefix <= k))
        invariant forall k :: k in objects ==> objects[k] == old(objects)[k]
        decreases left
      {
        hide TenantKeyPrefix;
        var k :| k in left;
        left := left - {k};
        if prefix <= k {
          objects := objects - {k};
        }
      }
    }
  }

  // ---------- the S3 store's batches ----------

  function Concat(batches: seq<seq<string>>): seq<string> {
    if batches == [] then [] else Concat(batches[..|batches| - 1]) + batches[|batches| - 1]
  }

  /** The delete loop cuts the listed keys into consecutive batches of 1 to 1000 keys. */
  method DeleteBatches(keys: seq<string>) returns (batches: seq<seq<string>>)
    ensures Concat(batches) == keys
    ensures forall i :: 0 <= i < |batches| ==> 1 <= |batches[i]| <= 1000
    ensures forall i :: 0 <= i < |batches| - 1 ==> |batches[i]| == 1000
  {
    batches := [];
    var start := 0;
    while start < |keys|
      invariant 0 <= start
      invariant Concat(batches) == keys[..if start < |keys| then start else |keys|]
      invariant forall i :: 0 <= i < |batches| ==> 1 <= |batches[i]| <= 1000
      invariant forall i :: 0 <= i < |batches| - 1 ==> |batches[i]| == 1000
      invariant start < |keys| && batches != [] ==> |batches[|batches| - 1]| == 1000
    {
      var end := start + 1000;
      if end > |keys| {
        end := |keys|;
      }
      assert keys[..end] == keys[..start] + keys[start..end];
      assert (batches + [keys[start..end]])[..|batches|] == batches;
      batches := batches + [keys[start..end]];
      start := start + 1000;
    }
  }
}
