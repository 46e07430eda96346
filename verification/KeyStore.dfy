/** The key ring over its documents: the table in a file, the cache in the process. */
module KeyStore {
  import opened Outcomes
  import opened Decimals
  import opened KeyIds
  import opened KeyRings

  class KeyFile {
    var data: Table

    constructor ()
      ensures data == map[]
    {
      data := map[];
    }

    method Get(workspace: string, generation: nat) returns (r: Option<Blob>)
      ensures r == if Stored(data, Scope(workspace), generation) then Some(data[Scope(workspace)][generation]) else None
    {
      var scope := Scope(workspace);
      r := if Stored(data, scope, generation) then Some(data[scope][generation]) else None;
    }

    /** The newest generation and its key; the file keeps them in no order. */
    method Current(workspace: string) returns (r: Option<(nat, Blob)>)
      ensures r == NewestKey(Row(data, Scope(workspace)))
    {
      var row := Row(data, Scope(workspace));
      if row.Keys == {} {
        return None;
      }
      var top := Newest(row.Keys);
      r := Some((top, row[top]));
    }

    static method Newest(generations: set<nat>) returns (top: nat)
      requires generations != {}
      ensures top == Top(generations)
    {
      var todo := generations;
      top :| top in todo;
      while todo != {}
        invariant todo <= generations && top in generations
        invariant forall g | g in generations && g !in todo :: g <= top
      {
        var g :| g in todo;
        todo := todo - {g};
        if g > top {
          top := g;
        }
      }
    }

    method PutKey(workspace: string, generation: nat, blob: Blob)
      modifies this
      ensures data == Put(old(data), Scope(workspace), generation, blob)
    {
      var scope := Scope(workspace);
      var row := Row(data, scope);
      data := data[scope := row[generation := blob]];
    }

    method DestroyAll(workspace: string) returns (gone: nat)
      modifies this
      ensures data == Dropped(old(data), Scope(workspace))
      ensures gone == |Generations(old(data), Scope(workspace))|
    {
      var scope := Scope(workspace);
      gone := if scope in data then |data[scope]| else 0;
      if gone > 0 {
        data := data - {scope};
      }
    }
  }

  class WrappedKeyProvider {
    const store: KeyFile
    var cache: map<string, Key>
    ghost var minted: set<Key>

    constructor (store: KeyFile)
      ensures this.store == store && cache == map[] && minted == {}
    {
      this.store := store;
      cache := map[];
      minted := {};
    }

    ghost function Read(): Ring
      reads this, store
    {
      Ring(store.data, cache, minted)
    }

    /** Wrap and store a key, and read it back. */
    method StoreKey(workspace: string, generation: nat, newKey: Key) returns (key: Key)
      modifies store
      ensures store.data == Put(old(store.data), Scope(workspace), generation, Wrapped(newKey))
      ensures key == newKey
    {
      key := newKey;
      var scope := Scope(workspace);
      ScopeTwice(workspace);
      store.PutKey(scope, generation, Wrapped(key));
      PutIsStored(old(store.data), scope, generation, Wrapped(newKey));
      var stored := store.Get(scope, generation);
      if stored.Some? {
        key := Unwrap(stored.value);
      }
    }

    method MintKey(workspace: string, generation: nat, newKey: Key) returns (id: string, key: Key)
      modifies this, store
      ensures Read() == Mint(old(Read()), workspace, generation, newKey)
      ensures id == MakeKeyId(workspace, generation) && key == newKey
    {
      key := StoreKey(workspace, generation, newKey);
      id := MakeKeyId(workspace, generation);
      cache := cache[id := key];
      minted := minted + {newKey};
    }

    method CurrentKey(workspace: string, newKey: Key) returns (id: string, key: Key)
      modifies this, store
      ensures (Read(), id, key) == Current(old(Read()), workspace, newKey)
    {
      hide Scope, MakeKeyId;
      ScopeTwice(workspace);
      var found := store.Current(Scope(workspace));
      if found.None? {
        id, key := MintKey(workspace, 1, newKey);
        return;
      }
      var (generation, wrapped) := found.value;
      id := MakeKeyId(workspace, generation);
      key := if id in cache then cache[id] else Unwrap(wrapped);
      cache := cache[id := key];
    }

    method GetKey(id: string) returns (r: Result<Key>)
      modifies this`cache
      ensures (Read(), r) == Lookup(old(Read()), id)
    {
      var parsed := ParseKeyId(id);
      if parsed.Err? {
        return Err(parsed.error);
      }
      if id in cache {
        return Ok(cache[id]);
      }
      var wrapped := store.Get(parsed.value.scope, parsed.value.generation);
      if wrapped.None? {
        return Err(KeyNotFound);
      }
      var material := Unwrap(wrapped.value);
      cache := cache[id := material];
      r := Ok(material);
    }

    method RotateKey(workspace: string, newKey: Key) returns (id: string, key: Key)
      modifies this, store
      ensures Read() == Rotate(old(Read()), workspace, newKey)
    {
      ScopeTwice(workspace);
      var newest := store.Current(Scope(workspace));
      id, key := MintKey(workspace, if newest.Some? then newest.value.0 + 1 else 1, newKey);
    }

    method DestroyKeys(workspace: string) returns (gone: nat)
      modifies this, store
      ensures Read() == Destroy(old(Read()), workspace)
      ensures gone == |Generations(old(store.data), Scope(workspace))|
    {
      gone := DropKeys(workspace);
      Evict(CachePrefix(workspace));
    }

    method DropKeys(workspace: string) returns (gone: nat)
      modifies store
      ensures store.data == Dropped(old(store.data), Scope(workspace))
      ensures gone == |Generations(old(store.data), Scope(workspace))|
    {
      var scope := Scope(workspace);
      ScopeTwice(workspace);
      gone := store.DestroyAll(scope);
    }

    method Evict(prefix: string)
      modifies this`cache
      ensures cache == Evicted(old(cache), prefix)
    {
      var todo := set id | id in cache && prefix <= id;
      while todo != {}
        invariant todo <= cache.Keys <= old(cache).Keys
        invariant forall id | id in cache :: cache[id] == old(cache)[id]
        invariant forall id | id in old(cache) :: id in cache <==> id in todo || !(prefix <= id)
        invariant forall id | id in todo :: prefix <= id
      {
        var id :| id in todo;
        todo := todo - {id};
        cache := cache - {id};
      }
    }

    method SealText(plain: Text, workspace: string, newKey: Key) returns (value: Text)
      modifies this, store
      ensures (Read(), value) == Seal(old(Read()), plain, workspace, newKey)
    {
      if plain == [] || IsSealed(plain) {
        return plain;
      }
      var id, key := CurrentKey(workspace, newKey);
      value := Envelope(id, key, plain);
    }

    method OpenText(value: Text, workspace: string) returns (r: Result<Text>)
      modifies this`cache
      ensures (Read(), r) == Open(old(Read()), value, workspace)
    {
      if !(Chars(PREFIX_V2) <= value) {
        return Ok(value);
      }
      var (name, sealed) := Parts(value);
      var id := Plain(name);
      if sealed == [] || id.None? {
        return Err(KeyNotFound);
      }
      var parsed := ParseKeyId(id.value);
      if parsed.Err? {
        return Err(parsed.error);
      }
      var asked := Scope(workspace);
      if asked != NO_SCOPE && parsed.value.scope != NO_SCOPE && asked != parsed.value.scope {
        return Err(KeyWorkspaceMismatch);
      }
      if parsed.value.provider != PROVIDER {
        return Err(KeyNotFound);
      }
      var key := GetKey(id.value);
      if key.Err? {
        return Err(key.error);
      }
      r := Decrypt(key.value, sealed);
    }
  }
}
