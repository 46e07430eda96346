/** The per-tenant key ring: a cache over a table of wrapped keys, with rotation and shredding. */
module KeyRings {
  import opened Outcomes
  import opened Decimals
  import opened KeyIds

  /** A key as it is stored: wrapped by the root key, which alone unwraps it. */
  datatype Blob = Wrapped(material: Key)

  function Unwrap(blob: Blob): Key {
    blob.material
  }

  type Table = map<string, map<nat, Blob>>

  /** The key table, the cache of one process, and every key that was ever generated. */
  datatype Ring = Ring(table: Table, cache: map<string, Key>, minted: set<Key>)

  predicate Stored(table: Table, scope: string, generation: nat) {
    scope in table && generation in table[scope]
  }

  function Generations(table: Table, scope: string): set<nat> {
    Row(table, scope).Keys
  }

  ghost function Top(generations: set<nat>): (top: nat)
    requires generations != {}
    ensures top in generations && forall g | g in generations :: g <= top
  {
    var g :| g in generations;
    if generations - {g} == {} then assert generations == {g}; g
    else
      assert generations == {g} + (generations - {g});
      var rest := Top(generations - {g});
      if g > rest then g else rest
  }

  function Row(table: Table, scope: string): map<nat, Blob> {
    if scope in table then table[scope] else map[]
  }

  function Put(table: Table, scope: string, generation: nat, blob: Blob): Table {
    table[scope := Row(table, scope)[generation := blob]]
  }

  lemma PutIsStored(table: Table, scope: string, generation: nat, blob: Blob)
    ensures var after := Put(table, scope, generation, blob);
            Stored(after, scope, generation) && after[scope][generation] == blob
  {
  }

  function Mint(ring: Ring, workspace: string, generation: nat, newKey: Key): Ring {
    Ring(Put(ring.table, Scope(workspace), generation, Wrapped(newKey)),
         ring.cache[MakeKeyId(workspace, generation) := newKey],
         ring.minted + {newKey})
  }

  ghost function NextGeneration(ring: Ring, workspace: string): nat {
    var generations := Generations(ring.table, Scope(workspace));
    if generations == {} then 1 else Top(generations) + 1
  }

  ghost function NewestKey(row: map<nat, Blob>): Option<(nat, Blob)> {
    if row.Keys == {} then None else Some((Top(row.Keys), row[Top(row.Keys)]))
  }

  /** The key a workspace seals with now: its newest, minted if there is none. */
  ghost function Current(ring: Ring, workspace: string, newKey: Key): (Ring, string, Key) {
    var found := NewestKey(Row(ring.table, Scope(workspace)));
    if found.None? then (Mint(ring, workspace, 1, newKey), MakeKeyId(workspace, 1), newKey)
    else
      var id := MakeKeyId(workspace, found.value.0);
      var material := if id in ring.cache then ring.cache[id] else Unwrap(found.value.1);
      (ring.(cache := ring.cache[id := material]), id, material)
  }

  /** The key an id names, from the cache or else from the table. */
  function Lookup(ring: Ring, id: string): (Ring, Result<Key>) {
    var parsed := ParseKeyId(id);
    if parsed.Err? then (ring, Err(parsed.error))
    else if id in ring.cache then (ring, Ok(ring.cache[id]))
    else
      var scope := Scope(parsed.value.scope);
      if !Stored(ring.table, scope, parsed.value.generation) then (ring, Err(KeyNotFound))
      else
        var material := Unwrap(ring.table[scope][parsed.value.generation]);
        (ring.(cache := ring.cache[id := material]), Ok(material))
  }

  ghost function Rotate(ring: Ring, workspace: string, newKey: Key): Ring {
    Mint(ring, workspace, NextGeneration(ring, workspace), newKey)
  }

  function CachePrefix(workspace: string): string {
    PROVIDER + "." + Scope(workspace) + "."
  }

  /** The table is written back only when a generation went away. */
  function Dropped(table: Table, scope: string): Table {
    if Generations(table, scope) == {} then table else table - {scope}
  }

  /** Delete every generation of a workspace, and what the cache holds under its ids. */
  function Destroy(ring: Ring, workspace: string): Ring {
    ring.(table := Dropped(ring.table, Scope(workspace)),
          cache := Evicted(ring.cache, CachePrefix(workspace)))
  }

  function Evicted(cache: map<string, Key>, prefix: string): map<string, Key> {
    map id | id in cache && !(prefix <= id) :: cache[id]
  }

  ghost function Seal(ring: Ring, plain: Text, workspace: string, newKey: Key): (Ring, Text) {
    if plain == [] || IsSealed(plain) then (ring, plain)
    else
      var (after, id, key) := Current(ring, workspace, newKey);
      (after, Envelope(id, key, plain))
  }

  /** The id and the ciphertext of an envelope. */
  function Parts(value: Text): (Text, Text)
    requires Chars(PREFIX_V2) <= value
  {
    Partition(value[|PREFIX_V2|..])
  }

  function Open(ring: Ring, value: Text, workspace: string): (Ring, Result<Text>) {
    if !(Chars(PREFIX_V2) <= value) then (ring, Ok(value))
    else
      var (name, sealed) := Parts(value);
      var id := Plain(name);
      if sealed == [] || id.None? then (ring, Err(KeyNotFound))
      else
        var parsed := ParseKeyId(id.value);
        var asked := Scope(workspace);
        if parsed.Err? then (ring, Err(parsed.error))
        else if asked != NO_SCOPE && parsed.value.scope != NO_SCOPE
          && asked != parsed.value.scope then (ring, Err(KeyWorkspaceMismatch))
        else if parsed.value.provider != PROVIDER then (ring, Err(KeyNotFound))
        else
          var (after, key) := Lookup(ring, id.value);
          if key.Err? then (after, Err(key.error)) else (after, Decrypt(key.value, sealed))
  }

  /** Only a token, and only under the key that made it. */
  function Decrypt(key: Key, sealed: Text): Result<Text> {
    if |sealed| == 1 && sealed[0].Token? && sealed[0].key == key then Ok(sealed[0].plain) else Err(InvalidToken)
  }

  // ---- what passes through ---------------------------------------------------------

  /** Nothing, and what is sealed already, is handed back as it is; anything else becomes an envelope. Sealing
      what was sealed changes nothing, for whichever workspace, and mints no key. */
  lemma SealedOnce(ring: Ring, plain: Text, workspace: string, newKey: Key, again: string, another: Key)
    ensures var (after, sealed) := Seal(ring, plain, workspace, newKey);
            && (plain == [] || Chars("enc:v1:") <= plain || Chars("enc:v2:") <= plain <==> sealed == plain)
            && (sealed == plain ==> after == ring)
            && (sealed != plain ==> Chars("enc:v2:") <= sealed && forall symbol | symbol in sealed ::
                  symbol.Token? ==> symbol.plain == plain)
            && Seal(after, sealed, again, another) == (after, sealed)
  {
    if plain != [] && !IsSealed(plain) {
      var (_, id, key) := Current(ring, workspace, newKey);
      assert Chars(PREFIX_V2) <= Envelope(id, key, plain);
    }
    hide Current;
  }

  /** A text that is no envelope of this ring opens as itself: plain text, and envelopes of the older kind. */
  lemma OpensAsItself(ring: Ring, value: Text, workspace: string)
    requires !(Chars("enc:v2:") <= value)
    ensures Open(ring, value, workspace) == (ring, Ok(value))
  {
  }
}
