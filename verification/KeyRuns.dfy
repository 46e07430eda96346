/** What the key ring keeps over whole runs: the cache agrees with the table, sealed values open
    until their workspace is shredded, and never afterwards. */
module KeyRuns {
  import opened Outcomes
  import opened Texts
  import opened Decimals
  import opened KeyIds
  import opened KeyRings

  datatype Call =
    | Sealing(plain: Text, workspace: string, newKey: Key)
    | Opening(value: Text, workspace: string)
    | Rotating(workspace: string, newKey: Key)
    | Destroying(workspace: string)

  ghost function Next(ring: Ring, call: Call): Ring {
    match call
    case Sealing(plain, workspace, newKey) => Seal(ring, plain, workspace, newKey).0
    case Opening(value, workspace) => Open(ring, value, workspace).0
    case Rotating(workspace, newKey) => Rotate(ring, workspace, newKey)
    case Destroying(workspace) => Destroy(ring, workspace)
  }

  /** Keys are never generated twice. */
  predicate Possible(ring: Ring, call: Call) {
    match call
    case Sealing(_, _, newKey) => newKey !in ring.minted
    case Opening(_, _) => true
    case Rotating(_, newKey) => newKey !in ring.minted
    case Destroying(_) => true
  }

  ghost predicate Run(rings: seq<Ring>, calls: seq<Call>) {
    && |rings| == |calls| + 1
    && rings[0] == Ring(map[], map[], {})
    && forall i | 0 <= i < |calls| :: Possible(rings[i], calls[i]) && rings[i + 1] == Next(rings[i], calls[i])
  }

  /** No value that is opened names a stored scope by another spelling. */
  predicate Spelled(ring: Ring, call: Call) {
    call.Opening? ==> !Misnames(ring, call.value, call.workspace)
  }

  ghost predicate SpelledRun(rings: seq<Ring>, calls: seq<Call>) {
    Run(rings, calls) && forall i | 0 <= i < |calls| :: Spelled(rings[i], calls[i])
  }

  // ---- the invariant ---------------------------------------------------------------

  ghost predicate TableInv(ring: Ring) {
    && (forall s, g | Stored(ring.table, s, g) :: Scope(s) == s && ring.table[s][g].material in ring.minted)
    && (forall s, g, t, h | Stored(ring.table, s, g) && Stored(ring.table, t, h)
                            && ring.table[s][g] == ring.table[t][h] :: s == t && g == h)
  }

  /** An id of the cache spells a generation of the table, and holds its unwrapped key. */
  ghost predicate Genuine(table: Table, id: string, key: Key) {
    exists s, d :: Spells(table, id, s, d) && table[s][Parse(d).value] == Wrapped(key)
  }

  predicate Spells(table: Table, id: string, scope: string, digits: string) {
    id == KeyId(scope, digits) && Parse(digits).Some? && Stored(table, scope, Parse(digits).value)
  }

  ghost predicate CacheInv(ring: Ring) {
    forall id | id in ring.cache :: Genuine(ring.table, id, ring.cache[id])
  }

  ghost predicate Inv(ring: Ring) {
    TableInv(ring) && CacheInv(ring)
  }

  /** What the cache holds under an id of the table is the key of the table. */
  lemma CachedIsStored(ring: Ring, id: string, scope: string, digits: string)
    requires CacheInv(ring) && id in ring.cache && id == KeyId(scope, digits) && Parse(digits).Some?
    ensures Spells(ring.table, id, scope, digits)
    ensures ring.table[scope][Parse(digits).value] == Wrapped(ring.cache[id])
  {
    assert Genuine(ring.table, id, ring.cache[id]);
    var s, d :| Spells(ring.table, id, s, d) && ring.table[s][Parse(d).value] == Wrapped(ring.cache[id]);
    KeyIdIsUnambiguous(s, d, scope, digits);
  }

  /** Every row of one table is a row of the other. */
  ghost predicate Within(table: Table, after: Table) {
    forall s, g | Stored(table, s, g) :: Stored(after, s, g) && after[s][g] == table[s][g]
  }

  lemma CacheFollows(ring: Ring, table: Table)
    requires CacheInv(ring) && Within(ring.table, table)
    ensures forall id | id in ring.cache :: Genuine(table, id, ring.cache[id])
  {
    forall id | id in ring.cache
      ensures Genuine(table, id, ring.cache[id])
    {
      assert Genuine(ring.table, id, ring.cache[id]);
      var s, d :| Spells(ring.table, id, s, d) && ring.table[s][Parse(d).value] == Wrapped(ring.cache[id]);
      assert Spells(table, id, s, d);
    }
  }

  lemma PutAdds(table: Table, scope: string, generation: nat, blob: Blob)
    requires !Stored(table, scope, generation)
    ensures var after := Put(table, scope, generation, blob);
            && Within(table, after)
            && forall s, g :: Stored(after, s, g) <==> Stored(table, s, g) || (s == scope && g == generation)
  {
  }

  lemma MintKeepsTable(ring: Ring, scope: string, generation: nat, newKey: Key, after: Ring)
    requires TableInv(ring) && newKey !in ring.minted && Scope(scope) == scope
    requires !Stored(ring.table, scope, generation)
    requires after.table == Put(ring.table, scope, generation, Wrapped(newKey))
              && after.minted == ring.minted + {newKey}
    ensures TableInv(after)
  {
    PutAdds(ring.table, scope, generation, Wrapped(newKey));
    PutIsStored(ring.table, scope, generation, Wrapped(newKey));
    forall s, g | Stored(after.table, s, g)
      ensures Scope(s) == s && after.table[s][g].material in after.minted
    {
      assert Stored(ring.table, s, g) || (s == scope && g == generation);
    }
  }

  lemma MintKeepsCache(ring: Ring, workspace: string, generation: nat, newKey: Key)
    requires CacheInv(ring) && !Stored(ring.table, Scope(workspace), generation)
    ensures CacheInv(Mint(ring, workspace, generation, newKey))
    ensures Within(ring.table, Mint(ring, workspace, generation, newKey).table)
  {
    var scope := Scope(workspace);
    var after := Mint(ring, workspace, generation, newKey);
    PutAdds(ring.table, scope, generation, Wrapped(newKey));
    PutIsStored(ring.table, scope, generation, Wrapped(newKey));
    CacheFollows(ring, after.table);
    ParseDecimal(generation);
    var id := MakeKeyId(workspace, generation);
    assert Spells(after.table, id, scope, Decimal(generation));
    assert Genuine(after.table, id, newKey);
  }

  lemma MintKeepsInv(ring: Ring, workspace: string, generation: nat, newKey: Key)
    requires Inv(ring) && newKey !in ring.minted
    requires !Stored(ring.table, Scope(workspace), generation)
    ensures Inv(Mint(ring, workspace, generation, newKey))
    ensures Within(ring.table, Mint(ring, workspace, generation, newKey).table)
  {
    hide Scope, MakeKeyId;
    ScopeTwice(workspace);
    MintKeepsTable(ring, Scope(workspace), generation, newKey, Mint(ring, workspace, generation, newKey));
    MintKeepsCache(ring, workspace, generation, newKey);
  }

  /** The generation a workspace seals with next. */
  ghost function SealsWith(ring: Ring, workspace: string): nat {
    var generations := Generations(ring.table, Scope(workspace));
    if generations == {} then 1 else Top(generations)
  }

  lemma CurrentKeepsInv(ring: Ring, workspace: string, newKey: Key)
    requires Inv(ring) && newKey !in ring.minted
    ensures var (after, id, key) := Current(ring, workspace, newKey);
            && Inv(after) && Within(ring.table, after.table)
            && id == MakeKeyId(workspace, SealsWith(ring, workspace))
            && Stored(after.table, Scope(workspace), SealsWith(ring, workspace))
            && after.table[Scope(workspace)][SealsWith(ring, workspace)] == Wrapped(key)
  {
    hide Scope, MakeKeyId;
    var scope := Scope(workspace);
    var top := SealsWith(ring, workspace);
    if Generations(ring.table, scope) == {} {
      MintKeepsInv(ring, workspace, 1, newKey);
      PutIsStored(ring.table, scope, 1, Wrapped(newKey));
    } else {
      CurrentFromTable(ring, workspace, newKey);
    }
  }

  lemma CurrentFromTable(ring: Ring, workspace: string, newKey: Key)
    requires Inv(ring) && Generations(ring.table, Scope(workspace)) != {}
    ensures var (after, id, key) := Current(ring, workspace, newKey);
            && Inv(after) && after.table == ring.table
            && Stored(after.table, Scope(workspace), SealsWith(ring, workspace))
            && after.table[Scope(workspace)][SealsWith(ring, workspace)] == Wrapped(key)
  {
    hide Scope, Top, Decimal, KeyId;
    var scope := Scope(workspace);
    var top := SealsWith(ring, workspace);
    var id := MakeKeyId(workspace, top);
    ParseDecimal(top);
    assert Spells(ring.table, id, scope, Decimal(top));
    if id in ring.cache {
      CachedIsStored(ring, id, scope, Decimal(top));
    }
    assert Genuine(ring.table, id, Unwrap(ring.table[scope][top]));
  }

  lemma IdHasPrefix(scope: string, digits: string)
    ensures PROVIDER + "." + scope + "." <= KeyId(scope, digits)
  {
    assert KeyId(scope, digits) == PROVIDER + "." + scope + "." + digits;
  }

  lemma EvictionSuffices(ring: Ring, scope: string, after: Ring)
    requires CacheInv(ring)
    requires after.table == Dropped(ring.table, scope)
    requires after.cache == Evicted(ring.cache, PROVIDER + "." + scope + ".")
    ensures CacheInv(after)
  {
    DropShrinks(ring.table, scope);
    forall id | id in after.cache
      ensures Genuine(after.table, id, after.cache[id])
    {
      assert Genuine(ring.table, id, ring.cache[id]);
      var s, d :| Spells(ring.table, id, s, d) && ring.table[s][Parse(d).value] == Wrapped(ring.cache[id]);
      IdHasPrefix(s, d);
      assert Spells(after.table, id, s, d);
    }
  }

  lemma DropShrinks(table: Table, scope: string)
    ensures Within(Dropped(table, scope), table)
    ensures forall s, g :: Stored(Dropped(table, scope), s, g) <==> Stored(table, s, g) && s != scope
  {
    forall s, g
      ensures Stored(Dropped(table, scope), s, g) <==> Stored(table, s, g) && s != scope
    {
      if s == scope && Stored(table, s, g) {
        assert g in Generations(table, scope);
      }
    }
  }

  lemma DestroyKeepsInv(ring: Ring, workspace: string)
    requires Inv(ring)
    ensures Inv(Destroy(ring, workspace))
  {
    DropShrinks(ring.table, Scope(workspace));
    EvictionSuffices(ring, Scope(workspace), Destroy(ring, workspace));
  }

  // ---- opening ---------------------------------------------------------------------

  /** The key id an envelope names, once the ring accepts it for this reader. */
  function Addressed(value: Text, workspace: string): Option<string> {
    if !(Chars(PREFIX_V2) <= value) then None
    else
      var (name, sealed) := Parts(value);
      var id := Plain(name);
      if sealed == [] || id.None? then None
      else
        var parsed := ParseKeyId(id.value);
        var asked := Scope(workspace);
        if parsed.Err? || parsed.value.provider != PROVIDER then None
        else if asked != NO_SCOPE && parsed.value.scope != NO_SCOPE && asked != parsed.value.scope then None
        else id
  }

  /** The envelope reaches a stored key under a scope that is spelled another way. */
  predicate Misnames(ring: Ring, value: Text, workspace: string) {
    var id := Addressed(value, workspace);
    id.Some? &&
    var p := ParseKeyId(id.value).value;
    Scope(p.scope) != p.scope && Stored(ring.table, Scope(p.scope), p.generation)
  }

  lemma OpenLooksUp(ring: Ring, value: Text, workspace: string)
    ensures var id := Addressed(value, workspace);
            && Open(ring, value, workspace).0 == (if id.None? then ring else Lookup(ring, id.value).0)
            && (id.Some? ==> ParseKeyId(id.value).Ok? && ParseKeyId(id.value).value.provider == PROVIDER)
  {
  }

  /** Opening keeps the cache true to the table exactly when no envelope misnames a stored scope. */
  lemma OpenKeepsCacheExactly(ring: Ring, value: Text, workspace: string)
    requires Inv(ring)
    ensures Inv(Open(ring, value, workspace).0) <==> !Misnames(ring, value, workspace)
  {
    OpenLooksUp(ring, value, workspace);
    var id := Addressed(value, workspace);
    if id.Some? {
      LookupKeepsCacheExactly(ring, id.value);
    }
  }

  lemma LookupKeepsCacheExactly(ring: Ring, id: string)
    requires Inv(ring) && ParseKeyId(id).Ok? && ParseKeyId(id).value.provider == PROVIDER
    ensures var p := ParseKeyId(id).value;
            Inv(Lookup(ring, id).0) <==> !(Scope(p.scope) != p.scope
                                         && Stored(ring.table, Scope(p.scope), p.generation))
  {
    var p := ParseKeyId(id).value;
    ParsedSpells(id);
    var digits := Split(id, '.')[2];
    assert id == KeyId(p.scope, digits);
    if id in ring.cache {
      CachedIsStored(ring, id, p.scope, digits);
    } else if Stored(ring.table, Scope(p.scope), p.generation) {
      assert Stored(ring.table, p.scope, p.generation) ==> Scope(p.scope) == p.scope;
      CacheTakesFrom(ring, id, p.scope, digits, Scope(p.scope));
    }
  }

  /** A new entry is right exactly when the table has that key under that very id. */
  lemma CacheTakes(ring: Ring, id: string, scope: string, digits: string, key: Key)
    requires CacheInv(ring) && id == KeyId(scope, digits) && Parse(digits).Some?
    ensures CacheInv(ring.(cache := ring.cache[id := key])) <==>
            Spells(ring.table, id, scope, digits) && ring.table[scope][Parse(digits).value] == Wrapped(key)
  {
    var after := ring.(cache := ring.cache[id := key]);
    if CacheInv(after) {
      CachedIsStored(after, id, scope, digits);
    }
    if Spells(ring.table, id, scope, digits) && ring.table[scope][Parse(digits).value] == Wrapped(key) {
      assert Genuine(after.table, id, key);
      forall other | other in after.cache
        ensures Genuine(after.table, other, after.cache[other])
      {
        if other != id {
          assert Genuine(ring.table, other, ring.cache[other]);
        }
      }
    }
  }

  lemma CacheTakesFrom(ring: Ring, id: string, scope: string, digits: string, home: string)
    requires CacheInv(ring) && id == KeyId(scope, digits) && Parse(digits).Some?
    requires Stored(ring.table, home, Parse(digits).value)
    requires Stored(ring.table, scope, Parse(digits).value) ==> home == scope
    ensures var key := Unwrap(ring.table[home][Parse(digits).value]);
            CacheInv(ring.(cache := ring.cache[id := key])) <==> home == scope
  {
    CacheTakes(ring, id, scope, digits, Unwrap(ring.table[home][Parse(digits).value]));
  }

  lemma NextKeepsInv(ring: Ring, call: Call)
    requires Inv(ring) && Possible(ring, call) && Spelled(ring, call)
    ensures Inv(Next(ring, call))
    ensures !call.Destroying? ==> Within(ring.table, Next(ring, call).table)
  {
    hide Scope, MakeKeyId, Parse;
    match call
    case Sealing(_, workspace, newKey) => CurrentKeepsInv(ring, workspace, newKey);
    case Opening(value, workspace) =>
      OpenKeepsCacheExactly(ring, value, workspace);
      OpenLooksUp(ring, value, workspace);
    case Rotating(workspace, newKey) => MintKeepsInv(ring, workspace, NextGeneration(ring, workspace), newKey);
    case Destroying(workspace) => DestroyKeepsInv(ring, workspace);
  }

  /** In every state of every run whose openings misname no stored scope, the cache holds only what the
      table unwraps to. */
  lemma {:induction false} RunKeepsInv(rings: seq<Ring>, calls: seq<Call>, i: nat)
    requires SpelledRun(rings, calls) && i < |rings|
    ensures Inv(rings[i])
  {
    if i > 0 {
      RunKeepsInv(rings, calls, i - 1);
      assert Possible(rings[i - 1], calls[i - 1]) && Spelled(rings[i - 1], calls[i - 1]);
      NextKeepsInv(rings[i - 1], calls[i - 1]);
    }
  }

  // ---- sealed values open until they are shredded ----------------------------------

  /** The table holds this key for this generation. */
  predicate Lives(ring: Ring, scope: string, generation: nat, key: Key) {
    Stored(ring.table, scope, generation) && ring.table[scope][generation] == Wrapped(key)
  }

  /** The key was generated once and no row holds it any more. */
  ghost predicate Gone(ring: Ring, key: Key) {
    key in ring.minted && forall s, g | Stored(ring.table, s, g) :: ring.table[s][g] != Wrapped(key)
  }

  predicate Shreds(call: Call, scope: string) {
    call.Destroying? && Scope(call.workspace) == scope
  }

  lemma LivesUnlessShredded(ring: Ring, call: Call, scope: string, generation: nat, key: Key)
    requires Inv(ring) && Possible(ring, call) && Spelled(ring, call) && Lives(ring, scope, generation, key)
    ensures if Shreds(call, scope) then Gone(Next(ring, call), key) else Lives(Next(ring, call), scope, generation, key)
  {
    if call.Destroying? {
      DropShrinks(ring.table, Scope(call.workspace));
    } else {
      NextKeepsInv(ring, call);
    }
  }

  lemma MintedGrows(ring: Ring, call: Call)
    ensures ring.minted <= Next(ring, call).minted
  {
  }

  /** A row that a call leaves behind was there before, or holds a newly generated key. */
  lemma NewRowsAreNewKeys(ring: Ring, call: Call, s: string, g: nat)
    requires Possible(ring, call) && Stored(Next(ring, call).table, s, g)
    ensures var key := Next(ring, call).table[s][g].material;
            Lives(ring, s, g, key) || key !in ring.minted
  {
    match call
    case Sealing(plain, workspace, newKey) =>
      if plain != [] && !IsSealed(plain) && Generations(ring.table, Scope(workspace)) == {} {
        MintRows(ring, workspace, 1, newKey, s, g);
      }
    case Opening(value, workspace) => OpenLooksUp(ring, value, workspace);
    case Rotating(workspace, newKey) => MintRows(ring, workspace, NextGeneration(ring, workspace), newKey, s, g);
    case Destroying(workspace) => DropShrinks(ring.table, Scope(workspace));
  }

  lemma MintRows(ring: Ring, workspace: string, generation: nat, newKey: Key, s: string, g: nat)
    requires newKey !in ring.minted && Stored(Mint(ring, workspace, generation, newKey).table, s, g)
    ensures var key := Mint(ring, workspace, generation, newKey).table[s][g].material;
            Lives(ring, s, g, key) || key !in ring.minted
  {
  }

  /** Re-using a generation number does not bring a key back. */
  lemma GoneStays(ring: Ring, call: Call, key: Key)
    requires Possible(ring, call) && Gone(ring, key)
    ensures Gone(Next(ring, call), key)
  {
    MintedGrows(ring, call);
    forall s, g | Stored(Next(ring, call).table, s, g)
      ensures Next(ring, call).table[s][g] != Wrapped(key)
    {
      NewRowsAreNewKeys(ring, call, s, g);
    }
  }

  ghost predicate Fate(ring: Ring, scope: string, generation: nat, key: Key, shredded: bool) {
    if shredded then Gone(ring, key) else Lives(ring, scope, generation, key)
  }

  lemma FateOfAKey(rings: seq<Ring>, calls: seq<Call>, j: nat, scope: string, generation: nat, key: Key, shredded: bool)
    requires SpelledRun(rings, calls) && j < |calls| && Fate(rings[j], scope, generation, key, shredded)
    ensures Fate(rings[j + 1], scope, generation, key, shredded || Shreds(calls[j], scope))
  {
    hide Next, Possible, Misnames;
    RunKeepsInv(rings, calls, j);
    if shredded {
      GoneStays(rings[j], calls[j], key);
    } else {
      LivesUnlessShredded(rings[j], calls[j], scope, generation, key);
    }
  }

  /** One of the calls from the i-th up to the j-th shreds this scope. */
  predicate ShreddedWithin(calls: seq<Call>, i: nat, j: nat, scope: string)
    requires i <= j <= |calls|
  {
    i < j && (ShreddedWithin(calls, i, j - 1, scope) || Shreds(calls[j - 1], scope))
  }

  lemma {:induction false} LivesUntilShredded(rings: seq<Ring>, calls: seq<Call>, i: nat, j: nat,
                                              scope: string, generation: nat, key: Key)
    requires SpelledRun(rings, calls) && i <= j < |rings| && Lives(rings[i], scope, generation, key)
    ensures Fate(rings[j], scope, generation, key, ShreddedWithin(calls, i, j, scope))
  {
    hide Next, Possible, Shreds, Scope;
    if i < j {
      LivesUntilShredded(rings, calls, i, j - 1, scope, generation, key);
      FateOfAKey(rings, calls, j - 1, scope, generation, key, ShreddedWithin(calls, i, j - 1, scope));
    }
  }

  lemma {:induction false} ShreddedOnce(calls: seq<Call>, i: nat, m: nat, j: nat, scope: string)
    requires i <= m < j <= |calls| && Shreds(calls[m], scope)
    ensures ShreddedWithin(calls, i, j, scope)
  {
    hide Shreds, Scope;
    if m < j - 1 {
      ShreddedOnce(calls, i, m, j - 1, scope);
    }
  }

  // ---- what an envelope opens to ---------------------------------------------------

  predicate Readable(reader: string, scope: string) {
    Scope(reader) == NO_SCOPE || scope == NO_SCOPE || Scope(reader) == scope
  }

  lemma EnvelopeParts(scope: string, generation: nat, key: Key, plain: Text)
    ensures var value := Envelope(KeyId(scope, Decimal(generation)), key, plain);
            && Chars(PREFIX_V2) <= value
            && (':' !in scope ==> Parts(value) == (Chars(KeyId(scope, Decimal(generation))), [Token(key, plain)]))
            && (':' in scope ==> |Parts(value).1| > 1)
  {
    var id := KeyId(scope, Decimal(generation));
    var value := Envelope(id, key, plain);
    assert value[|PREFIX_V2|..] == Chars(id) + [Ch(':')] + [Token(key, plain)];
    NoDotInDigits(Decimal(generation));
    ColonInChars(id);
    if ':' in scope {
      var k :| 0 <= k < |scope| && scope[k] == ':';
      assert id[|PROVIDER| + 1 + k] == ':';
      PartitionEarly(Chars(id), [Ch(':'), Token(key, plain)]);
      assert Chars(id) + [Ch(':')] + [Token(key, plain)] == Chars(id) + [Ch(':'), Token(key, plain)];
    } else {
      NoColonInId(scope, generation);
      PartitionAt(Chars(id), [Token(key, plain)]);
    }
  }

  lemma NoColonInId(scope: string, generation: nat)
    requires ':' !in scope
    ensures ':' !in KeyId(scope, Decimal(generation))
  {
    NoDotInDigits(Decimal(generation));
    assert ':' !in PROVIDER + ".";
  }

  /** What opening does with an envelope of a scope whose id reads back. */
  lemma OpenEnvelope(ring: Ring, scope: string, generation: nat, key: Key, plain: Text, reader: string)
    requires '.' !in scope && ':' !in scope
    ensures var id := KeyId(scope, Decimal(generation));
            Open(ring, Envelope(id, key, plain), reader).1 ==
            if !Readable(reader, scope) then Err(KeyWorkspaceMismatch)
            else
              var found := Lookup(ring, id).1;
              if found.Err? then Err(found.error) else Decrypt(found.value, [Token(key, plain)])
  {
    var id := KeyId(scope, Decimal(generation));
    EnvelopeParts(scope, generation, key, plain);
    PlainChars(id);
    KeyIdParses(scope, generation);
  }

  /** An id of the table finds the key of the table, cached or not. */
  lemma LookupFinds(ring: Ring, scope: string, generation: nat, key: Key)
    requires Inv(ring) && '.' !in scope && Lives(ring, scope, generation, key)
    ensures Lookup(ring, KeyId(scope, Decimal(generation))).1 == Ok(key)
  {
    var id := KeyId(scope, Decimal(generation));
    KeyIdParses(scope, generation);
    ParseDecimal(generation);
    if id in ring.cache {
      CachedIsStored(ring, id, scope, Decimal(generation));
    }
  }

  /** No id finds a key that is gone, however it is spelled. */
  lemma GoneIsNotFound(ring: Ring, id: string, key: Key)
    requires Inv(ring) && Gone(ring, key)
    requires ParseKeyId(id).Ok? && ParseKeyId(id).value.provider == PROVIDER
    ensures Lookup(ring, id).1 != Ok(key)
  {
    if id in ring.cache {
      ParsedSpells(id);
      CachedIsStored(ring, id, ParseKeyId(id).value.scope, Split(id, '.')[2]);
    }
  }

  /** Nothing sealed under a key that is gone opens, under any id and for any reader. */
  lemma GoneNeverOpens(ring: Ring, value: Text, reader: string, key: Key, plain: Text)
    requires Inv(ring) && Gone(ring, key)
    requires Chars(PREFIX_V2) <= value && Parts(value).1 == [Token(key, plain)]
    ensures Open(ring, value, reader).1.Err?
  {
    hide Scope, Plain, Split, Parse;
    var id := Addressed(value, reader);
    OpenLooksUp(ring, value, reader);
    if id.Some? {
      GoneIsNotFound(ring, id.value, key);
    }
  }

  lemma SealedUnder(ring: Ring, plain: Text, workspace: string, newKey: Key) returns (key: Key)
    requires Inv(ring) && newKey !in ring.minted && plain != [] && !IsSealed(plain)
    ensures var (after, value) := Seal(ring, plain, workspace, newKey);
            var g := SealsWith(ring, workspace);
            && Inv(after)
            && Lives(after, Scope(workspace), g, key)
            && value == Envelope(KeyId(Scope(workspace), Decimal(g)), key, plain)
  {
    CurrentKeepsInv(ring, workspace, newKey);
    key := Current(ring, workspace, newKey).2;
  }

  lemma EnvelopeByFate(ring: Ring, scope: string, generation: nat, key: Key, plain: Text, reader: string,
                       shredded: bool)
    requires Inv(ring) && Fate(ring, scope, generation, key, shredded) && '.' !in scope && ':' !in scope
    ensures var r := Open(ring, Envelope(KeyId(scope, Decimal(generation)), key, plain), reader).1;
            if shredded then r.Err?
            else r == if Readable(reader, scope) then Ok(plain) else Err(KeyWorkspaceMismatch)
  {
    hide Open, Decimal, Gone, Lives;
    if shredded {
      EnvelopeParts(scope, generation, key, plain);
      GoneNeverOpens(ring, Envelope(KeyId(scope, Decimal(generation)), key, plain), reader, key, plain);
    } else {
      OpenEnvelope(ring, scope, generation, key, plain, reader);
      LookupFinds(ring, scope, generation, key);
    }
  }

  /** The i-th call seals a text that is not empty and not sealed already. */
  predicate SealsNew(calls: seq<Call>, i: nat)
    requires i < |calls|
  {
    calls[i].Sealing? && calls[i].plain != [] && !IsSealed(calls[i].plain)
  }

  lemma SealedInRun(rings: seq<Ring>, calls: seq<Call>, i: nat) returns (generation: nat, key: Key)
    requires SpelledRun(rings, calls) && i < |calls| && SealsNew(calls, i)
    ensures var call := calls[i];
            && Lives(rings[i + 1], Scope(call.workspace), generation, key)
            && Seal(rings[i], call.plain, call.workspace, call.newKey).1
               == Envelope(KeyId(Scope(call.workspace), Decimal(generation)), key, call.plain)
  {
    var call := calls[i];
    RunKeepsInv(rings, calls, i);
    assert Possible(rings[i], call) && rings[i + 1] == Next(rings[i], call);
    generation := SealsWith(rings[i], call.workspace);
    key := SealedUnder(rings[i], call.plain, call.workspace, call.newKey);
  }

  lemma SpelledOpensUntilShredded(rings: seq<Ring>, calls: seq<Call>, i: nat, j: nat, reader: string)
    requires SpelledRun(rings, calls) && i < j < |rings| && SealsNew(calls, i)
    requires '.' !in Scope(calls[i].workspace) && ':' !in Scope(calls[i].workspace)
    ensures var call := calls[i];
            var value := Seal(rings[i], call.plain, call.workspace, call.newKey).1;
            var r := Open(rings[j], value, reader).1;
            if ShreddedWithin(calls, i + 1, j, Scope(call.workspace)) then r.Err?
            else r == if Readable(reader, Scope(call.workspace)) then Ok(call.plain) else Err(KeyWorkspaceMismatch)
  {
    hide Next, Possible, Scope, Open, Seal, Shreds;
    var scope := Scope(calls[i].workspace);
    var generation, key := SealedInRun(rings, calls, i);
    LivesUntilShredded(rings, calls, i + 1, j, scope, generation, key);
    RunKeepsInv(rings, calls, j);
    EnvelopeByFate(rings[j], scope, generation, key, calls[i].plain, reader, ShreddedWithin(calls, i + 1, j, scope));
  }

  /** Shredding reaches every value that carries a key of the workspace, whatever id it is put under. */
  lemma ShreddedKeysNeverOpen(rings: seq<Ring>, calls: seq<Call>, d: nat, j: nat, generation: nat, key: Key,
                              value: Text, reader: string, plain: Text)
    requires SpelledRun(rings, calls) && d < j < |rings| && calls[d].Destroying?
    requires Lives(rings[d], Scope(calls[d].workspace), generation, key)
    requires Chars(PREFIX_V2) <= value && Parts(value).1 == [Token(key, plain)]
    ensures Open(rings[j], value, reader).1.Err?
  {
    hide Next, Possible, Scope, Open;
    var scope := Scope(calls[d].workspace);
    ShreddedOnce(calls, d, d, j, scope);
    LivesUntilShredded(rings, calls, d, j, scope, generation, key);
    RunKeepsInv(rings, calls, j);
    GoneNeverOpens(rings[j], value, reader, key, plain);
  }

  /** What a workspace seals it can open exactly when its scope holds neither separator. */
  lemma SealOpensExactly(ring: Ring, plain: Text, workspace: string, newKey: Key)
    requires Inv(ring) && newKey !in ring.minted && plain != [] && !IsSealed(plain)
    ensures var (after, value) := Seal(ring, plain, workspace, newKey);
            Open(after, value, workspace).1 == Ok(plain) <==> '.' !in Scope(workspace) && ':' !in Scope(workspace)
  {
    var (after, value) := Seal(ring, plain, workspace, newKey);
    var key := SealedUnder(ring, plain, workspace, newKey);
    ScopeTwice(workspace);
    OpensExactly(after, Scope(workspace), SealsWith(ring, workspace), key, plain, workspace);
  }

  lemma OpensExactly(ring: Ring, scope: string, generation: nat, key: Key, plain: Text, workspace: string)
    requires Inv(ring) && Lives(ring, scope, generation, key) && Scope(workspace) == scope
    ensures Open(ring, Envelope(KeyId(scope, Decimal(generation)), key, plain), workspace).1 == Ok(plain)
            <==> '.' !in scope && ':' !in scope
  {
    var value := Envelope(KeyId(scope, Decimal(generation)), key, plain);
    if ':' in scope {
      TwoSymbolsNeverOpen(ring, scope, generation, key, plain, workspace);
    } else if '.' in scope {
      DottedNeverOpens(ring, scope, generation, key, plain, workspace);
    } else {
      SeparatorFreeOpens(ring, scope, generation, key, plain, workspace);
    }
  }

  lemma SeparatorFreeOpens(ring: Ring, scope: string, generation: nat, key: Key, plain: Text, reader: string)
    requires Inv(ring) && Lives(ring, scope, generation, key) && Readable(reader, scope)
    requires '.' !in scope && ':' !in scope
    ensures Open(ring, Envelope(KeyId(scope, Decimal(generation)), key, plain), reader).1 == Ok(plain)
  {
    OpenEnvelope(ring, scope, generation, key, plain, reader);
    LookupFinds(ring, scope, generation, key);
  }

  lemma DottedNeverOpens(ring: Ring, scope: string, generation: nat, key: Key, plain: Text, reader: string)
    requires '.' in scope && ':' !in scope
    ensures Open(ring, Envelope(KeyId(scope, Decimal(generation)), key, plain), reader).1.Err?
  {
    EnvelopeParts(scope, generation, key, plain);
    PlainChars(KeyId(scope, Decimal(generation)));
    KeyIdParses(scope, generation);
  }

  lemma TwoSymbolsNeverOpen(ring: Ring, scope: string, generation: nat, key: Key, plain: Text, reader: string)
    requires ':' in scope
    ensures Open(ring, Envelope(KeyId(scope, Decimal(generation)), key, plain), reader).1.Err?
  {
    EnvelopeParts(scope, generation, key, plain);
    LongNeverOpens(ring, Envelope(KeyId(scope, Decimal(generation)), key, plain), reader);
  }

  lemma LongNeverOpens(ring: Ring, value: Text, reader: string)
    requires Chars(PREFIX_V2) <= value && |Parts(value).1| > 1
    ensures Open(ring, value, reader).1.Err?
  {
  }

  // ---- misspelled openings change nothing for the others ---------------------------

  /** An id that spells its scope as the ring spells it. */
  ghost predicate WellSpelled(id: string) {
    exists s, d :: id == KeyId(s, d) && Parse(d).Some? && Scope(s) == s
  }

  /** The ring without what misspelled openings have left in its cache. */
  ghost function Pruned(ring: Ring): Ring {
    ring.(cache := map id | id in ring.cache && WellSpelled(id) :: ring.cache[id])
  }

  lemma MadeIdsAreWellSpelled(workspace: string, generation: nat)
    ensures WellSpelled(MakeKeyId(workspace, generation))
  {
    hide Strip, Named;
    ScopeTwice(workspace);
    ParseDecimal(generation);
    var scope := Scope(workspace);
    assert MakeKeyId(workspace, generation) == KeyId(scope, Decimal(generation));
  }

  lemma PrunedCache(ring: Ring, id: string, key: Key)
    requires WellSpelled(id)
    ensures Pruned(ring.(cache := ring.cache[id := key])) == Pruned(ring).(cache := Pruned(ring).cache[id := key])
  {
    hide WellSpelled;
  }

  lemma PrunedMint(ring: Ring, workspace: string, generation: nat, newKey: Key)
    ensures Pruned(Mint(ring, workspace, generation, newKey)) == Mint(Pruned(ring), workspace, generation, newKey)
  {
    MadeIdsAreWellSpelled(workspace, generation);
    hide WellSpelled, MakeKeyId, Scope, Put;
    PrunedCache(ring, MakeKeyId(workspace, generation), newKey);
  }

  lemma PrunedSeal(ring: Ring, plain: Text, workspace: string, newKey: Key)
    ensures var (after, value) := Seal(ring, plain, workspace, newKey);
            Seal(Pruned(ring), plain, workspace, newKey) == (Pruned(after), value)
  {
    hide WellSpelled, MakeKeyId, Scope, Mint, Top, IsSealed, Envelope;
    var found := NewestKey(Row(ring.table, Scope(workspace)));
    if found.None? {
      PrunedMint(ring, workspace, 1, newKey);
    } else {
      var id := MakeKeyId(workspace, found.value.0);
      MadeIdsAreWellSpelled(workspace, found.value.0);
      PrunedCache(ring, id, Current(ring, workspace, newKey).2);
    }
  }

  lemma PrunedDestroy(ring: Ring, workspace: string)
    ensures Pruned(Destroy(ring, workspace)) == Destroy(Pruned(ring), workspace)
  {
    hide WellSpelled, Scope, Dropped, CachePrefix;
  }

  lemma PrunedLookup(ring: Ring, id: string)
    ensures WellSpelled(id) ==> Lookup(Pruned(ring), id) == (Pruned(Lookup(ring, id).0), Lookup(ring, id).1)
    ensures !WellSpelled(id) ==> Pruned(Lookup(ring, id).0) == Pruned(ring)
  {
    hide WellSpelled, ParseKeyId, Scope;
    if WellSpelled(id) && Lookup(ring, id).1.Ok? {
      PrunedCache(ring, id, Lookup(ring, id).1.value);
    }
  }

  /** An envelope that names its key well opens alike with and without the leavings; one that does not
      leaves more of them behind, and nothing else. */
  lemma PrunedOpen(ring: Ring, value: Text, workspace: string)
    ensures var id := Addressed(value, workspace);
            && (id.None? || WellSpelled(id.value) ==>
                  Open(Pruned(ring), value, workspace)
                  == (Pruned(Open(ring, value, workspace).0), Open(ring, value, workspace).1))
            && (id.Some? && !WellSpelled(id.value) ==> Pruned(Open(ring, value, workspace).0) == Pruned(ring))
  {
    hide WellSpelled, ParseKeyId, Scope, Lookup, Parts, Plain, Decrypt, Pruned;
    var id := Addressed(value, workspace);
    if id.Some? {
      PrunedLookup(ring, id.value);
    }
  }

  /** The same call, with a misspelled opening replaced by one of an empty text. */
  ghost function Shadow(call: Call): Call {
    if call.Opening? && Addressed(call.value, call.workspace).Some?
       && !WellSpelled(Addressed(call.value, call.workspace).value)
    then Opening([], "") else call
  }

  lemma ShadowStep(ring: Ring, call: Call)
    requires Possible(ring, call)
    ensures Possible(Pruned(ring), Shadow(call))
    ensures Next(Pruned(ring), Shadow(call)) == Pruned(Next(ring, call))
  {
    hide WellSpelled, Seal, Destroy, Mint, NextGeneration, Addressed, Parts, Lookup;
    match call
    case Sealing(plain, workspace, newKey) => PrunedSeal(ring, plain, workspace, newKey);
    case Opening(value, workspace) => PrunedOpen(ring, value, workspace);
    case Rotating(workspace, newKey) => PrunedRotate(ring, workspace, newKey);
    case Destroying(workspace) => PrunedDestroy(ring, workspace);
  }

  lemma PrunedRotate(ring: Ring, workspace: string, newKey: Key)
    ensures Pruned(Rotate(ring, workspace, newKey)) == Rotate(Pruned(ring), workspace, newKey)
  {
    hide Mint, WellSpelled, Scope;
    PrunedMint(ring, workspace, NextGeneration(ring, workspace), newKey);
  }

  lemma ShadowIsSpelled(ring: Ring, call: Call)
    ensures Spelled(ring, Shadow(call))
  {
    var shadow := Shadow(call);
    if shadow.Opening? && Addressed(shadow.value, shadow.workspace).Some? {
      hide Scope, Split, Parse;
      var id := Addressed(shadow.value, shadow.workspace).value;
      OpenLooksUp(ring, shadow.value, shadow.workspace);
      WellSpelledScope(id);
    }
  }

  lemma WellSpelledScope(id: string)
    requires WellSpelled(id) && ParseKeyId(id).Ok? && ParseKeyId(id).value.provider == PROVIDER
    ensures Scope(ParseKeyId(id).value.scope) == ParseKeyId(id).value.scope
  {
    hide Scope;
    var s, d :| id == KeyId(s, d) && Parse(d).Some? && Scope(s) == s;
    ParsedSpells(id);
    KeyIdIsUnambiguous(s, d, ParseKeyId(id).value.scope, Split(id, '.')[2]);
  }

  ghost function PrunedRings(rings: seq<Ring>): (out: seq<Ring>)
    ensures |out| == |rings| && forall i | 0 <= i < |rings| :: out[i] == Pruned(rings[i])
  {
    seq(|rings|, i requires 0 <= i < |rings| => Pruned(rings[i]))
  }

  ghost function Shadows(calls: seq<Call>): (out: seq<Call>)
    ensures |out| == |calls| && forall i | 0 <= i < |calls| :: out[i] == Shadow(calls[i])
  {
    seq(|calls|, i requires 0 <= i < |calls| => Shadow(calls[i]))
  }

  /** Every run, pruned, is a run without misspelled openings. */
  lemma PrunedRunIsSpelled(rings: seq<Ring>, calls: seq<Call>)
    requires Run(rings, calls)
    ensures SpelledRun(PrunedRings(rings), Shadows(calls))
  {
    hide Next, Possible, Spelled, Shadow, WellSpelled;
    var out, shadows := PrunedRings(rings), Shadows(calls);
    forall i | 0 <= i < |calls|
      ensures Possible(out[i], shadows[i]) && out[i + 1] == Next(out[i], shadows[i]) && Spelled(out[i], shadows[i])
    {
      ShadowStep(rings[i], calls[i]);
      ShadowIsSpelled(out[i], calls[i]);
    }
    assert out[0] == Ring(map[], map[], {});
  }

  lemma {:induction false} ShadowsShredAlike(calls: seq<Call>, i: nat, j: nat, scope: string)
    requires i <= j <= |calls|
    ensures ShreddedWithin(Shadows(calls), i, j, scope) == ShreddedWithin(calls, i, j, scope)
  {
    hide Scope;
    if i < j {
      ShadowsShredAlike(calls, i, j - 1, scope);
    }
  }

  lemma HonestAddress(scope: string, generation: nat, key: Key, plain: Text, reader: string)
    requires Scope(scope) == scope && ':' !in scope
    ensures var id := Addressed(Envelope(KeyId(scope, Decimal(generation)), key, plain), reader);
            id.None? || WellSpelled(id.value)
  {
    var id := KeyId(scope, Decimal(generation));
    EnvelopeParts(scope, generation, key, plain);
    PlainChars(id);
    ParseDecimal(generation);
    assert WellSpelled(id);
    hide Scope, WellSpelled, Parts, Plain, ParseKeyId, KeyId, Envelope, Decimal;
  }

  /** A value sealed for a workspace opens, whatever else is sealed, opened, rotated or shredded, for every
      reader it may be read by, and stops opening for good once its own workspace is shredded. */
  lemma OpensExactlyUntilShredded(rings: seq<Ring>, calls: seq<Call>, i: nat, j: nat, reader: string)
    requires Run(rings, calls) && i < j < |rings| && SealsNew(calls, i)
    requires '.' !in Scope(calls[i].workspace) && ':' !in Scope(calls[i].workspace)
    ensures var call := calls[i];
            var value := Seal(rings[i], call.plain, call.workspace, call.newKey).1;
            var r := Open(rings[j], value, reader).1;
            if ShreddedWithin(calls, i + 1, j, Scope(call.workspace)) then r.Err?
            else r == if Readable(reader, Scope(call.workspace)) then Ok(call.plain) else Err(KeyWorkspaceMismatch)
  {
    var call := calls[i];
    var pruned, shadows := PrunedRings(rings), Shadows(calls);
    assert shadows[i] == call;
    ScopeTwice(call.workspace);
    hide Next, Possible, Scope, Open, Seal, Shreds, Shadow, Pruned, WellSpelled;
    PrunedRunIsSpelled(rings, calls);
    SpelledOpensUntilShredded(pruned, shadows, i, j, reader);
    ShadowsShredAlike(calls, i + 1, j, Scope(call.workspace));
    PrunedSeal(rings[i], call.plain, call.workspace, call.newKey);
    var generation, key := SealedInRun(pruned, shadows, i);
    HonestAddress(Scope(call.workspace), generation, key, call.plain, reader);
    PrunedOpen(rings[j], Seal(rings[i], call.plain, call.workspace, call.newKey).1, reader);
  }

  // ---- rotation --------------------------------------------------------------------

  lemma TopOf(generations: set<nat>, top: nat)
    requires top in generations && forall g | g in generations :: g <= top
    ensures generations != {} && Top(generations) == top
  {
  }

  /** After a rotation the workspace seals under the new key, one generation on. */
  lemma RotationTakesOver(ring: Ring, workspace: string, rotated: Key, newKey: Key)
    requires Inv(ring) && rotated !in ring.minted
    ensures var after := Rotate(ring, workspace, rotated);
            && SealsWith(after, workspace) == NextGeneration(ring, workspace)
            && Current(after, workspace, newKey).1 == MakeKeyId(workspace, NextGeneration(ring, workspace))
            && Current(after, workspace, newKey).2 == rotated
  {
    hide Scope, Decimal, KeyId, Top;
    var next := NextGeneration(ring, workspace);
    var after := Rotate(ring, workspace, rotated);
    MintRowHas(ring, workspace, next, rotated);
    TopOf(Generations(after.table, Scope(workspace)), next);
  }

  lemma MintRowHas(ring: Ring, workspace: string, generation: nat, newKey: Key)
    ensures var after := Mint(ring, workspace, generation, newKey);
            && Row(after.table, Scope(workspace)) == Row(ring.table, Scope(workspace))[generation := Wrapped(newKey)]
            && MakeKeyId(workspace, generation) in after.cache
              && after.cache[MakeKeyId(workspace, generation)] == newKey
  {
    hide Scope, Decimal, KeyId;
  }

  // ---- ids that spell a scope another way ------------------------------------------

  lemma IdSpells(scope: string, digits: string)
    requires '.' !in scope
    ensures var id, n := KeyId(scope, digits), |PROVIDER| + 1;
            && (forall i | 0 <= i < |scope| :: id[n + i] == scope[i] && id[n + i] != '.')
            && id[n + |scope|] == '.'
  {
    var id, n := KeyId(scope, digits), |PROVIDER| + 1;
    forall i | 0 <= i < |scope|
      ensures id[n + i] == scope[i] && id[n + i] != '.'
    {
      assert scope[i] in scope;
    }
  }

  /** An id that starts with the prefix of a scope, and is no shorter, spells that scope. */
  lemma PrefixReaches(scope: string, other: string, digits: string)
    requires '.' !in scope && '.' !in other && (scope == NO_SCOPE || |scope| <= |other|)
    requires PROVIDER + "." + scope + "." <= KeyId(other, digits)
    ensures scope == other
  {
    var prefix, id, n := PROVIDER + "." + scope + ".", KeyId(other, digits), |PROVIDER| + 1;
    IdSpells(other, digits);
    IdSpells(scope, "");
    assert KeyId(scope, "") == prefix;
    assert forall i | 0 <= i < |prefix| :: id[i] == prefix[i];
    assert id[n + |scope|] == '.' && id[n + |other|] == '.';
    assert |scope| >= |other|;
    assert scope[..|other|] == other;
  }

  lemma ScopeOfDotless(text: string)
    requires '.' !in text
    ensures Scope(text) == NO_SCOPE || |Scope(text)| <= |text|
    ensures '.' !in Scope(text)
  {
    hide Strip;
    StripTakesAway(text);
  }

  /** Once opened under a misspelled id, a key is cached where shredding its workspace does not look:
      the value still opens afterwards. */
  lemma EvictionMissesOtherSpellings(ring: Ring, value: Text, reader: string, victim: string)
    requires Misnames(ring, value, reader)
    requires Scope(victim) == Scope(ParseKeyId(Addressed(value, reader).value).value.scope)
    ensures var first := Open(ring, value, reader);
            Open(Destroy(first.0, victim), value, reader).1 == first.1
  {
    OpenLooksUp(ring, value, reader);
    var id := Addressed(value, reader).value;
    var p := ParseKeyId(id).value;
    ParsedSpells(id);
    PartsHoldNone(id, p.scope, '.');
    ScopeOfDotless(p.scope);
    assert id == KeyId(p.scope, Split(id, '.')[2]);
    if CachePrefix(victim) <= id {
      PrefixReaches(Scope(victim), p.scope, Split(id, '.')[2]);
    }
    StaysCached(ring, value, reader, victim, id);
  }

  lemma StaysCached(ring: Ring, value: Text, reader: string, victim: string, id: string)
    requires Addressed(value, reader) == Some(id) && Lookup(ring, id).1.Ok?
    requires !(CachePrefix(victim) <= id)
    ensures var first := Open(ring, value, reader);
            Open(Destroy(first.0, victim), value, reader).1 == first.1
  {
    hide Decrypt, Plain, Parts, CachePrefix, Scope, ParseKeyId, Dropped, Stored;
    var after := Destroy(Lookup(ring, id).0, victim);
    assert id in after.cache && Ok(after.cache[id]) == Lookup(ring, id).1;
    assert Lookup(after, id).1 == Lookup(ring, id).1;
  }

  /** Such an id: the name that stands for no tenant, spelled out. */
  lemma DefaultMisnames(key: Key, plain: Text)
    ensures var ring := Ring(map[NO_SCOPE := map[1 := Wrapped(key)]], map[], {key});
            var value := Envelope(KeyId(UNTENANTED, Decimal(1)), key, plain);
            Misnames(ring, value, "") && Open(ring, value, "").1 == Ok(plain)
  {
    hide Decimal, KeyId, ParseKeyId, Scope, Parts, Plain, Lookup, Stored;
    DefaultScope();
    DefaultIsAddressed(key, plain);
    DefaultLooksUp(key);
  }

  lemma DefaultLooksUp(key: Key)
    ensures var ring := Ring(map[NO_SCOPE := map[1 := Wrapped(key)]], map[], {key});
            var id := KeyId(UNTENANTED, Decimal(1));
            && ParseKeyId(id) == Ok(ParsedId(PROVIDER, UNTENANTED, 1))
            && Lookup(ring, id).1 == Ok(key)
            && Stored(ring.table, NO_SCOPE, 1)
  {
    hide Decimal, KeyId, Split, Scope;
    DefaultScope();
    KeyIdParses(UNTENANTED, 1);
    var ring := Ring(map[NO_SCOPE := map[1 := Wrapped(key)]], map[], {key});
    assert Row(ring.table, NO_SCOPE) == map[1 := Wrapped(key)];
  }

  lemma DefaultIsAddressed(key: Key, plain: Text)
    ensures var id := KeyId(UNTENANTED, Decimal(1));
            var value := Envelope(id, key, plain);
            && Chars(PREFIX_V2) <= value && Parts(value) == (Chars(id), [Token(key, plain)])
            && Plain(Chars(id)) == Some(id)
  {
    hide Decimal, Parts, Plain;
    EnvelopeParts(UNTENANTED, 1, key, plain);
    PlainChars(KeyId(UNTENANTED, Decimal(1)));
  }

  lemma DefaultScope()
    ensures Scope(UNTENANTED) == NO_SCOPE && Scope("") == NO_SCOPE
  {
    assert StripLeft("default") == "default" && StripRight("default") == "default";
  }
}
