/** The global configuration table behind a read-through cache with two keys per row. */
module ConfigCache {
  import opened Prelude

  type Id = nat
  type Value = string

  datatype Config = Config(id: Id, key: string, value: Value, description: Option<string>)

  datatype CreateDto = CreateDto(key: string, value: Value, description: Option<string>)

  /** Absent fields are None; the description may also be set to null. */
  datatype UpdateDto = UpdateDto(key: Option<string>, value: Option<Value>, description: Option<Option<string>>)

  datatype Error = Conflict | NotFound | UniqueViolation

  type Table = map<Id, Config>

  datatype State = State(table: Table, byId: map<Id, Config>, byKey: map<string, Config>)

  // ---------- The table alone: what the service promises ----------

  ghost predicate HasKey(table: Table, key: string) {
    exists id :: id in table && table[id].key == key
  }

  ghost function GetByKey(table: Table, key: string): Option<Config> {
    if HasKey(table, key) then
      var id :| id in table && table[id].key == key; Some(table[id])
    else None
  }

  function Edited(c: Config, dto: UpdateDto): Config {
    c.(key := if dto.key.Some? then dto.key.value else c.key,
       value := if dto.value.Some? then dto.value.value else c.value,
       description := if dto.description.Some? then dto.description.value else c.description)
  }

  /** The unique index on the key column. */
  ghost predicate Unique(table: Table) {
    && (forall id :: id in table ==> table[id].id == id)
    && (forall a, b :: a in table && b in table && table[a].key == table[b].key ==> a == b)
  }

  ghost predicate KeyTaken(table: Table, id: Id, key: string) {
    exists other :: other in table && other != id && table[other].key == key
  }

  datatype Op =
    | Create(newId: Id, create: CreateDto)
    | Update(id: Id, update: UpdateDto)
    | Delete(id: Id)
    | FindById(id: Id)
    | FindByKey(key: string)
    | EvictId(id: Id)
    | EvictKey(key: string)

  /** Each operation on the table, with no cache. */
  ghost function Uncached(table: Table, op: Op): (Table, Result<Option<Config>, Error>) {
    match op
    case Create(newId, dto) =>
      if HasKey(table, dto.key) then (table, Err(Conflict))
      else
        var c := Config(newId, dto.key, dto.value, dto.description);
        (table[newId := c], Ok(Some(c)))
    case Update(id, dto) =>
      if id !in table then (table, Err(NotFound))
      else
        var c := table[id];
        if dto.key.Some? && dto.key.value != "" && dto.key.value != c.key && HasKey(table, dto.key.value) then
          (table, Err(Conflict))
        else if KeyTaken(table, id, Edited(c, dto).key) then (table, Err(UniqueViolation))
        else (table[id := Edited(c, dto)], Ok(Some(Edited(c, dto))))
    case Delete(id) =>
      if id !in table then (table, Err(NotFound)) else (table - {id}, Ok(None))
    case FindById(id) => (table, if id in table then Ok(Some(table[id])) else Err(NotFound))
    case FindByKey(key) => (table, Ok(GetByKey(table, key)))
    case EvictId(_) => (table, Ok(None))
    case EvictKey(_) => (table, Ok(None))
  }

  // ---------- The cached service ----------

  function CacheConfig(s: State, c: Config): State {
    s.(byId := s.byId[c.id := c], byKey := s.byKey[c.key := c])
  }

  ghost function CachedFindById(s: State, id: Id): (State, Result<Option<Config>, Error>) {
    if id in s.byId then (s, Ok(Some(s.byId[id])))
    else if id !in s.table then (s, Err(NotFound))
    else (CacheConfig(s, s.table[id]), Ok(Some(s.table[id])))
  }

  ghost function CachedFindByKey(s: State, key: string): (State, Result<Option<Config>, Error>) {
    if key in s.byKey then (s, Ok(Some(s.byKey[key])))
    else
      var c := GetByKey(s.table, key);
      (if c.Some? then CacheConfig(s, c.value) else s, Ok(c))
  }

  ghost function CachedCreate(s: State, newId: Id, dto: CreateDto): (State, Result<Option<Config>, Error>) {
    if HasKey(s.table, dto.key) then (s, Err(Conflict))
    else
      var c := Config(newId, dto.key, dto.value, dto.description);
      (CacheConfig(s.(table := s.table[newId := c]), c), Ok(Some(c)))
  }

  ghost function CachedUpdate(s: State, id: Id, dto: UpdateDto): (State, Result<Option<Config>, Error>) {
    var (s1, found) := CachedFindById(s, id);
    if found.Err? || found.value == None then (s1, found)
    else
      var c := found.value.value;
      if dto.key.Some? && dto.key.value != "" && dto.key.value != c.key && HasKey(s1.table, dto.key.value) then
        (s1, Err(Conflict))
      else if KeyTaken(s1.table, c.id, Edited(c, dto).key) then (s1, Err(UniqueViolation))
      else
        var s2 := s1.(table := s1.table[c.id := Edited(c, dto)]);
        var s3 := if dto.key.Some? && dto.key.value != "" && dto.key.value != c.key
                  then s2.(byKey := s2.byKey - {c.key}) else s2;
        (CacheConfig(s3, Edited(c, dto)), Ok(Some(Edited(c, dto))))
  }

  ghost function CachedDelete(s: State, id: Id): (State, Result<Option<Config>, Error>) {
    var (s1, found) := CachedFindById(s, id);
    if found.Err? || found.value == None then (s1, found)
    else (State(s1.table - {id}, s1.byId - {id}, s1.byKey - {found.value.value.key}), Ok(None))
  }

  ghost function Cached(s: State, op: Op): (State, Result<Option<Config>, Error>) {
    match op
    case Create(newId, dto) => CachedCreate(s, newId, dto)
    case Update(id, dto) => CachedUpdate(s, id, dto)
    case Delete(id) => CachedDelete(s, id)
    case FindById(id) => CachedFindById(s, id)
    case FindByKey(key) => CachedFindByKey(s, key)
    case EvictId(id) => (s.(byId := s.byId - {id}), Ok(None))
    case EvictKey(key) => (s.(byKey := s.byKey - {key}), Ok(None))
  }

  // ---------- Transparency ----------

  /** Every cached entry is the row it was read from. */
  ghost predicate Coherent(s: State) {
    && Unique(s.table)
    && (forall id :: id in s.byId ==> id in s.table && s.byId[id] == s.table[id])
    && (forall k :: k in s.byKey ==>
          s.byKey[k].id in s.table && s.byKey[k] == s.table[s.byKey[k].id] && s.byKey[k].key == k)
  }

  /** New rows get new ids; the request validation rejects empty keys. */
  ghost predicate Plausible(s: State, op: Op) {
    match op
    case Create(newId, dto) => newId !in s.table
    case Update(_, dto) => dto.key != Some("")
    case _ => true
  }

  lemma FindKeyUnique(table: Table, id: Id)
    requires Unique(table) && id in table
    ensures GetByKey(table, table[id].key) == Some(table[id])
  {
    assert HasKey(table, table[id].key);
  }

  lemma CacheKeepsCoherent(s: State, c: Config)
    requires Coherent(s) && c.id in s.table && s.table[c.id] == c
    ensures Coherent(CacheConfig(s, c))
  {
  }

  lemma FindByIdTransparent(s: State, id: Id)
    requires Coherent(s)
    ensures var (s', r) := CachedFindById(s, id);
            Coherent(s') && (s'.table, r) == Uncached(s.table, FindById(id))
            && (r.Ok? ==> s'.byId == s.byId[id := s.table[id]])
  {
    if id !in s.byId && id in s.table { CacheKeepsCoherent(s, s.table[id]); }
  }

  lemma FindByKeyTransparent(s: State, key: string)
    requires Coherent(s)
    ensures var (s', r) := CachedFindByKey(s, key); Coherent(s') && (s'.table, r) == Uncached(s.table, FindByKey(key))
  {
    if key in s.byKey {
      FindKeyUnique(s.table, s.byKey[key].id);
    } else if HasKey(s.table, key) {
      CacheKeepsCoherent(s, GetByKey(s.table, key).value);
    }
  }

  lemma CreateTransparent(s: State, newId: Id, dto: CreateDto)
    requires Coherent(s) && newId !in s.table
    ensures var (s', r) := CachedCreate(s, newId, dto);
            Coherent(s') && (s'.table, r) == Uncached(s.table, Create(newId, dto))
  {
    if !HasKey(s.table, dto.key) {
      var c := Config(newId, dto.key, dto.value, dto.description);
      forall id | id in s.table ensures s.table[id].key != dto.key {}
      CacheKeepsCoherent(s.(table := s.table[newId := c]), c);
    }
  }

  /** Writing one row: its old cache entries must be overwritten or dropped. */
  lemma RewriteKeepsCoherent(s: State, s': State, c: Config)
    requires Coherent(s) && c.id in s.table && !KeyTaken(s.table, c.id, c.key)
    requires s'.table == s.table[c.id := c] && s'.byId == s.byId[c.id := c]
    requires var was := s.table[c.id].key;
             s'.byKey == if c.key == was then s.byKey[c.key := c] else (s.byKey - {was})[c.key := c]
    ensures Coherent(s')
  {
    var before := s.table[c.id].key;
    forall k | k in s.byKey && s.byKey[k].id == c.id ensures k == before {}
    forall id | id in s.table && id != c.id ensures s.table[id].key != c.key {}
  }

  lemma UpdateTransparent(s: State, id: Id, dto: UpdateDto)
    requires Coherent(s) && dto.key != Some("")
    ensures var (s', r) := CachedUpdate(s, id, dto); Coherent(s') && (s'.table, r) == Uncached(s.table, Update(id, dto))
  {
    FindByIdTransparent(s, id);
    var (s', r) := CachedUpdate(s, id, dto);
    if r.Ok? {
      RewriteKeepsCoherent(CachedFindById(s, id).0, s', Edited(s.table[id], dto));
    }
  }

  lemma DeleteTransparent(s: State, id: Id)
    requires Coherent(s)
    ensures var (s', r) := CachedDelete(s, id); Coherent(s') && (s'.table, r) == Uncached(s.table, Delete(id))
  {
    FindByIdTransparent(s, id);
    var s1 := CachedFindById(s, id).0;
    if id in s.table {
      forall k | k in s1.byKey && s1.byKey[k].id == id ensures k == s.table[id].key {}
    }
  }

  lemma OpTransparent(s: State, op: Op)
    requires Coherent(s) && Plausible(s, op)
    ensures Coherent(Cached(s, op).0)
    ensures (Cached(s, op).0.table, Cached(s, op).1) == Uncached(s.table, op)
  {
    match op
    case Create(newId, dto) => CreateTransparent(s, newId, dto);
    case Update(id, dto) => UpdateTransparent(s, id, dto);
    case Delete(id) => DeleteTransparent(s, id);
    case FindById(id) => FindByIdTransparent(s, id);
    case FindByKey(key) => FindByKeyTransparent(s, key);
    case _ =>
  }

  ghost predicate PlausibleRun(s: State, ops: seq<Op>)
    decreases |ops|
  {
    ops != [] ==> Plausible(s, ops[0]) && PlausibleRun(Cached(s, ops[0]).0, ops[1..])
  }

  /** The answers of a run, with and without the cache. */
  ghost function CachedAnswers(s: State, ops: seq<Op>): seq<Result<Option<Config>, Error>>
    decreases |ops|
  {
    if ops == [] then [] else [Cached(s, ops[0]).1] + CachedAnswers(Cached(s, ops[0]).0, ops[1..])
  }

  ghost function UncachedAnswers(table: Table, ops: seq<Op>): seq<Result<Option<Config>, Error>>
    decreases |ops|
  {
    if ops == [] then [] else [Uncached(table, ops[0]).1] + UncachedAnswers(Uncached(table, ops[0]).0, ops[1..])
  }

  /** Main result: over any run, evictions included, every answer is what the table alone would give. */
  lemma {:induction false} CacheIsTransparent(s: State, ops: seq<Op>)
    requires Coherent(s) && PlausibleRun(s, ops)
    ensures CachedAnswers(s, ops) == UncachedAnswers(s.table, ops)
    decreases |ops|
  {
    if ops != [] {
      OpTransparent(s, ops[0]);
      CacheIsTransparent(Cached(s, ops[0]).0, ops[1..]);
    }
  }

  /** An empty new key, were it let through, keeps the cache coherent iff the row's old key was empty
      too or is not cached: otherwise the old key's entry is left behind. */
  lemma EmptyKeyLeavesEntryIff(s: State, id: Id, dto: UpdateDto)
    requires Coherent(s) && id in s.table && dto.key == Some("") && CachedUpdate(s, id, dto).1.Ok?
    ensures Coherent(CachedUpdate(s, id, dto).0)
            <==> s.table[id].key == "" || s.table[id].key !in CachedFindById(s, id).0.byKey
  {
    FindByIdTransparent(s, id);
    var s1 := CachedFindById(s, id).0;
    var (c, was) := (Edited(s.table[id], dto), s.table[id].key);
    var s' := CachedUpdate(s, id, dto).0;
    if was == "" || was !in s1.byKey {
      RewriteKeepsCoherent(s1, s', c);
    } else {
      assert was in s'.byKey && s'.byKey[was] == s.table[id];
    }
  }

  // ---------- What the operations do ----------

  /** A row is created with the fields asked for iff no row has its key. */
  lemma CreateStoresAsked(s: State, newId: Id, dto: CreateDto)
    requires Coherent(s) && newId !in s.table
    ensures var (s', r) := CachedCreate(s, newId, dto);
            if exists id :: id in s.table && s.table[id].key == dto.key then r == Err(Conflict) && s'.table == s.table
            else
              && newId in s'.table && s'.table == s.table[newId := s'.table[newId]] && r == Ok(Some(s'.table[newId]))
              && var c := s'.table[newId];
                 c.id == newId && c.key == dto.key && c.value == dto.value && c.description == dto.description
  {
  }

  /** A row is updated iff it exists and no other row has the key asked for. The fields named take the values asked
      for, and all others stay. */
  lemma UpdateStoresAsked(s: State, id: Id, dto: UpdateDto)
    requires Coherent(s) && dto.key != Some("")
    ensures var (s', r) := CachedUpdate(s, id, dto);
            if id !in s.table then r == Err(NotFound) && s'.table == s.table
            else if dto.key.Some? && exists other :: other in s.table && other != id
                                                     && s.table[other].key == dto.key.value then
              r == Err(Conflict) && s'.table == s.table
            else
              && id in s'.table && s'.table == s.table[id := s'.table[id]] && r == Ok(Some(s'.table[id]))
              && var (c, c') := (s.table[id], s'.table[id]);
                 && c'.id == c.id
                 && (dto.key == Some(c'.key) || (dto.key == None && c'.key == c.key))
                 && (dto.value == Some(c'.value) || (dto.value == None && c'.value == c.value))
                 && (dto.description == Some(c'.description)
                     || (dto.description == None && c'.description == c.description))
  {
    FindByIdTransparent(s, id);
    if id in s.table && KeyTaken(s.table, id, Edited(s.table[id], dto).key) {
      assert HasKey(s.table, Edited(s.table[id], dto).key);
    }
  }

  /** A row read is the one with that id or key, if there is one. */
  lemma FindsTheRow(s: State, id: Id, key: string, c: Config)
    requires Coherent(s)
    ensures CachedFindById(s, id).1 == Ok(Some(c)) <==> id in s.table && c == s.table[id]
    ensures CachedFindById(s, id).1.Err? <==> id !in s.table
    ensures CachedFindByKey(s, key).1 == Ok(Some(c)) <==> c.id in s.table && c == s.table[c.id] && c.key == key
    ensures CachedFindById(s, id).0.table == s.table == CachedFindByKey(s, key).0.table
  {
    FindByIdTransparent(s, id);
    FindByKeyTransparent(s, key);
    if c.id in s.table && c == s.table[c.id] && c.key == key { FindKeyUnique(s.table, c.id); }
  }

  /** A row deleted cannot be read again, and no other row is lost. */
  lemma DeleteForgets(s: State, id: Id)
    requires Coherent(s)
    ensures var (s', r) := CachedDelete(s, id);
            && s'.table == s.table - {id} && r == (if id in s.table then Ok(None) else Err(NotFound))
            && CachedFindById(s', id).1 == Err(NotFound)
            && (id in s.table ==> CachedFindByKey(s', s.table[id].key).1 == Ok(None))
  {
    DeleteTransparent(s, id);
    var s' := CachedDelete(s, id).0;
    FindByIdTransparent(s', id);
    if id in s.table { FindByKeyTransparent(s', s.table[id].key); }
  }
}
