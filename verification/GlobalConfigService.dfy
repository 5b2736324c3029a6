/** The configuration service: the table and two cache namespaces, updated one after the other. Each
    operation answers, and changes the table, as if there were no cache. */
module GlobalConfigService {
  import opened Prelude
  import C = ConfigCache
  import opened ConfigCache

  class Service {
    var table: Table
    var byId: map<C.Id, Config>
    var byKey: map<string, Config>

    ghost function Snapshot(): C.State
      reads this
    {
      C.State(table, byId, byKey)
    }

    constructor ()
      ensures Snapshot() == C.State(map[], map[], map[]) && Coherent(Snapshot())
    {
      table, byId, byKey := map[], map[], map[];
    }

    method StoreInCache(config: Config)
      modifies this`byId, this`byKey
      ensures Snapshot() == CacheConfig(old(Snapshot()), config)
    {
      byId := byId[config.id := config];
      byKey := byKey[config.key := config];
    }

    /** The row with this key: the column is unique. */
    method RowByKey(key: string) returns (config: Option<Config>)
      requires Unique(table)
      ensures config == GetByKey(table, key)
    {
      if id :| id in table && table[id].key == key {
        FindKeyUnique(table, id);
        return Some(table[id]);
      }
      return None;
    }

    method Create(newId: C.Id, dto: CreateDto) returns (result: Result<Option<Config>, C.Error>)
      requires Coherent(Snapshot()) && newId !in table
      modifies this
      ensures (Snapshot(), result) == CachedCreate(old(Snapshot()), newId, dto)
      ensures Coherent(Snapshot()) && (table, result) == Uncached(old(table), C.Create(newId, dto))
    {
      CreateTransparent(Snapshot(), newId, dto);
      var existing := RowByKey(dto.key);
      if existing.Some? {
        return Err(Conflict);
      }
      var config := Config(newId, dto.key, dto.value, dto.description);
      table := table[newId := config];
      StoreInCache(config);
      return Ok(Some(config));
    }

    method FindById(id: C.Id) returns (result: Result<Option<Config>, C.Error>)
      requires Coherent(Snapshot())
      modifies this`byId, this`byKey
      ensures (Snapshot(), result) == CachedFindById(old(Snapshot()), id)
      ensures Coherent(Snapshot()) && (table, result) == Uncached(old(table), C.FindById(id))
    {
      FindByIdTransparent(Snapshot(), id);
      if id in byId {
        return Ok(Some(byId[id]));
      }
      if id !in table {
        return Err(NotFound);
      }
      var config := table[id];
      StoreInCache(config);
      return Ok(Some(config));
    }

    method FindByKey(key: string) returns (result: Result<Option<Config>, C.Error>)
      requires Coherent(Snapshot())
      modifies this`byId, this`byKey
      ensures (Snapshot(), result) == CachedFindByKey(old(Snapshot()), key)
      ensures Coherent(Snapshot()) && (table, result) == Uncached(old(table), C.FindByKey(key))
    {
      FindByKeyTransparent(Snapshot(), key);
      if key in byKey {
        return Ok(Some(byKey[key]));
      }
      var config := RowByKey(key);
      if config.Some? {
        StoreInCache(config.value);
      }
      return Ok(config);
    }

    method Update(id: C.Id, dto: UpdateDto) returns (result: Result<Option<Config>, C.Error>)
      requires Coherent(Snapshot())
      modifies this
      ensures (Snapshot(), result) == CachedUpdate(old(Snapshot()), id, dto)
      ensures dto.key != Some("") ==>
                Coherent(Snapshot()) && (table, result) == Uncached(old(table), C.Update(id, dto))
    {
      if dto.key != Some("") { UpdateTransparent(Snapshot(), id, dto); }
      var found := FindById(id);
      if found.Err? || found.value == None {
        return found;
      }
      var config := found.value.value;
      var previousKey := config.key;
      if dto.key.Some? && dto.key.value != "" && dto.key.value != config.key {
        var existing := RowByKey(dto.key.value);
        if existing.Some? {
          return Err(Conflict);
        }
      }
      if dto.key.Some? { config := config.(key := dto.key.value); }
      if dto.value.Some? { config := config.(value := dto.value.value); }
      if dto.description.Some? { config := config.(description := dto.description.value); }
      if other :| other in table && other != config.id && table[other].key == config.key {
        return Err(UniqueViolation);
      }
      table := table[config.id := config];
      if dto.key.Some? && dto.key.value != "" && dto.key.value != previousKey {
        byKey := byKey - {previousKey};
      }
      StoreInCache(config);
      return Ok(Some(config));
    }

    method Delete(id: C.Id) returns (result: Result<Option<Config>, C.Error>)
      requires Coherent(Snapshot())
      modifies this
      ensures (Snapshot(), result) == CachedDelete(old(Snapshot()), id)
      ensures Coherent(Snapshot()) && (table, result) == Uncached(old(table), C.Delete(id))
    {
      DeleteTransparent(Snapshot(), id);
      var found := FindById(id);
      if found.Err? || found.value == None {
        return found;
      }
      table := table - {id};
      byId := byId - {id};
      byKey := byKey - {found.value.value.key};
      return Ok(None);
    }
  }
}
