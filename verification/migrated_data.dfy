/** The synchronous persistence hook `useMigratedData(key, initialValue)`:
    the whole versioned dataset is kept as JSON text in the browser's
    string storage, migrated when the hook initialises and again on every
    write, while the hook's memory holds only the payload. */
module MigratedDataHook {
  import opened JsValue
  import DataMigration

  /** What `localStorage.getItem(key)` can return for a present key: text
      that parses as JSON, the empty string (falsy, so treated as absent),
      or text that `JSON.parse` rejects. The JSON text encoding itself is
      not modelled: `Text(j)` is text that parses to `j`. */
  datatype Item = Text(json: Json) | EmptyText | NotJson

  type Storage = map<string, Item>

  /** The hook's state: the React state value and the storage. */
  datatype Hook = Hook(memory: Json, storage: Storage)

  /** What the hook needs of a stored dataset: a version the migration
      engine can read. */
  predicate Readable(storage: Storage, key: string)
  {
    key in storage && storage[key].Text? ==> DataMigration.Migratable(storage[key].json, key)
  }

  /** `migratedItem[key]` reads a JSON value. For a key named like an
      `Object.prototype` member, a stored dataset that migrates and is
      written back without owning that field would read the inherited
      member, which is not a JSON value. A dataset built from
      `initialValue` always owns the key, and a throwing migration or a
      rejected write never reaches the read. */
  predicate ReadsOwnField(storage: Storage, key: string, writeOk: bool)
    requires Readable(storage, key)
  {
    writeOk && key in DataMigration.PrototypeNames && key in storage && storage[key].Text? ==>
      || DataMigration.Migrate(storage[key].json, key).Throw?
      || (storage[key].json.JObj? && key in storage[key].json.fields)
  }

  /** The lazy `useState` initialiser. Any throw (text that is not JSON, a
      throwing migration, a rejected `setItem`) is caught and the memory
      starts as `initialValue`. */
  function Init(storage: Storage, key: string, initial: Json, writeOk: bool): (h: Hook)
    requires Readable(storage, key) && ReadsOwnField(storage, key, writeOk)
    ensures h.storage == storage || (key in h.storage && h.storage == storage[key := h.storage[key]])
    ensures h.storage != storage ==> h.storage[key].Text? && h.memory == Member(h.storage[key].json, key)
    ensures h.storage != storage && key in DataMigration.PrototypeNames ==>
              h.storage[key].json.JObj? && key in h.storage[key].json.fields
  {
    var item := if key in storage then storage[key] else EmptyText;
    match item
    case NotJson => Hook(initial, storage)
    case Text(parsed) =>
      (match DataMigration.Migrate(parsed, key)
       case Throw(_) => Hook(initial, storage)
       case Normal(migrated) =>
         if writeOk then Hook(Member(migrated, key), storage[key := Text(migrated)])
         else Hook(initial, storage))
    case EmptyText =>
      match DataMigration.Migrate(JObj(map[key := initial]), key)
      case Throw(_) => Hook(initial, storage)
      case Normal(initialData) =>
        if writeOk then Hook(Member(initialData, key), storage[key := Text(initialData)])
        else Hook(initial, storage)
  }

  /** `setValue(value)`: memory takes the value (or the updater applied to
      the current memory); the storage gets that value wrapped under `key`
      and fully migrated. */
  function SetValue(h: Hook, key: string, u: Update, writeOk: bool): (r: Hook)
    ensures r.storage == h.storage || (key in r.storage && r.storage == h.storage[key := r.storage[key]])
  {
    var v := Resolve(u, h.memory);
    match DataMigration.Migrate(JObj(map[key := v]), key)
    case Throw(_) => Hook(v, h.storage)
    case Normal(dataToStore) =>
      Hook(v, if writeOk then h.storage[key := Text(dataToStore)] else h.storage)
  }

  // ---------------------------------------------------------------------

  /** With nothing stored, initialising stores the full migrated dataset,
      version included, and the memory takes its payload. */
  lemma InitWhenAbsent(storage: Storage, key: string, initial: Json)
    requires key !in storage || storage[key] == EmptyText
    requires DataMigration.Migrate(JObj(map[key := initial]), key).Normal?
    ensures var d := DataMigration.Migrate(JObj(map[key := initial]), key).value;
            var h := Init(storage, key, initial, true);
            && h.storage == storage[key := Text(d)]
            && h.memory == Member(d, key)
            && (DataMigration.Registry(key).Own? ==> Member(d, "version") == JInt(DataMigration.StepCount(key)))
  {
    if DataMigration.Registry(key).Own? {
      DataMigration.WrappedPayloadMigration(key, initial);
      DataMigration.MigrateReachesLatest(JObj(map[key := initial]), key);
    }
  }

  /** A stored dataset is migrated from its own stored version, written
      back, and the memory takes its payload. */
  lemma InitWhenStored(storage: Storage, key: string, initial: Json)
    requires key in storage && storage[key].Text? && Readable(storage, key)
    requires ReadsOwnField(storage, key, true)
    requires DataMigration.Migrate(storage[key].json, key).Normal?
    ensures var m := DataMigration.Migrate(storage[key].json, key).value;
            var h := Init(storage, key, initial, true);
            && h.storage == storage[key := Text(m)]
            && h.memory == Member(m, key)
  {
  }

  /** Every failure during initialisation leaves the memory at
      `initialValue` and the storage as it was. */
  lemma InitFailureGivesInitial(storage: Storage, key: string, initial: Json, writeOk: bool)
    requires Readable(storage, key)
    requires || !writeOk
             || (key in storage && storage[key] == NotJson)
             || (key in storage && storage[key].Text? && DataMigration.Migrate(storage[key].json, key).Throw?)
             || ((key !in storage || storage[key] == EmptyText) &&
                 DataMigration.Migrate(JObj(map[key := initial]), key).Throw?)
    ensures Init(storage, key, initial, writeOk) == Hook(initial, storage)
  {
  }

  /** Every write stores the value wrapped under `key` and migrated from
      version 0 (so a registered key's stored version is its step count),
      while the memory keeps the value as given. */
  lemma SetValueMigratesEveryWrite(h: Hook, key: string, u: Update)
    requires DataMigration.Migrate(JObj(map[key := Resolve(u, h.memory)]), key).Normal?
    ensures var v := Resolve(u, h.memory);
            var d := DataMigration.Migrate(JObj(map[key := v]), key).value;
            var r := SetValue(h, key, u, true);
            && r.memory == v
            && r.storage == h.storage[key := Text(d)]
            && (DataMigration.Registry(key).Own? ==> Member(d, "version") == JInt(DataMigration.StepCount(key)))
  {
    var v := Resolve(u, h.memory);
    if DataMigration.Registry(key).Own? {
      DataMigration.WrappedPayloadMigration(key, v);
      DataMigration.MigrateReachesLatest(JObj(map[key := v]), key);
    }
  }

  /** A write that fails (migration throws or `setItem` rejects) has
      already updated the memory; the storage is unchanged. */
  lemma FailedWriteKeepsMemory(h: Hook, key: string, u: Update, writeOk: bool)
    requires !writeOk || DataMigration.Migrate(JObj(map[key := Resolve(u, h.memory)]), key).Throw?
    ensures SetValue(h, key, u, writeOk) == Hook(Resolve(u, h.memory), h.storage)
  {
  }

  /** After a write the memory holds the value unmigrated while the
      storage holds it migrated: written modules gain `imageData` in
      storage only. */
  lemma MemoryAndStorageDiverge(h: Hook)
    ensures var m := JObj(map["id" := JInt(1)]);
            var r := SetValue(h, "modules", Literal(JArr([m])), true);
            && r.memory == JArr([m])
            && !ItemHas(r.memory, 0, "imageData")
            && "modules" in r.storage && r.storage["modules"].Text?
            && ItemHas(Member(r.storage["modules"].json, "modules"), 0, "imageData")
  {
    var m := JObj(map["id" := JInt(1)]);
    DataMigration.WrappedPayloadMigration("modules", JArr([m]));
  }

  /** What the hook writes it can read back. */
  lemma WritesStayReadable(h: Hook, key: string, u: Update, initial: Json, writeOk: bool)
    requires Readable(h.storage, key) && ReadsOwnField(h.storage, key, writeOk)
    ensures Readable(Init(h.storage, key, initial, writeOk).storage, key)
    ensures Readable(SetValue(h, key, u, writeOk).storage, key)
  {
    var item := if key in h.storage then h.storage[key] else EmptyText;
    if !DataMigration.Registry(key).Absent? {
      var initialData := JObj(map[key := initial]);
      var written := JObj(map[key := Resolve(u, h.memory)]);
      if item.Text? && DataMigration.Migrate(item.json, key).Normal? {
        DataMigration.MigrateIdempotent(item.json, key, DataMigration.Migrate(item.json, key).value);
      }
      if DataMigration.Migrate(initialData, key).Normal? {
        DataMigration.MigrateIdempotent(initialData, key, DataMigration.Migrate(initialData, key).value);
      }
      if DataMigration.Migrate(written, key).Normal? {
        DataMigration.MigrateIdempotent(written, key, DataMigration.Migrate(written, key).value);
      }
    }
  }

  /** Round trip for a key with a step table: initialising again after a
      write of `V` gives the memory `migrateData({ [key]: V }, key)[key]`
      and leaves the stored dataset as the write left it. */
  lemma ReinitAfterWrite(h: Hook, key: string, u: Update, initial: Json)
    requires !DataMigration.Registry(key).Absent?
    requires DataMigration.Migrate(JObj(map[key := Resolve(u, h.memory)]), key).Normal?
    ensures var d := DataMigration.Migrate(JObj(map[key := Resolve(u, h.memory)]), key).value;
            var written := SetValue(h, key, u, true);
            && Readable(written.storage, key)
            && ReadsOwnField(written.storage, key, true)
            && Init(written.storage, key, initial, true) == Hook(Member(d, key), written.storage)
  {
    var v := Resolve(u, h.memory);
    var d := DataMigration.Migrate(JObj(map[key := v]), key).value;
    DataMigration.MigrateIdempotent(JObj(map[key := v]), key, d);
    var written := SetValue(h, key, u, true);
    assert written.storage == h.storage[key := Text(d)];
    assert written.storage[key := Text(d)] == written.storage;
  }

  /** Keys named like `Object.prototype` members: a stored dataset that
      owns the field is read like any other, while one that lacks it (and
      would read the inherited `toString`) is outside the model. */
  lemma PrototypeNamedKeys()
    ensures var own := map["toString" := Text(JObj(map["toString" := JInt(3)]))];
            && ReadsOwnField(own, "toString", true)
            && Init(own, "toString", JInt(7), true).memory == JInt(3)
    ensures !ReadsOwnField(map["toString" := Text(JObj(map[]))], "toString", true)
  {
  }

  /** For a key with no step table the round trip does not hold: each
      initialisation wraps the stored dataset once more. */
  lemma UnknownKeyReinitRewraps(storage: Storage, key: string, initial: Json)
    requires key !in DataMigration.RegisteredKeys && key !in DataMigration.PrototypeNames
    requires key in storage && storage[key].Text?
    ensures var h := Init(storage, key, initial, true);
            && h.storage == storage[key := Text(JObj(map[key := storage[key].json]))]
            && h.memory == storage[key].json
  {
    DataMigration.UnknownKeyIsWrapped(storage[key].json, key);
  }
}
