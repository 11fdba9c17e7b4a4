/** The store-backed persistence hook `useLocalForage(key, initialValue)`:
    an in-memory value mirrored into one of four named stores, loaded
    through the migration engine when the hook mounts and again whenever
    `key` or `initialValue` changes, and written back by its setter.

    The hook is run sequentially: each transition finishes (its store calls
    resolved or rejected) before the next starts. Whether each store call
    resolves is a parameter. */
module LocalForageHook {
  import opened JsValue
  import DataMigration

  /** The four store instances of the application's store configuration. */
  datatype StoreName = ModulesStore | ClientsStore | BudgetsStore | AuthStore

  const StoreKeys: set<string> := {"modules", "clients", "budgets", "authState"}

  /** `getStore(key)` */
  function GetStore(key: string): (r: Completion<StoreName>)
    ensures r.Normal? <==> key in StoreKeys
  {
    match key
    case "modules" => Normal(ModulesStore)
    case "clients" => Normal(ClientsStore)
    case "budgets" => Normal(BudgetsStore)
    case "authState" => Normal(AuthStore)
    case _ => Throw(Error("No store defined for key: " + key))
  }

  /** The contents of every store: item key to stored value. */
  type Stores = map<StoreName, map<string, Json>>

  /** `store.getItem(key)`: null when nothing is stored under `key`. */
  function GetItem(stores: Stores, s: StoreName, key: string): Json
  {
    if s in stores && key in stores[s] then stores[s][key] else JNull
  }

  /** `store.setItem(key, v)` */
  function SetItem(stores: Stores, s: StoreName, key: string, v: Json): (r: Stores)
    ensures GetItem(r, s, key) == v
    ensures forall s', k' :: (s', k') != (s, key) ==> GetItem(r, s', k') == GetItem(stores, s', k')
  {
    stores[s := (if s in stores then stores[s] else map[])[key := v]]
  }

  /** A second write to the same entry replaces the first. */
  lemma SetItemOverwrites(stores: Stores, s: StoreName, key: string, v: Json, w: Json)
    ensures SetItem(SetItem(stores, s, key, v), s, key, w) == SetItem(stores, s, key, w)
  {
    var inner := if s in stores then stores[s] else map[];
    assert inner[key := v][key := w] == inner[key := w];
  }

  /** Whether the asynchronous `getItem` and `setItem` calls resolve. */
  datatype Io = Io(readOk: bool, writeOk: bool)

  /** The hook's state: the React state value and the stores. */
  datatype Hook = Hook(memory: Json, stores: Stores)

  /** `migrateData({ [key]: value }, key)[key]` */
  function Payload(key: string, value: Json): (r: Completion<Json>)
    requires key in StoreKeys
    ensures key == "authState" ==> r == Normal(JObj(map[key := value]))
    ensures DataMigration.Registry(key).Own? && r.Normal? ==> r.value.JArr?
    ensures key != "modules" ==> r.Normal?
  {
    var migrated := DataMigration.Migrate(JObj(map[key := value]), key);
    assert && (key != "modules" ==> migrated.Normal?)
           && (DataMigration.Registry(key).Own? && migrated.Normal? ==> Member(migrated.value, key).JArr?)
           && (key == "authState" ==> migrated == Normal(JObj(map[key := JObj(map[key := value])]))) by {
      if DataMigration.Registry(key).Own? {
        DataMigration.WrappedPayloadMigration(key, value);
      } else {
        DataMigration.UnknownKeyIsWrapped(JObj(map[key := value]), key);
      }
    }
    match migrated
    case Throw(e) => Throw(e)
    case Normal(d) => Normal(Member(d, key))
  }

  /** The hook's first render: `useState(initialValue)`. */
  function Mount(initial: Json, stores: Stores): Hook
  {
    Hook(initial, stores)
  }

  /** The `loadData` effect. Any throw (no store for the key, a rejected
      store call, a throwing migration) is caught and logged, leaving the
      hook as it was. */
  function Load(h: Hook, key: string, initial: Json, io: Io): (r: Hook)
    ensures r != h ==> key in StoreKeys && io.readOk && io.writeOk
    ensures r != h ==> GetItem(r.stores, GetStore(key).value, key) == r.memory
  {
    match GetStore(key)
    case Throw(_) => h
    case Normal(s) =>
      if !io.readOk then h
      else
        var value := GetItem(h.stores, s, key);
        var source := if value == JNull then initial else value;
        match Payload(key, source)
        case Throw(_) => h
        case Normal(p) =>
          if !io.writeOk then h
          else Hook(p, SetItem(h.stores, s, key, p))
  }

  /** `setValue(value)`: memory takes the new value first, then the store
      is written with that same value; nothing is migrated. */
  function SetValue(h: Hook, key: string, u: Update, writeOk: bool): (r: Hook)
    ensures key in StoreKeys && writeOk ==> GetItem(r.stores, GetStore(key).value, key) == r.memory
  {
    match GetStore(key)
    case Throw(_) => h
    case Normal(s) =>
      var v := Resolve(u, h.memory);
      Hook(v, if writeOk then SetItem(h.stores, s, key, v) else h.stores)
  }

  // ---------------------------------------------------------------------

  /** Only the four dataset keys select a store, and no two of them share one. */
  lemma StoreSelection(k1: string, k2: string)
    requires GetStore(k1).Normal? && GetStore(k2).Normal? && k1 != k2
    ensures GetStore(k1).value != GetStore(k2).value
  {
  }

  /** Any other key throws inside both operations; the throw is caught
      and neither the memory nor any store changes. */
  lemma UnknownKeyChangesNothing(h: Hook, key: string, initial: Json, u: Update, io: Io)
    requires key !in StoreKeys
    ensures Load(h, key, initial, io) == h
    ensures SetValue(h, key, u, io.writeOk) == h
  {
  }

  /** Loading with nothing stored writes the migrated initial payload to
      both the store and the memory; for a registered key it is a bare
      array, without a version stamp. */
  lemma LoadWhenAbsent(h: Hook, key: string, initial: Json)
    requires key in StoreKeys && GetItem(h.stores, GetStore(key).value, key) == JNull
    requires Payload(key, initial).Normal?
    ensures var r := Load(h, key, initial, Io(true, true));
            && r.memory == Payload(key, initial).value
            && r.stores == SetItem(h.stores, GetStore(key).value, key, r.memory)
    ensures DataMigration.Registry(key).Own? ==> Load(h, key, initial, Io(true, true)).memory.JArr?
  {
    if DataMigration.Registry(key).Own? {
      DataMigration.WrappedPayloadMigration(key, initial);
    }
  }

  /** Loading a stored value re-wraps it without a version, migrates it
      from version 0 and writes the payload back, even when it is the
      value already stored. */
  lemma LoadWhenPresent(h: Hook, key: string, initial: Json)
    requires key in StoreKeys
    requires GetItem(h.stores, GetStore(key).value, key) != JNull
    requires Payload(key, GetItem(h.stores, GetStore(key).value, key)).Normal?
    ensures var p := Payload(key, GetItem(h.stores, GetStore(key).value, key)).value;
            Load(h, key, initial, Io(true, true)) == Hook(p, SetItem(h.stores, GetStore(key).value, key, p))
  {
  }

  /** The first render shows `initialValue`; the effect then replaces it
      with the migrated payload of the stored value, or of `initialValue`
      when nothing is stored, and writes that payload to the store. */
  lemma FirstLoadFromMount(initial: Json, stores: Stores, key: string)
    requires key in StoreKeys
    requires var v := GetItem(stores, GetStore(key).value, key);
             Payload(key, if v == JNull then initial else v).Normal?
    ensures Mount(initial, stores).memory == initial
    ensures var v := GetItem(stores, GetStore(key).value, key);
            var p := Payload(key, if v == JNull then initial else v).value;
            Load(Mount(initial, stores), key, initial, Io(true, true)) == Hook(p, SetItem(stores, GetStore(key).value, key, p))
  {
  }

  /** A load that fails anywhere (read rejected, migration throws, write
      rejected) leaves memory and stores untouched. */
  lemma FailedLoadChangesNothing(h: Hook, key: string, initial: Json, io: Io)
    requires !io.readOk || !io.writeOk
    ensures Load(h, key, initial, io) == h
  {
  }

  /** For modules, clients and budgets, loading twice leaves the hook as
      loading once does. */
  lemma LoadTwiceIsLoadOnce(h: Hook, key: string, initial: Json)
    requires key in DataMigration.RegisteredKeys
    ensures var once := Load(h, key, initial, Io(true, true));
            Load(once, key, initial, Io(true, true)) == once
  {
    var once := Load(h, key, initial, Io(true, true));
    var s := GetStore(key).value;
    var value := GetItem(h.stores, s, key);
    var source := if value == JNull then initial else value;
    if Payload(key, source).Normal? {
      var p := Payload(key, source).value;
      DataMigration.WrappedPayloadMigration(key, source);
      DataMigration.PayloadMigrationIdempotent(key, source);
      assert GetItem(once.stores, s, key) == p;
      SetItemOverwrites(h.stores, s, key, p, p);
    }
  }

  /** `authState` has no registered steps, so every load wraps the stored
      value in one more `{ authState: ... }` layer. */
  lemma AuthStateRewraps(h: Hook, initial: Json)
    ensures var v := GetItem(h.stores, AuthStore, "authState");
            var wrapped := JObj(map["authState" := if v == JNull then initial else v]);
            var r := Load(h, "authState", initial, Io(true, true));
            r.memory == wrapped && GetItem(r.stores, AuthStore, "authState") == wrapped
  {
    DataMigration.UnknownKeyIsWrapped(JObj(map["authState" := GetItem(h.stores, AuthStore, "authState")]), "authState");
    DataMigration.UnknownKeyIsWrapped(JObj(map["authState" := initial]), "authState");
  }

  /** `n` layers of `{ authState: ... }` around `v`. */
  function Nest(v: Json, n: nat): Json
  {
    if n == 0 then v else JObj(map["authState" := Nest(v, n - 1)])
  }

  /** `n` successive loads of the `authState` hook. */
  function LoadTimes(h: Hook, initial: Json, n: nat): Hook
  {
    if n == 0 then h else Load(LoadTimes(h, initial, n - 1), "authState", initial, Io(true, true))
  }

  /** After `n` loads of a present `authState` value, store and memory hold
      it under `n` layers. */
  lemma {:induction false} AuthStateNestsPerLoad(h: Hook, initial: Json, n: nat)
    requires n > 0 && GetItem(h.stores, AuthStore, "authState") != JNull
    ensures var r := LoadTimes(h, initial, n);
            var v := GetItem(h.stores, AuthStore, "authState");
            r.memory == Nest(v, n) && GetItem(r.stores, AuthStore, "authState") == Nest(v, n)
  {
    AuthStateRewraps(LoadTimes(h, initial, n - 1), initial);
    if n > 1 {
      AuthStateNestsPerLoad(h, initial, n - 1);
    }
  }

  /** `setValue` puts the literal value, or the updater applied to the
      current memory, into memory and stores exactly that value; every
      other store entry is unchanged. A rejected write leaves the memory
      already updated and the stores as they were: there is no rollback. */
  lemma SetValueStoresUnmigrated(h: Hook, key: string, u: Update, writeOk: bool)
    requires key in StoreKeys
    ensures var r := SetValue(h, key, u, writeOk);
            && r.memory == Resolve(u, h.memory)
            && (writeOk ==> GetItem(r.stores, GetStore(key).value, key) == Resolve(u, h.memory))
            && (forall s, k :: (s, k) != (GetStore(key).value, key) ==> GetItem(r.stores, s, k) == GetItem(h.stores, s, k))
            && (!writeOk ==> r.stores == h.stores)
  {
  }

  /** Written modules are stored as given, without the `imageData` the
      migration adds; the next load adds it. */
  lemma SetValueDoesNotMigrate(h: Hook)
    ensures var m := JObj(map["id" := JInt(1)]);
            var r := SetValue(h, "modules", Literal(JArr([m])), true);
            && GetItem(r.stores, ModulesStore, "modules") == JArr([m])
            && !ItemHas(GetItem(r.stores, ModulesStore, "modules"), 0, "imageData")
            && ItemHas(Load(r, "modules", JArr([]), Io(true, true)).memory, 0, "imageData")
  {
    var m := JObj(map["id" := JInt(1)]);
    var r := SetValue(h, "modules", Literal(JArr([m])), true);
    assert GetItem(r.stores, ModulesStore, "modules") == JArr([m]);
    DataMigration.WrappedPayloadMigration("modules", JArr([m]));
    var loaded := Load(r, "modules", JArr([]), Io(true, true));
    assert loaded.memory == Payload("modules", JArr([m])).value;
  }
}
