/** The versioned migration engine: a table of ordered upgrade steps per
    dataset key, and `migrateData`, which runs the steps from the dataset's
    stored version up to the length of its key's list. */
module DataMigration {
  import opened JsValue

  /** One registered migration step. */
  datatype Step =
    | CoercePayload(field: string)  // keep `field` if it is an array, else `[]`; drop every other field
    | AddImageData                  // give every module an `imageData`, defaulting to ''

  /** The version a step stamps on its result. */
  function Target(step: Step): nat
  {
    match step
    case CoercePayload(_) => 1
    case AddImageData => 2
  }

  /** What `migrations[key]` evaluates to. The table is an object literal,
      so names of `Object.prototype` members find an inherited value. */
  datatype Lookup =
    | Own(steps: seq<Step>)
    | InheritedMethod(arity: nat)  // an inherited function: `.length` is its arity, it has no indexed members
    | InheritedPrototype           // `__proto__`: `Object.prototype` itself, with no `.length`
    | Absent

  const RegisteredKeys: set<string> := {"modules", "clients", "budgets"}

  const PrototypeNames: set<string> :=
    {"constructor", "__defineGetter__", "__defineSetter__", "hasOwnProperty",
     "__lookupGetter__", "__lookupSetter__", "isPrototypeOf",
     "propertyIsEnumerable", "toString", "valueOf", "toLocaleString", "__proto__"}

  function Registry(key: string): (r: Lookup)
    ensures r.Own? <==> key in RegisteredKeys
    ensures r.Absent? <==> key !in RegisteredKeys && key !in PrototypeNames
    ensures r.Own? ==> |r.steps| > 0 && r.steps[0] == CoercePayload(key)
  {
    match key
    case "modules" => Own([CoercePayload("modules"), AddImageData])
    case "clients" => Own([CoercePayload("clients")])
    case "budgets" => Own([CoercePayload("budgets")])
    case "constructor" => InheritedMethod(1)
    case "__defineGetter__" => InheritedMethod(2)
    case "__defineSetter__" => InheritedMethod(2)
    case "hasOwnProperty" => InheritedMethod(1)
    case "__lookupGetter__" => InheritedMethod(1)
    case "__lookupSetter__" => InheritedMethod(1)
    case "isPrototypeOf" => InheritedMethod(1)
    case "propertyIsEnumerable" => InheritedMethod(1)
    case "toString" => InheritedMethod(0)
    case "valueOf" => InheritedMethod(0)
    case "toLocaleString" => InheritedMethod(0)
    case "__proto__" => InheritedPrototype
    case _ => Absent
  }

  /** The number of registered steps for a key (0 when it has no list). */
  function StepCount(key: string): nat
  {
    if Registry(key).Own? then |Registry(key).steps| else 0
  }

  /** The stored version is an integer or falsy; other version values go
      through JavaScript's relational coercions, which are not modelled. */
  predicate VersionModelled(data: Json)
  {
    var v := Member(data, "version");
    !Truthy(v) || v.JInt?
  }

  /** What `migrateData` demands of its input: only keys with a step table
      read the version. */
  predicate Migratable(data: Json, key: string)
  {
    Registry(key).Absent? || VersionModelled(data)
  }

  /** `data?.version || 0` */
  function StartVersion(data: Json): (v: int)
    requires VersionModelled(data)
    ensures v == 0 <==> !Truthy(Member(data, "version"))
    ensures v != 0 ==> Member(data, "version") == JInt(v)
  {
    var v := Member(data, "version");
    if Truthy(v) then v.n else 0
  }

  /** A payload that is not an array becomes `[]`. */
  function Coerce(p: Json): (r: Json)
    ensures r.JArr?
    ensures p.JArr? ==> r == p
  {
    if p.JArr? then p else JArr([])
  }

  /** `{ ...module, imageData: module.imageData || '' }` */
  function WithImageData(m: Json): (r: Json)
    ensures r.JObj?
    ensures r.fields.Keys == Spread(m).Keys + {"imageData"}
    ensures forall k :: k in Spread(m) && k != "imageData" ==> r.fields[k] == Spread(m)[k]
    ensures Truthy(Member(m, "imageData")) ==> r.fields["imageData"] == Member(m, "imageData")
    ensures !Truthy(Member(m, "imageData")) ==> r.fields["imageData"] == JStr("")
  {
    JObj(Spread(m) + map["imageData" := Or(Member(m, "imageData"), JStr(""))])
  }

  /** The callback of `data.modules.map(...)`: reading `imageData` of null throws. */
  function DefaultImage(m: Json): Completion<Json>
  {
    if m.JNull? then Throw(TypeError("Cannot read properties of null (reading 'imageData')"))
    else Normal(WithImageData(m))
  }

  /** `modules.map(...)` with the callback above, left to right. */
  function DefaultImages(ms: seq<Json>): (r: Completion<seq<Json>>)
    ensures r.Normal? ==> |r.value| == |ms|
    ensures |ms| > 0 && ms[0] == JNull ==> r.Throw?
    decreases |ms|
  {
    if |ms| == 0 then Normal([])
    else
      match DefaultImage(ms[0])
      case Throw(e) => Throw(e)
      case Normal(head) =>
        match DefaultImages(ms[1..])
        case Throw(e) => Throw(e)
        case Normal(tail) => Normal([head] + tail)
  }

  /** The `map` succeeds exactly when no module is null, and then updates
      every module on its own, keeping length and order. */
  lemma {:induction false} DefaultImagesSpec(ms: seq<Json>)
    ensures DefaultImages(ms).Normal? <==> forall i :: 0 <= i < |ms| ==> ms[i] != JNull
    ensures DefaultImages(ms).Normal? ==> |DefaultImages(ms).value| == |ms|
    ensures DefaultImages(ms).Normal? ==>
              forall i :: 0 <= i < |ms| ==> DefaultImages(ms).value[i] == WithImageData(ms[i])
    decreases |ms|
  {
    if |ms| > 0 {
      var rest := ms[1..];
      assert forall i :: 1 <= i < |ms| ==> rest[i - 1] == ms[i];
      DefaultImagesSpec(rest);
      if DefaultImages(ms).Normal? {
        var tail := DefaultImages(rest).value;
        assert DefaultImages(ms).value == [WithImageData(ms[0])] + tail;
      }
    }
  }

  /** One migration step applied to the dataset object. */
  function Apply(step: Step, d: Json): (r: Completion<Json>)
    ensures step.CoercePayload? ==> r.Normal?
    ensures r.Normal? ==> r.value.JObj?
    ensures r.Normal? && (step.CoercePayload? ==> step.field != "version") ==>
              Member(r.value, "version") == JInt(Target(step))
  {
    match step
    case CoercePayload(field) =>
      Normal(JObj(map["version" := JInt(1), field := Coerce(Member(d, field))]))
    case AddImageData =>
      var ms := Member(d, "modules");
      if ms.JNull? then Throw(TypeError("Cannot read properties of undefined (reading 'map')"))
      else if !ms.JArr? then Throw(TypeError("data.modules.map is not a function"))
      else
        match DefaultImages(ms.items)
        case Throw(e) => Throw(e)
        case Normal(updated) =>
          Normal(JObj(Spread(d) + map["version" := JInt(2), "modules" := JArr(updated)]))
  }

  /** The `while (currentVersion < migrations[key].length)` loop, entered
      at version `v` with the dataset `d`. */
  function RunSteps(steps: seq<Step>, v: int, d: Json): (r: Completion<Json>)
    ensures d.JObj? && r.Normal? ==> r.value.JObj?
    decreases |steps| - v
  {
    if v >= |steps| then Normal(d)
    else if v < 0 then Throw(TypeError("migrations[key][currentVersion] is not a function"))
    else
      match Apply(steps[v], d)
      case Throw(e) => Throw(e)
      case Normal(next) => RunSteps(steps, v + 1, next)
  }

  /** `migrateData(data, key)` */
  function Migrate(data: Json, key: string): (r: Completion<Json>)
    requires Migratable(data, key)
    ensures r.Normal? ==> r.value.JObj?
  {
    match Registry(key)
    case Absent => Normal(JObj(map[key := data]))
    case InheritedPrototype => Normal(JObj(Spread(data)))
    case InheritedMethod(arity) =>
      if StartVersion(data) < arity then Throw(TypeError("migrations[key][currentVersion] is not a function"))
      else Normal(JObj(Spread(data)))
    case Own(steps) => RunSteps(steps, StartVersion(data), JObj(Spread(data)))
  }

  /** `migrateData` as the source writes it, with its loop. */
  method MigrateData(data: Json, key: string) returns (r: Completion<Json>)
    requires Migratable(data, key)
    ensures r == Migrate(data, key)
  {
    var lookup := Registry(key);
    if lookup.Absent? {
      return Normal(JObj(map[key := data]));
    }
    var currentVersion := StartVersion(data);
    var migrated := JObj(Spread(data));
    match lookup {
      case InheritedPrototype =>
        return Normal(migrated);
      case InheritedMethod(arity) =>
        if currentVersion < arity {
          return Throw(TypeError("migrations[key][currentVersion] is not a function"));
        }
        return Normal(migrated);
      case Own(steps) =>
        while currentVersion < |steps|
          invariant RunSteps(steps, currentVersion, migrated) == Migrate(data, key)
          decreases |steps| - currentVersion
        {
          if currentVersion < 0 {
            return Throw(TypeError("migrations[key][currentVersion] is not a function"));
          }
          var next := Apply(steps[currentVersion], migrated);
          if next.Throw? {
            return Throw(next.error);
          }
          migrated := next.value;
          currentVersion := currentVersion + 1;
        }
        return Normal(migrated);
    }
  }

  /** The steps of a list applied one after another, first to last. */
  function ApplyAll(steps: seq<Step>, d: Json): Completion<Json>
    decreases |steps|
  {
    if |steps| == 0 then Normal(d)
    else
      match Apply(steps[0], d)
      case Throw(e) => Throw(e)
      case Normal(next) => ApplyAll(steps[1..], next)
  }

  // ---------------------------------------------------------------------
  // Facts about the spread copy `{ ...data }`

  lemma DecimalStringStartsWithDigit(n: nat)
    ensures |DecimalString(n)| > 0 && '0' <= DecimalString(n)[0] <= '9'
    decreases n
  {
    if n >= 10 {
      DecimalStringStartsWithDigit(n / 10);
    }
  }

  /** Array and string spreads only have decimal index keys. */
  lemma {:induction false} IndexedKeysStartWithDigit(items: seq<Json>, k: string)
    requires k in Indexed(items)
    ensures |k| > 0 && '0' <= k[0] <= '9'
    decreases |items|
  {
    if |items| > 0 {
      if k == DecimalString(|items| - 1) {
        DecimalStringStartsWithDigit(|items| - 1);
      } else {
        IndexedKeysStartWithDigit(items[..|items| - 1], k);
      }
    }
  }

  /** Reading a named (non-index) property of the copy reads the original. */
  lemma SpreadMember(data: Json, name: string)
    requires |name| > 0 && !('0' <= name[0] <= '9')
    ensures Member(JObj(Spread(data)), name) == Member(data, name)
  {
    match data
    case JArr(items) =>
      if name in Indexed(items) {
        IndexedKeysStartWithDigit(items, name);
      }
    case JStr(s) =>
      var chars := seq(|s|, i requires 0 <= i < |s| => JStr([s[i]]));
      if name in Indexed(chars) {
        IndexedKeysStartWithDigit(chars, name);
      }
    case _ =>
  }

  /** The copy `{ ...data }` has the version of `data`. */
  lemma CopyKeepsVersion(data: Json)
    ensures Member(JObj(Spread(data)), "version") == Member(data, "version")
    ensures VersionModelled(data) ==> VersionModelled(JObj(Spread(data)))
    ensures VersionModelled(data) ==> StartVersion(JObj(Spread(data))) == StartVersion(data)
  {
    SpreadMember(data, "version");
  }

  // ---------------------------------------------------------------------
  // The step table

  /** Each registered list starts with the payload coercion for its own
      key, and the step at index i produces version i + 1. */
  lemma RegistryShape(key: string)
    requires Registry(key).Own?
    ensures key in RegisteredKeys
    ensures StepCount(key) >= 1 && Registry(key).steps[0] == CoercePayload(key)
    ensures forall i :: 0 <= i < StepCount(key) ==> Target(Registry(key).steps[i]) == i + 1
    ensures StepCount(key) == (if key == "modules" then 2 else 1)
  {
  }

  /** A step's result carries the version that step targets. */
  lemma ApplyStamps(step: Step, d: Json)
    requires step.CoercePayload? ==> step.field != "version"
    ensures Apply(step, d).Normal? ==> Member(Apply(step, d).value, "version") == JInt(Target(step))
  {
  }

  /** Entered at a version below the list length, the loop ends with the
      version the last step targets. */
  lemma {:induction false} RunStepsEndsAtLatest(key: string, v: int, d: Json)
    requires Registry(key).Own? && 0 <= v < StepCount(key)
    ensures RunSteps(Registry(key).steps, v, d).Normal? ==>
              Member(RunSteps(Registry(key).steps, v, d).value, "version") == JInt(StepCount(key))
    decreases StepCount(key) - v
  {
    var steps := Registry(key).steps;
    RegistryShape(key);
    ApplyStamps(steps[v], d);
    match Apply(steps[v], d)
    case Throw(_) =>
    case Normal(next) =>
      if v + 1 < |steps| {
        RunStepsEndsAtLatest(key, v + 1, next);
      }
  }

  // ---------------------------------------------------------------------
  // Properties of migrateData

  /** Started at any version from 0 to the step count, a successful
      migration ends at the step count: 2 for modules, 1 for clients and
      budgets. */
  lemma MigrateReachesLatest(data: Json, key: string)
    requires Registry(key).Own? && VersionModelled(data)
    requires 0 <= StartVersion(data) <= StepCount(key)
    ensures Migrate(data, key).Normal? ==> Member(Migrate(data, key).value, "version") == JInt(StepCount(key))
  {
    CopyKeepsVersion(data);
    RegistryShape(key);
    if StartVersion(data) < StepCount(key) {
      RunStepsEndsAtLatest(key, StartVersion(data), JObj(Spread(data)));
    }
  }

  /** A dataset already at (or past) the latest version comes back as an
      equal, field-for-field copy. */
  lemma CurrentDatasetIsCopied(data: Json, key: string)
    requires Registry(key).Own? && VersionModelled(data)
    requires StartVersion(data) >= StepCount(key)
    ensures Migrate(data, key) == Normal(data)
  {
    RegistryShape(key);
    assert Truthy(Member(data, "version"));
  }

  /** Migrating the result of a successful migration changes nothing, for
      every key that has a step table (registered or inherited). */
  lemma MigrateIdempotent(data: Json, key: string, r: Json)
    requires !Registry(key).Absent? && VersionModelled(data)
    requires Migrate(data, key) == Normal(r)
    ensures Migratable(r, key) && Migrate(r, key) == Normal(r)
  {
    CopyKeepsVersion(data);
    match Registry(key)
    case InheritedPrototype =>
    case InheritedMethod(_) =>
    case Own(steps) =>
      if StartVersion(data) >= |steps| {
      } else {
        MigrateReachesLatest(data, key);
        RegistryShape(key);
        CurrentDatasetIsCopied(r, key);
      }
  }

  /** A key with no step table (own or inherited) is passed through,
      wrapped under itself; nothing is thrown. */
  lemma UnknownKeyIsWrapped(data: Json, key: string)
    requires key !in RegisteredKeys && key !in PrototypeNames
    ensures Registry(key).Absent?
    ensures Migrate(data, key) == Normal(JObj(map[key := data]))
  {
  }

  /** The first step of every list keeps an array payload, turns any other
      payload into `[]`, stamps version 1 and drops every other field. */
  lemma FirstStepKeepsOnlyPayload(key: string, d: Json)
    requires Registry(key).Own?
    ensures Apply(Registry(key).steps[0], d).Normal?
    ensures Apply(Registry(key).steps[0], d).value.fields.Keys == {"version", key}
    ensures Apply(Registry(key).steps[0], d).value.fields["version"] == JInt(1)
    ensures Member(d, key).JArr? ==> Apply(Registry(key).steps[0], d).value.fields[key] == Member(d, key)
    ensures !Member(d, key).JArr? ==> Apply(Registry(key).steps[0], d).value.fields[key] == JArr([])
  {
    RegistryShape(key);
  }

  /** The second modules step succeeds exactly when `modules` is an array
      without null entries; then it keeps every other top-level field,
      stamps version 2, and replaces each module, in order, by its copy
      with `imageData` defaulted. */
  lemma ImageDataStep(d: Json)
    requires d.JObj?
    ensures Apply(AddImageData, d).Normal? <==>
              Member(d, "modules").JArr? &&
              forall i :: 0 <= i < |Member(d, "modules").items| ==> Member(d, "modules").items[i] != JNull
    ensures Apply(AddImageData, d).Normal? ==>
              var r := Apply(AddImageData, d).value.fields;
              var before := Member(d, "modules").items;
              && r.Keys == d.fields.Keys + {"version", "modules"}
              && (forall k :: k in d.fields && k != "version" && k != "modules" ==> r[k] == d.fields[k])
              && r["version"] == JInt(2)
              && r["modules"].JArr? && |r["modules"].items| == |before|
              && forall i :: 0 <= i < |before| ==> r["modules"].items[i] == WithImageData(before[i])
  {
    if Member(d, "modules").JArr? {
      DefaultImagesSpec(Member(d, "modules").items);
    }
  }

  /** Entering the modules step at version 1 with a `modules` value that
      is not an array throws, since `.map` is not defined on it. */
  lemma ModulesStepNeedsArray(data: Json)
    requires VersionModelled(data) && StartVersion(data) == 1
    requires !Member(data, "modules").JArr?
    ensures Migrate(data, "modules").Throw?
  {
    SpreadMember(data, "modules");
  }

  /** Exactly when a migration with a registered key throws: a negative
      start version, or a modules step that meets a non-array `modules` or
      a null module. */
  lemma MigrationFailsIff(data: Json, key: string)
    requires Registry(key).Own? && VersionModelled(data)
    ensures Migrate(data, key).Throw? <==>
              var v := StartVersion(data);
              var p := Member(data, key);
              || v < 0
              || (key == "modules" && v == 1 && !p.JArr?)
              || (key == "modules" && 0 <= v <= 1 && p.JArr? &&
                  exists i :: 0 <= i < |p.items| && p.items[i] == JNull)
  {
    RegistryShape(key);
    SpreadMember(data, key);
    var d := JObj(Spread(data));
    var v := StartVersion(data);
    if key == "modules" && v == 0 {
      FirstStepKeepsOnlyPayload(key, d);
      ImageDataStep(Apply(CoercePayload("modules"), d).value);
    } else if key == "modules" && v == 1 {
      ImageDataStep(d);
    }
  }

  /** The loop applies the steps from the start version up, each once, in
      list order. */
  lemma {:induction false} RunStepsAppliesSuffix(steps: seq<Step>, v: int, d: Json)
    requires 0 <= v <= |steps|
    ensures RunSteps(steps, v, d) == ApplyAll(steps[v..], d)
    decreases |steps| - v
  {
    if v < |steps| {
      assert steps[v..][0] == steps[v];
      assert steps[v..][1..] == steps[v + 1..];
      match Apply(steps[v], d)
      case Throw(_) =>
      case Normal(next) => RunStepsAppliesSuffix(steps, v + 1, next);
    }
  }

  /** A dataset `{ [key]: p }` without a version, as the persistence hooks
      build it, migrates from version 0: the payload is coerced to an
      array and, for modules, every module gets its `imageData` default. */
  lemma WrappedPayloadMigration(key: string, p: Json)
    requires Registry(key).Own?
    ensures key != "version" && VersionModelled(JObj(map[key := p])) && StartVersion(JObj(map[key := p])) == 0
    ensures Migrate(JObj(map[key := p]), key).Normal? <==>
              key != "modules" || forall i :: 0 <= i < |Coerce(p).items| ==> Coerce(p).items[i] != JNull
    ensures Migrate(JObj(map[key := p]), key).Normal? ==>
              var r := Member(Migrate(JObj(map[key := p]), key).value, key);
              && r.JArr? && |r.items| == |Coerce(p).items|
              && forall i :: 0 <= i < |r.items| ==>
                   r.items[i] == (if key == "modules" then WithImageData(Coerce(p).items[i]) else Coerce(p).items[i])
  {
    RegistryShape(key);
    var d := JObj(map[key := p]);
    FirstStepKeepsOnlyPayload(key, d);
    if key == "modules" {
      ImageDataStep(Apply(CoercePayload("modules"), d).value);
    }
  }

  /** Defaulting `imageData` a second time changes nothing. */
  lemma WithImageDataIdempotent(m: Json)
    ensures WithImageData(WithImageData(m)) == WithImageData(m)
  {
    var r := WithImageData(m);
    var x := r.fields["imageData"];
    assert Member(r, "imageData") == x;
    assert Or(x, JStr("")) == x;
    assert r.fields + map["imageData" := x] == r.fields;
  }

  /** A payload that came out of a migration comes out of the next one
      unchanged. */
  lemma PayloadMigrationIdempotent(key: string, p: Json)
    requires Registry(key).Own?
    requires Migrate(JObj(map[key := p]), key).Normal?
    ensures var q := Member(Migrate(JObj(map[key := p]), key).value, key);
            && Migrate(JObj(map[key := q]), key).Normal?
            && Member(Migrate(JObj(map[key := q]), key).value, key) == q
  {
    WrappedPayloadMigration(key, p);
    var q := Member(Migrate(JObj(map[key := p]), key).value, key);
    assert Coerce(q) == q;
    if key == "modules" {
      assert forall i :: 0 <= i < |q.items| ==> q.items[i].JObj?;
    }
    WrappedPayloadMigration(key, q);
    var q' := Member(Migrate(JObj(map[key := q]), key).value, key);
    forall i | 0 <= i < |q.items|
      ensures q'.items[i] == q.items[i]
    {
      if key == "modules" {
        WithImageDataIdempotent(Coerce(p).items[i]);
      }
    }
    assert q'.items == q.items;
  }

  // ---------------------------------------------------------------------
  // Worked examples

  /** `migrateData({}, 'modules')` is `{ version: 2, modules: [] }`. */
  lemma EmptyModulesExample()
    ensures Migrate(JObj(map[]), "modules") == Normal(JObj(map["version" := JInt(2), "modules" := JArr([])]))
  {
    var after0 := JObj(map["version" := JInt(1), "modules" := JArr([])]);
    assert Apply(CoercePayload("modules"), JObj(map[])) == Normal(after0);
    assert Spread(after0) + map["version" := JInt(2), "modules" := JArr([])]
        == map["version" := JInt(2), "modules" := JArr([])];
  }

  /** A module without `imageData` gains `imageData: ''`. */
  lemma ImageDataExample()
    ensures var m := JObj(map["id" := JInt(1), "title" := JStr("A")]);
            Migrate(JObj(map["modules" := JArr([m])]), "modules") ==
              Normal(JObj(map["version" := JInt(2), "modules" :=
                JArr([JObj(map["id" := JInt(1), "title" := JStr("A"), "imageData" := JStr("")])])]))
  {
    var m := JObj(map["id" := JInt(1), "title" := JStr("A")]);
    var m' := JObj(map["id" := JInt(1), "title" := JStr("A"), "imageData" := JStr("")]);
    assert WithImageData(m) == m';
    assert DefaultImage(m) == Normal(m');
    assert [m][1..] == [];
    assert DefaultImages([m]) == Normal([m'] + []);
    assert [m'] + [] == [m'];
    var d := JObj(map["modules" := JArr([m])]);
    var after0 := JObj(map["version" := JInt(1), "modules" := JArr([m])]);
    var after1 := JObj(map["version" := JInt(2), "modules" := JArr([m'])]);
    var steps := Registry("modules").steps;
    assert Apply(steps[0], d) == Normal(after0);
    assert Spread(after0) + map["version" := JInt(2), "modules" := JArr([m'])] == after1.fields;
    assert Apply(steps[1], after0) == Normal(after1);
    assert RunSteps(steps, 1, after0) == Normal(after1);
    assert JObj(Spread(d)) == d && StartVersion(d) == 0;
  }
}
