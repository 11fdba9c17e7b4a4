# Asedex data core in Dafny

Asedex Presupuestos is a small application for drawing up budgets for
installing lifts in old buildings. It keeps a catalogue of modules
(priced items), clients and budgets, with a browser front end and a
JSON-file server. This project models its data core:

- **The migration engine** (`migrateData`). Every dataset key
  (`modules`, `clients`, `budgets`) has an ordered list of upgrade steps.
  A dataset carries a `version`. Migration copies the dataset and runs the
  steps from that version up to the length of the key's list. A key with no
  list is passed through, wrapped under itself.
- **The two persistence hooks.**
  - `useLocalForage` keeps a value in one of four named async stores. It
    loads the value through the engine when the hook mounts, and again
    whenever `key` or `initialValue` changes. It writes the value back from
    its setter.
  - `useMigratedData` keeps the whole versioned dataset as JSON text in
    the browser's string storage. It migrates when it initialises and
    again on every write.
- **The server's write handlers.** POST, PUT and DELETE for the three
  collections, on the records of each collection's JSON file.
- **The budget editor.** The pure updates the budgets page makes to the
  budget being edited, the add-or-update choice on save, and the reset
  after it.
- **The authentication flag.** A boolean mirrored into one storage key,
  with a hard-coded credential check.

Layout, one module per file:

- `js_value.dfy` (`JsValue`): the JSON values the application moves
  around, JavaScript truthiness, `||`, property reads, the object spread
  `{...x}`, thrown exceptions (`Completion`) and setter arguments
  (`Update`).
- `data_migration.dfy` (`DataMigration`): the step table and
  `migrateData`. It is modelled twice: as the recursive function
  `Migrate`, and as the method `MigrateData` with the source's `while`
  loop. The method is proved equal to the function.
- `local_forage.dfy` (`LocalForageHook`), `migrated_data.dfy`
  (`MigratedDataHook`): the hooks, as state transitions over the hook's
  memory and its storage.
- `server.dfy` (`Server`): the handlers, as functions from a file's
  records to its new records and the response.
- `budget_editor.dfy` (`BudgetEditor`), `auth.dfy` (`Auth`): the page
  transitions and the provider.

Some behaviours of the code are easy to miss. The model follows the code:

- `useLocalForage` does not store the full versioned dataset. It stores
  the bare payload `migrateData({[key]: v}, key)[key]`, with no version
  stamp.
- On load, `useLocalForage` writes that payload back every time, not only
  when something changed.
- The `useLocalForage` setter stores the value exactly as given and never
  runs the engine. So a module written through it lacks `imageData` until
  the next load.
- Because nothing is stored with a version, every load migrates from
  version 0. For `authState` (no step list) this wraps the stored value in
  one more `{ authState: ... }` layer per load. See
  `LocalForageHook.AuthStateNestsPerLoad`.
- The version after a migration equals the list length only when the
  start version lies between 0 and that length.
  - A dataset whose version is above the length is copied unchanged and
    keeps its version.
  - A negative version throws, because `migrations[key][-1]` is undefined.
- `migrations[key]` is an object-literal lookup. The names of
  `Object.prototype` members (`constructor`, `toString`, `__proto__`, …)
  therefore find an inherited value rather than "no migrations".
  `DataMigration.Registry` models what each of them evaluates to.
  The same holds for `useMigratedData`'s read `migratedItem[key]`: a
  dataset that does not own such a key reads the inherited member, which
  is not a JSON value. `MigratedDataHook.Init` leaves exactly those
  inputs out (`MigratedDataHook.ReadsOwnField`).
- A budget whose id is 0 is saved as a new budget even after it was loaded
  for editing, because `if (editingBudgetId)` treats 0 as falsy.

## Model

| member | source | states |
|---|---|---|
| DataMigration.Registry | src/utils/dataMigration.ts:5-35 | `migrations[key]` finds an own list exactly for modules, clients and budgets, each starting with its own coercion; it finds nothing exactly for keys that are neither these nor `Object.prototype` member names |
| DataMigration.StartVersion | src/utils/dataMigration.ts:43 | `data?.version || 0` is 0 exactly when the version is falsy, and otherwise the stored integer |
| DataMigration.Apply | src/utils/dataMigration.ts:8-33 | a first step never throws; every successful step yields an object stamped with the version the step targets |
| DataMigration.DefaultImages | src/utils/dataMigration.ts:14-17 | a successful `map` keeps the number of modules, and a null first module throws |
| DataMigration.Migrate | src/utils/dataMigration.ts:37-52 | a successful migration always yields an object |
| DataMigration.MigrateData | src/utils/dataMigration.ts:37-52 | the source's loop (lookup, version read, spread copy, step loop, return) computes exactly the recursive definition `Migrate`, throws included |
| DataMigration.RunSteps | src/utils/dataMigration.ts:46-49 | running the remaining steps on an object yields an object whenever it succeeds |
| DataMigration.WithImageData | src/utils/dataMigration.ts:15-16 | the updated module keeps every spread field of the old one, adds `imageData`, and sets it to the old value when truthy and to '' otherwise |
| DataMigration.DefaultImagesSpec | src/utils/dataMigration.ts:14-17 | the `map` over modules succeeds exactly when no module is null; it keeps length and order and updates each module on its own |
| DataMigration.SpreadMember | src/utils/dataMigration.ts:44 | reading a named property of the spread copy gives what reading it on the original gives |
| DataMigration.CopyKeepsVersion | src/utils/dataMigration.ts:43-44 | the spread copy has the same `version`, so the loop starts where the input's version says |
| DataMigration.RegistryShape | src/utils/dataMigration.ts:5-35 | only modules, clients and budgets have lists; each starts with the coercion of its own key, the step at index i stamps version i+1, and modules has 2 steps, the others 1 |
| DataMigration.ApplyStamps | src/utils/dataMigration.ts:8-33 | every step's result carries the version that step targets |
| DataMigration.RunStepsEndsAtLatest | src/utils/dataMigration.ts:46-49 | entered below the list length, a successful loop ends at the list length |
| DataMigration.MigrateReachesLatest | src/utils/dataMigration.ts:43-49 | from any start version between 0 and N, a successful migration ends at version N (2 for modules, 1 otherwise) |
| DataMigration.CurrentDatasetIsCopied | src/utils/dataMigration.ts:43-51 | a dataset at or past the latest version comes back as an equal copy |
| DataMigration.MigrateIdempotent | src/utils/dataMigration.ts:37-52 | migrating a migration's result returns the same result, for every key with a step table, registered or inherited |
| DataMigration.UnknownKeyIsWrapped | src/utils/dataMigration.ts:38-41 | a key with neither its own nor an inherited table returns `{ [key]: data }` and never throws |
| DataMigration.FirstStepKeepsOnlyPayload | src/utils/dataMigration.ts:8-33 | each first step keeps an array payload, turns any other payload into `[]`, stamps version 1 and drops every other field |
| DataMigration.ImageDataStep | src/utils/dataMigration.ts:13-19 | the second modules step succeeds exactly when `modules` is an array without nulls; it keeps the other top-level fields, stamps version 2 and replaces each module, in order, by its copy with `imageData` defaulted |
| DataMigration.ModulesStepNeedsArray | src/utils/dataMigration.ts:14 | entered at version 1 with a non-array `modules`, the migration throws |
| DataMigration.MigrationFailsIff | src/utils/dataMigration.ts:43-49 | a registered key's migration throws exactly when the version is negative, or when the modules steps meet a non-array `modules` at version 1 or a null module |
| DataMigration.RunStepsAppliesSuffix | src/utils/dataMigration.ts:46-49 | the loop applies steps v..N-1, each once, in list order |
| DataMigration.WrappedPayloadMigration | src/utils/dataMigration.ts:43-49 | a versionless `{ [key]: p }` starts at version 0; its payload becomes an array, and for modules every module gets its `imageData` default, failing exactly when a module is null |
| DataMigration.WithImageDataIdempotent | src/utils/dataMigration.ts:15-16 | defaulting `imageData` twice is the same as once |
| DataMigration.PayloadMigrationIdempotent | src/utils/dataMigration.ts:8-19 | a payload that came out of a migration comes out of the next one unchanged |
| DataMigration.EmptyModulesExample | src/utils/dataMigration.ts:8-18 | `migrateData({}, 'modules')` is `{ version: 2, modules: [] }` |
| DataMigration.ImageDataExample | src/utils/dataMigration.ts:13-19 | a module without `imageData` gains `imageData: ''` and keeps its other fields |
| LocalForageHook.GetStore | src/hooks/useLocalForage.ts:9-22 | a store is found exactly for the four dataset keys; any other key throws |
| LocalForageHook.StoreSelection | src/hooks/useLocalForage.ts:9-22 | no two keys share a store |
| LocalForageHook.Payload | src/hooks/useLocalForage.ts:30-34 | `migrateData({ [key]: v }, key)[key]` is `{ authState: v }` for `authState`, a bare array for the registered keys, and never throws except for modules |
| LocalForageHook.Load | src/hooks/useLocalForage.ts:24-44 | a load changes the hook only when the key has a store and both store calls resolve; then store and memory hold the same value |
| LocalForageHook.SetValue | src/hooks/useLocalForage.ts:46-55 | after a resolved write, the store holds what the memory holds |
| LocalForageHook.UnknownKeyChangesNothing | src/hooks/useLocalForage.ts:19-21 | for a key without a store, the caught throw leaves memory and every store unchanged in both load and setter |
| LocalForageHook.LoadWhenAbsent | src/hooks/useLocalForage.ts:29-32 | with nothing stored, the migrated initial payload goes to both store and memory, and for a registered key it is a bare array |
| LocalForageHook.LoadWhenPresent | src/hooks/useLocalForage.ts:33-36 | a stored value is re-wrapped, migrated from version 0 and written back, even when unchanged |
| LocalForageHook.FirstLoadFromMount | src/hooks/useLocalForage.ts:7-44 | the first render shows `initialValue`; the effect then stores and shows the migrated payload of the stored value, or of `initialValue` when nothing is stored |
| LocalForageHook.FailedLoadChangesNothing | src/hooks/useLocalForage.ts:26-40 | a rejected read or write leaves the hook as it was |
| LocalForageHook.LoadTwiceIsLoadOnce | src/hooks/useLocalForage.ts:33-36 | for modules, clients and budgets a second load leaves the hook as the first one did |
| LocalForageHook.AuthStateRewraps | src/hooks/useLocalForage.ts:33-36 | a load of `authState` stores and remembers the value wrapped in `{ authState: ... }` |
| LocalForageHook.AuthStateNestsPerLoad | src/hooks/useLocalForage.ts:33-36 | n loads of a present `authState` leave it under n layers |
| LocalForageHook.SetValueStoresUnmigrated | src/hooks/useLocalForage.ts:46-55 | the setter puts the resolved value into memory and exactly that value into the store; no other entry changes; a rejected write keeps the new memory (no rollback) |
| LocalForageHook.SetValueDoesNotMigrate | src/hooks/useLocalForage.ts:49-51 | a written module is stored without `imageData`, and the next load adds it |
| MigratedDataHook.Init | src/hooks/useMigratedData.ts:6-23 | initialising writes at most the hook's own key; when it writes, the memory is the written dataset's payload, and for a key named like an `Object.prototype` member that dataset owns the key |
| MigratedDataHook.SetValue | src/hooks/useMigratedData.ts:25-34 | a write changes at most the hook's own key |
| MigratedDataHook.InitWhenAbsent | src/hooks/useMigratedData.ts:15-18 | with nothing stored (or ''), the full migrated dataset is stored, with version N for a registered key, and the memory takes its payload |
| MigratedDataHook.InitWhenStored | src/hooks/useMigratedData.ts:8-13 | a stored dataset is migrated from its own version and written back, and the memory takes its payload |
| MigratedDataHook.InitFailureGivesInitial | src/hooks/useMigratedData.ts:19-22 | invalid JSON, a throwing migration or a rejected write each give memory `initialValue` and leave storage unchanged |
| MigratedDataHook.SetValueMigratesEveryWrite | src/hooks/useMigratedData.ts:27-30 | every write stores the value wrapped and migrated from version 0, with version N for a registered key, while memory keeps the value as given |
| MigratedDataHook.FailedWriteKeepsMemory | src/hooks/useMigratedData.ts:27-33 | a failed write has already updated memory and leaves storage unchanged |
| MigratedDataHook.MemoryAndStorageDiverge | src/hooks/useMigratedData.ts:28-30 | a written module lacks `imageData` in memory but has it in storage |
| MigratedDataHook.WritesStayReadable | src/hooks/useMigratedData.ts:11-30 | every dataset the hook writes carries a version the engine can read again |
| MigratedDataHook.ReinitAfterWrite | src/hooks/useMigratedData.ts:8-30 | initialising after a write gives memory the written payload and leaves the stored dataset as written |
| MigratedDataHook.PrototypeNamedKeys | src/hooks/useMigratedData.ts:11-13 | under the key `toString`, a stored dataset owning `toString` is read like any other, while `{}` (which would read the inherited `toString`) is outside the model |
| MigratedDataHook.UnknownKeyReinitRewraps | src/hooks/useMigratedData.ts:11-13 | for a key without steps, each initialisation wraps the stored dataset once more |
| Server.FindIndex | server.js:98 | the index found is the first record with the id; not found exactly when no record matches and none is null; a throw means a null record comes before any match |
| Server.Kept | server.js:117 | the filter's result is shorter than the records by exactly the number of records carrying the id |
| Server.Without | server.js:117 | `filter` succeeds exactly when no record is null, and then drops exactly the records carrying the id |
| Server.NewRecord | server.js:138 | `{ id: now, ...body }` has the body's keys plus `id`, and its `id` is the body's when present, else the timestamp |
| Server.ModuleFields | server.js:79-86 | a module's fields have `price` set to the parsed price and, with an upload, `imageUrl` set to its `/uploads/` path |
| Server.AddRecord | server.js:135-145 | a POST keeps every earlier record, appends one, and answers 201 with the appended record |
| Server.PostModule | server.js:76-93 | a module POST appends and answers the new module, whose `price` is the parsed price and whose `imageUrl` is the upload's path when a file came |
| Server.PostRecord | server.js:184-194 | a client or budget POST appends and answers the new record, which carries every body field |
| Server.UpdateRecord | server.js:147-161 | a PUT keeps the file's length, gives a server error exactly when `findIndex` throws, leaves the file unchanged unless it answers 200, and answers with a record of the file |
| Server.PutModule | server.js:95-112 | an answered module PUT carries the parsed price and, with an upload, the upload's `imageUrl` |
| Server.PutRecord | server.js:196-210 | an answered client or budget PUT carries every body field |
| Server.DeleteRecord | server.js:212-221 | a DELETE answers 204 exactly when no record is null, then shrinks the file by the number of matches; otherwise it leaves the file unchanged |
| Server.KeptExactly | server.js:117 | the filter keeps exactly the records without the id, as many as the records hold |
| Server.AddAppends | server.js:137-141 | a POST appends one record at the end, keeps the others, and answers 201 with it |
| Server.NewRecordBodyWins | server.js:138 | a new record is `{ id: now }` overridden by the body: every body field is kept, and a body `id` wins |
| Server.ModuleFieldsOverride | server.js:79-86 | a module's `price` is the parsed price, and an upload sets `imageUrl` to `/uploads/<filename>` over any body value |
| Server.UpdateReplacesFirstMatch | server.js:150-154 | a PUT replaces only the first matching record by the old record merged with the body (body wins) and answers 200 with it |
| Server.UpdateAbsentIsNotFound | server.js:151-157 | a PUT answers 404 exactly when no record has the id and none is null, and any non-200 answer leaves the records unchanged |
| Server.PutModuleUploadSetsImageUrl | server.js:100-103 | an update with an upload sets `imageUrl` to the file's path and `price` to the parsed price |
| Server.KeptDistributes | server.js:117 | filtering a concatenation filters each part, so the kept records keep their order |
| Server.DeleteRemovesAll | server.js:114-119 | a DELETE removes every record with the id, keeps the others, shrinks the file by their count and answers 204 even when none matched; a null record answers with a server error and leaves the file as it was |
| Server.KeptOfCleanIsIdentity | server.js:117 | filtering records none of which has the id keeps them all |
| Server.DeleteIdempotent | server.js:215-216 | deleting an id twice leaves the file as deleting it once |
| Server.AddThenDeleteRestores | server.js:184-194 | when the body has no `id`, no earlier record carries the timestamp and no record is null, deleting (the handler at server.js:212-221) the timestamp id a POST just gave its new record restores the file as it was before the POST |
| Server.DuplicateIds | server.js:150-168 | with two records sharing an id, a PUT changes only the first while a DELETE removes both |
| BudgetEditor.Initial | src/pages/Budgets.tsx:35-43 | the page starts with a blank budget for today, not editing and with no error |
| BudgetEditor.AddModule | src/pages/Budgets.tsx:84-89 | adding grows the lines by one, the new last line has one unit, and the editing id and error stay |
| BudgetEditor.WithoutModule | src/pages/Budgets.tsx:94 | the filter drops exactly as many lines as carry the id |
| BudgetEditor.RemoveModule | src/pages/Budgets.tsx:91-96 | removing drops exactly the lines carrying the id and keeps the editing id and error |
| BudgetEditor.UpdateModuleUnits | src/pages/Budgets.tsx:98-105 | updating keeps the number of lines and leaves every matching line with at least one unit |
| BudgetEditor.SetClient | src/pages/Budgets.tsx:173 | the client handler sets `clientId` and keeps the lines |
| BudgetEditor.SetDate | src/pages/Budgets.tsx:187 | the date handler sets `date` and keeps the lines |
| BudgetEditor.Save | src/pages/Budgets.tsx:109-113 | save always sends the current budget, and updates exactly while editing |
| BudgetEditor.AfterSave | src/pages/Budgets.tsx:114-126 | after a resolved call the editor is blank, not editing and without error; after a rejected one only the error banner is set |
| BudgetEditor.EditBudget | src/pages/Budgets.tsx:129-132 | editing loads the budget and counts as editing exactly when its id is non-zero |
| BudgetEditor.WithoutModuleExactly | src/pages/Budgets.tsx:94 | the filter keeps exactly the lines whose id differs and never grows the list |
| BudgetEditor.AddModuleAppends | src/pages/Budgets.tsx:84-89 | adding appends one copy of the module with one unit and changes nothing else |
| BudgetEditor.WithoutModuleDistributes | src/pages/Budgets.tsx:94 | filtering a concatenation filters each part |
| BudgetEditor.RemoveModuleRemovesAll | src/pages/Budgets.tsx:91-96 | removing deletes every line with the id and keeps the rest; removing after an add is the same as removing and then adding |
| BudgetEditor.UpdateUnitsClamps | src/pages/Budgets.tsx:98-105 | every line with the id gets `max(1, units)` and keeps its other fields; every other line is unchanged |
| BudgetEditor.EditsKeepUnitsPositive | src/pages/Budgets.tsx:84-105 | adding (one unit), removing, and updating (`Math.max(1, units)`) all keep every line of the budget at one unit or more |
| BudgetEditor.SettersChangeOneField | src/pages/Budgets.tsx:173-187 | the client and date handlers change only `clientId` or only `date` |
| BudgetEditor.SaveDispatch | src/pages/Budgets.tsx:109-113 | save updates exactly when the editing id is non-null and non-zero, sending the current budget under that id; otherwise it adds |
| BudgetEditor.AfterSaveResets | src/pages/Budgets.tsx:114-126 | a successful save resets to a blank budget for today and stops editing; a failure only sets the error banner |
| BudgetEditor.EditThenSave | src/pages/Budgets.tsx:129-132 | editing loads the budget and its id, so a save updates that id, except for id 0, which is added |
| Auth.Render | src/contexts/AuthContext.tsx:12 | the first render is unauthenticated and does not touch storage |
| Auth.RestoreSession | src/contexts/AuthContext.tsx:14-18 | the effect authenticates exactly when the key holds 'true' and only reads storage |
| Auth.Mount | src/contexts/AuthContext.tsx:12-18 | a mounted provider is authenticated exactly when the key holds 'true' |
| Auth.Login | src/contexts/AuthContext.tsx:20-29 | login resolves to true exactly for admin/1234 with a working storage, and rejects exactly for admin/1234 when `setItem` throws; afterwards the provider is authenticated exactly when the credentials matched or it already was |
| Auth.Logout | src/contexts/AuthContext.tsx:31-35 | logout clears the flag, removes the key and keeps every other storage entry |
| Auth.MountReadsFlag | src/contexts/AuthContext.tsx:12-18 | the first render is unauthenticated; after the effect it is authenticated exactly when the key holds 'true'; the effect only reads storage |
| Auth.LoginEffect | src/contexts/AuthContext.tsx:20-29 | a successful login sets the flag and stores 'true'; a rejected one sets the flag but leaves storage as it was; wrong credentials change nothing |
| Auth.ReloadAfterLoginOrLogout | src/contexts/AuthContext.tsx:14-33 | a resolved login survives a reload; a rejected login is lost on reload, which restores the state the old storage gives; a logout and an unwritten storage reload as unauthenticated |

## Left out

- Auth.RestoreSession, Auth.Logout: `localStorage.getItem` and `removeItem` are taken to succeed. Only the `setItem` in `login` is given a failure path (quota exceeded being the common cause), because a disabled storage that makes every call throw is outside the model.
- DataMigration.Migrate: requires `VersionModelled`, an integer or falsy `version` for keys with a step table. A truthy non-integer version is outside the model. This covers strings, booleans, arrays and objects, because JavaScript's relational coercion of such a value against a number is not modelled.
- DataMigration.MigrateData: carries the same `VersionModelled` requirement, for the same reason.
- MigratedDataHook.Init: requires `Readable`, so a stored dataset's version must be an integer or falsy, for the same reason.
- MigratedDataHook.Init: also requires `ReadsOwnField`. For a key named like an `Object.prototype` member (`toString`, `constructor`, `__proto__`, …), a stored dataset that migrates without owning that field makes `migratedItem[key]` read the inherited member, a function or `Object.prototype` itself. That is not a JSON value, so such inputs are outside the model. `InitWhenStored` and `WritesStayReadable` carry the same requirement.
- JsValue.Member: `undefined` and `null` are one value, so an absent property reads as null. The core's reads treat the two alike (`||`, `Array.isArray`, the `.id` comparisons). Two places that do tell them apart are not modelled: `JSON.stringify` drops undefined fields, and a store can be handed `undefined`.
- JsValue.Spread: spreading a string gives one-character strings by index. UTF-16 code units versus code points is not modelled.
- Floating point is not modelled. Numbers are integers. The server's `parseFloat(req.body.price)` is a parameter of the module handlers. `parseInt(req.params.id)` is the route id given as an integer, so a non-numeric id (NaN, which matches nothing) is not modelled. Budget prices are carried as `real` and never computed with.
- BudgetEditor.UpdateModuleUnits: `units` is an integer, so `Math.max(1, NaN)` is not modelled.
- JSON text is not modelled. `JSON.parse` and `JSON.stringify` of `useMigratedData` are a stored `Text(json)` item: text that parses to that value, or text that does not parse.
- The file I/O of the server (`readJsonFile`, `writeJsonFile`) is not modelled. The model assumes the file reads as the given records and every write succeeds. A `findIndex` or `filter` on a null record gives a server error.
- Express routing, multer's upload storage, CORS, static files and the GET handlers are not part of this model. They only forward or serve data.
- Asynchrony is not modelled. An effect that runs again because `key` or `initialValue` changed is one more `LocalForageHook.Load`. Each hook transition finishes before the next starts, so interleaved loads and writes and stale closures over the hook's memory are outside the model. Whether each store call resolves is a parameter.
- Logging (`console.warn`, `console.log`, `logError`) has no observable effect on the state and is left out.
- The budgets page's fetches, `deleteBudget`, the PDF export and the rendering are not part of this model. Whether `api.updateBudget` or `api.addBudget` rejects is a parameter of `BudgetEditor.AfterSave`. The refetch after a save catches its own errors, so it never makes the save fail. The request client in `src/api/api.ts` is not part of this model.
- BudgetEditor.Module: budget lines and budgets are records with the fields the page's interfaces declare. The page spreads whatever object it is given (`{ ...moduleToAdd, units: 1 }`, and a budget loaded for editing as the server stored it). So fields beyond the declared ones survive in the program and are not carried by the model.
- `useAuth` outside the provider (a thrown error) and the pages and routes that consume the flag are not part of this model.
- The browser storage of the auth flag and the storage of `useMigratedData` are one `localStorage` in the application. They are modelled separately because no code calls `useMigratedData` with the key `isAuthenticated`, so the two do not interact.
