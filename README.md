# universal-dashboard logging and configuration core, in Dafny

This project models the sequential core of the `universal-dashboard` Next.js
application: the logging pipeline and the hierarchical configuration store
that feeds it.

**Logging**
- **Browser logging worker** (`LoggerWorker`). It collects records in a batch. It posts the batch to the page once the batch reaches its size limit, or when an idle timer fires.
- **Supabase adapter** (`SupabaseLogging`). It filters records by level and stamps them. It buffers them and flushes the buffer to the database in batches. A failed insert puts the batch back in front of the buffer.
- **Console adapter** (`ConsoleLogging`) and **worker adapter** (`WorkerLogging`). They filter by level, then write console calls or post messages to the worker.
- **Logger service** (`LoggerService`). It forwards every call to each registered adapter, in registry order. The code has no per-adapter isolation: an adapter that throws synchronously stops the `forEach` (src/layers/Logging/services/DefaultLoggerService.ts:9-38), and the exception reaches the caller. The model follows the code (see "## Findings").
- **Formatting** (`Formatting`, `MessageFormatting`):
  - the formatter pipeline;
  - the `CLIENT:`/`SERVER:` source formatter;
  - the coloured server line and the client line.
- **Record recognisers** (`LogMessageGuards`). They recognise log records that arrive as untyped values.

**Configuration**
- **The store** (`Configuration`): a key/value map with an optional parent, which is consulted under a key prefix. It supports:
  - lookups, `has`, `set` without override, and `delete`, which walks up the chain;
  - `toObject`, which merges in the parent's object;
  - `load` from a nested object, flattened to dotted keys by `ObjectFlatten`.
- **Feature switches** (`Features`). They are read from that store.

**Helpers**
- `baseName` for file names (`Path`).
- The JavaScript values and string operations all of this relies on (`Json`, `Text`).

**How the code is modelled**
- Code that changes state becomes a Dafny class whose methods update its fields:
  - the worker's module variables;
  - the adapters' buffers and traces;
  - the store's own map.
- Side effects become traces that the methods append to:
  - `postMessage`, console calls and calls on adapters;
  - fallback-logger reports and successful inserts.
- Timers become an armed flag plus an explicit `FireIdle` event.
- The awaited database insert splits a flush into `BeginFlush` and `CompleteFlush(outcome)`.
- Pure code becomes functions, with lemmas about them.
- Each loop that updates state step by step is a `while` loop, proved against a specification function. This covers:
  - `forEach` over formatters, adapters and records;
  - the `load` loop and the `toObject` loop;
  - `Object.assign`.
- The generator `getFlattenedObjectEntries` yields from a `for…of` that recurses into nested objects. It is modelled by recursion (`FlattenFields`), which produces the same entries in the same order.
- `filter`, `map`, `some` and `every` are functions and quantifiers.

## Model

| member | source | states |
|---|---|---|
| Json.SetField | src/layers/Logging/adapters/SupabaseLoggerAdapter.ts:90-96 | An object spread `{...o, [key]: value}`: the key then reads `value`, and every other property reads as before |
| LogTypes.FilterByLevel | src/layers/Logging/adapters/ConsoleLoggerAdapter.ts:13 | The level filter keeps a record if and only if it is in the input and its level is in the allow-list, and never grows the input |
| LogTypes.FilterByLevelAppend | src/layers/Logging/adapters/ConsoleLoggerAdapter.ts:13 | Filtering a concatenation is the concatenation of the filtered parts, so input order is kept |
| LogTypes.FilterByLevelAllLevels | src/layers/Logging/adapters/ConsoleLoggerAdapter.ts:13 | When every record's level is allowed, the filter returns its input unchanged |
| LogTypes.EmptyAllowListRejectsAll | src/layers/Logging/adapters/ConsoleLoggerAdapter.ts:13 | An empty allow-list lets no record through |
| LogMessageGuards.IsLogMessageExactly | src/layers/Logging/utils/isLogMessage.ts:3-11 | `isLogMessage` holds exactly for objects that have `level`, `message` and `timestamp` properties |
| LogMessageGuards.SideImpliesLogMessage | src/layers/Logging/utils/isLogMessage.ts:13-27 | A client (server) record is a log message whose `source` is the string `client` (`server`) |
| LogMessageGuards.ClientAndServerExclusive | src/layers/Logging/utils/isLogMessage.ts:13-27 | No value is recognised both as a client record and as a server record |
| LogMessageGuards.NonObjectsAreNotLogMessages | src/layers/Logging/utils/isLogMessage.ts:5-6 | Null, undefined, primitives and arrays satisfy none of the three recognisers |
| Path.Slashed | src/utils/path.ts:46 | Every backslash becomes `/`, every other character is kept, and no backslash is left |
| Path.TrimTrailingSlashes | src/utils/path.ts:46 | The result is a prefix of the input that does not end in `/`, and everything removed is `/` |
| Path.LastSegment | src/utils/path.ts:47-48 | The result is a suffix with no `/`, preceded in the input by a `/` unless it is the whole input |
| Path.NormalizeExt | src/utils/path.ts:52 | The normalised extension starts with a dot and ends with the given extension |
| Path.BaseName | src/utils/path.ts:26 | An empty input gives the empty name |
| Path.PathResultHasNoSeparator | src/utils/path.ts:44-57 | For input that is not `scheme://…`, the name contains neither `/` nor `\`, with or without extension stripping |
| Path.PathResultIsLastComponent | src/utils/path.ts:44-49 | For input that is not a URL, the name is the text after the last `/` once backslashes are turned into slashes and trailing slashes are dropped |
| Path.DrivePathIsNotUrl | src/utils/path.ts:29 | No drive path (a letter, `:` and a backslash) matches the absolute-URL pattern |
| Path.PathNameAfterLastSeparator | src/utils/path.ts:44-49 | On a path holding a separator but not ending in one, the name is the non-empty text after the last `/` or `\` |
| Path.DrivePathTakesPathBranch | src/utils/path.ts:28-57 | Every drive path takes the path branch whatever the URL parser says. When it does not end in a separator, its name is the text after its last `/` or `\` |
| Path.WindowsPathName | src/utils/path.ts:44-49 | Derived from the general name lemma: `C:\dir\f.ts` is named `f.ts`, the text after its last backslash |
| Path.WindowsPathExtension | src/utils/path.ts:51-57 | Stripping the extension `ts` from `f.ts` leaves `f` |
| Path.WindowsPathTakesPathBranch | src/utils/path.ts:28-57 | An instance of the drive-path lemma: `C:\dir\f.ts` takes the path branch. It gives `f.ts`, and `f` when `ts` is stripped |
| Path.ExtensionStripping | src/utils/path.ts:51-57 | A dot is prepended to an extension without one. A name that ends with the extension, ignoring case, loses exactly that many characters; any other name is unchanged |
| ObjectFlatten.JoinKey | src/utils/object.ts:7 | The full key is `prefix.key` for a non-empty prefix and `key` otherwise |
| ObjectFlatten.CharEntries | src/utils/object.ts:6 | The entries of a string: one per character, keyed by its index under the prefix |
| ObjectFlatten.Flatten | src/utils/object.ts:1-14 | No yielded value is a plain object. Under a non-empty prefix, every key of an object's walk starts with `prefix.` |
| ObjectFlatten.FlattenFields | src/utils/object.ts:6-13 | The same two facts for the loop over an object's properties, from a given property onwards |
| ObjectFlatten.NullOrArrayYieldsItself | src/utils/object.ts:2-4 | Null or an array yields exactly one entry, `(prefix, value)` |
| ObjectFlatten.StoreObjectsIrrelevantForObjects | src/utils/object.ts:9 | For objects the `storeObjects` flag changes nothing, since it is not passed on to the recursive walk |
| ObjectFlatten.EmptyObjectYieldsNothing | src/utils/object.ts:6-13 | An object without properties yields no entries |
| ObjectFlatten.FlattenConcat | src/utils/object.ts:6-13 | Depth-first, in property order: the walk of `fs1 + fs2` is the walk of `fs1` followed by the walk of `fs2` |
| ObjectFlatten.LeafProperty | src/utils/object.ts:10-12 | A non-object property is yielded once, under its full key |
| ObjectFlatten.NestedProperty | src/utils/object.ts:8-9 | A nested plain-object property contributes exactly the walk of that object under its full key |
| Configuration.FirstHit | src/layers/Configuration/services/DefaultConfigService.ts:249-258 | The reference meaning of a lookup along the chain: it finds a value if and only if some level holds its key, and then the value at the first such level |
| Configuration.DeleteAlong | src/layers/Configuration/services/DefaultConfigService.ts:81-87 | A delete along the chain keeps the number of levels |
| Configuration.DeleteAlongChangesOnlyFirstHit | src/layers/Configuration/services/DefaultConfigService.ts:81-87 | A delete changes at most one level. That is the first level holding its key, and it loses exactly that key. With no level holding the key, nothing changes |
| Configuration.DeleteAlongRemovesFirstHit | src/layers/Configuration/services/DefaultConfigService.ts:81-87 | After a delete, a lookup falls through to the levels beyond the one that lost the key |
| Configuration.LoadedKeysPresent | src/layers/Configuration/services/DefaultConfigService.ts:208-212 | After a load, every loaded key is held locally or by the parent chain |
| Configuration.LoadedKeepsKeys | src/layers/Configuration/services/DefaultConfigService.ts:208-212 | A load never removes a local key |
| Configuration.LoadWithoutOverrideKeeps | src/layers/Configuration/services/DefaultConfigService.ts:208-212 | Without override, a load keeps every existing local value and never shadows a key the parent provides |
| Configuration.LoadWithOverrideLastWins | src/layers/Configuration/services/DefaultConfigService.ts:208-212 | With override, each loaded key ends with the value of its last entry |
| Configuration.LoadedUntouched | src/layers/Configuration/services/DefaultConfigService.ts:208-212 | With override, a key that no entry mentions keeps its value |
| Configuration.EntriesOf | src/layers/Configuration/services/DefaultConfigService.ts:171-177 | The `result[key] = …` loop builds an object with distinct property names that reads exactly like the map |
| Configuration.AssignAllFields | src/layers/Configuration/services/DefaultConfigService.ts:180 | After `Object.assign`, the source's property wins where both have one, the target's is kept elsewhere, and names stay distinct |
| Configuration.Assign | src/layers/Configuration/services/DefaultConfigService.ts:180 | The copying loop of `Object.assign` computes the specified result |
| Configuration.AssignAllDenotes | src/layers/Configuration/services/DefaultConfigService.ts:178-181 | Assigning the object of one map over the object of another gives the object of their union, the source's bindings winning |
| Configuration.ConfigService.constructor | src/layers/Configuration/services/DefaultConfigService.ts:30-33 | A new store has an empty map and the given parent and prefix, and its parent chain ends |
| Configuration.ConfigService.CreateChildService | src/layers/Configuration/services/DefaultConfigService.ts:120-122 | The child is a new, empty store whose parent is this store, under the given prefix |
| Configuration.ConfigService.ParentKey | src/layers/Configuration/services/DefaultConfigService.ts:54-62 | The parent key starts with the prefix and ends with the key. It is `prefix.key` when both are non-empty, and the prefix or the key alone otherwise |
| Configuration.ConfigService.LookupIsFirstHit | src/layers/Configuration/services/DefaultConfigService.ts:138-144 | `has` holds if and only if some level holds the key under its prefixed form. `get` returns the value at the first such level, local first, or else the default |
| Configuration.ConfigService.AbsentReadsDefault | src/layers/Configuration/services/DefaultConfigService.ts:42-47 | A key that is nowhere in the chain reads as the default |
| Configuration.ConfigService.Set | src/layers/Configuration/services/DefaultConfigService.ts:71-75 | An absent key is inserted, an existing local value is kept unless override is set, and afterwards the key is held locally |
| Configuration.ConfigService.Delete | src/layers/Configuration/services/DefaultConfigService.ts:81-87 | The chain's maps become `DeleteAlong` of the old maps: a local key is removed, otherwise the prefixed key is deleted up the chain, never both |
| Configuration.ConfigService.TestSome | src/layers/Configuration/services/DefaultConfigService.ts:102-104 | True if and only if some key tests truthy |
| Configuration.ConfigService.TestAll | src/layers/Configuration/services/DefaultConfigService.ts:111-113 | True if and only if every key tests truthy |
| Configuration.ConfigService.HasSome | src/layers/Configuration/services/DefaultConfigService.ts:151-153 | True if and only if some key is present in the chain |
| Configuration.ConfigService.HasAll | src/layers/Configuration/services/DefaultConfigService.ts:160-162 | True if and only if every key is present in the chain |
| Configuration.ConfigService.OwnEntries | src/layers/Configuration/services/DefaultConfigService.ts:172 | Exactly the local entries whose key starts with the prefix, with their values |
| Configuration.ConfigService.ToObject | src/layers/Configuration/services/DefaultConfigService.ts:170-184 | The object reads exactly like the local entries under the prefix, overwritten by the parent's `toObject` of the parent key. Parent entries win on equal keys |
| Configuration.ConfigService.Load | src/layers/Configuration/services/DefaultConfigService.ts:203-213 | The map becomes the `Loaded` map of the flattened entries, and every flattened key is present afterwards |
| Configuration.ConfigService.LoadEntries | src/layers/Configuration/services/DefaultConfigService.ts:208-212 | The loop over the entries yields the `Loaded` map, and every entry's key is present afterwards |
| Configuration.ConfigService.LoadEntry | src/layers/Configuration/services/DefaultConfigService.ts:209-211 | One entry is written exactly when override is set or the key is neither local nor inherited |
| Configuration.ConfigService.Clear | src/layers/Configuration/services/DefaultConfigService.ts:235-237 | The local map becomes empty, and a key remains present exactly when the parent has it |
| Features.Disabled | src/layers/Feature/services/DefaultFeatureService.ts:25 | The default answer has `enabled` equal to false |
| Features.FeaturePrefix | src/layers/Feature/services/DefaultFeatureService.ts:21 | The lookup prefix is `features.` followed by the feature name |
| Features.FeatureOf | src/layers/Feature/services/DefaultFeatureService.ts:22-25 | The answer always has `enabled`, and is either the store's object or the disabled default |
| Features.FeatureOfDecidedByEnabled | src/layers/Feature/services/DefaultFeatureService.ts:22-25 | Only the `enabled` test matters: an object that has it is returned as it is. Anything else, null and undefined included, gives the default |
| Features.ExplicitlyDisabledIsKept | src/layers/Feature/services/DefaultFeatureService.ts:22-23 | An object with `enabled: false` is returned unchanged |
| Features.StripPrefixFields | src/layers/Feature/services/DefaultFeatureService.ts:21 | Reading property `k` of the stripped object is reading `q + k` of the original |
| Features.ViewNamesAtLeastPrefix | src/layers/Configuration/services/DefaultConfigService.ts:170-184 | Every name `toObject(prefix)` returns is at least as long as a non-empty prefix |
| Features.EnabledNeverListed | src/layers/Feature/services/DefaultFeatureService.ts:21-22 | The object `toObject('features.' + name)` returns never has a bare `enabled` property |
| Features.RelativeFeature | src/layers/Feature/services/DefaultFeatureService.ts:21-25 | Read relative to the prefix, the feature is the configured settings when `prefix.enabled` exists, and the disabled default otherwise |
| Features.FeatureService.GetFeature | src/layers/Feature/services/DefaultFeatureService.ts:20-26 | As written, over a configuration store, every feature comes back as `{ enabled: false }` |
| Features.FeatureService.GetFeatureCorrected | src/layers/Feature/services/DefaultFeatureService.ts:20-26 | The corrected lookup: `enabled` is the configured `features.<name>.enabled`, the other settings are read relative to the prefix, and an unconfigured feature is disabled |
| LoggerWorker.MissingTypeRecord | src/workers/LoggerWorker/index.ts:40-45 | The record for an untyped message is a client log message with level `error`, the fixed text and the clock reading |
| LoggerWorker.ConcatSnoc | src/workers/LoggerWorker/index.ts:8-12 | Posting one more batch extends the concatenation of all posted batches by exactly that batch |
| LoggerWorker.Worker.constructor | src/workers/LoggerWorker/index.ts:3-6 | The worker starts with an empty batch, no timer, a batch size of 10 and 5 idle seconds |
| LoggerWorker.Worker.SendBatch | src/workers/LoggerWorker/index.ts:8-17 | A non-empty batch is posted and emptied, and an empty one posts nothing. The timer is always cleared, and the FIFO invariant is kept |
| LoggerWorker.Worker.AddLogToBatch | src/workers/LoggerWorker/index.ts:19-33 | The record is appended. Reaching the size posts the whole batch in order and empties it; otherwise the timer is re-armed for the idle time. Afterwards the batch is empty or below the size |
| LoggerWorker.BatchedOne | src/workers/LoggerWorker/index.ts:19-33 | One record is posted with the pending batch when that reaches the size, and otherwise joins the batch |
| LoggerWorker.BatchedFifo | src/workers/LoggerWorker/index.ts:19-33 | Adding records one by one loses, duplicates and reorders nothing: the new posts, then the batch left, are the old batch followed by the records |
| LoggerWorker.BatchedShape | src/workers/LoggerWorker/index.ts:19-33 | Every new post is non-empty and holds at least the batch size, exactly the size when the batch started below it. After any addition the batch left is below the size. Adding nothing posts nothing |
| LoggerWorker.Worker.AddAll | src/workers/LoggerWorker/index.ts:63-64 | The batches already posted stay. The new posts and the batch left are those of adding each element in order (`Batched`), and the timer was re-armed for the idle time when records remain |
| LoggerWorker.Worker.FireIdle | src/workers/LoggerWorker/index.ts:32 | The idle timer's expiry posts the pending batch and clears the timer |
| LoggerWorker.Worker.AddEventRecords | src/workers/LoggerWorker/index.ts:39-68 | The untyped and `log` branches: the message adds its records through `addLogToBatch` in order. The batches already posted stay, and the new posts and the batch left are those of `Batched`. When records were added, a non-empty batch is below the size with the timer armed for the idle time |
| LoggerWorker.Worker.HandleMessage | src/workers/LoggerWorker/index.ts:35-69 | Dispatch on `type`. Untyped adds the error record, and `log` adds an array's elements or the value: the batches already posted stay, and the new posts and the batch left are those of `Batched`, with the timer re-armed when records remain. `dispose` flushes, then closes. `init` replaces the settings and leaves the batch alone. Other types change nothing |
| SupabaseLogging.HostStamped | src/layers/Logging/adapters/SupabaseLoggerAdapter.ts:89-97 | A log message is passed through with `info.host` set. Every other property and every other `info` property is kept |
| SupabaseLogging.ServerRecord | src/layers/Logging/adapters/SupabaseLoggerAdapter.ts:98-105 | A fresh server log message with the given level and message, the serialised args, the clock reading and the host |
| SupabaseLogging.ProcessMessage | src/layers/Logging/adapters/SupabaseLoggerAdapter.ts:88-106 | The result is always a log message. A log-message argument is host-stamped, and anything else becomes a fresh server record |
| SupabaseLogging.MapRecords | src/layers/Logging/adapters/SupabaseLoggerAdapter.ts:83 | The mapping keeps the number of records |
| SupabaseLogging.MapRecordsPointwise | src/layers/Logging/adapters/SupabaseLoggerAdapter.ts:83 | The i-th output is the processed i-th input |
| SupabaseLogging.MapRecordsAppend | src/layers/Logging/adapters/SupabaseLoggerAdapter.ts:83 | Mapping a concatenation maps each part |
| SupabaseLogging.BulkRecords | src/layers/Logging/adapters/SupabaseLoggerAdapter.ts:81-83 | One record per allowed message |
| SupabaseLogging.BulkRecordsMeaning | src/layers/Logging/adapters/SupabaseLoggerAdapter.ts:80-84 | The i-th record is the processed i-th allowed message, and every record is a log message |
| SupabaseLogging.BulkRecordsAppend | src/layers/Logging/adapters/SupabaseLoggerAdapter.ts:81-83 | Only allowed messages contribute, each once and in input order |
| SupabaseLogging.SupabaseAdapter.constructor | src/layers/Logging/adapters/SupabaseLoggerAdapter.ts:19-32 | The buffer starts empty with nothing in flight. A client error is reported once, and the adapter then has no client |
| SupabaseLogging.SupabaseAdapter.BeginFlush | src/layers/Logging/adapters/SupabaseLoggerAdapter.ts:131-151 | No-op when a send is running or the buffer is empty. Otherwise the whole buffer moves in flight; without a client it is dropped, reported, and the send ends. Every accepted record stays accounted for as settled, in flight or buffered, in order |
| SupabaseLogging.SupabaseAdapter.CompleteFlush | src/layers/Logging/adapters/SupabaseLoggerAdapter.ts:152-163 | On success, including a resolved `{ error }` whose `error` is falsy, the batch counts as inserted. On a truthy error or a rejection the batch goes back in front of the buffer, ahead of records added meanwhile, and is reported. Either way the send ends |
| SupabaseLogging.SupabaseAdapter.CheckAndFlush | src/layers/Logging/adapters/SupabaseLoggerAdapter.ts:114-118 | Below the batch size nothing changes. At it, the state is exactly what `BeginFlush` leaves: a running send keeps everything, a client puts the buffer in flight, no client drops it and reports `NotInitialized`. The fallback reports, inserts and timer are otherwise untouched |
| SupabaseLogging.SupabaseAdapter.ResetIdleTimer | src/layers/Logging/adapters/SupabaseLoggerAdapter.ts:120-129 | The timer is re-armed with the idle delay, and nothing else changes |
| SupabaseLogging.SupabaseAdapter.FireIdle | src/layers/Logging/adapters/SupabaseLoggerAdapter.ts:124-128 | The idle callback disarms the timer, keeps its delay, and leaves exactly the state `BeginFlush` would: a flush only of a non-empty buffer with no send running, with the no-client drop and report |
| SupabaseLogging.SupabaseAdapter.AddToBuffer | src/layers/Logging/adapters/SupabaseLoggerAdapter.ts:108-112 | The record is accepted and the timer re-armed with the idle delay. Below the batch size it is simply buffered. At it, the extended buffer is flushed as `BeginFlush` does, including the no-client drop and report. Inserts are untouched |
| SupabaseLogging.SupabaseAdapter.Record | src/layers/Logging/adapters/SupabaseLoggerAdapter.ts:44-78 | When the level is allowed, the processed record is added with exactly the outcome `AddToBuffer` gives. Otherwise the buffer, batch in flight, send flag, fallback reports, timer and accepted records are all unchanged |
| SupabaseLogging.SupabaseAdapter.Bulk | src/layers/Logging/adapters/SupabaseLoggerAdapter.ts:80-86 | The processed allowed messages are accepted in input order. The extended buffer is kept below the batch size and flushed as `BeginFlush` does at it. The idle timer and inserts are not touched |
| SupabaseLogging.SupabaseAdapter.Dispose | src/layers/Logging/adapters/SupabaseLoggerAdapter.ts:34-42 | The idle timer is cleared, keeping its delay. The state is exactly what `BeginFlush` leaves: unchanged with an empty buffer or a running send, in flight with a client, dropped and reported without one |
| ConsoleLogging.BalancedAppend | src/layers/Logging/adapters/ConsoleLoggerAdapter.ts:14-16 | Writing one balanced call sequence after another stays balanced |
| ConsoleLogging.RenderedShape | src/layers/Logging/adapters/ConsoleLoggerAdapter.ts:32-46 | Truthy args give `groupCollapsed(formatted)`, `console[level]('', args)`, `groupEnd()`, and other args give one `console[level](formatted)`. The formatter sees the record's message and args, and groups balance |
| ConsoleLogging.RenderedAllBalanced | src/layers/Logging/adapters/ConsoleLoggerAdapter.ts:14-16 | Any number of records: groups balance, and every call is at the level of one of the records |
| ConsoleLogging.OutputAllowedAndBalanced | src/layers/Logging/adapters/ConsoleLoggerAdapter.ts:11-24 | Whatever `log` receives, the calls are balanced and only at allowed levels. A disallowed single record produces no call |
| ConsoleLogging.ManyIsRecordByRecord | src/layers/Logging/adapters/ConsoleLoggerAdapter.ts:12-16 | Array input writes exactly the allowed records, one after another, in input order |
| ConsoleLogging.ConsoleAdapter.constructor | src/layers/Logging/adapters/ConsoleLoggerAdapter.ts:5-9 | The adapter keeps the allow-list and formatter, and has made no console call |
| ConsoleLogging.ConsoleAdapter.GroupWrapCollapsed | src/layers/Logging/adapters/ConsoleLoggerAdapter.ts:32-46 | Appends exactly the wrapped calls for the formatted message |
| ConsoleLogging.ConsoleAdapter.LogSingle | src/layers/Logging/adapters/ConsoleLoggerAdapter.ts:26-30 | Appends the record's calls when its level is allowed, and nothing otherwise |
| ConsoleLogging.ConsoleAdapter.LogEach | src/layers/Logging/adapters/ConsoleLoggerAdapter.ts:14-16 | The `forEach` appends the calls of each record in order |
| ConsoleLogging.ConsoleAdapter.Log | src/layers/Logging/adapters/ConsoleLoggerAdapter.ts:11-24 | Appends exactly `Output` of the input, which is balanced and at allowed levels |
| WorkerLogging.PostsAreFiltered | src/layers/Logging/adapters/WorkerLoggerAdapter.ts:31-42 | No posted payload holds a disallowed record. An array gives one post of the filtered array in order. A single record is posted if and only if its level is allowed |
| WorkerLogging.DisallowedArrayStillPosts | src/layers/Logging/adapters/WorkerLoggerAdapter.ts:32-34 | An array with no allowed record still posts one `log` message, with an empty array |
| WorkerLogging.WorkerAdapter.constructor | src/layers/Logging/adapters/WorkerLoggerAdapter.ts:9-18 | The adapter keeps the allow-list and batch settings, and has posted nothing |
| WorkerLogging.WorkerAdapter.Initialize | src/layers/Logging/adapters/WorkerLoggerAdapter.ts:20-24 | Posts exactly one `init` message with the constructor's batch size and idle time, then listens |
| WorkerLogging.WorkerAdapter.Dispose | src/layers/Logging/adapters/WorkerLoggerAdapter.ts:26-29 | Posts exactly one `dispose` message |
| WorkerLogging.WorkerAdapter.Log | src/layers/Logging/adapters/WorkerLoggerAdapter.ts:31-42 | Posts exactly `Posts(logLevels, data)` |
| LoggerService.FanOutReachesEachAdapter | src/layers/Logging/services/DefaultLoggerService.ts:16-18 | The fan-out makes one call per adapter; the i-th goes to the i-th adapter and carries the same call |
| LoggerService.DefaultLoggerService.constructor | src/layers/Logging/services/DefaultLoggerService.ts:7 | The service keeps the adapter list, which is a constant, and has forwarded nothing |
| LoggerService.FirstThrowerFrom | src/layers/Logging/services/DefaultLoggerService.ts:9-38 | The first adapter from a given index whose call throws: no adapter between that index and it throws. When there is none, no adapter from the index throws |
| LoggerService.NoThrowReachesAll | src/layers/Logging/services/DefaultLoggerService.ts:16-18 | When no adapter throws, every adapter gets the call |
| LoggerService.ThrowStopsFanOut | src/layers/Logging/services/DefaultLoggerService.ts:16-18 | No adapter after one that throws gets the call, and the exception propagates |
| LoggerService.FanOutStopsAtThrower | src/layers/Logging/services/DefaultLoggerService.ts:16-18 | With three adapters of which the second throws, the third gets nothing and the exception propagates |
| LoggerService.DefaultLoggerService.Broadcast | src/layers/Logging/services/DefaultLoggerService.ts:16-38 | The `forEach` gives the call to each adapter in registry order up to and including the first that throws. It raises exactly when some adapter throws |
| LoggerService.DefaultLoggerService.BroadcastIsolated | src/layers/Logging/services/DefaultLoggerService.ts:16-18 | With each call in its own `try`/`catch`, every adapter gets the call in order and nothing propagates |
| LoggerService.DefaultLoggerService.Assert | src/layers/Logging/services/DefaultLoggerService.ts:9-11 | Forwards the condition and callback to each adapter in order, up to the first that throws, whose exception propagates |
| LoggerService.DefaultLoggerService.Group | src/layers/Logging/services/DefaultLoggerService.ts:12-14 | Forwards the name, callback and `collapsed` (default true) to each adapter in order, up to the first that throws, whose exception propagates |
| LoggerService.DefaultLoggerService.Log | src/layers/Logging/services/DefaultLoggerService.ts:16-38 | A severity method forwards the same-named call, message and args to each adapter in order, up to the first that throws, whose exception propagates |
| LoggerService.DefaultLoggerService.GetAdapters | src/layers/Logging/services/DefaultLoggerService.ts:40-42 | Returns exactly the constructor's list |
| Formatting.FoldConcat | src/layers/Logging/utils/format.ts:6-10 | Formatting with `fs1 + fs2` is formatting with `fs2` what `fs1` produced |
| Formatting.FoldLast | src/layers/Logging/utils/format.ts:4-14 | No formatters return the input. Otherwise the result is the last formatter's output on the others' result |
| Formatting.Format | src/layers/Logging/utils/format.ts:3-15 | The `forEach` that reassigns the message and args computes the left fold of the formatters |
| Formatting.LogSource | src/layers/Logging/formatters/LogSourceFormatter.ts:6-13 | The message gets `CLIENT: ` or `SERVER: ` in front, eight characters longer and ending with the original. The args are unchanged |
| Formatting.LogSourceInverse | src/layers/Logging/formatters/LogSourceFormatter.ts:8 | Dropping the first eight characters gives the original message back, so the formatter is injective |
| Formatting.PipelineEndingWithLogSource | src/layers/Logging/formatters/LogSourceFormatter.ts:6-13 | A pipeline that ends with this formatter yields the tag and the other formatters' message, with their args |
| MessageFormatting.GetDateStr | src/layers/Logging/utils/serverFormatMessage.ts:5-12 | The date comes from a numeric `timestamp` when `args` is an object that has one, and from the current time in every other case: not an object, no `timestamp`, or a `timestamp` that is not a number |
| MessageFormatting.GetSourceStr | src/layers/Logging/utils/serverFormatMessage.ts:14-21 | The result is the string `source` of an object, or `unknown` |
| MessageFormatting.GetLogLevel | src/layers/Logging/utils/serverFormatMessage.ts:23-30 | The result is the string `level` of an object, or `unknown` |
| MessageFormatting.SourceTagShape | src/layers/Logging/utils/serverFormatMessage.ts:36-46 | The source tag is a space and the upper-cased source on its own background. It ends in `:` for every source except `client` |
| MessageFormatting.LevelTagShape | src/layers/Logging/utils/serverFormatMessage.ts:48-67 | Every level tag starts with a space and ends in `:`. `trace`, `log` and every level the `switch` does not name are gray |
| MessageFormatting.ServerFormatMessage | src/layers/Logging/utils/serverFormatMessage.ts:32-72 | The successive `+=` build exactly the bracketed date, the source tag, the level tag, a space and the message |
| MessageFormatting.ServerLineFrame | src/layers/Logging/utils/serverFormatMessage.ts:34-69 | The line starts with the bracketed painted date and ends with a space and the message. Args that are not an object show `UNKNOWN` tags |
| MessageFormatting.ClientFormatMessage | src/layers/Logging/utils/clientFormatMessage.ts:3-11 | The line is `[date] ` followed by the message |
| MessageFormatting.ClientMessageRecoverable | src/layers/Logging/utils/clientFormatMessage.ts:10 | Dropping the date prefix gives the message back unchanged |

## Left out

- src/layers/Logging/adapters/FileLoggerAdapter.ts is a stub with no logic; it is not part of this model.
- The bundled public/workers/LoggerWorker.js is built from an older worker source. The TypeScript worker is modelled instead.
- The following construction glue is not part of this model: adapter factories, dependency injection, `createDefaultConfigService`, and the thin `Client*` console and worker forwarders.
- The repository's `Logger` interface matches neither the record-based adapters nor the logger service. Each class is modelled as written, and the service's adapters are values of a type parameter.
- The `LogMessage` type definition is not part of this model. Records are a datatype with source, level, message, args and timestamp.
- Foreign calls become parameters:
  - `Date.now()` is an integer clock reading;
  - the host (`os.hostname() || CONTAINER_ID`) is a string;
  - `serializeError` is a function;
  - chalk is a `paint` function over a colour enumeration;
  - `getDateTimeString` is a function of an optional timestamp;
  - `isClient()` is a boolean;
  - whether `createClient` threw, and how `insert` settled, are inputs.
- Timers become an armed flag with the delay it was armed with, plus explicit `FireIdle` events. There is no wall-clock time.
- Promises and `await` become begin/complete steps (`BeginFlush`, `CompleteFlush`), with no interleaving threads.
- SupabaseLogging.SupabaseAdapter.BeginFlush: the database payload projection and `toISOString` are not modelled. A batch is inserted as its records, so an invalid timestamp that would make the projection throw is not a separate outcome.
- SupabaseLogging.SupabaseAdapter.Bulk: one clock reading serves all records of one call.
- WorkerLogging.WorkerAdapter.Initialize: the listener for batches returned by the worker (`handleWorkerMessage`, `recordClientSideLogs`) is modelled only as the `listening` flag.
- Path.BaseName: the URL branch is not modelled. `new URL`, `decodeURIComponent` and the pathname split are an input: the name the URL yields, or `None` when parsing fails and the path branch takes over. `fileURLToPath` is not part of this model.
- Text.Lower and Text.Upper: case mapping is ASCII only; Unicode case folding is not modelled.
- ObjectFlatten.CharEntries: a Dafny string counts Unicode scalar values, whereas `Object.entries` of a string and `.length` count UTF-16 code units. A character outside the Basic Multilingual Plane is one entry in the model and two (lone surrogates) in the source. The same holds for every length and index in `Text`.
- Configuration.ConfigService.ToObject: JavaScript objects and `Map`s enumerate keys in insertion order, with integer-like keys first. The model keeps maps unordered, so property order in the returned object is not stated.
- Configuration.ConfigService.constructor: the parent is always a store of this same kind. A foreign `ConfigService` implementation as the parent is not modelled.
- Configuration.ConfigService.Load: `load(undefined)` without override throws inside `Object.entries`. That call is excluded by its precondition instead of being modelled as an error.
- `loadAsync` (a promise wrapper around `load`) and `toJSON` (`JSON.stringify`) are not modelled.
- Numbers are reals: NaN, infinities and `-0` are not modelled, so neither is the falsiness of NaN.
- LoggerWorker.Worker.HandleMessage, WorkerLogging.WorkerAdapter.constructor and SupabaseLogging.SupabaseAdapter.constructor: the batch size and idle time are JavaScript numbers in the source but `int` here, so a fractional setting (an idle time of 0.5 s giving 500 ms, a batch size of 2.5 compared against a length) is not modelled.
- Spreading a string or an array as `info` is not modelled: `{...x}` copies properties only from an object.

## Findings

| source | as written | input that shows it | evidently intended | confidence | as-written member | corrected member |
|---|---|---|---|---|---|---|
| src/layers/Feature/services/DefaultFeatureService.ts:21-25 | `toObject('features.' + name)` returns the store's full dotted keys (`features.<name>.enabled`), so `'enabled' in featureConfig` is never true and every feature comes back disabled | a root store loaded with `{ features: { openTelemetry: { enabled: true } } }` (as src/config/server.local.ts provides) and `getFeature('openTelemetry')` | read the feature's settings relative to its prefix, so `features.<name>.enabled` becomes `enabled` | not executed | Features.FeatureService.GetFeature | Features.FeatureService.GetFeatureCorrected |
| src/layers/Logging/services/DefaultLoggerService.ts:16-18 | `this.adapters.forEach(adapter => adapter.log(...))` with no `try`/`catch` (the same in every forwarding method, lines 9-38), so a throwing adapter ends the fan-out and the exception reaches the caller | three adapters whose second `log` throws: the third gets nothing and `log` throws | catch each adapter's failure so that every other adapter still gets the call and nothing reaches the caller | not executed | LoggerService.FanOutStopsAtThrower | LoggerService.DefaultLoggerService.BroadcastIsolated |
