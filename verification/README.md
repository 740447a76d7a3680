# Zed editor integration for Unity — a Dafny model

This project models the core of a Unity editor plugin that makes the Zed
editor Unity's external code editor:

- `ZedProcess` builds the argument string for the Zed executable. The string
  holds the quoted project root and, optionally, a quoted file with a
  `:line` or `:line:column` suffix. The process keeps the executable path in
  a cache. When the cached path is unset or missing on disk, it asks
  installation discovery for a path and keeps the first result.
- `ZedExternalCodeEditor` is the object Unity calls. Its `OpenProject`
  refuses files the project generator cannot represent. Otherwise it syncs
  the generated project files and the settings files, then hands over to
  `ZedProcess`. `SyncAll` runs both syncs. `SyncIfNeeded` passes the LINQ
  union of the changed-path arrays to the generator. `OnGUI` creates
  whichever fields are still null.

The model is functional. The answers of the collaborators consulted while
opening a file are fields of a `Host` record: file existence, discovery, the
OS process launcher and the generator's supported-file test. What object
construction yields (the outcome of creating the generator by reflection,
the identities of the new objects, the project root) is a `Factory` record.
Calls whose answer is not used, such as the two syncs, appear only as
entries of a trace. `ZedProcess.OpenProject` and the editor's `OpenProject`,
`SyncAll` and `SyncIfNeeded` return the new state, their result if any and
the trace of the collaborator calls they made. `Initialize` returns the new
fields and whether it threw; `OnGUI` returns the new fields. Ordering and
"never called" properties are stated over the traces. Any sequence of these
calls is a sequence of `Step`s, and `Run` gives the fields after it.
Nullable C# strings are `Option<string>`. C# `int` is the `int32` newtype.

Files:

- `csharp.dfy`: nullable references, `int32`, `string.IsNullOrEmpty`, and
  decimal rendering of a non-negative `int` together with its parser.
- `linq.dfy`: `Enumerable.Union` as first-occurrence de-duplication.
- `launch_args.dfy`: the argument builder, a parser for its output, and the
  round trip between them.
- `collaborators.dfy`: the `Host` record, the call trace and counting.
- `zed_process.dfy`: the process state and `OpenProject`.
- `zed_external_code_editor.dfy`: the editor's fields and its entry points.

The model follows these details of the code:

- The project root is always quoted, not only when it contains whitespace.
- The root is always followed by a space, even when no file is given. With no
  file, the string is `"<root>" ` with a trailing space.
- The position goes after the closing quote of the file: `"<root>" "<file>":10:3`.
  It does not go inside the quotes.
- Discovery results are used in the order discovery returns them. No ranking
  or tie-break is applied.

## Model

| member | source | states |
|---|---|---|
| `CSharp.ParseDecimalString` | Editor/ZedProcess.cs:34-40 | the decimal text appended for a line or column reads back as the same number, so distinct numbers never render alike |
| `LaunchArgs.BuildArgs` | Editor/ZedProcess.cs:24-43 | the argument string always starts with the quoted project root and one space; it is exactly that prefix if and only if the file path is null or empty |
| `LaunchArgs.ParsePositionSuffix` | Editor/ZedProcess.cs:32-42 | the suffix reads back as no position when line < 0, as a line when line >= 0 and column < 0, and as a line and column otherwise |
| `LaunchArgs.ParseBuildArgs` | Editor/ZedProcess.cs:24-43 | for paths without a double quote, reading the argument string back gives exactly the requested target: the root, the file only if non-empty, a line only with a file, a column only with a line |
| `LaunchArgs.BuildArgsUnambiguous` | Editor/ZedProcess.cs:24-43 | for paths without a double quote, two calls produce the same argument string only if they request the same root, file, line and column after the guards |
| `LaunchArgs.NoFileIgnoresPosition` | Editor/ZedProcess.cs:25-28 | with a null or empty file path the string is the quoted root plus a trailing space, whatever the line and column |
| `LaunchArgs.NegativeLineHasNoSuffix` | Editor/ZedProcess.cs:30-32 | with a file and line < 0 the string is the root prefix and the quoted file, with no `:` suffix for any column |
| `LaunchArgs.LineWithoutColumn` | Editor/ZedProcess.cs:32-36 | with a file, line >= 0 and column < 0 the string is the root prefix, the quoted file and `:line` |
| `LaunchArgs.LineAndColumn` | Editor/ZedProcess.cs:37-41 | with a file, line >= 0 and column >= 0 the string is the root prefix, the quoted file and `:line:column` |
| `LaunchArgs.FileLineColumnExample` | Editor/ZedProcess.cs:25-41 | root `/proj`, file `/src/Foo.cs`, line 10 and column 3 give `"/proj" "/src/Foo.cs":10:3` |
| `ZedProcess.New` | Editor/ZedProcess.cs:14-18 | a null or empty executable path leaves the cache unset; any other path is cached, as text without NPath's normalisation |
| `ZedProcess.OpenProject` | Editor/ZedProcess.cs:20-70 | discovery is called exactly when the cached path is unset or missing, and then exactly once. If discovery then returns null or empty, the result is false, nothing is launched and the cache is unchanged. Otherwise the first installation's path is cached. The OS launcher is called at most once, as the last call, with the resolved path and the built arguments, and its answer is the result |
| `ZedProcess.AdoptedPathPersists` | Editor/ZedProcess.cs:46-64 | a path adopted from discovery is used by the next call without calling discovery again, as long as the file still exists |
| `ZedProcess.CachedPathIgnoresDiscovery` | Editor/ZedProcess.cs:46-69 | with a usable cached path, the outcome does not depend on what discovery would return |
| `ZedProcess.UnsetPathDiscovers` | Editor/ZedProcess.cs:16-51 | a process built from a null or empty path calls discovery on its first launch |
| `ZedExternalCodeEditor.Initialize` | Editor/ZedExternalCodeEditor.cs:32-38 | the process is always replaced: its cache is unset exactly when the install path is null or empty, and otherwise holds that path. The call throws exactly when creating the generator throws, and then the other three fields keep their old values. Otherwise the generator is the created one, and the preferences and settings are the objects this call creates, the preferences holding the new generator |
| `ZedExternalCodeEditor.SetupMakesReady` | Editor/ZedExternalCodeEditor.cs:32-38 | from the registered editor with no fields set, a successful `Initialize` and an `OnGUI` whose generator creation succeeds both set the process, generator and settings that `OpenProject` dereferences |
| `ZedExternalCodeEditor.OpenProject` | Editor/ZedExternalCodeEditor.cs:54-69 | an empty path skips the support check. An unsupported file returns false and makes no other call. Otherwise the trace is the check, generator sync, settings sync, then one process launch with the same file, line and column. The launch's result and cache update come back unchanged |
| `ZedExternalCodeEditor.UnsupportedFileHasNoSideEffects` | Editor/ZedExternalCodeEditor.cs:59-63 | for an unsupported file there are zero generator syncs, zero settings syncs, zero process calls and no OS launch |
| `ZedExternalCodeEditor.OpenProjectOrder` | Editor/ZedExternalCodeEditor.cs:65-68 | otherwise there is exactly one generator sync, then one settings sync, then one process call, in that order, and every OS launch comes after all three |
| `ZedExternalCodeEditor.SyncsEvenWithoutExecutable` | Editor/ZedExternalCodeEditor.cs:65-68 | when no executable can be resolved, both syncs have still run, nothing is launched and the result is false |
| `ZedExternalCodeEditor.SyncAll` | Editor/ZedExternalCodeEditor.cs:71-77 | exactly a generator sync followed by a settings sync; the state is unchanged |
| `ZedExternalCodeEditor.SyncIfNeeded` | Editor/ZedExternalCodeEditor.cs:79-84 | one incremental generator call and no settings sync. The changed paths have no duplicates and hold exactly the elements of the four arrays, in first-occurrence order. The imported array is passed unchanged |
| `ZedExternalCodeEditor.OnGUI` | Editor/ZedExternalCodeEditor.cs:90-117 | each field that is set is kept. Each null field gets a new object: the generator only if reflection succeeds, the preferences bound to the resulting generator, and a process with no executable path |
| `ZedExternalCodeEditor.OnGUIIdempotent` | Editor/ZedExternalCodeEditor.cs:95-114 | once the generator exists, a second `OnGUI` changes nothing |
| `ZedExternalCodeEditor.OnGUIKeepsInitialized` | Editor/ZedExternalCodeEditor.cs:95-114 | `OnGUI` after a successful `Initialize` leaves every field as `Initialize` set it |
| `ZedExternalCodeEditor.ApplyKeepsWired` | Editor/ZedExternalCodeEditor.cs:32-117 | from a state where a generator already comes with the other three fields, no entry point leaves a generator without a process, preferences and settings, including a call that returns early or throws |
| `ZedExternalCodeEditor.RunKeepsWired` | Editor/ZedExternalCodeEditor.cs:32-117 | after any sequence of calls the generator still never exists without the process, preferences and settings |
| `ZedExternalCodeEditor.ReachableAssertedIsReady` | Editor/ZedExternalCodeEditor.cs:56-67 | in every state reachable from the registered editor, the process and generator that `OpenProject` asserts imply the settings object it dereferences, so its precondition excludes no reachable state in which both assertions hold |
| `Linq.Distinct` | Editor/ZedExternalCodeEditor.cs:83 | the result has no duplicates and holds exactly the elements of the input |
| `Linq.DistinctInFirstOccurrenceOrder` | Editor/ZedExternalCodeEditor.cs:83 | the de-duplicated elements keep the order of their first occurrences |
| `Linq.Union` | Editor/ZedExternalCodeEditor.cs:83 | `first.Union(second)` has no duplicates and holds exactly the elements of either sequence |
| `Linq.UnionChain` | Editor/ZedExternalCodeEditor.cs:83 | chaining `Union` over the four arrays equals de-duplicating their concatenation |

## Left out

- Editor/ZedPreferences.cs: IMGUI layout, toggles and package metadata. `OnGUI`'s closing call into the preferences view is therefore not modelled.
- `ZedDiscovery` is not part of this model. `GetInstallations()` is the `installations` field of `Host`. The `Installations` property and `TryGetInstallationForPath` only forward to discovery.
- `CreateSdkStyleGeneration` uses reflection on a foreign assembly. Its outcome is the `createdGenerator` field of `Factory`, with `None` when it throws.
- Plugin registration (`CodeEditor.Register`, `[InitializeOnLoadMethod]`) and every logging call.
- `CodeEditor.OSOpenFile` (OS process creation) is the `osOpenFile` oracle of `Host`. `NPath.FileExists` is the `fileExists` oracle.
- ZedProcess.New: the executable path is cached and later launched as the given string. The code wraps it in an `NPath`, whose `FileExists()` and `ToString()` normalise separators, trailing slashes and `.`/`..` segments. The model does not normalise, and the same holds for a path adopted from discovery.
- `Application.dataPath` is not read. The project root is the `projectRoot` field of `Factory`, already rendered as text, so NPath's path normalisation is not modelled.
- ZedProcess.OpenProject: constructing an `NPath` from a null or malformed discovered path, which could throw, is not modelled. The discovered path is adopted as given, and its existence is not re-checked before the launch, just as in the code.
- ZedExternalCodeEditor.OpenProject: the two `Assert.IsNotNull` checks are preconditions. The settings object is required too, because `m_Settings.Sync()` dereferences it; `ReachableAssertedIsReady` shows this excludes no state reachable from the registered editor in which both assertions hold.
- ZedExternalCodeEditor.Apply: a call whose assertion fails or that dereferences a null field is modelled only by its effect on the fields, which it leaves unchanged. The exception and the calls made before it are not modelled.
- ZedExternalCodeEditor.SyncAll: requires the generator (asserted) and the settings object (dereferenced).
- ZedExternalCodeEditor.SyncIfNeeded: the arrays are sequences, so a null array is not modelled. A null changed-path array makes LINQ throw. A null imported array would be passed through.
- LaunchArgs.ParseBuildArgs: the round trip is proved only for a root and a file that contain no double quote. The builder does not escape quotes, so a path containing one can make two requests produce the same string.
- LaunchArgs.BuildArgs: only the decimal form of non-negative numbers is modelled. Negative values never reach the string.
