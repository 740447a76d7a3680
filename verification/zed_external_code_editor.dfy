/**
  `ZedExternalCodeEditor`: the object Unity calls to open files and to keep
  the generated project files in step with the asset database. It checks
  that a file can be represented, brings the project and settings files up
  to date, and hands the launch to `ZedProcess`.
 */
module ZedExternalCodeEditor {
  import opened CSharp
  import opened Collaborators
  import Linq
  import ZedProcess

  /** The project-file generator (created by reflection); only its identity matters here. */
  datatype Generator = Generator(instance: nat)

  /** The settings-file writer; only its identity matters here. */
  datatype Settings = Settings(instance: nat)

  /** The preferences view, holding the generator it was created with. */
  datatype Preferences = Preferences(instance: nat, generator: Option<Generator>)

  /** The editor's four fields, each `None` while still null. */
  datatype Editor = Editor(
    process: Option<ZedProcess.Process>,
    generator: Option<Generator>,
    preferences: Option<Preferences>,
    settings: Option<Settings>)

  /** The state Unity registers: no field set yet. */
  const Registered: Editor := Editor(None, None, None, None)

  /**
    What constructing objects during a call yields: the identity of each
    new object, the project root the launcher reads from the Unity
    project, and what creating the generator by reflection gives (`None`
    when it throws).
   */
  datatype Factory = Factory(
    createdGenerator: Option<Generator>,
    newPreferences: nat,
    newSettings: nat,
    projectRoot: string)

  /** What a call did: the editor's state after it, its result and the calls it made. */
  datatype Response = Response(editor: Editor, result: bool, trace: seq<Call>)

  /** What a call without a result did. */
  datatype Effect = Effect(editor: Editor, trace: seq<Call>)

  /** What `Initialize` did: the editor's state after it, and whether it ended in an exception. */
  datatype Initialization = Initialization(editor: Editor, threw: bool)

  /**
    `Initialize`: the process is replaced first; then the generator is
    created by reflection. If that throws, the exception leaves the call
    and the remaining fields keep their old values. Otherwise the
    preferences are wired to the new generator and the settings replaced.
   */
  function Initialize(e: Editor, editorInstallationPath: Option<string>, factory: Factory): (r: Initialization)
    ensures r.threw <==> factory.createdGenerator.None?
    ensures r.editor.process.Some? && r.editor.process.value.projectRoot == factory.projectRoot
    ensures r.editor.process.value.execPath.None? <==> IsNullOrEmpty(editorInstallationPath)
    // a non-empty install path becomes the cached executable path, as given
    ensures !IsNullOrEmpty(editorInstallationPath) ==> r.editor.process.value.execPath == editorInstallationPath
    ensures r.threw ==>
      r.editor.generator == e.generator && r.editor.preferences == e.preferences && r.editor.settings == e.settings
    // otherwise the preferences and settings are the objects this call creates
    ensures !r.threw ==>
      && r.editor.generator == factory.createdGenerator
      && r.editor.preferences == Some(Preferences(factory.newPreferences, factory.createdGenerator))
      && r.editor.settings == Some(Settings(factory.newSettings))
  {
    var process := Some(ZedProcess.New(editorInstallationPath, factory.projectRoot));
    if factory.createdGenerator.None? then
      Initialization(e.(process := process), true)
    else
      Initialization(
        Editor(
          process,
          factory.createdGenerator,
          Some(Preferences(factory.newPreferences, factory.createdGenerator)),
          Some(Settings(factory.newSettings))),
        false)
  }

  /** `OpenProject`, `SyncAll` and `SyncIfNeeded` may be called once these fields are set. */
  predicate ReadyToOpen(e: Editor) {
    e.process.Some? && e.generator.Some? && e.settings.Some?
  }

  /**
    Starting from the registered editor, both a successful `Initialize` and
    an `OnGUI` whose reflection call succeeds set every field `OpenProject`
    dereferences, the settings object included.
   */
  lemma SetupMakesReady(path: Option<string>, factory: Factory)
    requires factory.createdGenerator.Some?
    ensures ReadyToOpen(Initialize(Registered, path, factory).editor)
    ensures ReadyToOpen(OnGUI(Registered, factory))
    ensures !ReadyToOpen(Registered)
  {
  }

  /** A file is named, and the generator cannot represent it. */
  predicate Unsupported(host: Host, filePath: Option<string>) {
    !IsNullOrEmpty(filePath) && !host.isSupportedFile(filePath.value)
  }

  /** The support check is made only for a non-empty file path. */
  function SupportCheck(filePath: Option<string>): seq<Call> {
    if IsNullOrEmpty(filePath) then [] else [IsSupportedFile(filePath.value)]
  }

  /** `OpenProject`: refuse unsupported files, sync the project and settings files, then launch. */
  function OpenProject(e: Editor, host: Host, filePath: Option<string>, line: int32, column: int32): (r: Response)
    requires ReadyToOpen(e)
    // an empty path never reaches the support check
    ensures IsNullOrEmpty(filePath) ==> forall i :: 0 <= i < |r.trace| ==> !r.trace[i].IsSupportedFile?
    // an unsupported file: false, and nothing else happens
    ensures Unsupported(host, filePath) ==>
      !r.result && r.editor == e && r.trace == [IsSupportedFile(filePath.value)]
    // otherwise: both syncs, then the launcher with the same arguments; its result is returned
    ensures !Unsupported(host, filePath) ==>
      var launch := ZedProcess.OpenProject(e.process.value, host, filePath, line, column);
      && r.trace == SupportCheck(filePath) + [GeneratorSync, SettingsSync, ProcessOpenProject(filePath, line, column)] + launch.trace
      && r.result == launch.result
      && r.editor == e.(process := Some(launch.process))
  {
    if Unsupported(host, filePath) then
      Response(e, false, [IsSupportedFile(filePath.value)])
    else
      var launch := ZedProcess.OpenProject(e.process.value, host, filePath, line, column);
      Response(
        e.(process := Some(launch.process)),
        launch.result,
        SupportCheck(filePath) + [GeneratorSync, SettingsSync, ProcessOpenProject(filePath, line, column)] + launch.trace)
  }

  /** An unsupported file causes no sync and no launch. */
  lemma UnsupportedFileHasNoSideEffects(e: Editor, host: Host, filePath: Option<string>, line: int32, column: int32)
    requires ReadyToOpen(e)
    requires Unsupported(host, filePath)
    ensures var r := OpenProject(e, host, filePath, line, column);
      && Count(r.trace, GeneratorSync) == 0
      && Count(r.trace, SettingsSync) == 0
      && Count(r.trace, ProcessOpenProject(filePath, line, column)) == 0
      && !Launched(r.trace)
  {
  }

  /**
    A supported (or absent) file leads to exactly one generator sync, one
    settings sync and one launcher call, in that order, and every OS launch
    comes after all three.
   */
  lemma OpenProjectOrder(e: Editor, host: Host, filePath: Option<string>, line: int32, column: int32)
    requires ReadyToOpen(e)
    requires !Unsupported(host, filePath)
    ensures var r := OpenProject(e, host, filePath, line, column);
      var g := |SupportCheck(filePath)|;
      && Count(r.trace, GeneratorSync) == 1
      && Count(r.trace, SettingsSync) == 1
      && Count(r.trace, ProcessOpenProject(filePath, line, column)) == 1
      && g + 2 < |r.trace|
      && r.trace[g] == GeneratorSync
      && r.trace[g + 1] == SettingsSync
      && r.trace[g + 2] == ProcessOpenProject(filePath, line, column)
      && (forall i :: 0 <= i < |r.trace| && r.trace[i].OSOpenFile? ==> g + 2 < i)
  {
    var launch := ZedProcess.OpenProject(e.process.value, host, filePath, line, column);
    SyncCallsThenLaunch(SupportCheck(filePath), launch.trace, ProcessOpenProject(filePath, line, column));
  }

  /** Counting and ordering in a trace of the shape `OpenProject` produces. */
  lemma SyncCallsThenLaunch(head: seq<Call>, launch: seq<Call>, delegate: Call)
    requires forall i :: 0 <= i < |head| ==> head[i].IsSupportedFile?
    requires forall i :: 0 <= i < |launch| ==> launch[i].GetInstallations? || launch[i].OSOpenFile?
    requires delegate.ProcessOpenProject?
    ensures var trace := head + [GeneratorSync, SettingsSync, delegate] + launch;
      && Count(trace, GeneratorSync) == 1
      && Count(trace, SettingsSync) == 1
      && Count(trace, delegate) == 1
      && trace[|head|] == GeneratorSync
      && trace[|head| + 1] == SettingsSync
      && trace[|head| + 2] == delegate
      && (forall i :: 0 <= i < |trace| && trace[i].OSOpenFile? ==> |head| + 2 < i)
  {
    var calls := [GeneratorSync, SettingsSync, delegate];
    var trace := head + calls + launch;
    forall c | c == GeneratorSync || c == SettingsSync || c == delegate
      ensures Count(trace, c) == 1
    {
      CountAppend(head + calls, launch, c);
      CountAppend(head, calls, c);
      assert c !in head;
      assert c !in launch;
    }
    assert forall i :: 0 <= i < |head| ==> trace[i] == head[i];
  }

  /**
    When no executable can be resolved, the project and settings files have
    still been synced: the support check and both syncs come before the
    executable is resolved.
   */
  lemma SyncsEvenWithoutExecutable(e: Editor, host: Host, filePath: Option<string>, line: int32, column: int32)
    requires ReadyToOpen(e)
    requires !Unsupported(host, filePath)
    requires ZedProcess.NeedsDiscovery(e.process.value, host) && ZedProcess.NothingDiscovered(host)
    ensures var r := OpenProject(e, host, filePath, line, column);
      && !r.result
      && GeneratorSync in r.trace && SettingsSync in r.trace
      && !Launched(r.trace)
      && r.editor == e
  {
    var r := OpenProject(e, host, filePath, line, column);
    var g := |SupportCheck(filePath)|;
    assert r.trace[g] == GeneratorSync && r.trace[g + 1] == SettingsSync;
  }

  /** `SyncAll`: the generator sync and then the settings sync, and nothing else. */
  function SyncAll(e: Editor): (r: Effect)
    requires e.generator.Some? && e.settings.Some?
    ensures r.trace == [GeneratorSync, SettingsSync]
    ensures r.editor == e
  {
    Effect(e, [GeneratorSync, SettingsSync])
  }

  /**
    `SyncIfNeeded`: one incremental-sync call on the generator, with the
    union of the four changed-path arrays and the imported array as given.
   */
  function SyncIfNeeded(
    e: Editor,
    addedFiles: seq<string>, deletedFiles: seq<string>, movedFiles: seq<string>, movedFromFiles: seq<string>,
    importedFiles: seq<string>): (r: Effect)
    requires e.generator.Some?
    ensures r.editor == e
    ensures |r.trace| == 1 && r.trace[0].GeneratorSyncIfNeeded?
    ensures r.trace[0].imported == importedFiles
    ensures SettingsSync !in r.trace
    ensures Linq.NoDuplicates(r.trace[0].changed)
    ensures forall x :: x in r.trace[0].changed <==>
      x in addedFiles || x in deletedFiles || x in movedFiles || x in movedFromFiles
    ensures Linq.InFirstOccurrenceOrder(addedFiles + deletedFiles + movedFiles + movedFromFiles, r.trace[0].changed)
  {
    var changed := Linq.Union(Linq.Union(Linq.Union(addedFiles, deletedFiles), movedFiles), movedFromFiles);
    var all := addedFiles + deletedFiles + movedFiles + movedFromFiles;
    Linq.UnionChain(addedFiles, deletedFiles, movedFiles, movedFromFiles);
    Linq.DistinctInFirstOccurrenceOrder(all);
    assert forall x :: x in all <==>
      x in addedFiles || x in deletedFiles || x in movedFiles || x in movedFromFiles;
    Effect(e, [GeneratorSyncIfNeeded(changed, importedFiles)])
  }

  /**
    `OnGUI`: lazily create whichever fields are still null so the
    preferences view can render before `Initialize`; a field already set is
    left as it is. The generator stays null if creating it throws.
   */
  function OnGUI(e: Editor, factory: Factory): (r: Editor)
    ensures e.generator.Some? ==> r.generator == e.generator
    ensures e.generator.None? ==> r.generator == factory.createdGenerator
    ensures e.preferences.Some? ==> r.preferences == e.preferences
    ensures e.preferences.None? ==> r.preferences == Some(Preferences(factory.newPreferences, r.generator))
    ensures e.settings.Some? ==> r.settings == e.settings
    ensures e.settings.None? ==> r.settings == Some(Settings(factory.newSettings))
    ensures e.process.Some? ==> r.process == e.process
    ensures e.process.None? ==>
      r.process.Some? && r.process.value.execPath.None? && r.process.value.projectRoot == factory.projectRoot
  {
    var generator := if e.generator.None? then factory.createdGenerator else e.generator;
    var preferences := if e.preferences.None? then Some(Preferences(factory.newPreferences, generator)) else e.preferences;
    var settings := if e.settings.None? then Some(Settings(factory.newSettings)) else e.settings;
    var process := if e.process.None? then Some(ZedProcess.New(Some(""), factory.projectRoot)) else e.process;
    Editor(process, generator, preferences, settings)
  }

  /** After `OnGUI`, a second `OnGUI` changes nothing unless the generator is still missing. */
  lemma OnGUIIdempotent(e: Editor, first: Factory, second: Factory)
    requires OnGUI(e, first).generator.Some?
    ensures OnGUI(OnGUI(e, first), second) == OnGUI(e, first)
  {
  }

  /** `OnGUI` on an initialised editor leaves it untouched. */
  lemma OnGUIKeepsInitialized(e: Editor, path: Option<string>, init: Factory, gui: Factory)
    requires init.createdGenerator.Some?
    ensures OnGUI(Initialize(e, path, init).editor, gui) == Initialize(e, path, init).editor
  {
  }

  /**
    The fields as every entry point leaves them: once a generator exists, so
    do the process, the preferences and the settings. `Initialize` and
    `OnGUI` create the generator only together with the others, and no
    entry point clears a field.
   */
  predicate Wired(e: Editor) {
    e.generator.Some? ==> e.process.Some? && e.preferences.Some? && e.settings.Some?
  }

  /** One call Unity makes on the editor, with the collaborators' answers during it. */
  datatype Step =
    | InitializeStep(editorInstallationPath: Option<string>, factory: Factory)
    | OnGUIStep(guiFactory: Factory)
    | OpenProjectStep(host: Host, filePath: Option<string>, line: int32, column: int32)
    | SyncAllStep
    | SyncIfNeededStep(
        addedFiles: seq<string>, deletedFiles: seq<string>, movedFiles: seq<string>, movedFromFiles: seq<string>,
        importedFiles: seq<string>)

  /**
    The editor's fields after one call. A call whose assertion fails or that
    dereferences a null field throws before assigning any field, so the
    fields stay as they were.
   */
  function Apply(e: Editor, step: Step): Editor {
    match step
    case InitializeStep(path, factory) => Initialize(e, path, factory).editor
    case OnGUIStep(factory) => OnGUI(e, factory)
    case OpenProjectStep(host, filePath, line, column) =>
      if ReadyToOpen(e) then OpenProject(e, host, filePath, line, column).editor else e
    case SyncAllStep =>
      if e.generator.Some? && e.settings.Some? then SyncAll(e).editor else e
    case SyncIfNeededStep(added, deleted, moved, movedFrom, imported) =>
      if e.generator.Some? then SyncIfNeeded(e, added, deleted, moved, movedFrom, imported).editor else e
  }

  /** The fields after a sequence of calls. */
  function Run(e: Editor, steps: seq<Step>): Editor
    decreases |steps|
  {
    if |steps| == 0 then e else Run(Apply(e, steps[0]), steps[1..])
  }

  /** Every entry point keeps the fields wired. */
  lemma ApplyKeepsWired(e: Editor, step: Step)
    requires Wired(e)
    ensures Wired(Apply(e, step))
  {
  }

  /**
    Whatever Unity calls, in whatever order, after registering the editor:
    the fields stay wired, so in every reachable state the two fields
    `OpenProject` asserts imply the settings object it dereferences.
   */
  lemma {:induction false} RunKeepsWired(e: Editor, steps: seq<Step>)
    requires Wired(e)
    ensures Wired(Run(e, steps))
    decreases |steps|
  {
    if |steps| > 0 {
      ApplyKeepsWired(e, steps[0]);
      RunKeepsWired(Apply(e, steps[0]), steps[1..]);
    }
  }

  /** In a reachable state, `OpenProject`'s assertions passing is enough for `ReadyToOpen`. */
  lemma ReachableAssertedIsReady(steps: seq<Step>)
    ensures var e := Run(Registered, steps);
      e.process.Some? && e.generator.Some? <==> ReadyToOpen(e)
  {
    RunKeepsWired(Registered, steps);
  }
}
