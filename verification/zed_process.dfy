/**
  `ZedProcess`: the cached path of the editor executable and the launch of
  the editor on the project. A stale or unset cached path is replaced by
  the first installation discovery reports, and the replacement is kept
  for later calls.
 */
module ZedProcess {
  import opened CSharp
  import opened Collaborators
  import opened LaunchArgs

  /**
    The process launcher's state: the executable path (`None` when unset)
    and the project root, the parent of the Unity project's `Assets`
    directory.
   */
  datatype Process = Process(execPath: Option<string>, projectRoot: string)

  /** What one `OpenProject` call did: the state after it, its result and the calls it made. */
  datatype Outcome = Outcome(process: Process, result: bool, trace: seq<Call>)

  /** The constructor: an empty or null executable path counts as unset. */
  function New(execPath: Option<string>, projectRoot: string): (p: Process)
    ensures p.projectRoot == projectRoot
    ensures p.execPath.None? <==> IsNullOrEmpty(execPath)
    ensures p.execPath.Some? ==> p.execPath == execPath
  {
    if IsNullOrEmpty(execPath) then Process(None, projectRoot)
    else Process(execPath, projectRoot)
  }

  /** The cached executable path is unset or names no existing file. */
  predicate NeedsDiscovery(p: Process, host: Host) {
    p.execPath.None? || !host.fileExists(p.execPath.value)
  }

  /** Discovery returned a null or empty array. */
  predicate NothingDiscovered(host: Host) {
    host.installations.None? || |host.installations.value| == 0
  }

  /** Opens the project, and the file at the given position if one is named, in the editor. */
  function OpenProject(p: Process, host: Host, filePath: Option<string>, line: int32, column: int32): (r: Outcome)
    ensures r.process.projectRoot == p.projectRoot
    // the launcher talks to discovery and to the OS launcher only
    ensures forall i :: 0 <= i < |r.trace| ==> r.trace[i].GetInstallations? || r.trace[i].OSOpenFile?
    // discovery is consulted exactly when the cached path is unusable
    ensures GetInstallations in r.trace <==> NeedsDiscovery(p, host)
    // and then only once: there is no retry
    ensures Count(r.trace, GetInstallations) == (if NeedsDiscovery(p, host) then 1 else 0)
    ensures !NeedsDiscovery(p, host) ==> r.process == p
    // nothing usable: fail without launching and without changing the cache
    ensures NeedsDiscovery(p, host) && NothingDiscovered(host) ==>
      !r.result && !Launched(r.trace) && r.process == p
    // otherwise the first installation is adopted
    ensures NeedsDiscovery(p, host) && !NothingDiscovered(host) ==>
      r.process.execPath == Some(host.installations.value[0].path)
    // a launch is the last call, happens once, uses the resolved path and the built arguments,
    // and its answer is the result
    ensures Launched(r.trace) <==> !(NeedsDiscovery(p, host) && NothingDiscovered(host))
    ensures Launched(r.trace) ==>
      && r.process.execPath.Some?
      && var launch := OSOpenFile(r.process.execPath.value, BuildArgs(p.projectRoot, filePath, line, column));
      && r.trace[|r.trace| - 1] == launch
      && (forall i :: 0 <= i < |r.trace| - 1 ==> !r.trace[i].OSOpenFile?)
      && r.result == host.osOpenFile(launch.exec, launch.args)
  {
    var args := BuildArgs(p.projectRoot, filePath, line, column);
    if NeedsDiscovery(p, host) then
      if NothingDiscovered(host) then
        Outcome(p, false, [GetInstallations])
      else
        var exec := host.installations.value[0].path;
        var trace := [GetInstallations, OSOpenFile(exec, args)];
        assert trace[1].OSOpenFile?;
        Outcome(p.(execPath := Some(exec)), host.osOpenFile(exec, args), trace)
    else
      var exec := p.execPath.value;
      var trace := [OSOpenFile(exec, args)];
      assert trace[0].OSOpenFile?;
      Outcome(p, host.osOpenFile(exec, args), trace)
  }

  /**
    A path adopted from discovery is used by the next call without asking
    discovery again, as long as that file still exists.
   */
  lemma AdoptedPathPersists(
    p: Process, first: Host, second: Host,
    filePath: Option<string>, line: int32, column: int32,
    nextFilePath: Option<string>, nextLine: int32, nextColumn: int32)
    requires NeedsDiscovery(p, first) && !NothingDiscovered(first)
    requires second.fileExists(first.installations.value[0].path)
    ensures
      var exec := first.installations.value[0].path;
      var next := OpenProject(OpenProject(p, first, filePath, line, column).process, second, nextFilePath, nextLine, nextColumn);
      && next.process.execPath == Some(exec)
      && next.trace == [OSOpenFile(exec, BuildArgs(p.projectRoot, nextFilePath, nextLine, nextColumn))]
  {
  }

  /** With a usable cached path, what discovery would report makes no difference. */
  lemma CachedPathIgnoresDiscovery(
    p: Process, host: Host, other: Host,
    filePath: Option<string>, line: int32, column: int32)
    requires !NeedsDiscovery(p, host)
    requires other.fileExists(p.execPath.value)
    requires var args := BuildArgs(p.projectRoot, filePath, line, column);
      other.osOpenFile(p.execPath.value, args) == host.osOpenFile(p.execPath.value, args)
    ensures OpenProject(p, host, filePath, line, column) == OpenProject(p, other, filePath, line, column)
  {
  }

  /** A launcher constructed without a path always goes to discovery on its first call. */
  lemma UnsetPathDiscovers(execPath: Option<string>, projectRoot: string, host: Host,
                           filePath: Option<string>, line: int32, column: int32)
    requires IsNullOrEmpty(execPath)
    ensures GetInstallations in OpenProject(New(execPath, projectRoot), host, filePath, line, column).trace
  {
  }
}
