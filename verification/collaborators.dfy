/**
  The outside world as the editor integration sees it: the answers its
  collaborators give (file existence, installation discovery, the host's
  process launcher, the project generator's file filter) and the record of
  the calls it makes on them.
 */
module Collaborators {
  import opened CSharp

  /** One discovered editor binary. */
  datatype Installation = Installation(path: string, name: string)

  /**
    The answers of the collaborators during one call. `installations` is
    what discovery returns, `None` standing for a null array.
   */
  datatype Host = Host(
    fileExists: string -> bool,
    installations: Option<seq<Installation>>,
    osOpenFile: (string, string) -> bool,
    isSupportedFile: string -> bool)

  /** A call the integration makes on a collaborator. */
  datatype Call =
    | IsSupportedFile(path: string)
    | GeneratorSync
    | SettingsSync
    | GeneratorSyncIfNeeded(changed: seq<string>, imported: seq<string>)
    | ProcessOpenProject(filePath: Option<string>, line: int32, column: int32)
    | GetInstallations
    | OSOpenFile(exec: string, args: string)

  /** How many times `c` occurs in `trace`. */
  function Count(trace: seq<Call>, c: Call): (n: nat)
    ensures n <= |trace|
    ensures n == 0 <==> c !in trace
  {
    if |trace| == 0 then 0
    else (if trace[0] == c then 1 else 0) + Count(trace[1..], c)
  }

  lemma {:induction false} CountAppend(a: seq<Call>, b: seq<Call>, c: Call)
    ensures Count(a + b, c) == Count(a, c) + Count(b, c)
    decreases |a|
  {
    if |a| == 0 {
      assert a + b == b;
    } else {
      assert (a + b)[1..] == a[1..] + b;
      CountAppend(a[1..], b, c);
    }
  }

  /** Whether the process launcher was called with any arguments at all. */
  predicate Launched(trace: seq<Call>) {
    exists i :: 0 <= i < |trace| && trace[i].OSOpenFile?
  }
}
