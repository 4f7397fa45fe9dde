/**
 * The machine the agent reconciles: its file system, its command runner
 * and the collaborators whose code is not part of this model. Every effect
 * is appended to one log, `trace`, so that the order of effects across a
 * whole pass can be stated.
 *
 * The outside world answers through the fixed functions of `Machine`:
 * what a command returns is a function of the log so far and the command,
 * which covers every deterministic environment.
 */
module Host {
  import opened Common
  import opened InterfaceAddresses
  import opened PartitionTypes

  /** A command line: `name args...`. */
  datatype Command = Command(name: string, args: seq<string>)

  /** `RunCommand`'s results; `failed` stands for a non-nil error. */
  datatype CmdResult = CmdResult(stdout: string, stderr: string, failed: bool)

  /** One observable effect. */
  datatype Event =
    | Ran(cmd: Command)
    | Wrote(path: string, content: string)
    | Copied(src: string, dst: string)
    | Linked(target: string, link: string)
    | EnabledIPv6
    | Broadcast(addresses: seq<InterfaceAddress>)
    | NamePrefixSet(prefix: string)
    | TableRead(devicePath: string)
    | Created(devicePath: string, partitions: seq<Partition>, namePrefix: string)

  /** Files, symbolic links, and the log of effects so far. */
  datatype HostState = HostState(files: map<string, string>, links: map<string, string>, trace: seq<Event>)

  /**
   * The fixed behaviour of the machine during one pass: command results,
   * the paths that cannot be read or written, and the listing of
   * the network devices under `/sys/class/net` (`None` when the listing fails).
   */
  datatype Machine = Machine(
    respond: (seq<Event>, Command) -> CmdResult,
    unreadable: set<string>,
    unwritable: set<string>,
    netDevices: Option<seq<string>>)

  datatype FsError = Unreadable(path: string) | Unwritable(path: string) | Missing(path: string)

  // ---------------------------------------------------------------------
  // One step each: the new state and the value returned
  // ---------------------------------------------------------------------

  function RunStep(m: Machine, s: HostState, c: Command): (HostState, CmdResult)
  {
    (s.(trace := s.trace + [Ran(c)]), m.respond(s.trace, c))
  }

  function RecordStep(s: HostState, e: Event): HostState
  {
    s.(trace := s.trace + [e])
  }

  /** `FileExists`: a file or a link at `path`. */
  predicate FileExists(s: HostState, path: string)
  {
    path in s.files || path in s.links
  }

  /** `ReadFileString`. */
  function ReadFile(m: Machine, s: HostState, path: string): Result<string, FsError>
  {
    if path in m.unreadable then Err(Unreadable(path))
    else if path !in s.files then Err(Missing(path))
    else Ok(s.files[path])
  }

  /** Whether writing `content` to `path` would change the file. */
  predicate WouldChange(s: HostState, path: string, content: string)
  {
    path !in s.files || s.files[path] != content
  }

  /**
   * `ConvergeFileContents`: a dry run only reports whether the file would
   * change; a real run writes the file only when it would change.
   */
  function ConvergeStep(m: Machine, s: HostState, path: string, content: string, dryRun: bool): (HostState, Result<bool, FsError>)
  {
    if dryRun then
      if path in m.unreadable then (s, Err(Unreadable(path))) else (s, Ok(WouldChange(s, path, content)))
    else if path in m.unwritable then (s, Err(Unwritable(path)))
    else if !WouldChange(s, path, content) then (s, Ok(false))
    else (HostState(s.files[path := content], s.links, s.trace + [Wrote(path, content)]), Ok(true))
  }

  /** `WriteFile`. */
  function WriteFileStep(m: Machine, s: HostState, path: string, content: string): (HostState, Outcome<FsError>)
  {
    if path in m.unwritable then (s, Fail(Unwritable(path)))
    else (HostState(s.files[path := content], s.links, s.trace + [Wrote(path, content)]), Pass)
  }

  /** `ReadAndFollowLink`, one level deep: the link target, or the path itself for a plain file. */
  function ReadAndFollowLink(s: HostState, path: string): Result<string, FsError>
  {
    if path in s.links then Ok(s.links[path])
    else if path in s.files then Ok(path)
    else Err(Missing(path))
  }

  /** `CopyFile`. */
  function CopyFileStep(m: Machine, s: HostState, src: string, dst: string): (HostState, Outcome<FsError>)
  {
    match ReadFile(m, s, src)
    case Err(e) => (s, Fail(e))
    case Ok(content) =>
      if dst in m.unwritable then (s, Fail(Unwritable(dst)))
      else (HostState(s.files[dst := content], s.links, s.trace + [Copied(src, dst)]), Pass)
  }

  /** `Symlink(target, link)`: `link` becomes a link to `target`. */
  function SymlinkStep(m: Machine, s: HostState, target: string, link: string): (HostState, Outcome<FsError>)
  {
    if link in m.unwritable then (s, Fail(Unwritable(link)))
    else (HostState(s.files - {link}, s.links[link := target], s.trace + [Linked(target, link)]), Pass)
  }

  /** A real write that succeeded leaves nothing to change: a dry run of
      the same contents afterwards reports no change. */
  lemma ConvergeThenUnchanged(m: Machine, s: HostState, path: string, content: string)
    requires ConvergeStep(m, s, path, content, false).1.Ok?
    requires path !in m.unreadable
    ensures ConvergeStep(m, ConvergeStep(m, s, path, content, false).0, path, content, true).1 == Ok(false)
  {
  }

  /** A dry run changes nothing, and a real run that reports no change
      writes nothing. */
  lemma ConvergeWritesOnlyOnChange(m: Machine, s: HostState, path: string, content: string, dryRun: bool)
    ensures var (s', r) := ConvergeStep(m, s, path, content, dryRun);
      (dryRun || r != Ok(true) ==> s' == s)
      && (r == Ok(true) && !dryRun ==> s'.files == s.files[path := content] && s'.trace == s.trace + [Wrote(path, content)])
  {
  }

  // ---------------------------------------------------------------------
  // The machine as an object
  // ---------------------------------------------------------------------

  class Host {
    var files: map<string, string>
    var links: map<string, string>
    var trace: seq<Event>
    const machine: Machine

    function State(): HostState
      reads this
    {
      HostState(files, links, trace)
    }

    constructor (machine: Machine, files: map<string, string>, links: map<string, string>)
      ensures this.machine == machine && State() == HostState(files, links, [])
    {
      this.machine := machine;
      this.files := files;
      this.links := links;
      this.trace := [];
    }

    method RunCommand(c: Command) returns (r: CmdResult)
      modifies this
      ensures (State(), r) == RunStep(machine, old(State()), c)
    {
      r := machine.respond(trace, c);
      trace := trace + [Ran(c)];
    }

    method Record(e: Event)
      modifies this
      ensures State() == RecordStep(old(State()), e)
    {
      trace := trace + [e];
    }

    method ReadFileString(path: string) returns (r: Result<string, FsError>)
      ensures r == ReadFile(machine, State(), path)
    {
      if path in machine.unreadable {
        r := Err(Unreadable(path));
      } else if path !in files {
        r := Err(Missing(path));
      } else {
        r := Ok(files[path]);
      }
    }

    /** `FileExists`. */
    method Exists(path: string) returns (b: bool)
      ensures b == FileExists(State(), path)
    {
      b := path in files || path in links;
    }

    /** `ReadAndFollowLink`. */
    method FollowLink(path: string) returns (r: Result<string, FsError>)
      ensures r == ReadAndFollowLink(State(), path)
    {
      if path in links {
        r := Ok(links[path]);
      } else if path in files {
        r := Ok(path);
      } else {
        r := Err(Missing(path));
      }
    }

    method ConvergeFileContents(path: string, content: string, dryRun: bool) returns (r: Result<bool, FsError>)
      modifies this
      ensures (State(), r) == ConvergeStep(machine, old(State()), path, content, dryRun)
    {
      var changed := path !in files || files[path] != content;
      if dryRun {
        r := if path in machine.unreadable then Err(Unreadable(path)) else Ok(changed);
      } else if path in machine.unwritable {
        r := Err(Unwritable(path));
      } else if !changed {
        r := Ok(false);
      } else {
        files := files[path := content];
        trace := trace + [Wrote(path, content)];
        r := Ok(true);
      }
    }

    method WriteFile(path: string, content: string) returns (r: Outcome<FsError>)
      modifies this
      ensures (State(), r) == WriteFileStep(machine, old(State()), path, content)
    {
      if path in machine.unwritable {
        r := Fail(Unwritable(path));
      } else {
        files := files[path := content];
        trace := trace + [Wrote(path, content)];
        r := Pass;
      }
    }

    method CopyFile(src: string, dst: string) returns (r: Outcome<FsError>)
      modifies this
      ensures (State(), r) == CopyFileStep(machine, old(State()), src, dst)
    {
      var content := ReadFileString(src);
      if content.Err? {
        r := Fail(content.error);
      } else if dst in machine.unwritable {
        r := Fail(Unwritable(dst));
      } else {
        files := files[dst := content.value];
        trace := trace + [Copied(src, dst)];
        r := Pass;
      }
    }

    method Symlink(target: string, link: string) returns (r: Outcome<FsError>)
      modifies this
      ensures (State(), r) == SymlinkStep(machine, old(State()), target, link)
    {
      if link in machine.unwritable {
        r := Fail(Unwritable(link));
      } else {
        files := files - {link};
        links := links[link := target];
        trace := trace + [Linked(target, link)];
        r := Pass;
      }
    }
  }
}
