/**
 * `EphemeralDevicePartitioner` (platform/disk): it reads the agent id from
 * the settings file, makes it the partition name prefix of the parted
 * driver, and leaves the device alone when its table already matches the
 * desired layout and carries the id; otherwise it erases every partition
 * path `blkid` reports, removes every existing partition with `parted rm`
 * (each command under a bounded retry), and hands creation to the driver.
 *
 * The parted driver's own code is not part of this model: its operations
 * answer through the fixed functions of `Parted` and record what they do
 * in the host's log.
 */
module EphemeralPartitioner {
  import opened Common
  import opened Text
  import opened PartitionTypes
  import opened Host
  import opened RetryStrategy

  /** The answers of the parted driver, given the log so far. */
  datatype Parted = Parted(
    table: (seq<Event>, string) -> Option<(seq<ExistingPartition>, Uint64)>,
    partitionsMatch: (seq<ExistingPartition>, seq<Partition>, Uint64) -> bool,
    create: (seq<Event>, string, seq<Partition>) -> bool,
    deviceSize: (seq<Event>, string) -> Option<Uint64>)

  /**
   * Everything fixed during one `Partition` call: the machine, the driver,
   * the settings path, the decoding of the settings JSON (the `agent_id`
   * field, `""` when the field is absent; `None` when the text is not a
   * settings object) and the number of attempts of the retry strategy.
   */
  datatype Env = Env(m: Machine, parted: Parted, settingsPath: string,
                     decode: string -> Option<string>, attempts: nat)

  datatype AgentIdError = ReadingSettings(path: string, cause: FsError) | UnmarshallingSettings(path: string)

  datatype RemovalError = GettingPaths(devicePath: string) | Erasing(devicePath: string) | Removing(devicePath: string)

  datatype PartitionError =
    | GettingAgentId(reason: AgentIdError)
    | GettingExistingPartitions(devicePath: string)
    | RemovingExisting(devicePath: string, cause: RemovalError)
    | DriverFailed(devicePath: string)

  /** The host and the driver's name prefix. */
  datatype DiskState = DiskState(host: HostState, namePrefix: string)

  // ---------------------------------------------------------------------
  // The pure parts
  // ---------------------------------------------------------------------

  /** `getAgentID`: read the settings file and decode its `agent_id`. */
  function AgentIdOf(env: Env, s: HostState): Result<string, AgentIdError>
  {
    match ReadFile(env.m, s, env.settingsPath)
    case Err(e) => Err(ReadingSettings(env.settingsPath, e))
    case Ok(json) =>
      match env.decode(json)
      case None => Err(UnmarshallingSettings(env.settingsPath))
      case Some(id) => Ok(id)
  }

  /** `namesMatch`: some existing partition's name starts with the agent id. */
  function NamesMatch(existing: seq<ExistingPartition>, agentId: string): bool
  {
    existing != [] && (HasPrefix(existing[0].name, agentId) || NamesMatch(existing[1..], agentId))
  }

  lemma {:induction false} NamesMatchIff(existing: seq<ExistingPartition>, agentId: string)
    ensures NamesMatch(existing, agentId) <==> exists i :: 0 <= i < |existing| && HasPrefix(existing[i].name, agentId)
  {
    if existing != [] {
      NamesMatchIff(existing[1..], agentId);
      if NamesMatch(existing[1..], agentId) {
        var i :| 0 <= i < |existing| - 1 && HasPrefix(existing[1..][i].name, agentId);
        assert existing[i + 1] == existing[1..][i];
      }
      if exists i :: 0 <= i < |existing| && HasPrefix(existing[i].name, agentId) {
        var i :| 0 <= i < |existing| && HasPrefix(existing[i].name, agentId);
        if i > 0 { assert existing[1..][i - 1] == existing[i]; }
      }
    }
  }

  /** With no existing partitions the names never match, so an empty
      device is always partitioned. */
  lemma NamesMatchEmpty(agentId: string)
    ensures !NamesMatch([], agentId)
  {
  }

  /** The length of the run of digits at the front of `s`. */
  function DigitRun(s: string): (k: nat)
    ensures k <= |s| && AllDigits(s[..k]) && (k < |s| ==> !IsDigit(s[k]))
  {
    if s != [] && IsDigit(s[0]) then
      var k := 1 + DigitRun(s[1..]);
      assert s[..k] == [s[0]] + s[1..][..k - 1];
      k
    else 0
  }

  /** A match of `devicePath[0-9]+` starts at the front of `s`. */
  predicate MatchAt(s: string, devicePath: string)
  {
    HasPrefix(s, devicePath) && |devicePath| < |s| && IsDigit(s[|devicePath|])
  }

  /** A partition path: the device path followed by one or more digits. */
  predicate IsPartitionPath(x: string, devicePath: string)
  {
    HasPrefix(x, devicePath) && |devicePath| < |x| && AllDigits(x[|devicePath|..])
  }

  /**
   * `FindAllString` of `devicePath[0-9]+` over `s`: scanning from the left,
   * each match takes the longest run of digits, and the scan resumes after
   * the match.
   */
  function FindAll(s: string, devicePath: string): (r: seq<string>)
    ensures forall i :: 0 <= i < |r| ==> IsPartitionPath(r[i], devicePath)
    decreases |s|
  {
    if s == [] then []
    else if MatchAt(s, devicePath) then
      var n := |devicePath| + DigitRun(s[|devicePath|..]);
      assert s[..n][|devicePath|..] == s[|devicePath|..][..n - |devicePath|];
      [s[..n]] + FindAll(s[n..], devicePath)
    else FindAll(s[1..], devicePath)
  }

  /** There are no paths exactly when no occurrence of the device path in
      the output is followed by a digit. */
  lemma {:induction false} FindAllEmptyIff(s: string, devicePath: string)
    ensures FindAll(s, devicePath) == [] <==> forall i :: 0 <= i < |s| ==> !MatchAt(s[i..], devicePath)
    decreases |s|
  {
    if s != [] && !MatchAt(s, devicePath) {
      FindAllEmptyIff(s[1..], devicePath);
      forall i | 1 <= i < |s| ensures s[i..] == s[1..][i - 1..] { }
      if FindAll(s, devicePath) != [] {
        var i :| 0 <= i < |s| - 1 && MatchAt(s[1..][i..], devicePath);
        assert s[i + 1..] == s[1..][i..];
      }
    }
    if s != [] && MatchAt(s, devicePath) {
      assert s[0..] == s;
    }
  }

  /** No digit follows position `k` of `s`: a run of digits ending at `k` is maximal. */
  predicate DigitsEndAt(s: string, k: nat)
  {
    k < |s| ==> !IsDigit(s[k])
  }

  /**
   * The strings `r` lie in `s` at the positions `at`, in order and without
   * overlap, each one followed by no digit.
   */
  predicate Spans(s: string, r: seq<string>, at: seq<nat>)
  {
    |at| == |r|
    && (forall i :: 0 <= i < |at| ==> OccursAt(s, r[i], at[i]) && DigitsEndAt(s, at[i] + |r[i]|))
    && (forall i :: 0 <= i < |at| - 1 ==> at[i] + |r[i]| <= at[i + 1])
  }

  /** Every position from `from` on where the device path is followed by a digit lies inside one of the spans. */
  predicate Covers(s: string, devicePath: string, r: seq<string>, at: seq<nat>, from: nat)
  {
    |at| == |r|
    && forall p :: from <= p < |s| && MatchAt(s[p..], devicePath) ==>
         exists i :: 0 <= i < |at| && at[i] <= p < at[i] + |r[i]|
  }

  /**
   * Where the paths of `FindAll` lie in the scanned text: each one occurs at
   * its position `at[i]` with no digit after it, the matches follow each
   * other without overlap, and every position where the device path is
   * followed by a digit lies inside one of them.
   */
  lemma {:induction false} FindAllSpans(s: string, devicePath: string) returns (at: seq<nat>)
    ensures Spans(s, FindAll(s, devicePath), at)
    ensures Covers(s, devicePath, FindAll(s, devicePath), at, 0)
    decreases |s|
  {
    if s == [] {
      at := [];
    } else if MatchAt(s, devicePath) {
      var d := |devicePath|;
      var n := d + DigitRun(s[d..]);
      assert s[d..][0] == s[d];
      var rest := FindAllSpans(s[n..], devicePath);
      var shifted := ShiftSpans(s, devicePath, n, FindAll(s[n..], devicePath), rest);
      if n < |s| {
        assert s[d..][n - d] == s[n];
      }
      at := FrontSpan(s, devicePath, n, FindAll(s[n..], devicePath), shifted);
    } else {
      var rest := FindAllSpans(s[1..], devicePath);
      at := ShiftSpans(s, devicePath, 1, FindAll(s[1..], devicePath), rest);
      assert s[0..] == s;
    }
  }

  /** Spans found in `s[n..]` moved to their place in `s`. */
  lemma ShiftSpans(s: string, devicePath: string, n: nat, r: seq<string>, rest: seq<nat>) returns (at: seq<nat>)
    requires n <= |s|
    requires Spans(s[n..], r, rest) && Covers(s[n..], devicePath, r, rest, 0)
    ensures Spans(s, r, at) && Covers(s, devicePath, r, at, n)
    ensures forall i :: 0 <= i < |at| ==> n <= at[i]
  {
    var tail := s[n..];
    at := seq(|rest|, i requires 0 <= i < |rest| => rest[i] + n);
    forall i | 0 <= i < |at|
      ensures OccursAt(s, r[i], at[i]) && DigitsEndAt(s, at[i] + |r[i]|)
    {
      ShiftOne(s, n, r[i], rest[i]);
    }
    forall i | 0 <= i < |at| - 1 ensures at[i] + |r[i]| <= at[i + 1] {
      assert rest[i] + |r[i]| <= rest[i + 1];
    }
    forall p | n <= p < |s| && MatchAt(s[p..], devicePath)
      ensures exists i :: 0 <= i < |at| && at[i] <= p < at[i] + |r[i]|
    {
      ShiftCoverOne(s, devicePath, n, r, rest, at, p);
    }
  }

  /** A match at `p` in `s` is a match at `p - n` in `s[n..]`, so a shifted span holds it. */
  lemma ShiftCoverOne(s: string, devicePath: string, n: nat, r: seq<string>, rest: seq<nat>, at: seq<nat>, p: nat)
    requires n <= p < |s| && MatchAt(s[p..], devicePath)
    requires Covers(s[n..], devicePath, r, rest, 0)
    requires |at| == |rest| && forall i :: 0 <= i < |at| ==> at[i] == rest[i] + n
    ensures exists i :: 0 <= i < |at| && at[i] <= p < at[i] + |r[i]|
  {
    assert s[p..] == s[n..][p - n..];
    var j :| 0 <= j < |rest| && rest[j] <= p - n < rest[j] + |r[j]|;
    assert at[j] <= p < at[j] + |r[j]|;
  }

  /** One span found in `s[n..]` at `k` is a span of `s` at `k + n`. */
  lemma ShiftOne(s: string, n: nat, x: string, k: nat)
    requires n <= |s| && OccursAt(s[n..], x, k) && DigitsEndAt(s[n..], k + |x|)
    ensures OccursAt(s, x, k + n) && DigitsEndAt(s, k + n + |x|)
  {
    assert s[n..][k..k + |x|] == s[k + n..k + n + |x|];
    if k + |x| < |s| - n {
      assert s[n..][k + |x|] == s[k + n + |x|];
    }
  }

  /** A maximal match `s[..n]` at the front, put before the spans of the rest. */
  lemma FrontSpan(s: string, devicePath: string, n: nat, r: seq<string>, rest: seq<nat>) returns (at: seq<nat>)
    requires 0 < n <= |s| && DigitsEndAt(s, n)
    requires Spans(s, r, rest) && Covers(s, devicePath, r, rest, n)
    requires forall i :: 0 <= i < |rest| ==> n <= rest[i]
    ensures Spans(s, [s[..n]] + r, at) && Covers(s, devicePath, [s[..n]] + r, at, 0)
  {
    var all := [s[..n]] + r;
    at := [0] + rest;
    assert OccursAt(s, all[0], 0) && |all[0]| == n;
    forall i | 0 <= i < |at| ensures OccursAt(s, all[i], at[i]) && DigitsEndAt(s, at[i] + |all[i]|) {
      if i > 0 {
        assert all[i] == r[i - 1] && at[i] == rest[i - 1];
      }
    }
    forall i | 0 <= i < |at| - 1 ensures at[i] + |all[i]| <= at[i + 1] {
      if i > 0 {
        assert all[i] == r[i - 1] && at[i] == rest[i - 1] && at[i + 1] == rest[i];
      }
    }
    forall p | 0 <= p < |s| && MatchAt(s[p..], devicePath)
      ensures exists i :: 0 <= i < |at| && at[i] <= p < at[i] + |all[i]|
    {
      FrontCoverOne(s, devicePath, n, r, rest, p);
    }
  }

  /** A match at `p` lies in the front match or in a later span. */
  lemma FrontCoverOne(s: string, devicePath: string, n: nat, r: seq<string>, rest: seq<nat>, p: nat)
    requires 0 < n <= |s| && 0 <= p < |s| && MatchAt(s[p..], devicePath)
    requires Covers(s, devicePath, r, rest, n)
    ensures var all, at := [s[..n]] + r, [0] + rest;
      exists i :: 0 <= i < |at| && at[i] <= p < at[i] + |all[i]|
  {
    var all, at := [s[..n]] + r, [0] + rest;
    if p < n {
      assert at[0] <= p < at[0] + |all[0]|;
    } else {
      var j :| 0 <= j < |rest| && rest[j] <= p < rest[j] + |r[j]|;
      assert at[j + 1] <= p < at[j + 1] + |all[j + 1]|;
    }
  }

  const Blkid := Command("blkid", [])

  function WipeCommand(path: string): Command { Command("wipefs", ["-a", path]) }

  function RemoveCommand(devicePath: string, index: int): Command
  {
    Command("parted", [devicePath, "rm", IntToDecimal(index)])
  }

  /** One `wipefs -a` per partition path, in order. */
  function WipeCommands(paths: seq<string>): (cmds: seq<Command>)
    ensures |cmds| == |paths| && forall i :: 0 <= i < |paths| ==> cmds[i] == WipeCommand(paths[i])
  {
    seq(|paths|, i requires 0 <= i < |paths| => WipeCommand(paths[i]))
  }

  /** One `parted <device> rm <index>` per existing partition, in order. */
  function RemoveCommands(devicePath: string, existing: seq<ExistingPartition>): (cmds: seq<Command>)
    ensures |cmds| == |existing| && forall i :: 0 <= i < |existing| ==> cmds[i] == RemoveCommand(devicePath, existing[i].index)
  {
    seq(|existing|, i requires 0 <= i < |existing| => RemoveCommand(devicePath, existing[i].index))
  }

  predicate IsWipe(e: Event) { e.Ran? && e.cmd.name == "wipefs" }

  predicate IsRemove(e: Event) { e.Ran? && e.cmd.name == "parted" }

  // ---------------------------------------------------------------------
  // The runs
  // ---------------------------------------------------------------------

  /** `getPartitionPaths`: `blkid`, then the matches in its output. */
  function PartitionPathsStep(env: Env, s: HostState, devicePath: string): (HostState, Result<seq<string>, RemovalError>)
  {
    var out := env.m.respond(s.trace, Blkid);
    var s1 := s.(trace := s.trace + [Ran(Blkid)]);
    if out.failed then (s1, Err(GettingPaths(devicePath))) else (s1, Ok(FindAll(out.stdout, devicePath)))
  }

  /** The two retried loops of `removePartitions`, once the paths are known. */
  function WipeAndRemove(env: Env, s: HostState, paths: seq<string>, existing: seq<ExistingPartition>, devicePath: string): (HostState, Outcome<RemovalError>)
    requires env.attempts >= 1
  {
    var wiped := TryEach(env.m, s, WipeCommands(paths), env.attempts);
    if !wiped.1 then (wiped.0, Fail(Erasing(devicePath)))
    else
      var removed := TryEach(env.m, wiped.0, RemoveCommands(devicePath, existing), env.attempts);
      if !removed.1 then (removed.0, Fail(Removing(devicePath))) else (removed.0, Pass)
  }

  /** `removePartitions`: erase every path, then remove every existing partition. */
  function RemovePartitionsRun(env: Env, s: HostState, existing: seq<ExistingPartition>, devicePath: string): (HostState, Outcome<RemovalError>)
    requires env.attempts >= 1
  {
    var paths := PartitionPathsStep(env, s, devicePath);
    if paths.1.Err? then (paths.0, Fail(paths.1.error))
    else WipeAndRemove(env, paths.0, paths.1.value, existing, devicePath)
  }

  /** Whether the device is left alone: the layout matches and a name carries the id. */
  predicate Converged(env: Env, existing: seq<ExistingPartition>, size: Uint64, desired: seq<Partition>, agentId: string)
  {
    env.parted.partitionsMatch(existing, desired, size) && NamesMatch(existing, agentId)
  }

  /** The log after the prefix is set and the table read. */
  function Prepared(s: HostState, agentId: string, devicePath: string): HostState
  {
    s.(trace := s.trace + [NamePrefixSet(agentId), TableRead(devicePath)])
  }

  /** The table the driver reads once the prefix is set. */
  function TableAfterPrefix(env: Env, s: HostState, agentId: string, devicePath: string): Option<(seq<ExistingPartition>, Uint64)>
  {
    env.parted.table(s.trace + [NamePrefixSet(agentId)], devicePath)
  }

  /** What `Partition` does once the table is known and does not match. */
  function Repartition(env: Env, h: HostState, agentId: string, existing: seq<ExistingPartition>, devicePath: string, desired: seq<Partition>): (DiskState, Outcome<PartitionError>)
    requires env.attempts >= 1
  {
    var removed := RemovePartitionsRun(env, h, existing, devicePath);
    if removed.1.Fail? then (DiskState(removed.0, agentId), Fail(RemovingExisting(devicePath, removed.1.error)))
    else
      var created := env.parted.create(removed.0.trace, devicePath, desired);
      (DiskState(RecordStep(removed.0, Created(devicePath, desired, agentId)), agentId),
       if created then Pass else Fail(DriverFailed(devicePath)))
  }

  /** `Partition`. */
  function PartitionRun(env: Env, st: DiskState, devicePath: string, desired: seq<Partition>): (DiskState, Outcome<PartitionError>)
    requires env.attempts >= 1
  {
    var id := AgentIdOf(env, st.host);
    if id.Err? then (st, Fail(GettingAgentId(id.error)))
    else
      var h := Prepared(st.host, id.value, devicePath);
      var table := TableAfterPrefix(env, st.host, id.value, devicePath);
      if table.None? then (DiskState(h, id.value), Fail(GettingExistingPartitions(devicePath)))
      else if Converged(env, table.value.0, table.value.1, desired, id.value) then (DiskState(h, id.value), Pass)
      else Repartition(env, h, id.value, table.value.0, devicePath, desired)
  }

  // ---------------------------------------------------------------------
  // Properties of removal
  // ---------------------------------------------------------------------

  /** Whether `blkid` fails on `s`. */
  predicate BlkidFails(env: Env, s: HostState)
  {
    env.m.respond(s.trace, Blkid).failed
  }

  /** The paths `blkid` reports on `s`. */
  function BlkidPaths(env: Env, s: HostState, devicePath: string): seq<string>
  {
    FindAll(env.m.respond(s.trace, Blkid).stdout, devicePath)
  }

  /**
   * The log of the two retried loops: the erasures (`cw` counts the runs
   * of each `wipefs` that succeeded) and, when every erasure succeeded,
   * the removals (`cr` likewise for each `parted rm`).
   */
  function LoopsLog(paths: seq<string>, cw: seq<nat>, devicePath: string,
                    existing: seq<ExistingPartition>, cr: seq<nat>, attempts: nat): seq<Event>
    requires |cw| <= |paths| && |cr| <= |existing|
  {
    if |cw| < |paths| then EachLog(WipeCommands(paths), cw, attempts)
    else EachLog(WipeCommands(paths), cw, attempts) + EachLog(RemoveCommands(devicePath, existing), cr, attempts)
  }

  /** The log of a removal: `blkid`, then, unless it failed, the loops. */
  function RemovalLog(blkidFailed: bool, paths: seq<string>, cw: seq<nat>, devicePath: string,
                      existing: seq<ExistingPartition>, cr: seq<nat>, attempts: nat): seq<Event>
    requires |cw| <= |paths| && |cr| <= |existing|
  {
    if blkidFailed then [Ran(Blkid)] else [Ran(Blkid)] + LoopsLog(paths, cw, devicePath, existing, cr, attempts)
  }

  /** The error of a removal: the first step that failed. */
  function RemovalOutcome(blkidFailed: bool, erasingFailed: bool, removingFailed: bool, devicePath: string): Outcome<RemovalError>
  {
    if blkidFailed then Fail(GettingPaths(devicePath))
    else if erasingFailed then Fail(Erasing(devicePath))
    else if removingFailed then Fail(Removing(devicePath))
    else Pass
  }

  /** The loops when an erasure ran out of attempts: no removal runs. */
  lemma ErasingFailedShape(env: Env, s: HostState, paths: seq<string>, existing: seq<ExistingPartition>, devicePath: string, cw: seq<nat>)
    requires env.attempts >= 1 && |cw| < |paths|
    requires TryEach(env.m, s, WipeCommands(paths), env.attempts) == (s.(trace := s.trace + EachLog(WipeCommands(paths), cw, env.attempts)), false)
    ensures WipeAndRemove(env, s, paths, existing, devicePath)
         == (s.(trace := s.trace + EachLog(WipeCommands(paths), cw, env.attempts)), Fail(Erasing(devicePath)))
  {
  }

  /** Two appends to the log are one append of both. */
  lemma AppendTwice(s: HostState, w: seq<Event>, d: seq<Event>)
    ensures var s1 := s.(trace := s.trace + w); s1.(trace := s1.trace + d) == s.(trace := s.trace + (w + d))
  {
    assert s.trace + w + d == s.trace + (w + d);
  }

  /** Once every erasure succeeded, the loops end as the removals do. */
  lemma AfterWipes(env: Env, s: HostState, paths: seq<string>, existing: seq<ExistingPartition>, devicePath: string, s1: HostState)
    requires env.attempts >= 1
    requires TryEach(env.m, s, WipeCommands(paths), env.attempts) == (s1, true)
    ensures var removed := TryEach(env.m, s1, RemoveCommands(devicePath, existing), env.attempts);
      WipeAndRemove(env, s, paths, existing, devicePath) == (removed.0, if !removed.1 then Fail(Removing(devicePath)) else Pass)
  {
  }

  /** The loops when every erasure succeeded: the removals follow. */
  lemma ErasedShape(env: Env, s: HostState, paths: seq<string>, existing: seq<ExistingPartition>, devicePath: string, cw: seq<nat>)
    returns (cr: seq<nat>)
    requires env.attempts >= 1 && |cw| == |paths|
    requires TryEach(env.m, s, WipeCommands(paths), env.attempts) == (s.(trace := s.trace + EachLog(WipeCommands(paths), cw, env.attempts)), true)
    ensures |cr| <= |existing| && Positive(cr)
    ensures WipeAndRemove(env, s, paths, existing, devicePath)
         == (s.(trace := s.trace + (EachLog(WipeCommands(paths), cw, env.attempts) + EachLog(RemoveCommands(devicePath, existing), cr, env.attempts))),
             if |cr| < |existing| then Fail(Removing(devicePath)) else Pass)
  {
    var w := EachLog(WipeCommands(paths), cw, env.attempts);
    var s1 := s.(trace := s.trace + w);
    AfterWipes(env, s, paths, existing, devicePath, s1);
    cr := TryEachShape(env.m, s1, RemoveCommands(devicePath, existing), env.attempts);
    AppendTwice(s, w, EachLog(RemoveCommands(devicePath, existing), cr, env.attempts));
  }

  /** The shape of the two loops: only the log changes, by `LoopsLog`. */
  lemma WipeAndRemoveShape(env: Env, s: HostState, paths: seq<string>, existing: seq<ExistingPartition>, devicePath: string)
    returns (cw: seq<nat>, cr: seq<nat>)
    requires env.attempts >= 1
    ensures |cw| <= |paths| && |cr| <= |existing| && Positive(cw) && Positive(cr)
    ensures WipeAndRemove(env, s, paths, existing, devicePath)
         == (s.(trace := s.trace + LoopsLog(paths, cw, devicePath, existing, cr, env.attempts)),
             RemovalOutcome(false, |cw| < |paths|, |cr| < |existing|, devicePath))
  {
    cw := TryEachShape(env.m, s, WipeCommands(paths), env.attempts);
    if |cw| < |paths| {
      cr := [];
      ErasingFailedShape(env, s, paths, existing, devicePath, cw);
    } else {
      cr := ErasedShape(env, s, paths, existing, devicePath, cw);
    }
  }
  /**
   * The shape of `removePartitions`: `blkid`, then a block of `wipefs`
   * runs per path in path order, then a block of `parted rm` runs per
   * existing partition in table order; an error stops the sequence at the
   * command whose attempts ran out. Only the log changes.
   */
  lemma RemovePartitionsShape(env: Env, s: HostState, existing: seq<ExistingPartition>, devicePath: string)
    returns (cw: seq<nat>, cr: seq<nat>)
    requires env.attempts >= 1
    ensures |cw| <= |BlkidPaths(env, s, devicePath)| && |cr| <= |existing| && Positive(cw) && Positive(cr)
    ensures RemovePartitionsRun(env, s, existing, devicePath).0
         == s.(trace := s.trace + RemovalLog(BlkidFails(env, s), BlkidPaths(env, s, devicePath), cw, devicePath, existing, cr, env.attempts))
    ensures RemovePartitionsRun(env, s, existing, devicePath).1
         == RemovalOutcome(BlkidFails(env, s), |cw| < |BlkidPaths(env, s, devicePath)|, |cr| < |existing|, devicePath)
  {
    var s1 := s.(trace := s.trace + [Ran(Blkid)]);
    var paths := BlkidPaths(env, s, devicePath);
    if BlkidFails(env, s) {
      cw, cr := [], [];
    } else {
      cw, cr := WipeAndRemoveShape(env, s1, paths, existing, devicePath);
      var l := LoopsLog(paths, cw, devicePath, existing, cr, env.attempts);
      assert s.trace + [Ran(Blkid)] + l == s.trace + ([Ran(Blkid)] + l);
    }
  }

  /** Every entry of the log runs a command. */
  predicate AllRan(l: seq<Event>) { forall i :: 0 <= i < |l| ==> l[i].Ran? }

  /** No `wipefs` follows a `parted rm` in the log. */
  predicate WipesBeforeRemoves(l: seq<Event>)
  {
    forall i, j :: 0 <= i < j < |l| && IsRemove(l[i]) ==> !IsWipe(l[j])
  }

  /** The log holds no `parted rm`. */
  predicate NoRemoves(l: seq<Event>) { forall i :: 0 <= i < |l| ==> !IsRemove(l[i]) }

  /** A block of `wipefs` runs followed by a block of `parted` runs. */
  lemma WipesThenRemoves(w: seq<Event>, d: seq<Event>)
    requires forall i :: 0 <= i < |w| ==> IsWipe(w[i])
    requires forall i :: 0 <= i < |d| ==> IsRemove(d[i])
    ensures AllRan(w + d) && WipesBeforeRemoves(w + d)
  {
    var l := w + d;
    forall i | 0 <= i < |l| ensures l[i].Ran? && (i < |w| ==> IsWipe(l[i])) && (i >= |w| ==> IsRemove(l[i])) {
      if i >= |w| { assert l[i] == d[i - |w|]; }
    }
  }

  /**
   * What every log of the loops satisfies: it runs commands only; no
   * `wipefs` follows a `parted rm`; and a failed erasure is followed by no
   * `parted rm`.
   */
  lemma LoopsLogFacts(paths: seq<string>, cw: seq<nat>, devicePath: string,
                      existing: seq<ExistingPartition>, cr: seq<nat>, attempts: nat)
    requires |cw| <= |paths| && |cr| <= |existing|
    ensures AllRan(LoopsLog(paths, cw, devicePath, existing, cr, attempts))
    ensures WipesBeforeRemoves(LoopsLog(paths, cw, devicePath, existing, cr, attempts))
    ensures |cw| < |paths| ==> NoRemoves(LoopsLog(paths, cw, devicePath, existing, cr, attempts))
  {
    var w := EachLog(WipeCommands(paths), cw, attempts);
    EachLogNamed(WipeCommands(paths), cw, attempts, "wipefs");
    if |cw| == |paths| {
      var d := EachLog(RemoveCommands(devicePath, existing), cr, attempts);
      EachLogNamed(RemoveCommands(devicePath, existing), cr, attempts, "parted");
      WipesThenRemoves(w, d);
    }
  }

  /** The facts of a log carry over once it follows an earlier log and `blkid`. */
  lemma AfterBlkid(t: seq<Event>, l: seq<Event>)
    requires AllRan(l)
    ensures var tr := t + ([Ran(Blkid)] + l);
      |t| < |tr| && tr[..|t|] == t && tr[|t|] == Ran(Blkid)
      && (forall i :: |t| <= i < |tr| ==> tr[i].Ran?)
      && (WipesBeforeRemoves(l) ==> forall i, j :: |t| < i < j < |tr| && IsRemove(tr[i]) ==> !IsWipe(tr[j]))
      && (NoRemoves(l) ==> forall i :: |t| <= i < |tr| ==> !IsRemove(tr[i]))
  {
    var tr := t + ([Ran(Blkid)] + l);
    assert tr[..|t|] == t;
    assert !IsRemove(Ran(Blkid)) by { assert |Blkid.name| != |"parted"|; }
    forall i | |t| < i < |tr| ensures tr[i] == l[i - |t| - 1] { }
  }

  /**
   * What every removal log satisfies, after any earlier log `t`: `blkid`
   * comes first; only commands run; no `wipefs` follows a `parted rm`; and
   * a failed erasure is followed by no `parted rm`.
   */
  lemma RemovalLogFacts(t: seq<Event>, blkidFailed: bool, paths: seq<string>, cw: seq<nat>, devicePath: string,
                        existing: seq<ExistingPartition>, cr: seq<nat>, attempts: nat)
    requires |cw| <= |paths| && |cr| <= |existing|
    ensures var tr := t + RemovalLog(blkidFailed, paths, cw, devicePath, existing, cr, attempts);
      |t| < |tr| && tr[..|t|] == t && tr[|t|] == Ran(Blkid)
      && (forall i :: |t| <= i < |tr| ==> tr[i].Ran?)
      && (forall i, j :: |t| < i < j < |tr| && IsRemove(tr[i]) ==> !IsWipe(tr[j]))
      && (!blkidFailed && |cw| < |paths| ==> forall i :: |t| <= i < |tr| ==> !IsRemove(tr[i]))
  {
    if blkidFailed {
      assert RemovalLog(blkidFailed, paths, cw, devicePath, existing, cr, attempts) == [Ran(Blkid)] + [];
      AfterBlkid(t, []);
    } else {
      var l := LoopsLog(paths, cw, devicePath, existing, cr, attempts);
      LoopsLogFacts(paths, cw, devicePath, existing, cr, attempts);
      AfterBlkid(t, l);
    }
  }

  /** A removal that passed ran `parted rm` for every existing partition. */
  lemma RemovalLogRemovesEvery(t: seq<Event>, paths: seq<string>, cw: seq<nat>, devicePath: string,
                               existing: seq<ExistingPartition>, cr: seq<nat>, attempts: nat)
    requires |cw| == |paths| && |cr| == |existing| && Positive(cr)
    ensures forall p :: p in existing ==> Ran(RemoveCommand(devicePath, p.index)) in t + RemovalLog(false, paths, cw, devicePath, existing, cr, attempts)
  {
    var rms := RemoveCommands(devicePath, existing);
    var pre := t + [Ran(Blkid)] + EachLog(WipeCommands(paths), cw, attempts);
    var e := Expand(rms, cr);
    assert t + RemovalLog(false, paths, cw, devicePath, existing, cr, attempts) == pre + e;
    ExpandRunsEach(rms, cr);
    forall p | p in existing ensures Ran(RemoveCommand(devicePath, p.index)) in pre + e {
      var j :| 0 <= j < |existing| && existing[j] == p;
      assert Ran(rms[j]) in e;
    }
  }

  /** Every `wipefs` of a removal comes before every `parted rm`, whatever the outcome. */
  lemma WipesPrecedeRemovals(env: Env, s: HostState, existing: seq<ExistingPartition>, devicePath: string)
    requires env.attempts >= 1
    ensures var tr := RemovePartitionsRun(env, s, existing, devicePath).0.trace;
      |s.trace| < |tr| && tr[..|s.trace|] == s.trace && tr[|s.trace|] == Ran(Blkid)
      && forall i, j :: |s.trace| < i < j < |tr| && IsRemove(tr[i]) ==> !IsWipe(tr[j])
  {
    var cw, cr := RemovePartitionsShape(env, s, existing, devicePath);
    RemovalLogFacts(s.trace, BlkidFails(env, s), BlkidPaths(env, s, devicePath), cw, devicePath, existing, cr, env.attempts);
  }

  /** A removal that fails while erasing runs no `parted rm`. */
  lemma ErasingFailureRemovesNothing(env: Env, s: HostState, existing: seq<ExistingPartition>, devicePath: string)
    requires env.attempts >= 1
    requires RemovePartitionsRun(env, s, existing, devicePath).1 == Fail(Erasing(devicePath))
    ensures forall i :: |s.trace| <= i < |RemovePartitionsRun(env, s, existing, devicePath).0.trace| ==>
      !IsRemove(RemovePartitionsRun(env, s, existing, devicePath).0.trace[i])
  {
    var cw, cr := RemovePartitionsShape(env, s, existing, devicePath);
    RemovalLogFacts(s.trace, BlkidFails(env, s), BlkidPaths(env, s, devicePath), cw, devicePath, existing, cr, env.attempts);
  }

  /** A removal runs commands and records nothing else. */
  lemma RemovalOnlyRuns(env: Env, s: HostState, existing: seq<ExistingPartition>, devicePath: string)
    requires env.attempts >= 1
    ensures |s.trace| <= |RemovePartitionsRun(env, s, existing, devicePath).0.trace|
    ensures RemovePartitionsRun(env, s, existing, devicePath).0.trace[..|s.trace|] == s.trace
    ensures forall i :: |s.trace| <= i < |RemovePartitionsRun(env, s, existing, devicePath).0.trace| ==>
      RemovePartitionsRun(env, s, existing, devicePath).0.trace[i].Ran?
  {
    var cw, cr := RemovePartitionsShape(env, s, existing, devicePath);
    RemovalLogFacts(s.trace, BlkidFails(env, s), BlkidPaths(env, s, devicePath), cw, devicePath, existing, cr, env.attempts);
  }

  /** A removal that succeeds runs `parted rm` for every existing partition. */
  lemma RemovalRemovesEvery(env: Env, s: HostState, existing: seq<ExistingPartition>, devicePath: string)
    requires env.attempts >= 1
    requires RemovePartitionsRun(env, s, existing, devicePath).1 == Pass
    ensures forall p :: p in existing ==> Ran(RemoveCommand(devicePath, p.index)) in RemovePartitionsRun(env, s, existing, devicePath).0.trace
  {
    var cw, cr := RemovePartitionsShape(env, s, existing, devicePath);
    RemovalLogRemovesEvery(s.trace, BlkidPaths(env, s, devicePath), cw, devicePath, existing, cr, env.attempts);
  }

  // ---------------------------------------------------------------------
  // Properties of Partition
  // ---------------------------------------------------------------------

  /** A settings file that cannot be read or decoded fails the call before
      any prefix is set, any table is read or any command is run. */
  lemma SettingsFailureIsInert(env: Env, st: DiskState, devicePath: string, desired: seq<Partition>)
    requires env.attempts >= 1 && AgentIdOf(env, st.host).Err?
    ensures PartitionRun(env, st, devicePath, desired) == (st, Fail(GettingAgentId(AgentIdOf(env, st.host).error)))
  {
  }

  /** With the agent id read, the driver's prefix becomes the id, and the
      first two effects are setting it and reading the table. */
  lemma PrefixSetBeforeTableRead(env: Env, st: DiskState, devicePath: string, desired: seq<Partition>)
    requires env.attempts >= 1 && AgentIdOf(env, st.host).Ok?
    ensures PartitionRun(env, st, devicePath, desired).0.namePrefix == AgentIdOf(env, st.host).value
    ensures var tr := PartitionRun(env, st, devicePath, desired).0.host.trace;
      var pre := st.host.trace + [NamePrefixSet(AgentIdOf(env, st.host).value), TableRead(devicePath)];
      |pre| <= |tr| && tr[..|pre|] == pre
  {
    var id := AgentIdOf(env, st.host).value;
    var h := Prepared(st.host, id, devicePath);
    var table := TableAfterPrefix(env, st.host, id, devicePath);
    if table.Some? && !Converged(env, table.value.0, table.value.1, desired, id) {
      RemovalOnlyRuns(env, h, table.value.0, devicePath);
      var removed := RemovePartitionsRun(env, h, table.value.0, devicePath).0.trace;
      if RemovePartitionsRun(env, h, table.value.0, devicePath).1.Pass? {
        assert (removed + [Created(devicePath, desired, id)])[..|h.trace|] == removed[..|h.trace|];
      }
    } else {
      assert h.trace[..|h.trace|] == h.trace;
    }
  }

  /** When the table matches and carries the id, the call succeeds after
      the prefix and the table read: no command and no creation. */
  lemma ConvergedDeviceIsLeftAlone(env: Env, st: DiskState, devicePath: string, desired: seq<Partition>, agentId: string)
    requires env.attempts >= 1 && AgentIdOf(env, st.host) == Ok(agentId)
    requires TableAfterPrefix(env, st.host, agentId, devicePath).Some?
    requires Converged(env, TableAfterPrefix(env, st.host, agentId, devicePath).value.0,
                       TableAfterPrefix(env, st.host, agentId, devicePath).value.1, desired, agentId)
    ensures PartitionRun(env, st, devicePath, desired)
         == (DiskState(st.host.(trace := st.host.trace + [NamePrefixSet(agentId), TableRead(devicePath)]), agentId), Pass)
  {
  }

  /**
   * Creation is reached exactly when the device is not left alone and
   * every erasure and removal succeeded; it is then the last effect, with
   * the desired list unchanged and the agent id as prefix. A removal that
   * ends in error returns that error and creates nothing.
   */
  lemma CreateOnlyAfterRemoval(env: Env, st: DiskState, devicePath: string, desired: seq<Partition>,
                               agentId: string, existing: seq<ExistingPartition>, size: Uint64)
    requires env.attempts >= 1 && AgentIdOf(env, st.host) == Ok(agentId)
    requires TableAfterPrefix(env, st.host, agentId, devicePath) == Some((existing, size))
    requires !Converged(env, existing, size, desired, agentId)
    ensures RemovePartitionsRun(env, Prepared(st.host, agentId, devicePath), existing, devicePath).1.Fail? ==>
      PartitionRun(env, st, devicePath, desired)
        == (DiskState(RemovePartitionsRun(env, Prepared(st.host, agentId, devicePath), existing, devicePath).0, agentId),
            Fail(RemovingExisting(devicePath, RemovePartitionsRun(env, Prepared(st.host, agentId, devicePath), existing, devicePath).1.error)))
    ensures RemovePartitionsRun(env, Prepared(st.host, agentId, devicePath), existing, devicePath).1.Pass? ==>
      PartitionRun(env, st, devicePath, desired).0.host.trace
        == RemovePartitionsRun(env, Prepared(st.host, agentId, devicePath), existing, devicePath).0.trace
           + [Created(devicePath, desired, agentId)]
      && (PartitionRun(env, st, devicePath, desired).1.Pass?
          <==> env.parted.create(RemovePartitionsRun(env, Prepared(st.host, agentId, devicePath), existing, devicePath).0.trace, devicePath, desired))
  {
  }

  /** A successful call that was not left alone removed every existing
      partition before creating the new layout, which is its last effect. */
  lemma RepartitionRemovesEveryExisting(env: Env, st: DiskState, devicePath: string, desired: seq<Partition>,
                                        agentId: string, existing: seq<ExistingPartition>, size: Uint64)
    requires env.attempts >= 1 && AgentIdOf(env, st.host) == Ok(agentId)
    requires TableAfterPrefix(env, st.host, agentId, devicePath) == Some((existing, size))
    requires !Converged(env, existing, size, desired, agentId)
    requires PartitionRun(env, st, devicePath, desired).1 == Pass
    ensures var tr := PartitionRun(env, st, devicePath, desired).0.host.trace;
      |tr| > 0 && tr[|tr| - 1] == Created(devicePath, desired, agentId)
      && forall p :: p in existing ==> Ran(RemoveCommand(devicePath, p.index)) in tr[..|tr| - 1]
  {
    var h := Prepared(st.host, agentId, devicePath);
    var removal := RemovePartitionsRun(env, h, existing, devicePath);
    CreateOnlyAfterRemoval(env, st, devicePath, desired, agentId, existing, size);
    assert removal.1.Pass?;
    RemovalRemovesEvery(env, h, existing, devicePath);
    var tr := PartitionRun(env, st, devicePath, desired).0.host.trace;
    assert tr[..|tr| - 1] == removal.0.trace;
  }

  /** A call that fails for any reason other than the driver's creation
      itself records no creation. */
  lemma FailedRemovalCreatesNothing(env: Env, st: DiskState, devicePath: string, desired: seq<Partition>)
    requires env.attempts >= 1
    requires PartitionRun(env, st, devicePath, desired).1.Fail?
    requires !PartitionRun(env, st, devicePath, desired).1.error.DriverFailed?
    ensures forall i :: |st.host.trace| <= i < |PartitionRun(env, st, devicePath, desired).0.host.trace| ==>
      !PartitionRun(env, st, devicePath, desired).0.host.trace[i].Created?
  {
    var id := AgentIdOf(env, st.host);
    if id.Ok? {
      var h := Prepared(st.host, id.value, devicePath);
      var table := TableAfterPrefix(env, st.host, id.value, devicePath);
      var tr := PartitionRun(env, st, devicePath, desired).0.host.trace;
      if table.Some? && !Converged(env, table.value.0, table.value.1, desired, id.value) {
        RemovalOnlyRuns(env, h, table.value.0, devicePath);
        assert tr == RemovePartitionsRun(env, h, table.value.0, devicePath).0.trace;
        forall i | |st.host.trace| <= i < |tr| ensures !tr[i].Created? {
          if i < |h.trace| {
            assert tr[i] == tr[..|h.trace|][i] == h.trace[i];
          }
        }
      } else {
        assert tr == h.trace;
      }
    }
  }

  // ---------------------------------------------------------------------
  // The objects
  // ---------------------------------------------------------------------

  /** The parted driver: it holds the partition name prefix. */
  class PartedPartitioner {
    var namePrefix: string
    const host: Host
    const parted: Parted

    constructor (host: Host, parted: Parted)
      ensures this.host == host && this.parted == parted && namePrefix == ""
    {
      this.host := host;
      this.parted := parted;
      namePrefix := "";
    }

    /** `setPartitionNamePrefix`. */
    method SetPartitionNamePrefix(prefix: string)
      modifies this, host
      ensures namePrefix == prefix
      ensures host.State() == RecordStep(old(host.State()), NamePrefixSet(prefix))
    {
      namePrefix := prefix;
      host.Record(NamePrefixSet(prefix));
    }

    /** `getPartitions`: the existing table and the full device size. */
    method GetPartitions(devicePath: string) returns (r: Option<(seq<ExistingPartition>, Uint64)>)
      modifies host
      ensures r == parted.table(old(host.trace), devicePath)
      ensures host.State() == RecordStep(old(host.State()), TableRead(devicePath))
    {
      r := parted.table(host.trace, devicePath);
      host.Record(TableRead(devicePath));
    }

    /** `partitionsMatch`. */
    predicate PartitionsMatch(existing: seq<ExistingPartition>, desired: seq<Partition>, size: Uint64)
    {
      parted.partitionsMatch(existing, desired, size)
    }

    /** `Partition`: create the desired layout under the current prefix. */
    method Partition(devicePath: string, partitions: seq<Partition>) returns (ok: bool)
      modifies host
      ensures ok == parted.create(old(host.trace), devicePath, partitions)
      ensures host.State() == RecordStep(old(host.State()), Created(devicePath, partitions, namePrefix))
    {
      ok := parted.create(host.trace, devicePath, partitions);
      host.Record(Created(devicePath, partitions, namePrefix));
    }

    /** `GetDeviceSizeInBytes`. */
    method GetDeviceSizeInBytes(devicePath: string) returns (r: Option<Uint64>)
      ensures r == parted.deviceSize(host.trace, devicePath)
    {
      r := parted.deviceSize(host.trace, devicePath);
    }
  }

  class EphemeralDevicePartitioner {
    const driver: PartedPartitioner
    const host: Host
    const settingsPath: string
    const decode: string -> Option<string>
    const maxAttempts: nat

    predicate Valid()
    {
      driver.host == host && maxAttempts >= 1
    }

    function Environment(): Env
    {
      Env(host.machine, driver.parted, settingsPath, decode, maxAttempts)
    }

    constructor (driver: PartedPartitioner, settingsPath: string, decode: string -> Option<string>, maxAttempts: nat)
      requires maxAttempts >= 1
      ensures Valid() && this.driver == driver && this.settingsPath == settingsPath
      ensures this.decode == decode && this.maxAttempts == maxAttempts
    {
      this.driver := driver;
      this.host := driver.host;
      this.settingsPath := settingsPath;
      this.decode := decode;
      this.maxAttempts := maxAttempts;
    }

    /** `getAgentID`. */
    method GetAgentId() returns (r: Result<string, AgentIdError>)
      ensures r == AgentIdOf(Environment(), host.State())
    {
      var json := host.ReadFileString(settingsPath);
      if json.Err? {
        return Err(ReadingSettings(settingsPath, json.error));
      }
      var id := decode(json.value);
      if id.None? {
        return Err(UnmarshallingSettings(settingsPath));
      }
      return Ok(id.value);
    }

    /** `getPartitionPaths`. */
    method GetPartitionPaths(devicePath: string) returns (r: Result<seq<string>, RemovalError>)
      modifies host
      ensures (host.State(), r) == PartitionPathsStep(Environment(), old(host.State()), devicePath)
    {
      var out := host.RunCommand(Blkid);
      if out.failed {
        return Err(GettingPaths(devicePath));
      }
      return Ok(FindAll(out.stdout, devicePath));
    }

    /** Retry each command in order; stop at the first that fails for good. */
    method TryAll(cmds: seq<Command>) returns (ok: bool)
      requires Valid()
      modifies host
      ensures (host.State(), ok) == TryEach(host.machine, old(host.State()), cmds, maxAttempts)
    {
      ghost var s0 := host.State();
      var i := 0;
      assert cmds[..0] == [];
      while i < |cmds|
        invariant 0 <= i <= |cmds|
        invariant TryEach(host.machine, s0, cmds[..i], maxAttempts) == (host.State(), true)
      {
        ok := Try(host, cmds[i], maxAttempts);
        assert cmds[..i + 1][..i] == cmds[..i];
        if !ok {
          TryEachStopsAtFailure(host.machine, s0, cmds, i + 1, maxAttempts);
          return;
        }
        i := i + 1;
      }
      assert cmds[..i] == cmds;
      ok := true;
    }

    /** `removePartitions`. */
    method RemovePartitions(existing: seq<ExistingPartition>, devicePath: string) returns (r: Outcome<RemovalError>)
      requires Valid()
      modifies host
      ensures (host.State(), r) == RemovePartitionsRun(Environment(), old(host.State()), existing, devicePath)
    {
      var paths := GetPartitionPaths(devicePath);
      if paths.Err? {
        return Fail(paths.error);
      }
      var wiped := TryAll(WipeCommands(paths.value));
      if !wiped {
        return Fail(Erasing(devicePath));
      }
      var removed := TryAll(RemoveCommands(devicePath, existing));
      if !removed {
        return Fail(Removing(devicePath));
      }
      return Pass;
    }

    /** `Partition`. */
    method Partition(devicePath: string, desired: seq<Partition>) returns (r: Outcome<PartitionError>)
      requires Valid()
      modifies host, driver
      ensures (DiskState(host.State(), driver.namePrefix), r)
           == PartitionRun(Environment(), DiskState(old(host.State()), old(driver.namePrefix)), devicePath, desired)
    {
      var id := GetAgentId();
      if id.Err? {
        return Fail(GettingAgentId(id.error));
      }
      ghost var s0 := host.State();
      driver.SetPartitionNamePrefix(id.value);
      var table := driver.GetPartitions(devicePath);
      assert host.State() == Prepared(s0, id.value, devicePath);
      assert table == TableAfterPrefix(Environment(), s0, id.value, devicePath);
      if table.None? {
        return Fail(GettingExistingPartitions(devicePath));
      }
      var existing := table.value.0;
      if driver.PartitionsMatch(existing, desired, table.value.1) && NamesMatch(existing, id.value) {
        return Pass;
      }
      var removed := RemovePartitions(existing, devicePath);
      if removed.Fail? {
        return Fail(RemovingExisting(devicePath, removed.error));
      }
      var created := driver.Partition(devicePath, desired);
      r := if created then Pass else Fail(DriverFailed(devicePath));
    }

    /** `GetDeviceSizeInBytes`: the driver's answer. */
    method GetDeviceSizeInBytes(devicePath: string) returns (r: Option<Uint64>)
      requires Valid()
      ensures r == driver.parted.deviceSize(host.trace, devicePath)
    {
      r := driver.GetDeviceSizeInBytes(devicePath);
    }
  }
}
