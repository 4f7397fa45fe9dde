/**
 * The attempt-bounded retry strategy the partitioner wraps around each
 * `wipefs` and `parted rm` command, and the loop that retries a list of
 * commands in order, aborting at the first one that exhausts its attempts.
 * Delays between attempts are not modelled.
 */
module RetryStrategy {
  import opened Host

  /** What a retryable reports after one attempt. */
  datatype Attempt = Attempt(retry: bool, failed: bool)

  /** The retryables of the partitioner run one command: a failure asks for
      another attempt and carries the error, a success stops with no error. */
  function CommandAttempt(r: CmdResult): (a: Attempt)
    ensures r.failed ==> a.retry && a.failed
    ensures !r.failed ==> !a.retry && !a.failed
  {
    Attempt(r.failed, r.failed)
  }

  function Repeat(e: Event, k: nat): (r: seq<Event>)
    ensures |r| == k && forall i :: 0 <= i < k ==> r[i] == e
  {
    seq(k, _ => e)
  }

  /**
   * `Try`: attempts of `c`, at most `attempts` of them, stopping at the
   * first one that succeeds or does not ask for a retry. The flag is true
   * when the last attempt succeeded.
   */
  function TryRun(m: Machine, s: HostState, c: Command, attempts: nat): (HostState, bool)
    requires attempts >= 1
    decreases attempts
  {
    var (s1, r) := RunStep(m, s, c);
    var a := CommandAttempt(r);
    if !a.failed || !a.retry || attempts == 1 then (s1, !a.failed)
    else TryRun(m, s1, c, attempts - 1)
  }

  /**
   * The shape of a `Try`: `k` runs of `c` and nothing else; every run but
   * the last one failed; the flag is the last run's success; and a failure
   * used every attempt.
   */
  lemma {:induction false} TryRunShape(m: Machine, s: HostState, c: Command, attempts: nat) returns (k: nat)
    requires attempts >= 1
    ensures 1 <= k <= attempts
    ensures TryRun(m, s, c, attempts).0 == s.(trace := s.trace + Repeat(Ran(c), k))
    ensures forall j :: 0 <= j < k - 1 ==> m.respond(s.trace + Repeat(Ran(c), j), c).failed
    ensures TryRun(m, s, c, attempts).1 <==> !m.respond(s.trace + Repeat(Ran(c), k - 1), c).failed
    ensures !TryRun(m, s, c, attempts).1 ==> k == attempts
    decreases attempts
  {
    var s1 := s.(trace := s.trace + [Ran(c)]);
    var r := m.respond(s.trace, c);
    assert RunStep(m, s, c) == (s1, r);
    assert s.trace + Repeat(Ran(c), 0) == s.trace;
    if !r.failed || attempts == 1 {
      assert s1.trace == s.trace + Repeat(Ran(c), 1);
      k := 1;
    } else {
      var k' := TryRunShape(m, s1, c, attempts - 1);
      forall j | 0 <= j <= k' ensures s1.trace + Repeat(Ran(c), j) == s.trace + Repeat(Ran(c), j + 1) {
        assert Repeat(Ran(c), j + 1) == [Ran(c)] + Repeat(Ran(c), j);
      }
      forall j | 0 <= j < k' ensures m.respond(s.trace + Repeat(Ran(c), j), c).failed {
        if j > 0 {
          assert s.trace + Repeat(Ran(c), j) == s1.trace + Repeat(Ran(c), j - 1);
        }
      }
      k := k' + 1;
    }
  }

  /** A command that fails every time uses exactly the configured number of attempts. */
  lemma AlwaysFailingExhausts(m: Machine, s: HostState, c: Command, attempts: nat)
    requires attempts >= 1
    requires forall h :: m.respond(h, c).failed
    ensures TryRun(m, s, c, attempts) == (s.(trace := s.trace + Repeat(Ran(c), attempts)), false)
  {
    var k := TryRunShape(m, s, c, attempts);
  }

  /** The retry loop over the Go retry strategy. */
  method Try(host: Host, c: Command, maxAttempts: nat) returns (ok: bool)
    requires maxAttempts >= 1
    modifies host
    ensures (host.State(), ok) == TryRun(host.machine, old(host.State()), c, maxAttempts)
  {
    ghost var goal := TryRun(host.machine, host.State(), c, maxAttempts);
    var i := 0;
    while true
      invariant 0 <= i < maxAttempts
      invariant goal == TryRun(host.machine, host.State(), c, maxAttempts - i)
      decreases maxAttempts - i
    {
      var r := host.RunCommand(c);
      var a := CommandAttempt(r);
      if !a.failed || !a.retry || i == maxAttempts - 1 {
        return !a.failed;
      }
      i := i + 1;
    }
  }

  // ---------------------------------------------------------------------
  // A list of retried commands, in order
  // ---------------------------------------------------------------------

  /** Retry each command in turn; the first one whose retries end in an
      error stops the loop. */
  function TryEach(m: Machine, s: HostState, cmds: seq<Command>, attempts: nat): (HostState, bool)
    requires attempts >= 1
    decreases |cmds|
  {
    if cmds == [] then (s, true)
    else
      var r := TryEach(m, s, cmds[..|cmds| - 1], attempts);
      if !r.1 then r else TryRun(m, r.0, cmds[|cmds| - 1], attempts)
  }

  /** Once a command has failed, no later command runs. */
  lemma {:induction false} TryEachStopsAtFailure(m: Machine, s: HostState, cmds: seq<Command>, i: nat, attempts: nat)
    requires attempts >= 1 && i <= |cmds|
    requires !TryEach(m, s, cmds[..i], attempts).1
    ensures TryEach(m, s, cmds, attempts) == TryEach(m, s, cmds[..i], attempts)
    decreases |cmds| - i
  {
    if i < |cmds| {
      assert cmds[..|cmds| - 1][..i] == cmds[..i];
      TryEachStopsAtFailure(m, s, cmds[..|cmds| - 1], i, attempts);
      if i == |cmds| - 1 {
        assert cmds[..|cmds| - 1] == cmds[..i];
      }
    } else {
      assert cmds[..i] == cmds;
    }
  }

  /**
   * One block of runs of `cmds[0]` (`counts[0]` of them), then one of
   * `cmds[1]`, and so on through the last command.
   */
  function Expand(cmds: seq<Command>, counts: seq<nat>): (r: seq<Event>)
    requires |counts| == |cmds|
  {
    if cmds == [] then []
    else Expand(cmds[..|cmds| - 1], counts[..|counts| - 1]) + Repeat(Ran(cmds[|cmds| - 1]), counts[|counts| - 1])
  }

  predicate Positive(counts: seq<nat>) { forall i :: 0 <= i < |counts| ==> counts[i] >= 1 }

  /** When every block is non-empty, every command runs. */
  lemma {:induction false} ExpandRunsEach(cmds: seq<Command>, counts: seq<nat>)
    requires |counts| == |cmds| && Positive(counts)
    ensures forall j :: 0 <= j < |cmds| ==> Ran(cmds[j]) in Expand(cmds, counts)
  {
    if cmds != [] {
      var front := cmds[..|cmds| - 1];
      ExpandRunsEach(front, counts[..|counts| - 1]);
      var e := Expand(cmds, counts);
      assert e[|e| - 1] == Ran(cmds[|cmds| - 1]);
      forall j | 0 <= j < |cmds| - 1 ensures Ran(cmds[j]) in e {
        assert cmds[j] == front[j];
      }
    }
  }

  /** Every command in `cmds` has the given name. */
  predicate AllNamed(cmds: seq<Command>, name: string)
  {
    forall i :: 0 <= i < |cmds| ==> cmds[i].name == name
  }

  /** The blocks of commands of one name run only commands of that name. */
  lemma {:induction false} ExpandNamed(cmds: seq<Command>, counts: seq<nat>, name: string)
    requires |counts| == |cmds| && AllNamed(cmds, name)
    ensures forall i :: 0 <= i < |Expand(cmds, counts)| ==>
      Expand(cmds, counts)[i].Ran? && Expand(cmds, counts)[i].cmd.name == name
  {
    if cmds != [] {
      var front := cmds[..|cmds| - 1];
      ExpandNamed(front, counts[..|counts| - 1], name);
      var f := Expand(front, counts[..|counts| - 1]);
      var e := Expand(cmds, counts);
      forall i | 0 <= i < |e| ensures e[i].Ran? && e[i].cmd.name == name {
        if i < |f| { assert e[i] == f[i]; } else { assert e[i] == Ran(cmds[|cmds| - 1]); }
      }
    }
  }

  /**
   * The log of retrying `cmds` in turn: when every command succeeded
   * (`|counts| == |cmds|`), one block per command; otherwise blocks for
   * the first `|counts|` commands, then every attempt of the next one.
   */
  function EachLog(cmds: seq<Command>, counts: seq<nat>, attempts: nat): (r: seq<Event>)
    requires |counts| <= |cmds|
  {
    if |counts| == |cmds| then Expand(cmds, counts)
    else Expand(cmds[..|counts|], counts) + Repeat(Ran(cmds[|counts|]), attempts)
  }

  /**
   * The shape of the loop: `counts` holds the number of runs of each
   * command that succeeded, each at least one; the loop succeeded exactly
   * when every command did; only the log changes, by `EachLog`.
   */
  lemma {:induction false} TryEachShape(m: Machine, s: HostState, cmds: seq<Command>, attempts: nat) returns (counts: seq<nat>)
    requires attempts >= 1
    ensures |counts| <= |cmds| && Positive(counts)
    ensures TryEach(m, s, cmds, attempts).1 <==> |counts| == |cmds|
    ensures TryEach(m, s, cmds, attempts).0 == s.(trace := s.trace + EachLog(cmds, counts, attempts))
    decreases |cmds|
  {
    if cmds == [] {
      counts := [];
      assert s.trace + [] == s.trace;
    } else {
      var front := cmds[..|cmds| - 1];
      var c := cmds[|cmds| - 1];
      var r1 := TryEach(m, s, front, attempts);
      var counts1 := TryEachShape(m, s, front, attempts);
      if !r1.1 {
        counts := counts1;
        assert cmds[..|counts|] == front[..|counts|] && cmds[|counts|] == front[|counts|];
      } else {
        var k := TryRunShape(m, r1.0, c, attempts);
        if TryRun(m, r1.0, c, attempts).1 {
          counts := counts1 + [k];
          assert cmds[..|cmds| - 1] == front && counts[..|counts| - 1] == counts1;
          assert Expand(cmds, counts) == Expand(front, counts1) + Repeat(Ran(c), k);
        } else {
          counts := counts1;
          assert cmds[..|counts|] == front;
        }
      }
    }
  }

  /** Retrying commands of one name runs only commands of that name. */
  lemma EachLogNamed(cmds: seq<Command>, counts: seq<nat>, attempts: nat, name: string)
    requires |counts| <= |cmds| && AllNamed(cmds, name)
    ensures forall i :: 0 <= i < |EachLog(cmds, counts, attempts)| ==>
      EachLog(cmds, counts, attempts)[i].Ran? && EachLog(cmds, counts, attempts)[i].cmd.name == name
  {
    if |counts| == |cmds| {
      ExpandNamed(cmds, counts, name);
    } else {
      var front := cmds[..|counts|];
      ExpandNamed(front, counts, name);
      var f := Expand(front, counts);
      var r := EachLog(cmds, counts, attempts);
      forall i | 0 <= i < |r| ensures r[i].Ran? && r[i].cmd.name == name {
        if i < |f| { assert r[i] == f[i]; } else { assert r[i] == Ran(cmds[|counts|]); }
      }
    }
  }
}
