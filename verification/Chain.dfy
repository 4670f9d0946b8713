/** Command chains (nob.h): `nob_chain_begin`, any number of `nob_chain_cmd`, `nob_chain_end`. The
    operating system is a log of what it was asked to do and an oracle that says what fails. */
module Chain {
  import opened Options

  type Fd = nat

  const STDOUT: Fd := 1
  const FIRST_FD: Fd := 3   // descriptors below belong to the process

  /** The files a chain may be told to use. */
  datatype File = Input | Output | Errors

  datatype Event = Opened(fd: Fd, file: File)
                 | Piped(read: Fd, write: Fd)
                 | Spawned(cmd: seq<string>, stdin: Option<Fd>, stdout: Fd, stderr: Option<Fd>)
                 | Waited            // for the last process started, which succeeded
                 | Closed(fd: Fd)

  /** `next` is the number the next new descriptor gets; the `calls`th fallible call succeeds when
      the oracle says so. */
  datatype World = World(oracle: nat -> bool, calls: nat, next: Fd, log: seq<Event>)

  /** `Nob_Chain`; an invalid `fdin` is None, and no pending command is an empty one. */
  datatype State = State(cmd: seq<string>, err2out: bool, fdin: Option<Fd>)

  datatype EndOpt = EndOpt(async: bool, stdoutFile: bool, stderrFile: bool)

  // ----- system calls -----

  function Try(w: World): (World, bool) { (w.(calls := w.calls + 1), w.oracle(w.calls)) }

  /** Waiting for a process and for its success. */
  function Wait(w: World): (World, bool) {
    if w.oracle(w.calls) then (w.(calls := w.calls + 1, log := w.log + [Waited]), true)
    else (w.(calls := w.calls + 1), false)
  }

  function Open(w: World, file: File): (World, Option<Fd>) {
    if w.oracle(w.calls) then (World(w.oracle, w.calls + 1, w.next + 1, w.log + [Opened(w.next, file)]), Some(w.next))
    else (w.(calls := w.calls + 1), None)
  }

  /** A pipe's read and write ends. */
  function Pipe(w: World): (World, Option<(Fd, Fd)>) {
    if w.oracle(w.calls)
    then (World(w.oracle, w.calls + 1, w.next + 2, w.log + [Piped(w.next, w.next + 1)]), Some((w.next, w.next + 1)))
    else (w.(calls := w.calls + 1), None)
  }

  function Spawn(w: World, cmd: seq<string>, stdin: Option<Fd>, stdout: Fd, stderr: Option<Fd>): (World, bool) {
    if w.oracle(w.calls)
    then (w.(calls := w.calls + 1, log := w.log + [Spawned(cmd, stdin, stdout, stderr)]), true)
    else (w.(calls := w.calls + 1), false)
  }

  function Close(w: World, fd: Fd): World { w.(log := w.log + [Closed(fd)]) }

  /** The loop behind `defer:`. */
  function CloseAll(w: World, fds: seq<Fd>): World
    decreases |fds|
  {
    if fds == [] then w else CloseAll(Close(w, fds[0]), fds[1..])
  }

  function Held(fd: Option<Fd>): seq<Fd> {
    match fd
    case Some(x) => [x]
    case None => []
  }

  // ----- the three operations -----

  /** `nob_chain_begin_opt`. */
  function Begin(w: World, stdinFile: bool): (World, State, bool) {
    if !stdinFile then (w, State([], false, None), true)
    else
      var (w1, fd) := Open(w, Input);
      (w1, State([], false, fd), fd.Some?)
  }

  /** `nob_chain_cmd_opt`: starts the previous command and keeps this one. */
  function Cmd(w: World, c: State, cmd: seq<string>, err2out: bool): (World, State, bool) {
    if c.cmd == [] then (w, c.(cmd := cmd, err2out := err2out), true)
    else
      var (w1, pipe) := Pipe(w);
      match pipe
      case None => (CloseAll(w1, Held(c.fdin)), c, false)
      case Some((read, write)) =>
        var (w2, ok) := Spawn(w1, c.cmd, c.fdin, write, if c.err2out then Some(write) else None);
        if ok then (CloseAll(w2, Held(c.fdin) + [write]), State(cmd, err2out, Some(read)), true)
        else (CloseAll(w2, Held(c.fdin) + [write, read]), c.(cmd := []), false)
  }

  /** The standard output and error of the last command: the descriptors opened for them, where they
      point, and whether all went well. */
  function Outputs(w: World, err2out: bool, opt: EndOpt): (World, seq<Fd>, Fd, Option<Fd>, bool) {
    var (w1, out) := if opt.stdoutFile then Open(w, Output) else (w, Some(STDOUT));
    if out.None? then (w1, [], STDOUT, None, false)
    else
      var mine := if opt.stdoutFile then [out.value] else [];
      var err := if err2out then Some(out.value) else None;
      if !opt.stderrFile then (w1, mine, out.value, err, true)
      else if err2out then
        var (w2, ok) := Try(w1);   // the error file is made empty
        (w2, mine, out.value, err, ok)
      else
        var (w2, fd) := Open(w1, Errors);
        (w2, mine + Held(fd), out.value, fd, fd.Some?)
  }

  /** `nob_chain_end_opt`: starts the last command, and waits for it unless it is asynchronous. */
  function End(w: World, c: State, opt: EndOpt): (World, State, bool) {
    if c.cmd == [] then (CloseAll(w, Held(c.fdin)), c, true)
    else
      var (w1, room) := if opt.async then Try(w) else (w, true);
      if !room then (CloseAll(w1, Held(c.fdin)), c, false)
      else
        var (w2, mine, out, err, ok) := Outputs(w1, c.err2out, opt);
        if !ok then (CloseAll(w2, Held(c.fdin) + mine), c, false)
        else
          var (w3, started) := Spawn(w2, c.cmd, c.fdin, out, err);
          var (w4, done) := if opt.async || !started then (w3, started) else Wait(w3);
          (CloseAll(w4, Held(c.fdin) + mine), c.(cmd := []), done)
  }

  /** The commands of a run, up to the first that fails. */
  function Cmds(w: World, c: State, cmds: seq<(seq<string>, bool)>): (World, State, bool)
    decreases |cmds|
  {
    if cmds == [] then (w, c, true)
    else
      var (w1, c1, ok) := Cmd(w, c, cmds[0].0, cmds[0].1);
      if ok then Cmds(w1, c1, cmds[1..]) else (w1, c1, false)
  }

  /** A whole run, as documented: it ends at the first operation that returns false. */
  function Run(w: World, stdinFile: bool, cmds: seq<(seq<string>, bool)>, opt: EndOpt): (World, bool) {
    var (w1, c1, ok1) := Begin(w, stdinFile);
    if !ok1 then (w1, false)
    else
      var (w2, c2, ok2) := Cmds(w1, c1, cmds);
      if !ok2 then (w2, false)
      else
        var (w3, c3, ok3) := End(w2, c2, opt);
        (w3, ok3)
  }

  // ----- descriptor ownership -----

  /** Whether a process may be given this descriptor. */
  predicate Usable(live: set<Fd>, fd: Option<Fd>) {
    fd.Some? ==> fd.value in live || fd.value == STDOUT
  }

  /** One event, with the descriptors open before it; None when it opens a number twice, uses a
      closed descriptor, or closes one that is not open. */
  function After(live: set<Fd>, e: Event): Option<set<Fd>> {
    match e
    case Opened(fd, _) => if fd in live || fd < FIRST_FD then None else Some(live + {fd})
    case Piped(r, w) =>
      if r in live || w in live || r == w || r < FIRST_FD || w < FIRST_FD then None else Some(live + {r, w})
    case Spawned(_, i, o, e) => if Usable(live, i) && Usable(live, Some(o)) && Usable(live, e) then Some(live) else None
    case Waited => Some(live)
    case Closed(fd) => if fd in live then Some(live - {fd}) else None
  }

  /** The descriptors open after a log, if the log is legal. */
  function Live(log: seq<Event>): Option<set<Fd>> {
    if log == [] then Some({})
    else
      var before := Live(log[..|log| - 1]);
      if before.None? then None else After(before.value, log[|log| - 1])
  }

  predicate Opens(e: Event, fd: Fd) {
    (e.Opened? && e.fd == fd) || (e.Piped? && (e.read == fd || e.write == fd))
  }

  /** How often a descriptor was opened, and closed. */
  function Openings(log: seq<Event>, fd: Fd): nat {
    if log == [] then 0 else Openings(log[..|log| - 1], fd) + if Opens(log[|log| - 1], fd) then 1 else 0
  }

  function Closings(log: seq<Event>, fd: Fd): nat {
    if log == [] then 0 else Closings(log[..|log| - 1], fd) + if log[|log| - 1] == Closed(fd) then 1 else 0
  }

  /** The log is legal and leaves these descriptors open; every number was opened once, and new ones
      are above all of them. */
  ghost predicate OwnsLog(log: seq<Event>, next: Fd, live: set<Fd>) {
    && Live(log) == Some(live) && FIRST_FD <= next && (forall fd :: fd in live ==> fd < next)
    && (forall fd: Fd :: Openings(log, fd) > 0 ==> fd < next && Openings(log, fd) == 1)
  }

  ghost predicate Owns(w: World, live: set<Fd>) { OwnsLog(w.log, w.next, live) }

  /** One more event keeps ownership straight, if it is legal and opens only new numbers. */
  lemma LogOwns(log: seq<Event>, next: Fd, live: set<Fd>, e: Event, next1: Fd)
    requires OwnsLog(log, next, live) && After(live, e).Some? && next <= next1
    requires forall fd: Fd :: Opens(e, fd) ==> next <= fd < next1
    ensures OwnsLog(log + [e], next1, After(live, e).value)
  {
    assert (log + [e])[..|log + [e]| - 1] == log;
    forall fd: Fd | Openings(log + [e], fd) > 0 ensures fd < next1 && Openings(log + [e], fd) == 1 {
      assert Openings(log + [e], fd) == Openings(log, fd) + if Opens(e, fd) then 1 else 0;
    }
    forall fd | fd in After(live, e).value ensures fd < next1 {
      if fd !in live { assert Opens(e, fd); }
    }
  }

  lemma Fresh(w: World, live: set<Fd>)
    requires Owns(w, live)
    ensures FIRST_FD <= w.next && w.next !in live && w.next + 1 !in live
  {
  }

  lemma OpenOwns(w: World, live: set<Fd>, file: File)
    requires Owns(w, live)
    ensures var (w1, fd) := Open(w, file);
      && Owns(w1, if fd.Some? then live + {fd.value} else live)
      && (fd.Some? ==> fd.value !in live && fd.value != STDOUT)
  {
    hide OwnsLog;
    Fresh(w, live);
    if Open(w, file).1.Some? { LogOwns(w.log, w.next, live, Opened(w.next, file), w.next + 1); }
  }

  lemma PipeOwns(w: World, live: set<Fd>)
    requires Owns(w, live)
    ensures var (w1, p) := Pipe(w);
      && Owns(w1, if p.Some? then live + {p.value.0, p.value.1} else live)
      && (p.Some? ==> p.value.0 !in live && p.value.1 !in live && p.value.0 != p.value.1)
  {
    hide OwnsLog;
    Fresh(w, live);
    if Pipe(w).1.Some? { LogOwns(w.log, w.next, live, Piped(w.next, w.next + 1), w.next + 2); }
  }

  lemma SpawnOwns(w: World, live: set<Fd>, cmd: seq<string>, i: Option<Fd>, o: Fd, e: Option<Fd>)
    requires Owns(w, live) && Usable(live, i) && Usable(live, Some(o)) && Usable(live, e)
    ensures Owns(Spawn(w, cmd, i, o, e).0, live)
  {
    hide OwnsLog;
    if Spawn(w, cmd, i, o, e).1 { LogOwns(w.log, w.next, live, Spawned(cmd, i, o, e), w.next); }
  }

  function SetOf(fds: seq<Fd>): set<Fd> { set x | x in fds }

  predicate Distinct(fds: seq<Fd>) {
    forall i, j :: 0 <= i < j < |fds| ==> fds[i] != fds[j]
  }

  lemma {:induction false} CloseAllOwns(w: World, live: set<Fd>, fds: seq<Fd>)
    requires Owns(w, live) && (forall x :: x in fds ==> x in live) && Distinct(fds)
    ensures Owns(CloseAll(w, fds), live - SetOf(fds))
    decreases |fds|
  {
    hide OwnsLog;
    if fds == [] {
      assert live - SetOf(fds) == live;
    } else {
      var rest := fds[1..];
      LogOwns(w.log, w.next, live, Closed(fds[0]), w.next);
      assert fds == [fds[0]] + rest;
      CloseAllOwns(Close(w, fds[0]), live - {fds[0]}, rest);
      assert live - SetOf(fds) == (live - {fds[0]}) - SetOf(rest);
    }
  }

  lemma DistinctJoin(a: seq<Fd>, b: seq<Fd>)
    requires Distinct(a) && Distinct(b) && forall x :: x in b ==> x !in a
    ensures Distinct(a + b)
  {
    forall i, j | 0 <= i < j < |a + b| ensures (a + b)[i] != (a + b)[j] {
      assert (a + b)[i] == if i < |a| then a[i] else b[i - |a|];
      assert (a + b)[j] == if j < |a| then a[j] else b[j - |a|];
      if i < |a| <= j { assert a[i] in a && b[j - |a|] in b; }
    }
  }

  /** What the chain owns between operations: the input of its next command, if any. */
  function Mine(c: State): set<Fd> {
    SetOf(Held(c.fdin))
  }

  /** After an operation: the chain's own descriptor if it succeeded, nothing if it failed. */
  lemma CmdOwns(w: World, c: State, cmd: seq<string>, err2out: bool)
    requires Owns(w, Mine(c))
    ensures var (w1, c1, ok) := Cmd(w, c, cmd, err2out); Owns(w1, if ok then Mine(c1) else {})
  {
    hide OwnsLog, CloseAll, Pipe, Spawn;
    if c.cmd != [] {
      PipeOwns(w, Mine(c));
      var (w1, pipe) := Pipe(w);
      if pipe.None? {
        CloseAllOwns(w1, Mine(c), Held(c.fdin));
        assert Mine(c) - SetOf(Held(c.fdin)) == {};
      } else {
        var (read, write) := pipe.value;
        CmdStarted(w1, c, read, write);
        assert Mine(State(cmd, err2out, Some(read))) == {read};
      }
    }
  }

  /** The part of a command step after its pipe was made. */
  lemma CmdStarted(w: World, c: State, read: Fd, write: Fd)
    requires read !in Mine(c) && write !in Mine(c) && read != write && Owns(w, Mine(c) + {read, write})
    ensures var (w1, ok) := Spawn(w, c.cmd, c.fdin, write, if c.err2out then Some(write) else None);
      if ok then Owns(CloseAll(w1, Held(c.fdin) + [write]), {read}) else Owns(CloseAll(w1, Held(c.fdin) + [write, read]), {})
  {
    hide OwnsLog, CloseAll, Spawn;
    var live := Mine(c) + {read, write};
    var err := if c.err2out then Some(write) else None;
    SpawnOwns(w, live, c.cmd, c.fdin, write, err);
    var (w1, ok) := Spawn(w, c.cmd, c.fdin, write, err);
    var fds := if ok then Held(c.fdin) + [write] else Held(c.fdin) + [write, read];
    CloseAllOwns(w1, live, fds);
    assert live - SetOf(fds) == if ok then {read} else {};
  }

  lemma OutputsOwns(w: World, live: set<Fd>, err2out: bool, opt: EndOpt)
    requires Owns(w, live)
    ensures var (w1, mine, out, err, ok) := Outputs(w, err2out, opt);
      && Owns(w1, live + SetOf(mine)) && Distinct(mine) && (forall x :: x in mine ==> x !in live)
      && (ok ==> Usable(SetOf(mine), Some(out)) && Usable(SetOf(mine), err))
  {
    hide OwnsLog;
    if opt.stdoutFile { OpenOwns(w, live, Output); }
    var (w1, out) := if opt.stdoutFile then Open(w, Output) else (w, Some(STDOUT));
    if out.Some? {
      var live1 := if opt.stdoutFile then live + {out.value} else live;
      if opt.stderrFile && !err2out { OpenOwns(w1, live1, Errors); }
      var mine := Outputs(w, err2out, opt).1;
      assert live + SetOf(mine) ==
        if opt.stderrFile && !err2out && Open(w1, Errors).1.Some? then live1 + {Open(w1, Errors).1.value} else live1;
    } else {
      assert live + SetOf([]) == live;
    }
  }

  lemma WaitOwns(w: World, live: set<Fd>)
    requires Owns(w, live)
    ensures Owns(Wait(w).0, live)
  {
    hide OwnsLog;
    LogOwns(w.log, w.next, live, Waited, w.next);
  }

  lemma EndOwns(w: World, c: State, opt: EndOpt)
    requires Owns(w, Mine(c))
    ensures Owns(End(w, c, opt).0, {})
  {
    hide OwnsLog, CloseAll, Outputs;
    var live := Mine(c);
    if c.cmd == [] {
      CloseAllOwns(w, live, Held(c.fdin));
      assert live - SetOf(Held(c.fdin)) == {};
    } else {
      var (w1, room) := if opt.async then Try(w) else (w, true);
      if !room {
        CloseAllOwns(w1, live, Held(c.fdin));
        assert live - SetOf(Held(c.fdin)) == {};
      } else {
        OutputsOwns(w1, live, c.err2out, opt);
        var (w2, mine, out, err, ok) := Outputs(w1, c.err2out, opt);
        var all := live + SetOf(mine);
        if ok { SpawnOwns(w2, all, c.cmd, c.fdin, out, err); }
        var (w3, started) := if ok then Spawn(w2, c.cmd, c.fdin, out, err) else (w2, false);
        var w4 := if opt.async || !started then w3 else Wait(w3).0;
        WaitOwns(w3, all);
        var fds := Held(c.fdin) + mine;
        DistinctJoin(Held(c.fdin), mine);
        CloseAllOwns(w4, all, fds);
        assert all - SetOf(fds) == {};
      }
    }
  }

  lemma {:induction false} CmdsOwn(w: World, c: State, cmds: seq<(seq<string>, bool)>)
    requires Owns(w, Mine(c))
    ensures var (w1, c1, ok) := Cmds(w, c, cmds); Owns(w1, if ok then Mine(c1) else {})
    decreases |cmds|
  {
    hide Owns, Cmd;
    if cmds != [] {
      CmdOwns(w, c, cmds[0].0, cmds[0].1);
      var (w1, c1, ok) := Cmd(w, c, cmds[0].0, cmds[0].1);
      if ok { CmdsOwn(w1, c1, cmds[1..]); }
    }
  }

  /** Ownership: on every path, success or first failure, whatever fails, a run uses only open
      descriptors, closes only what it opened, and leaves nothing open. */
  lemma RunOwns(w: World, stdinFile: bool, cmds: seq<(seq<string>, bool)>, opt: EndOpt)
    requires Owns(w, {})
    ensures Owns(Run(w, stdinFile, cmds, opt).0, {})
  {
    hide Owns, Cmds, End, Open;
    if stdinFile { OpenOwns(w, {}, Input); }
    var (w1, c1, ok1) := Begin(w, stdinFile);
    assert Mine(c1) == if c1.fdin.Some? then {} + {c1.fdin.value} else {};
    if ok1 {
      CmdsOwn(w1, c1, cmds);
      var (w2, c2, ok2) := Cmds(w1, c1, cmds);
      if ok2 { EndOwns(w2, c2, opt); }
    }
  }

  /** In a legal log, each descriptor was closed as often as it was opened, but for those open. */
  lemma {:induction false} LiveBalance(log: seq<Event>, fd: Fd)
    requires Live(log).Some?
    ensures Openings(log, fd) == Closings(log, fd) + if fd in Live(log).value then 1 else 0
    decreases |log|
  {
    if log != [] { LiveBalance(log[..|log| - 1], fd); }
  }

  /** Over a whole run, successful or not, each descriptor opened is closed exactly once, and nothing
      else is closed. */
  lemma ClosedExactlyOnce(w: World, stdinFile: bool, cmds: seq<(seq<string>, bool)>, opt: EndOpt, fd: Fd)
    requires Owns(w, {})
    ensures var log := Run(w, stdinFile, cmds, opt).0.log;
      Closings(log, fd) == Openings(log, fd) <= 1
  {
    hide Run, Live;
    RunOwns(w, stdinFile, cmds, opt);
    LiveBalance(Run(w, stdinFile, cmds, opt).0.log, fd);
  }

  // ----- after a failure -----

  /** From `w` to `w1` the descriptor was not opened again, and closed at least `n` times more. */
  predicate Since(w: World, w1: World, fd: Fd, n: nat) {
    w.next <= w1.next && Openings(w1.log, fd) == Openings(w.log, fd) && Closings(w.log, fd) + n <= Closings(w1.log, fd)
  }

  lemma Counts(log: seq<Event>, e: Event, fd: Fd)
    ensures Openings(log + [e], fd) == Openings(log, fd) + if Opens(e, fd) then 1 else 0
    ensures Closings(log + [e], fd) == Closings(log, fd) + if e == Closed(fd) then 1 else 0
  {
    assert (log + [e])[..|log + [e]| - 1] == log;
  }

  lemma {:induction false} CloseAllSince(w: World, fds: seq<Fd>, fd: Fd)
    ensures Since(w, CloseAll(w, fds), fd, if fd in fds then 1 else 0)
    decreases |fds|
  {
    if fds != [] {
      Counts(w.log, Closed(fds[0]), fd);
      CloseAllSince(Close(w, fds[0]), fds[1..], fd);
      assert fds == [fds[0]] + fds[1..];
    }
  }

  lemma OutputsSince(w: World, err2out: bool, opt: EndOpt, fd: Fd)
    requires fd < w.next
    ensures Since(w, Outputs(w, err2out, opt).0, fd, 0)
  {
    hide Openings, Closings, Open;
    OpenSince(w, Output, fd);
    var w1 := if opt.stdoutFile then Open(w, Output).0 else w;
    OpenSince(w1, Errors, fd);
  }

  lemma OpenSince(w: World, file: File, fd: Fd)
    ensures fd < w.next ==> Since(w, Open(w, file).0, fd, 0)
  {
    hide Openings, Closings;
    Counts(w.log, Opened(w.next, file), fd);
  }

  lemma SpawnSince(w: World, cmd: seq<string>, i: Option<Fd>, o: Fd, e: Option<Fd>, fd: Fd)
    ensures Since(w, Spawn(w, cmd, i, o, e).0, fd, 0)
  {
    Counts(w.log, Spawned(cmd, i, o, e), fd);
  }

  /** Ending a chain closes its input on every path. */
  lemma EndSince(w: World, c: State, opt: EndOpt)
    requires c.fdin.Some? && c.fdin.value < w.next
    ensures Since(w, End(w, c, opt).0, c.fdin.value, 1)
  {
    hide CloseAll, Openings, Closings, Outputs, Spawn;
    var fd := c.fdin.value;
    var w1 := if opt.async then Try(w).0 else w;
    CloseAllSince(w, Held(c.fdin), fd);
    CloseAllSince(w1, Held(c.fdin), fd);
    OutputsSince(w1, c.err2out, opt, fd);
    var (w2, mine, out, err, ok) := Outputs(w1, c.err2out, opt);
    CloseAllSince(w2, Held(c.fdin) + mine, fd);
    SpawnSince(w2, c.cmd, c.fdin, out, err, fd);
    var (w3, started) := Spawn(w2, c.cmd, c.fdin, out, err);
    CloseAllSince(w3, Held(c.fdin) + mine, fd);
    CloseAllSince(Wait(w3).0, Held(c.fdin) + mine, fd);
    Counts(w3.log, Waited, fd);
  }

  lemma CmdSince(w: World, c: State, cmd: seq<string>, err2out: bool, fd: Fd)
    requires fd < w.next
    ensures Since(w, Cmd(w, c, cmd, err2out).0, fd, 0)
  {
    hide CloseAll, Openings, Closings, Spawn;
    Counts(w.log, Piped(w.next, w.next + 1), fd);
    var (w1, pipe) := Pipe(w);
    CloseAllSince(w1, Held(c.fdin), fd);
    if pipe.Some? {
      var (read, write) := pipe.value;
      var err := if c.err2out then Some(write) else None;
      SpawnSince(w1, c.cmd, c.fdin, write, err, fd);
      var w2 := Spawn(w1, c.cmd, c.fdin, write, err).0;
      CloseAllSince(w2, Held(c.fdin) + [write], fd);
      CloseAllSince(w2, Held(c.fdin) + [write, read], fd);
    }
  }

  /** A chain must not be ended after `nob_chain_cmd` has failed: its input is closed but not
      forgotten. Ending it all the same is legal exactly when it had no input. */
  lemma EndAfterFailure(w: World, c: State, cmd: seq<string>, err2out: bool, opt: EndOpt)
    requires Owns(w, Mine(c)) && !Cmd(w, c, cmd, err2out).2
    ensures var (w1, c1, _) := Cmd(w, c, cmd, err2out);
      Live(End(w1, c1, opt).0.log).Some? <==> c.fdin == None
  {
    hide End, Live, Openings, Closings;
    var (w1, c1, _) := Cmd(w, c, cmd, err2out);
    CmdOwns(w, c, cmd, err2out);
    assert c1.fdin == c.fdin;
    if c.fdin == None {
      assert Mine(c1) == {};
      EndOwns(w1, c1, opt);
    } else {
      var fd := c.fdin.value;
      assert fd in Mine(c) && Live(w.log) == Some(Mine(c));
      CmdSince(w, c, cmd, err2out, fd);
      LiveBalance(w.log, fd);
      LiveBalance(w1.log, fd);
      EndSince(w1, c1, opt);
      var log := End(w1, c1, opt).0.log;
      if Live(log).Some? { LiveBalance(log, fd); }
    }
  }

  /** The hazard is real: with an input file, when the pipe for the second command cannot be made,
      ending the chain uses and closes the input once more. */
  lemma InputClosedTwice()
    ensures var w := World(call => call != 1, 0, FIRST_FD, []);
      var (w1, c1, begun) := Begin(w, true);
      var (w2, c2, first) := Cmd(w1, c1, ["cat"], false);
      var (w3, c3, second) := Cmd(w2, c2, ["sort"], false);
      && begun && first && !second
      && Live(w3.log).Some? && Live(End(w3, c3, EndOpt(false, false, false)).0.log) == None
  {
    hide End, Live;
    var w := World(call => call != 1, 0, FIRST_FD, []);
    assert Owns(w, {}) by { EmptyOwns(w); }
    OpenOwns(w, {}, Input);
    var (w1, c1, begun) := Begin(w, true);
    assert {} + {FIRST_FD} == Mine(c1);
    var (w2, c2, first) := Cmd(w1, c1, ["cat"], false);
    EndAfterFailure(w2, c2, ["sort"], false, EndOpt(false, false, false));
    CmdOwns(w2, c2, ["sort"], false);
  }

  lemma EmptyOwns(w: World)
    requires w.log == [] && FIRST_FD <= w.next
    ensures Owns(w, {})
  {
  }

  // ----- what the answer says -----

  /** From `w` to `w1` every call was answered yes but possibly the last, and `ok` says whether that was
      too. */
  ghost predicate Verdict(w: World, w1: World, ok: bool) {
    && w1.oracle == w.oracle && w.calls <= w1.calls
    && (forall k :: w.calls <= k < w1.calls - 1 ==> w.oracle(k))
    && (ok <==> w.calls < w1.calls ==> w.oracle(w1.calls - 1))
  }

  lemma VerdictsJoin(w: World, w1: World, w2: World, ok: bool)
    requires Verdict(w, w1, true) && Verdict(w1, w2, ok)
    ensures Verdict(w, w2, ok)
  {
    forall k | w.calls <= k < w2.calls - 1 ensures w.oracle(k) {
      if k >= w1.calls { assert w1.oracle(k); }
    }
  }

  /** Closing asks nothing. */
  lemma {:induction false} CloseAllAsks(w: World, fds: seq<Fd>)
    ensures var w1 := CloseAll(w, fds); w1.oracle == w.oracle && w1.calls == w.calls
    decreases |fds|
  {
    if fds != [] { CloseAllAsks(Close(w, fds[0]), fds[1..]); }
  }

  lemma CmdVerdict(w: World, c: State, cmd: seq<string>, err2out: bool)
    ensures var (w1, _, ok) := Cmd(w, c, cmd, err2out);
      && Verdict(w, w1, ok)
      && (ok ==> w1.calls == w.calls + if c.cmd == [] then 0 else 2)
  {
    var (w1, pipe) := Pipe(w);
    CloseAllAsks(w1, Held(c.fdin));
    if pipe.Some? {
      var (read, write) := pipe.value;
      var w2 := Spawn(w1, c.cmd, c.fdin, write, if c.err2out then Some(write) else None).0;
      CloseAllAsks(w2, Held(c.fdin) + [write]);
      CloseAllAsks(w2, Held(c.fdin) + [write, read]);
    }
  }

  lemma OutputsVerdict(w: World, err2out: bool, opt: EndOpt)
    ensures var (w1, _, _, _, ok) := Outputs(w, err2out, opt);
      && Verdict(w, w1, ok)
      && (ok ==> w1.calls == w.calls + (if opt.stdoutFile then 1 else 0) + (if opt.stderrFile then 1 else 0))
  {
  }

  /** The calls of a successful end: room, the two files, the process, and the wait. */
  function EndCalls(opt: EndOpt): nat {
    (if opt.async then 1 else 0) + (if opt.stdoutFile then 1 else 0) + (if opt.stderrFile then 1 else 0) + 1
    + if opt.async then 0 else 1
  }

  lemma EndVerdict(w: World, c: State, opt: EndOpt)
    ensures var (w1, _, ok) := End(w, c, opt);
      && Verdict(w, w1, ok)
      && (ok ==> w1.calls == w.calls + if c.cmd == [] then 0 else EndCalls(opt))
  {
    hide CloseAll, Outputs;
    CloseAllAsks(w, Held(c.fdin));
    var w1 := if opt.async then Try(w).0 else w;
    CloseAllAsks(w1, Held(c.fdin));
    OutputsVerdict(w1, c.err2out, opt);
    var (w2, mine, out, err, ok) := Outputs(w1, c.err2out, opt);
    CloseAllAsks(w2, Held(c.fdin) + mine);
    var w3 := Spawn(w2, c.cmd, c.fdin, out, err).0;
    CloseAllAsks(w3, Held(c.fdin) + mine);
    CloseAllAsks(Wait(w3).0, Held(c.fdin) + mine);
  }

  /** The commands of a run; the calls of the successful ones are two for each but the first. */
  lemma {:induction false} CmdsVerdict(w: World, c: State, cmds: seq<(seq<string>, bool)>)
    requires forall i :: 0 <= i < |cmds| ==> cmds[i].0 != []
    ensures var (w1, c1, ok) := Cmds(w, c, cmds);
      && Verdict(w, w1, ok)
      && (ok ==> w1.calls == w.calls + (if c.cmd == [] && cmds != [] then 2 * |cmds| - 2 else 2 * |cmds|))
      && (ok ==> (c1.cmd == [] <==> cmds == [] && c.cmd == []))
    decreases |cmds|
  {
    hide Cmd, Verdict;
    if cmds == [] {
      VerdictHere(w);
    } else {
      CmdVerdict(w, c, cmds[0].0, cmds[0].1);
      CmdKeeps(w, c, cmds[0].0, cmds[0].1);
      var (w1, c1, ok) := Cmd(w, c, cmds[0].0, cmds[0].1);
      if ok {
        CmdsVerdict(w1, c1, cmds[1..]);
        var (w2, _, ok2) := Cmds(w1, c1, cmds[1..]);
        VerdictsJoin(w, w1, w2, ok2);
      }
    }
  }

  lemma VerdictHere(w: World)
    ensures Verdict(w, w, true)
  {
  }

  lemma CmdKeeps(w: World, c: State, cmd: seq<string>, err2out: bool)
    ensures var (_, c1, ok) := Cmd(w, c, cmd, err2out); ok ==> c1.cmd == cmd
  {
  }

  /** A run succeeds if and only if every call it makes is answered yes, and it makes none after the first
      that is not. A successful one has made all the calls its commands and options ask for. */
  lemma RunVerdict(w: World, stdinFile: bool, cmds: seq<(seq<string>, bool)>, opt: EndOpt)
    requires forall i :: 0 <= i < |cmds| ==> cmds[i].0 != []
    ensures var (w1, ok) := Run(w, stdinFile, cmds, opt);
      && Verdict(w, w1, ok)
      && (ok <==> forall k :: w.calls <= k < w1.calls ==> w.oracle(k))
      && (ok ==> w1.calls == w.calls + (if stdinFile then 1 else 0)
                             + if cmds == [] then 0 else 2 * |cmds| - 2 + EndCalls(opt))
  {
    hide Cmds, End;
    var (w1, c1, ok1) := Begin(w, stdinFile);
    assert Verdict(w, w1, ok1);
    if ok1 {
      CmdsVerdict(w1, c1, cmds);
      var (w2, c2, ok2) := Cmds(w1, c1, cmds);
      VerdictsJoin(w, w1, w2, ok2);
      if ok2 {
        EndVerdict(w2, c2, opt);
        var (w3, _, ok3) := End(w2, c2, opt);
        VerdictsJoin(w, w2, w3, ok3);
      }
    }
  }

  /** What a run did, but for closing descriptors. */
  function Acts(log: seq<Event>): seq<Event> {
    if log == [] then []
    else Acts(log[..|log| - 1]) + if log[|log| - 1].Closed? then [] else [log[|log| - 1]]
  }

  lemma {:induction false} CloseAllActs(w: World, fds: seq<Fd>)
    ensures Acts(CloseAll(w, fds).log) == Acts(w.log)
    decreases |fds|
  {
    if fds != [] {
      ActsSnoc(w.log, Closed(fds[0]));
      CloseAllActs(Close(w, fds[0]), fds[1..]);
    }
  }

  lemma ActsSnoc(log: seq<Event>, e: Event)
    ensures Acts(log + [e]) == Acts(log) + if e.Closed? then [] else [e]
  {
    assert (log + [e])[..|log + [e]| - 1] == log;
  }

  /** The last things done: the last process was started, and waited for if it was to be. */
  predicate EndedWith(acts: seq<Event>, cmd: seq<string>, async: bool) {
    if async then |acts| >= 1 && acts[|acts| - 1].Spawned? && acts[|acts| - 1].cmd == cmd
    else |acts| >= 2 && acts[|acts| - 1] == Waited && acts[|acts| - 2].Spawned? && acts[|acts| - 2].cmd == cmd
  }

  lemma EndWaits(w: World, c: State, opt: EndOpt)
    ensures var (w1, _, ok) := End(w, c, opt);
      ok && c.cmd != [] ==> EndedWith(Acts(w1.log), c.cmd, opt.async)
  {
    hide CloseAll, Outputs, Acts;
    if End(w, c, opt).2 && c.cmd != [] {
      var w1 := if opt.async then Try(w).0 else w;
      var (w2, mine, out, err, ok) := Outputs(w1, c.err2out, opt);
      var w3 := Spawn(w2, c.cmd, c.fdin, out, err).0;
      ActsSnoc(w2.log, Spawned(c.cmd, c.fdin, out, err));
      ActsSnoc(w3.log, Waited);
      CloseAllActs(if opt.async then w3 else Wait(w3).0, Held(c.fdin) + mine);
    }
  }

  /** A successful synchronous run has waited for its last process; an asynchronous one has started it. */
  lemma RunWaits(w: World, stdinFile: bool, cmds: seq<(seq<string>, bool)>, opt: EndOpt)
    requires cmds != [] && forall i :: 0 <= i < |cmds| ==> cmds[i].0 != []
    ensures var (w1, ok) := Run(w, stdinFile, cmds, opt);
      ok ==> EndedWith(Acts(w1.log), cmds[|cmds| - 1].0, opt.async)
  {
    hide Cmds, End, Acts, EndedWith;
    var (w1, c1, ok1) := Begin(w, stdinFile);
    if ok1 {
      LastPending(w1, c1, cmds);
      var (w2, c2, ok2) := Cmds(w1, c1, cmds);
      if ok2 { EndWaits(w2, c2, opt); }
    }
  }

  lemma {:induction false} LastPending(w: World, c: State, cmds: seq<(seq<string>, bool)>)
    requires cmds != []
    ensures var (_, c1, ok) := Cmds(w, c, cmds); ok ==> c1.cmd == cmds[|cmds| - 1].0
    decreases |cmds|
  {
    hide Cmd;
    CmdKeeps(w, c, cmds[0].0, cmds[0].1);
    var (w1, c1, ok) := Cmd(w, c, cmds[0].0, cmds[0].1);
    if ok && |cmds| > 1 { LastPending(w1, c1, cmds[1..]); }
  }

  // ----- pipeline wiring -----

  function Procs(log: seq<Event>): seq<Event> {
    if log == [] then []
    else Procs(log[..|log| - 1]) + if log[|log| - 1].Spawned? then [log[|log| - 1]] else []
  }

  function Pipes(log: seq<Event>): seq<Event> {
    if log == [] then []
    else Pipes(log[..|log| - 1]) + if log[|log| - 1].Piped? then [log[|log| - 1]] else []
  }

  /** Process i runs command i; its input is the read end of the pipe before it, or `first`; its
      output, unless it is the last command, is the write end of the pipe after it; and its errors
      follow its output when the command asked for that. */
  predicate ProcWired(p: Event, i: nat, pipes: seq<Event>, cmds: seq<(seq<string>, bool)>, first: Option<Fd>)
    requires i < |cmds| && forall k :: 0 <= k < |pipes| ==> pipes[k].Piped?
  {
    && p.Spawned? && p.cmd == cmds[i].0
    && (if i == 0 then p.stdin == first else i <= |pipes| && p.stdin == Some(pipes[i - 1].read))
    && (i < |cmds| - 1 ==> i < |pipes| && p.stdout == pipes[i].write
                           && p.stderr == if cmds[i].1 then Some(pipes[i].write) else None)
  }

  predicate Wired(procs: seq<Event>, pipes: seq<Event>, cmds: seq<(seq<string>, bool)>, first: Option<Fd>) {
    && |procs| <= |cmds| && (forall k :: 0 <= k < |pipes| ==> pipes[k].Piped?)
    && forall i :: 0 <= i < |procs| ==> ProcWired(procs[i], i, pipes, cmds, first)
  }

  /** The outputs of the last command: the files it was told to use, or the process's own. */
  predicate LastOutputs(log: seq<Event>, err2out: bool, opt: EndOpt, out: Fd, err: Option<Fd>) {
    && (if opt.stdoutFile then Opened(out, Output) in log else out == STDOUT)
    && (if err2out then err == Some(out)
        else if opt.stderrFile then err.Some? && Opened(err.value, Errors) in log
        else err == None)
  }

  /** All commands were started, and the last one has the outputs it was told to use. */
  predicate Complete(log: seq<Event>, cmds: seq<(seq<string>, bool)>, opt: EndOpt)
    requires cmds != []
  {
    && |Procs(log)| == |cmds| && |Pipes(log)| == |cmds| - 1
    && var last := Procs(log)[|cmds| - 1];
    && last.Spawned? && LastOutputs(log, cmds[|cmds| - 1].1, opt, last.stdout, last.stderr)
  }

  lemma SnocParts(log: seq<Event>, e: Event)
    ensures Procs(log + [e]) == Procs(log) + if e.Spawned? then [e] else []
    ensures Pipes(log + [e]) == Pipes(log) + if e.Piped? then [e] else []
  {
    assert (log + [e])[..|log + [e]| - 1] == log;
  }

  lemma {:induction false} CloseAllParts(w: World, fds: seq<Fd>)
    ensures Procs(CloseAll(w, fds).log) == Procs(w.log) && Pipes(CloseAll(w, fds).log) == Pipes(w.log)
    ensures w.log <= CloseAll(w, fds).log
    decreases |fds|
  {
    if fds != [] {
      SnocParts(w.log, Closed(fds[0]));
      CloseAllParts(Close(w, fds[0]), fds[1..]);
    }
  }

  lemma PipeParts(w: World)
    ensures var (w1, p) := Pipe(w);
      && Procs(w1.log) == Procs(w.log)
      && Pipes(w1.log) == if p.Some? then Pipes(w.log) + [Piped(p.value.0, p.value.1)] else Pipes(w.log)
  {
    SnocParts(w.log, Piped(w.next, w.next + 1));
    assert Pipes(w.log) + [] == Pipes(w.log) && Procs(w.log) + [] == Procs(w.log);
  }

  lemma OpenParts(w: World, file: File)
    ensures var (w1, fd) := Open(w, file);
      && Procs(w1.log) == Procs(w.log) && Pipes(w1.log) == Pipes(w.log)
      && w.log <= w1.log && (fd.Some? ==> Opened(fd.value, file) in w1.log)
  {
    SnocParts(w.log, Opened(w.next, file));
  }

  lemma SpawnParts(w: World, cmd: seq<string>, i: Option<Fd>, o: Fd, e: Option<Fd>)
    ensures var (w1, ok) := Spawn(w, cmd, i, o, e);
      && Pipes(w1.log) == Pipes(w.log) && w.log <= w1.log
      && Procs(w1.log) == if ok then Procs(w.log) + [Spawned(cmd, i, o, e)] else Procs(w.log)
  {
    SnocParts(w.log, Spawned(cmd, i, o, e));
    assert Pipes(w.log) + [] == Pipes(w.log) && Procs(w.log) + [] == Procs(w.log);
  }

  lemma WaitParts(w: World)
    ensures var w1 := Wait(w).0; Procs(w1.log) == Procs(w.log) && Pipes(w1.log) == Pipes(w.log) && w.log <= w1.log
  {
    SnocParts(w.log, Waited);
  }

  /** After `k` successful commands: all but the last have been started and wired, the last is pending,
      and its input is waiting. */
  predicate Pending(w: World, c: State, cmds: seq<(seq<string>, bool)>, k: nat, first: Option<Fd>) {
    && k <= |cmds|
    && Wired(Procs(w.log), Pipes(w.log), cmds, first)
    && (k == 0 ==> c.cmd == [] && c.fdin == first && Procs(w.log) == [] && Pipes(w.log) == [])
    && (k > 0 ==>
      && |Procs(w.log)| == |Pipes(w.log)| == k - 1 && c.cmd == cmds[k - 1].0 && c.err2out == cmds[k - 1].1
      && c.fdin == if k == 1 then first else Some(Pipes(w.log)[k - 2].read))
  }

  lemma WirePipe(procs: seq<Event>, pipes: seq<Event>, cmds: seq<(seq<string>, bool)>, first: Option<Fd>, p: Event)
    requires Wired(procs, pipes, cmds, first) && p.Piped?
    ensures Wired(procs, pipes + [p], cmds, first)
  {
    var more := pipes + [p];
    assert forall k :: 0 <= k < |pipes| ==> more[k] == pipes[k];
    forall i | 0 <= i < |procs| ensures ProcWired(procs[i], i, more, cmds, first) {
      assert ProcWired(procs[i], i, pipes, cmds, first);
    }
  }

  lemma WireProc(procs: seq<Event>, pipes: seq<Event>, cmds: seq<(seq<string>, bool)>, first: Option<Fd>, e: Event)
    requires Wired(procs, pipes, cmds, first) && e.Spawned?
    requires var k := |procs|;
      && k < |cmds| && k <= |pipes| && e.cmd == cmds[k].0 && e.stdin == (if k == 0 then first else Some(pipes[k - 1].read))
      && (k < |cmds| - 1 ==> k < |pipes| && e.stdout == pipes[k].write)
      && (k < |cmds| - 1 ==> e.stderr == if cmds[k].1 then Some(pipes[k].write) else None)
    ensures Wired(procs + [e], pipes, cmds, first)
  {
    var more := procs + [e];
    forall i | 0 <= i < |more| ensures ProcWired(more[i], i, pipes, cmds, first) {
      if i < |procs| { assert more[i] == procs[i]; }
    }
  }

  lemma CmdWires(w: World, c: State, cmds: seq<(seq<string>, bool)>, k: nat, first: Option<Fd>)
    requires Pending(w, c, cmds, k, first) && k < |cmds| && (forall i :: 0 <= i < |cmds| ==> cmds[i].0 != [])
    ensures var (w1, c1, ok) := Cmd(w, c, cmds[k].0, cmds[k].1);
      if ok then Pending(w1, c1, cmds, k + 1, first) else Wired(Procs(w1.log), Pipes(w1.log), cmds, first)
  {
    hide CloseAll, Procs, Pipes, Pipe, Spawn, Wired;
    if k > 0 {
      PipeParts(w);
      var (w1, pipe) := Pipe(w);
      if pipe.None? {
        CloseAllParts(w1, Held(c.fdin));
      } else {
        var (read, write) := pipe.value;
        var err := if c.err2out then Some(write) else None;
        SpawnParts(w1, c.cmd, c.fdin, write, err);
        var (w2, ok) := Spawn(w1, c.cmd, c.fdin, write, err);
        WirePipe(Procs(w.log), Pipes(w.log), cmds, first, Piped(read, write));
        PendingPipes(w, c, cmds, k, first);
        if ok { WireProc(Procs(w.log), Pipes(w1.log), cmds, first, Spawned(c.cmd, c.fdin, write, err)); }
        CloseAllParts(w2, if ok then Held(c.fdin) + [write] else Held(c.fdin) + [write, read]);
      }
    }
  }

  lemma PendingPipes(w: World, c: State, cmds: seq<(seq<string>, bool)>, k: nat, first: Option<Fd>)
    requires Pending(w, c, cmds, k, first)
    ensures forall i :: 0 <= i < |Pipes(w.log)| ==> Pipes(w.log)[i].Piped?
  {
  }

  lemma {:induction false} CmdsWire(w: World, c: State, cmds: seq<(seq<string>, bool)>, k: nat, first: Option<Fd>)
    requires Pending(w, c, cmds, k, first) && (forall i :: 0 <= i < |cmds| ==> cmds[i].0 != [])
    ensures var (w1, c1, ok) := Cmds(w, c, cmds[k..]);
      if ok then Pending(w1, c1, cmds, |cmds|, first) else Wired(Procs(w1.log), Pipes(w1.log), cmds, first)
    decreases |cmds| - k
  {
    hide Cmd, Wired, Procs, Pipes;
    if k < |cmds| {
      CmdWires(w, c, cmds, k, first);
      assert cmds[k..][0] == cmds[k] && cmds[k..][1..] == cmds[k + 1..];
      var (w1, c1, ok) := Cmd(w, c, cmds[k].0, cmds[k].1);
      if ok { CmdsWire(w1, c1, cmds, k + 1, first); }
    }
  }

  lemma OutputsParts(w: World, err2out: bool, opt: EndOpt)
    ensures var (w1, mine, out, err, ok) := Outputs(w, err2out, opt);
      && Procs(w1.log) == Procs(w.log) && Pipes(w1.log) == Pipes(w.log)
      && (ok ==> LastOutputs(w1.log, err2out, opt, out, err))
  {
    hide Procs, Pipes;
    if opt.stdoutFile { OpenParts(w, Output); }
    var w1 := if opt.stdoutFile then Open(w, Output).0 else w;
    if opt.stderrFile && !err2out { OpenParts(w1, Errors); }
  }

  lemma OutputsKept(log: seq<Event>, more: seq<Event>, err2out: bool, opt: EndOpt, out: Fd, err: Option<Fd>)
    requires LastOutputs(log, err2out, opt, out, err) && log <= more
    ensures LastOutputs(more, err2out, opt, out, err)
  {
    assert more == log + more[|log|..];
  }

  lemma EndWires(w: World, c: State, cmds: seq<(seq<string>, bool)>, opt: EndOpt, first: Option<Fd>)
    requires Pending(w, c, cmds, |cmds|, first) && (forall i :: 0 <= i < |cmds| ==> cmds[i].0 != [])
    ensures var (w1, c1, ok) := End(w, c, opt);
      && Wired(Procs(w1.log), Pipes(w1.log), cmds, first)
      && (ok && cmds != [] ==> Complete(w1.log, cmds, opt))
  {
    hide CloseAll, Procs, Pipes, Outputs, Spawn, Wired;
    PendingPipes(w, c, cmds, |cmds|, first);
    if c.cmd == [] {
      CloseAllParts(w, Held(c.fdin));
    } else {
      var (w1, room) := if opt.async then Try(w) else (w, true);
      CloseAllParts(w1, Held(c.fdin));
      OutputsParts(w1, c.err2out, opt);
      var (w2, mine, out, err, ok) := Outputs(w1, c.err2out, opt);
      CloseAllParts(w2, Held(c.fdin) + mine);
      SpawnParts(w2, c.cmd, c.fdin, out, err);
      var (w3, started) := Spawn(w2, c.cmd, c.fdin, out, err);
      WireProc(Procs(w.log), Pipes(w.log), cmds, first, Spawned(c.cmd, c.fdin, out, err));
      var w4 := if opt.async || !started then w3 else Wait(w3).0;
      WaitParts(w3);
      CloseAllParts(w4, Held(c.fdin) + mine);
      if ok { OutputsKept(w2.log, CloseAll(w4, Held(c.fdin) + mine).log, c.err2out, opt, out, err); }
    }
  }

  /** Wiring: whatever fails, the processes started so far form the beginning of the pipeline, each
      connected to the next by the two ends of one pipe; a successful run has started them all. */
  lemma RunWires(w: World, stdinFile: bool, cmds: seq<(seq<string>, bool)>, opt: EndOpt)
    requires w.log == [] && (forall i :: 0 <= i < |cmds| ==> cmds[i].0 != [])
    ensures var (w1, ok) := Run(w, stdinFile, cmds, opt);
      && Wired(Procs(w1.log), Pipes(w1.log), cmds, if stdinFile then Open(w, Input).1 else None)
      && (ok && cmds != [] ==> Complete(w1.log, cmds, opt))
  {
    hide Cmds, End, Open, Procs, Pipes;
    assert Procs([]) == [] && Pipes([]) == [] by { EmptyParts(); }
    if stdinFile { OpenParts(w, Input); }
    var (w1, c1, ok1) := Begin(w, stdinFile);
    if ok1 {
      CmdsWire(w1, c1, cmds, 0, c1.fdin);
      assert cmds[0..] == cmds;
      var (w2, c2, ok2) := Cmds(w1, c1, cmds);
      if ok2 { EndWires(w2, c2, cmds, opt, c1.fdin); }
    }
  }

  lemma EmptyParts()
    ensures Procs([]) == [] && Pipes([]) == []
  {
  }
}
