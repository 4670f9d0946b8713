/** `Nob_Chain` as the C code has it, over an operating system that logs what it is asked to do. */
module ChainRun {
  import opened Options
  import opened Chain

  /** The calls the chain makes, each answered by the oracle. */
  class Os {
    const oracle: nat -> bool
    var calls: nat
    var next: Fd
    var log: seq<Event>

    ghost function W(): World reads this { World(oracle, calls, next, log) }

    constructor (oracle: nat -> bool)
      ensures W() == World(oracle, 0, FIRST_FD, [])
    {
      this.oracle, calls, next, log := oracle, 0, FIRST_FD, [];
    }

    /** `nob_proc_wait`. */
    method WaitFor() returns (ok: bool)
      modifies this
      ensures (W(), ok) == Wait(old(W()))
    {
      ok := TryCall();
      if ok { log := log + [Waited]; }
    }

    /** A call that leaves no trace here: waiting for room, or emptying a file. */
    method TryCall() returns (ok: bool)
      modifies this
      ensures (W(), ok) == Try(old(W()))
    {
      ok := oracle(calls);
      calls := calls + 1;
    }

    /** `nob_fd_open_for_read` and `nob_fd_open_for_write`. */
    method OpenFile(file: File) returns (fd: Option<Fd>)
      modifies this
      ensures (W(), fd) == Open(old(W()), file)
    {
      var ok := TryCall();
      if !ok { return None; }
      fd := Some(next);
      log := log + [Opened(next, file)];
      next := next + 1;
    }

    /** `nob_pipe_create`. */
    method PipeCreate() returns (p: Option<(Fd, Fd)>)
      modifies this
      ensures (W(), p) == Pipe(old(W()))
    {
      var ok := TryCall();
      if !ok { return None; }
      p := Some((next, next + 1));
      log := log + [Piped(next, next + 1)];
      next := next + 2;
    }

    /** `nob__cmd_start_process`. */
    method StartProcess(cmd: seq<string>, stdin: Option<Fd>, stdout: Fd, stderr: Option<Fd>) returns (ok: bool)
      modifies this
      ensures (W(), ok) == Spawn(old(W()), cmd, stdin, stdout, stderr)
    {
      ok := TryCall();
      if ok { log := log + [Spawned(cmd, stdin, stdout, stderr)]; }
    }

    /** The loop behind `defer:`. */
    method CloseFds(fds: seq<Fd>)
      modifies this
      ensures W() == CloseAll(old(W()), fds)
    {
      var i := 0;
      while i < |fds|
        invariant i <= |fds| && CloseAll(W(), fds[i..]) == CloseAll(old(W()), fds)
      {
        log := log + [Closed(fds[i])];
        assert fds[i..][0] == fds[i] && fds[i..][1..] == fds[i + 1..];
        i := i + 1;
      }
    }
  }

  class ChainBuilder {
    var cmd: seq<string>
    var err2out: bool
    var fdin: Option<Fd>

    ghost function S(): State reads this { State(cmd, err2out, fdin) }

    constructor () {
      cmd, err2out, fdin := [], false, None;
    }

    /** `nob_chain_begin_opt`. */
    method BeginChain(os: Os, stdinFile: bool) returns (ok: bool)
      modifies this, os
      ensures (os.W(), S(), ok) == Begin(old(os.W()), stdinFile)
    {
      cmd, err2out, fdin := [], false, None;
      if stdinFile {
        fdin := os.OpenFile(Input);
        if fdin == None { return false; }
      }
      return true;
    }

    /** `nob_chain_cmd_opt`. */
    method CmdChain(os: Os, newCmd: seq<string>, newErr2out: bool) returns (ok: bool)
      requires newCmd != []
      modifies this, os
      ensures (os.W(), S(), ok) == Cmd(old(os.W()), old(S()), newCmd, newErr2out)
    {
      ok := true;
      var fds: seq<Fd> := [];
      if cmd != [] {
        if fdin != None { fds := fds + [fdin.value]; }
        assert fds == Held(fdin);
        var pp := os.PipeCreate();
        if pp == None {
          os.CloseFds(fds);
          return false;
        }
        var (read, write) := pp.value;
        fds := fds + [write];
        var started := os.StartProcess(cmd, fdin, write, if err2out then Some(write) else None);
        cmd := [];
        if !started {
          fds := fds + [read];
          assert |fds| <= 3 && fds == Held(fdin) + [write, read];
          os.CloseFds(fds);
          return false;
        }
        fdin := Some(read);
      }
      cmd := cmd + newCmd;
      assert cmd == newCmd;
      err2out := newErr2out;
      os.CloseFds(fds);
    }

    /** The redirections of `nob_chain_end_opt`; `fds` collects what it opened. */
    method OpenOutputs(os: Os, opt: EndOpt) returns (mine: seq<Fd>, out: Fd, err: Option<Fd>, ok: bool)
      modifies os
      ensures (os.W(), mine, out, err, ok) == Outputs(old(os.W()), err2out, opt)
    {
      mine, out, err := [], STDOUT, None;
      if opt.stdoutFile {
        var fd := os.OpenFile(Output);
        if fd == None { return mine, out, err, false; }
        out := fd.value;
        mine := mine + [out];
        assert mine == [out];
      }
      if err2out { err := Some(out); }
      if opt.stderrFile {
        if err == None {
          err := os.OpenFile(Errors);
          if err == None {
            assert mine + Held(None) == mine;
            return mine, out, err, false;
          }
          mine := mine + [err.value];
        } else {
          var emptied := os.TryCall();
          if !emptied { return mine, out, err, false; }
        }
      }
      return mine, out, err, true;
    }

    /** `nob_chain_end_opt`; waiting for room among asynchronous processes is one fallible call. */
    method EndChain(os: Os, opt: EndOpt) returns (ok: bool)
      modifies this, os
      ensures (os.W(), S(), ok) == End(old(os.W()), old(S()), opt)
    {
      hide CloseAll, Outputs;
      ok := true;
      var fds: seq<Fd> := [];
      if fdin != None { fds := fds + [fdin.value]; }
      assert fds == Held(fdin);
      if cmd != [] {
        if opt.async {
          var room := os.TryCall();
          if !room {
            os.CloseFds(fds);
            return false;
          }
        }
        var mine, out, err, ready := OpenOutputs(os, opt);
        fds := fds + mine;
        if !ready {
          os.CloseFds(fds);
          return false;
        }
        ok := os.StartProcess(cmd, fdin, out, err);
        cmd := [];
        if !opt.async && ok { ok := os.WaitFor(); }
      }
      os.CloseFds(fds);
    }
  }
}
