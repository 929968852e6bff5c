/**
 * `RunPrinter` of exp_scripts/bootstrap.py: follows one dispatched pass by
 * polling its SSH channel. The channel is two queues of received chunks
 * (stdout and stderr) and an exit flag; what `print_one` prints is returned as
 * a log of tagged chunks. Decoding, line splitting and the `@name` prefix
 * are not modelled.
 */
module Printers {
  import opened Seqs

  type Chunk = string

  /** A chunk printed from the channel's stdout or stderr. */
  datatype Output = Out(chunk: Chunk) | Err(chunk: Chunk)

  /** The chunks of `s`, tagged as stdout. */
  function Outs(s: seq<Chunk>): (r: seq<Output>)
    ensures |r| == |s|
  {
    if s == [] then [] else [Out(s[0])] + Outs(s[1..])
  }

  /** The chunks of `s`, tagged as stderr. */
  function Errs(s: seq<Chunk>): (r: seq<Output>)
    ensures |r| == |s|
  {
    if s == [] then [] else [Err(s[0])] + Errs(s[1..])
  }

  /** What a log holds from stdout, in order. */
  function StdoutOf(log: seq<Output>): seq<Chunk>
  {
    if log == [] then []
    else (if log[0].Out? then [log[0].chunk] else []) + StdoutOf(log[1..])
  }

  /** What a log holds from stderr, in order. */
  function StderrOf(log: seq<Output>): seq<Chunk>
  {
    if log == [] then []
    else (if log[0].Err? then [log[0].chunk] else []) + StderrOf(log[1..])
  }

  /** The first chunk of a queue, if any. */
  function Head(s: seq<Chunk>): seq<Chunk>
  {
    if s == [] then [] else s[..1]
  }

  /** The queue after its first chunk, if any, is read. */
  function Rest(s: seq<Chunk>): seq<Chunk>
  {
    if s == [] then [] else s[1..]
  }

  /**
   * What one `print_one` prints: one stdout chunk, one stderr chunk, and, once
   * the exit status is ready, everything left on stdout and then on stderr.
   */
  function Polled(out: seq<Chunk>, err: seq<Chunk>, exited: bool): seq<Output>
  {
    Outs(Head(out)) + Errs(Head(err)) + (if exited then Outs(Rest(out)) + Errs(Rest(err)) else [])
  }

  /** The remote end of an SSH session channel. */
  class Channel {
    /** Chunks received on stdout and not read yet. */
    var stdout: seq<Chunk>
    /** Chunks received on stderr and not read yet. */
    var stderr: seq<Chunk>
    /** Whether the exit status has arrived. */
    var exited: bool

    /** A freshly opened channel: nothing received yet. */
    constructor ()
      ensures stdout == [] && stderr == [] && !exited
    {
      stdout := [];
      stderr := [];
      exited := false;
    }

    predicate RecvReady()
      reads this
    {
      stdout != []
    }

    predicate RecvStderrReady()
      reads this
    {
      stderr != []
    }

    predicate ExitStatusReady()
      reads this
    {
      exited
    }

    /** `recv`: the oldest stdout chunk. */
    method Recv() returns (c: Chunk)
      requires stdout != []
      modifies this
      ensures c == old(stdout)[0] && stdout == old(stdout)[1..]
      ensures stderr == old(stderr) && exited == old(exited)
    {
      c := stdout[0];
      stdout := stdout[1..];
    }

    /** `recv_stderr`: the oldest stderr chunk. */
    method RecvStderr() returns (c: Chunk)
      requires stderr != []
      modifies this
      ensures c == old(stderr)[0] && stderr == old(stderr)[1..]
      ensures stdout == old(stdout) && exited == old(exited)
    {
      c := stderr[0];
      stderr := stderr[1..];
    }
  }

  class RunPrinter {
    const name: string
    const c: Channel
    /** `get_order` of the pass it follows. */
    const order: int

    constructor (name: string, c: Channel, order: int)
      ensures this.name == name && this.c == c && this.order == order
    {
      this.name := name;
      this.c := c;
      this.order := order;
    }

    /**
     * `print_one`: prints what is ready; once the exit status is ready it
     * drains stdout, then stderr, and answers False. Otherwise it answers True.
     */
    method PrintOne() returns (running: bool, printed: seq<Output>)
      modifies c
      ensures running <==> !old(c.exited)
      ensures printed == Polled(old(c.stdout), old(c.stderr), old(c.exited))
      ensures c.exited == old(c.exited)
      ensures old(c.exited) ==> c.stdout == [] && c.stderr == []
      ensures !old(c.exited) ==> c.stdout == Rest(old(c.stdout)) && c.stderr == Rest(old(c.stderr))
    {
      printed := [];
      if c.RecvReady() {
        var x := c.Recv();
        printed := printed + [Out(x)];
      }
      if c.RecvStderrReady() {
        var x := c.RecvStderr();
        printed := printed + [Err(x)];
      }
      assert printed == Outs(Head(old(c.stdout))) + Errs(Head(old(c.stderr)));
      if c.ExitStatusReady() {
        var outs := DrainStdout(c);
        var errs := DrainStderr(c);
        printed := printed + outs + errs;
        return false, printed;
      }
      return true, printed;
    }
  }

  /** The `while p.c.recv_ready()` loop: reads stdout until nothing is left. */
  method DrainStdout(c: Channel) returns (got: seq<Output>)
    modifies c
    ensures got == Outs(old(c.stdout))
    ensures c.stdout == [] && c.stderr == old(c.stderr) && c.exited == old(c.exited)
  {
    got := [];
    while c.RecvReady()
      invariant got + Outs(c.stdout) == Outs(old(c.stdout))
      invariant c.stderr == old(c.stderr) && c.exited == old(c.exited)
      decreases |c.stdout|
    {
      var x := c.Recv();
      AppendAssoc(got, [Out(x)], Outs(c.stdout));
      got := got + [Out(x)];
    }
    AppendNothing(got);
  }

  /** The `while p.c.recv_stderr_ready()` loop: reads stderr until nothing is left. */
  method DrainStderr(c: Channel) returns (got: seq<Output>)
    modifies c
    ensures got == Errs(old(c.stderr))
    ensures c.stderr == [] && c.stdout == old(c.stdout) && c.exited == old(c.exited)
  {
    got := [];
    while c.RecvStderrReady()
      invariant got + Errs(c.stderr) == Errs(old(c.stderr))
      invariant c.stdout == old(c.stdout) && c.exited == old(c.exited)
      decreases |c.stderr|
    {
      var x := c.RecvStderr();
      AppendAssoc(got, [Err(x)], Errs(c.stderr));
      got := got + [Err(x)];
    }
    AppendNothing(got);
  }

  lemma StdoutOfAppend(a: seq<Output>, b: seq<Output>)
    ensures StdoutOf(a + b) == StdoutOf(a) + StdoutOf(b)
    ensures StderrOf(a + b) == StderrOf(a) + StderrOf(b)
  {
    StdoutOfAppendOut(a, b);
    StdoutOfAppendErr(a, b);
  }

  lemma {:induction false} StdoutOfAppendOut(a: seq<Output>, b: seq<Output>)
    ensures StdoutOf(a + b) == StdoutOf(a) + StdoutOf(b)
    decreases |a|
  {
    if a == [] {
      assert a + b == b;
    } else {
      var h := if a[0].Out? then [a[0].chunk] else [];
      assert (a + b)[0] == a[0] && (a + b)[1..] == a[1..] + b;
      StdoutOfAppendOut(a[1..], b);
      assert StdoutOf(a + b) == h + StdoutOf(a[1..] + b);
      assert h + (StdoutOf(a[1..]) + StdoutOf(b)) == (h + StdoutOf(a[1..])) + StdoutOf(b);
    }
  }

  lemma {:induction false} StdoutOfAppendErr(a: seq<Output>, b: seq<Output>)
    ensures StderrOf(a + b) == StderrOf(a) + StderrOf(b)
    decreases |a|
  {
    if a == [] {
      assert a + b == b;
    } else {
      var h := if a[0].Err? then [a[0].chunk] else [];
      assert (a + b)[0] == a[0] && (a + b)[1..] == a[1..] + b;
      StdoutOfAppendErr(a[1..], b);
      assert StderrOf(a + b) == h + StderrOf(a[1..] + b);
      assert h + (StderrOf(a[1..]) + StderrOf(b)) == (h + StderrOf(a[1..])) + StderrOf(b);
    }
  }

  lemma {:induction false} OutsOnly(s: seq<Chunk>)
    ensures StdoutOf(Outs(s)) == s && StderrOf(Outs(s)) == []
    ensures StdoutOf(Errs(s)) == [] && StderrOf(Errs(s)) == s
    decreases |s|
  {
    if s != [] {
      OutsOnly(s[1..]);
    }
  }

  /**
   * Once the exit status is ready, `print_one` loses nothing: everything
   * received on stdout is printed in order, and so is everything on stderr.
   */
  lemma DrainsEverything(out: seq<Chunk>, err: seq<Chunk>)
    ensures StdoutOf(Polled(out, err, true)) == out
    ensures StderrOf(Polled(out, err, true)) == err
  {
    var a, b, c, d := Outs(Head(out)), Errs(Head(err)), Outs(Rest(out)), Errs(Rest(err));
    assert Polled(out, err, true) == (a + b) + (c + d);
    StdoutOfAppend(a + b, c + d);
    StdoutOfAppend(a, b);
    StdoutOfAppend(c, d);
    OutsOnly(Head(out));
    OutsOnly(Head(err));
    OutsOnly(Rest(out));
    OutsOnly(Rest(err));
    HeadRest(out);
    HeadRest(err);
    AppendNothing(Head(out));
    AppendNothing(Rest(out));
    AppendNothing(Head(err));
    AppendNothing(Rest(err));
  }

  lemma HeadRest(s: seq<Chunk>)
    ensures Head(s) + Rest(s) == s
  {
  }

  /** While the pass runs, `print_one` prints at most one chunk of each stream, the oldest. */
  lemma RunningPrintsHeads(out: seq<Chunk>, err: seq<Chunk>)
    ensures StdoutOf(Polled(out, err, false)) == Head(out)
    ensures StderrOf(Polled(out, err, false)) == Head(err)
    ensures |Polled(out, err, false)| <= 2
  {
    var a, b := Outs(Head(out)), Errs(Head(err));
    assert Polled(out, err, false) == a + b;
    StdoutOfAppend(a, b);
    OutsOnly(Head(out));
    OutsOnly(Head(err));
  }
}
