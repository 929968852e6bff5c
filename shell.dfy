/**
 * The shell side of exp_scripts/bootstrap.py: the exported environment
 * (`Envs`), the courier's working directory (`Courier2.cd`), the command line
 * a pass runs remotely, the `pre_execute` retry recursion, and
 * `check_keywords`.
 *
 * The SSH transport is a parameter: which connection attempts raise and
 * what each execution attempt returns (None where it raises).
 */
module Shell {
  import opened Wrappers
  import opened Seqs

  // ---- Envs ----

  /** `"export %s=%s;" % (name, value)`. */
  function ExportLine(name: string, value: string): string
  {
    "export " + name + "=" + value + ";"
  }

  /** Every name of the history has a value (otherwise `__str__` raises KeyError). */
  predicate Defined(h: seq<string>, e: map<string, string>)
  {
    forall i :: 0 <= i < |h| ==> h[i] in e
  }

  /** `str(envs)`: one export line per history entry, in history order. */
  function Exports(h: seq<string>, e: map<string, string>): string
    requires Defined(h, e)
  {
    if h == [] then ""
    else Exports(h[..|h| - 1], e) + ExportLine(h[|h| - 1], e[h[|h| - 1]])
  }

  /** `list.remove(name)`: drops the first occurrence. */
  function RemoveFirst(h: seq<string>, name: string): (r: seq<string>)
    requires name in h
    ensures |r| == |h| - 1
  {
    if h[0] == name then h[1..] else [h[0]] + RemoveFirst(h[1..], name)
  }

  lemma {:induction false} ExportsAppend(a: seq<string>, b: seq<string>, e: map<string, string>)
    requires Defined(a, e) && Defined(b, e)
    ensures Defined(a + b, e)
    ensures Exports(a + b, e) == Exports(a, e) + Exports(b, e)
    decreases |b|
  {
    DefinedAppend(a, b, e);
    if b == [] {
      assert a + b == a;
    } else {
      var b', x := b[..|b| - 1], b[|b| - 1];
      var ab := a + b;
      assert ab[..|ab| - 1] == a + b' && ab[|ab| - 1] == x;
      ExportsSnoc(ab, e);
      ExportsSnoc(b, e);
      ExportsAppend(a, b', e);
      AppendAssoc(Exports(a, e), Exports(b', e), ExportLine(x, e[x]));
    }
  }

  lemma DefinedAppend(a: seq<string>, b: seq<string>, e: map<string, string>)
    requires Defined(a, e) && Defined(b, e)
    ensures Defined(a + b, e)
  {
  }

  /** The last history entry's export line comes last. */
  lemma ExportsSnoc(h: seq<string>, e: map<string, string>)
    requires Defined(h, e) && h != []
    ensures Defined(h[..|h| - 1], e)
    ensures Exports(h, e) == Exports(h[..|h| - 1], e) + ExportLine(h[|h| - 1], e[h[|h| - 1]])
  {
  }

  /** A value that no history entry names does not show in `str(envs)`. */
  lemma {:induction false} ExportsIgnore(h: seq<string>, e: map<string, string>, name: string, value: string)
    requires Defined(h, e) && name !in h
    ensures Defined(h, e[name := value])
    ensures Exports(h, e[name := value]) == Exports(h, e)
    decreases |h|
  {
    if h != [] {
      ExportsIgnore(h[..|h| - 1], e, name, value);
    }
  }

  /** `add` of a new name: `str(envs)` gains exactly its export line, at the end. */
  lemma AddedExport(h: seq<string>, e: map<string, string>, name: string, value: string)
    requires Defined(h, e) && name !in h
    ensures Defined(h + [name], e[name := value])
    ensures Exports(h + [name], e[name := value]) == Exports(h, e) + ExportLine(name, value)
  {
    ExportsIgnore(h, e, name, value);
    assert (h + [name])[..|h|] == h;
  }

  lemma {:induction false} RemoveFirstAt(h: seq<string>, name: string, i: nat)
    requires i < |h| && h[i] == name && name !in h[..i]
    ensures RemoveFirst(h, name) == h[..i] + h[i + 1..]
    decreases i
  {
    if i > 0 {
      assert h[0] != name by { assert h[0] == h[..i][0]; }
      assert h[1..][..i - 1] == h[1..i];
      RemoveFirstAt(h[1..], name, i - 1);
      assert [h[0]] + h[1..i] == h[..i];
      assert h[1..][i..] == h[i + 1..];
    }
  }

  /**
   * `delete` of a name exported once: `str(envs)` loses exactly that line.
   * The history entry goes, and so does the value.
   */
  lemma DeletedExport(h: seq<string>, e: map<string, string>, i: nat)
    requires Defined(h, e) && i < |h|
    requires forall j :: 0 <= j < |h| && j != i ==> h[j] != h[i]
    ensures Defined(RemoveFirst(h, h[i]), e - {h[i]})
    ensures Exports(h, e) == Exports(h[..i], e) + ExportLine(h[i], e[h[i]]) + Exports(h[i + 1..], e)
    ensures Exports(RemoveFirst(h, h[i]), e - {h[i]}) == Exports(h[..i], e) + Exports(h[i + 1..], e)
  {
    var name := h[i];
    var a, b := h[..i], h[i + 1..];
    assert name !in a;
    RemoveFirstAt(h, name, i);
    assert h == a + [name] + b;
    ExportsAppend(a + [name], b, e);
    ExportsAppend(a, [name], e);
    assert Exports([name], e) == ExportLine(name, e[name]) by {
      assert [name][..0] == [];
    }
    var e' := e - {name};
    assert Defined(a, e') && Defined(b, e');
    ExportsDrop(a, e, name);
    ExportsDrop(b, e, name);
    ExportsAppend(a, b, e');
  }

  lemma {:induction false} ExportsDrop(h: seq<string>, e: map<string, string>, name: string)
    requires Defined(h, e) && name !in h
    ensures Defined(h, e - {name})
    ensures Exports(h, e - {name}) == Exports(h, e)
    decreases |h|
  {
    if h != [] {
      ExportsDrop(h[..|h| - 1], e, name);
    }
  }

  /** Where `list.remove` finds the name. */
  function FirstIndex(h: seq<string>, name: string): (k: nat)
    requires name in h
    ensures k < |h| && h[k] == name && forall j :: 0 <= j < k ==> h[j] != name
  {
    if h[0] == name then 0 else 1 + FirstIndex(h[1..], name)
  }

  /** A name added twice and then deleted once leaves a history entry without a value: `str(envs)` then raises. */
  lemma DeleteOfTwiceAdded(h: seq<string>, e: map<string, string>, i: nat, j: nat)
    requires i < j < |h| && h[i] == h[j]
    ensures !Defined(RemoveFirst(h, h[i]), e - {h[i]})
  {
    var name := h[i];
    var k := FirstIndex(h, name);
    assert name !in h[..k];
    RemoveFirstAt(h, name, k);
    var r := h[..k] + h[k + 1..];
    assert r[j - 1] == name;
  }

  /** `Envs`: exported variables and the order they were added in. */
  class Envs {
    var envs: map<string, string>
    var history: seq<string>

    /** `__init__`: `load` always raises (the script never imports `pickle`), so both start empty. */
    constructor ()
      ensures envs == map[] && history == []
    {
      envs := map[];
      history := [];
    }

    /** `set`: replaces the values and appends the new names, in the given order, to the history. */
    method Set(pairs: seq<(string, string)>)
      requires forall i, j :: 0 <= i < j < |pairs| ==> pairs[i].0 != pairs[j].0
      modifies this
      ensures envs.Keys == set i | 0 <= i < |pairs| :: pairs[i].0
      ensures forall i :: 0 <= i < |pairs| ==> envs[pairs[i].0] == pairs[i].1
      ensures history == old(history) + seq(|pairs|, i requires 0 <= i < |pairs| => pairs[i].0)
    {
      envs := map i | 0 <= i < |pairs| :: pairs[i].0 := pairs[i].1;
      history := history + seq(|pairs|, i requires 0 <= i < |pairs| => pairs[i].0);
    }

    /** `add`: records the name in the history (again, if it is there already) and sets its value. */
    method Add(name: string, value: string)
      modifies this
      ensures history == old(history) + [name]
      ensures envs == old(envs)[name := value]
    {
      history := history + [name];
      envs := envs[name := value];
    }

    /**
     * `append`: extends an existing value with `:` and the new part. A
     * missing name raises KeyError (`raised`) and changes nothing.
     */
    method Append(name: string, value: string) returns (raised: bool)
      modifies this
      ensures raised <==> name !in old(envs)
      ensures history == old(history)
      ensures !raised ==> envs == old(envs)[name := old(envs)[name] + ":" + value]
      ensures raised ==> envs == old(envs)
    {
      if name !in envs {
        return true;
      }
      raised := false;
      envs := envs[name := envs[name] + ":" + value];
    }

    /**
     * `delete`: drops the first history entry of the name, then its value.
     * A name missing from the history raises ValueError before anything
     * changes; a name in the history without a value (possible once `set`
     * has replaced the values) raises KeyError after its history entry is
     * gone.
     */
    method Delete(name: string) returns (raised: bool)
      modifies this
      ensures raised <==> name !in old(history) || name !in old(envs)
      ensures history == if name in old(history) then RemoveFirst(old(history), name) else old(history)
      ensures envs == if raised then old(envs) else old(envs) - {name}
    {
      if name !in history {
        return true;
      }
      history := RemoveFirst(history, name);
      if name !in envs {
        return true;
      }
      raised := false;
      envs := envs - {name};
    }

    /**
     * `__str__`: one export line per history entry, in history order, or
     * None where the first history entry without a value raises KeyError.
     */
    method ToString() returns (s: Option<string>)
      ensures s.Some? <==> Defined(history, envs)
      ensures s.Some? ==> s.value == Exports(history, envs)
    {
      var acc := "";
      for i := 0 to |history|
        invariant Defined(history[..i], envs)
        invariant acc == Exports(history[..i], envs)
      {
        if history[i] !in envs {
          return None;
        }
        assert history[..i + 1][..i] == history[..i];
        acc := acc + ExportLine(history[i], envs[history[i]]);
      }
      assert history[..|history|] == history;
      return Some(acc);
    }
  }

  // ---- Courier2 ----

  /** `os.path.isabs` on POSIX. */
  predicate IsAbs(dir: string)
  {
    |dir| > 0 && dir[0] == '/'
  }

  class Courier {
    var curdir: string
    var envs: Envs

    /** `__init__` with the default working directory. */
    constructor ()
      ensures curdir == "." && fresh(envs) && envs.history == [] && envs.envs == map[]
    {
      curdir := ".";
      envs := new Envs();
    }

    /** `cd`: an absolute directory replaces the current one, a relative one is appended after `/`. */
    method Cd(dir: string)
      modifies this
      ensures envs == old(envs)
      ensures IsAbs(dir) ==> curdir == dir
      ensures !IsAbs(dir) ==> curdir == old(curdir) + "/" + dir
    {
      if IsAbs(dir) {
        // The source then maps "~" to "."; an absolute directory never is "~" (HomeIsNotAbs).
        curdir := dir;
      } else {
        curdir := curdir + "/" + dir;
      }
    }
  }

  /** The `~` branch of `cd` is dead: an absolute directory starts with `/`. */
  lemma HomeIsNotAbs()
    ensures !IsAbs("~")
  {
  }

  // ---- the dispatched command line ----

  /** `("cd %s" % dir) + ";" + str(envs) + cmd`. */
  function CommandLine(dir: string, exports: string, cmd: string): string
  {
    "cd " + dir + ";" + exports + cmd
  }

  /** Splits a string at its first `;`. */
  function SplitAtSemicolon(s: string): (r: (string, string))
    ensures ';' !in r.0
  {
    if s == [] then ([], [])
    else if s[0] == ';' then ([], s[1..])
    else
      var (a, b) := SplitAtSemicolon(s[1..]);
      ([s[0]] + a, b)
  }

  /** A command line gives back its directory (when it holds no `;`) and what runs in it. */
  lemma {:induction false} CommandLineSplits(dir: string, exports: string, cmd: string)
    requires ';' !in dir
    ensures CommandLine(dir, exports, cmd)[..3] == "cd "
    ensures SplitAtSemicolon(CommandLine(dir, exports, cmd)[3..]) == (dir, exports + cmd)
  {
    var line := CommandLine(dir, exports, cmd);
    assert line[3..] == dir + ";" + (exports + cmd);
    SplitAfter(dir, exports + cmd);
  }

  lemma {:induction false} SplitAfter(dir: string, rest: string)
    requires ';' !in dir
    ensures SplitAtSemicolon(dir + ";" + rest) == (dir, rest)
    decreases |dir|
  {
    if dir == [] {
      assert dir + ";" + rest == [';'] + rest;
    } else {
      assert (dir + ";" + rest)[1..] == dir[1..] + ";" + rest;
      SplitAfter(dir[1..], rest);
      assert [dir[0]] + dir[1..] == dir;
    }
  }

  // ---- pre_execute ----

  /** One execution attempt: the command line sent and the options it went with. */
  datatype Attempt = Attempt(line: string, pty: bool, timeout: Option<int>, background: bool)

  /** What `pre_execute` returns: `(p, stdout)` or `(p, c)`, `(None, e)`, or a bare None once retries run out. */
  datatype Reply = Started(handle: nat) | ConnectFailed(error: string) | GaveUp

  /** `if timeout: timeout += 2`. */
  function Widen(timeout: Option<int>): Option<int>
  {
    if timeout.Some? && timeout.value != 0 then Some(timeout.value + 2) else timeout
  }

  /**
   * `pre_execute`, from attempt `k` on. `connect(k)` is the error connection
   * attempt `k` raises, if any; `exec(k)` what its execution returns (None
   * where it raises). `exports` is `str(self.envs)`, None where that raises
   * inside the `try`. Retries go to the foreground.
   */
  function PreExecute(cmd: string, dir: string, curdir: string, exports: Option<string>, pty: bool,
                      timeout: Option<int>, retry: int, background: bool,
                      connect: nat -> Option<string>, exec: nat -> Option<nat>, k: nat): (r: (Reply, seq<Attempt>))
    decreases if retry > 0 then retry else 0
  {
    var d := if dir == "" then curdir else dir;
    if connect(k).Some? then (ConnectFailed(connect(k).value), [])
    else
      var sent := if exports.Some? then [Attempt(CommandLine(d, exports.value, cmd), pty, timeout, background)] else [];
      if exports.Some? && exec(k).Some? then (Started(exec(k).value), sent)
      else if retry > 0 then
        var (rep, more) := PreExecute(cmd, d, curdir, exports, pty, Widen(timeout), retry - 1, false, connect, exec, k + 1);
        (rep, sent + more)
      else (GaveUp, sent)
  }

  /**
   * What `pre_execute` promises: at most `retry_count + 1` attempts, all of
   * the same command line; a connection error ends it at once; only the
   * first attempt may run in the background; a positive timeout grows by 2
   * per retry.
   */
  lemma {:induction false} PreExecuteAttempts(cmd: string, dir: string, curdir: string, exports: Option<string>, pty: bool,
                                             timeout: Option<int>, retry: int, background: bool,
                                             connect: nat -> Option<string>, exec: nat -> Option<nat>, k: nat)
    ensures var (rep, attempts) := PreExecute(cmd, dir, curdir, exports, pty, timeout, retry, background, connect, exec, k);
            var d := if dir == "" then curdir else dir;
            |attempts| <= (if retry > 0 then retry else 0) + 1 &&
            (connect(k).Some? ==> rep == ConnectFailed(connect(k).value) && attempts == []) &&
            (exports.None? ==> attempts == [] && !rep.Started?) &&
            (forall j :: 0 <= j < |attempts| ==> attempts[j].line == CommandLine(d, exports.value, cmd) && attempts[j].pty == pty) &&
            (forall j :: 1 <= j < |attempts| ==> !attempts[j].background) &&
            (timeout.Some? && timeout.value > 0 ==>
               forall j :: 0 <= j < |attempts| ==> attempts[j].timeout == Some(timeout.value + 2 * j))
    decreases if retry > 0 then retry else 0
  {
    var d := if dir == "" then curdir else dir;
    if connect(k).None? && !(exports.Some? && exec(k).Some?) && retry > 0 {
      PreExecuteAttempts(cmd, d, curdir, exports, pty, Widen(timeout), retry - 1, false, connect, exec, k + 1);
    }
  }

  /** `pre_execute` answers `Started` only with what some execution attempt returned. */
  lemma {:induction false} PreExecuteStarted(cmd: string, dir: string, curdir: string, exports: Option<string>, pty: bool,
                                            timeout: Option<int>, retry: int, background: bool,
                                            connect: nat -> Option<string>, exec: nat -> Option<nat>, k: nat)
    ensures var rep := PreExecute(cmd, dir, curdir, exports, pty, timeout, retry, background, connect, exec, k).0;
            rep.Started? ==> exists j :: k <= j <= k + (if retry > 0 then retry else 0) && exec(j) == Some(rep.handle)
    decreases if retry > 0 then retry else 0
  {
    var d := if dir == "" then curdir else dir;
    if connect(k).None? && !(exports.Some? && exec(k).Some?) && retry > 0 {
      PreExecuteStarted(cmd, d, curdir, exports, pty, Widen(timeout), retry - 1, false, connect, exec, k + 1);
    }
  }

  // ---- check_keywords ----

  /** `l.find(k) >= 0`: `k` occurs in `l` (the empty string occurs everywhere). */
  predicate Occurs(k: string, l: string)
    decreases |l|
  {
    (|k| <= |l| && l[..|k|] == k) || (l != [] && Occurs(k, l[1..]))
  }

  /** A line counts when no black keyword occurs in it and every keyword does. */
  predicate Selected(l: string, keywords: seq<string>, black: seq<string>)
  {
    (forall j :: 0 <= j < |black| ==> !Occurs(black[j], l)) &&
    (forall j :: 0 <= j < |keywords| ==> Occurs(keywords[j], l))
  }

  /** The lines `check_keywords` collects, in order. */
  function Matches(lines: seq<string>, keywords: seq<string>, black: seq<string>): seq<string>
  {
    if lines == [] then []
    else
      var l := lines[|lines| - 1];
      Matches(lines[..|lines| - 1], keywords, black) + (if Selected(l, keywords, black) then [l] else [])
  }

  /** The collected lines are exactly the selected lines of the input. */
  lemma {:induction false} MatchesAre(lines: seq<string>, keywords: seq<string>, black: seq<string>)
    ensures |Matches(lines, keywords, black)| <= |lines|
    ensures forall l :: l in Matches(lines, keywords, black) <==> l in lines && Selected(l, keywords, black)
    decreases |lines|
  {
    if lines != [] {
      var init := lines[..|lines| - 1];
      MatchesAre(init, keywords, black);
      assert lines == init + [lines[|lines| - 1]];
    }
  }

  /** `check_keywords`: how many lines pass the black-keyword and keyword filters. */
  method CheckKeywords(lines: seq<string>, keywords: seq<string>, black: seq<string>) returns (count: nat)
    ensures count == |Matches(lines, keywords, black)|
  {
    var matched: seq<string> := [];
    for i := 0 to |lines|
      invariant matched == Matches(lines[..i], keywords, black)
    {
      var l := lines[i];
      assert lines[..i + 1][..i] == lines[..i];
      var isBlack := false;
      var b := 0;
      while b < |black|
        invariant 0 <= b <= |black|
        invariant isBlack <==> exists j :: 0 <= j < b && Occurs(black[j], l)
        invariant isBlack ==> b < |black|
      {
        if Occurs(black[b], l) {
          isBlack := true;
          break;
        }
        b := b + 1;
      }
      if isBlack {
        continue;
      }
      var flag := true;
      for t := 0 to |keywords|
        invariant flag <==> forall j :: 0 <= j < t ==> Occurs(keywords[j], l)
      {
        flag := flag && Occurs(keywords[t], l);
      }
      if flag {
        matched := matched + [l];
      }
    }
    assert lines[..|lines|] == lines;
    count := |matched|;
  }
}
