/**
 * The tiered pass scheduler in `main` of exp_scripts/bootstrap.py. Passes
 * are stable-sorted by `get_order` and cut to `num`. The longest prefix of
 * order <= 0 runs at once (the must-run tier), minus blacklisted hosts. The
 * rest waits in a queue.
 *
 * Each round of the `while` loop then does two things:
 *   - it polls every printer, dropping the finished ones; each finished
 *     printer whose order is at or above the frontier
 *     (`global_execution_order`) raises the frontier by one;
 *   - it pops and dispatches the queue head while its order is at or below
 *     the frontier.
 *
 * Dispatching (`execute_w_channel`) is logged and yields a fresh channel.
 * Running a local pass (`subprocess.run`) is logged.
 */
module Scheduling {
  import opened Wrappers
  import opened Seqs
  import opened PyValues
  import opened Printers
  import Shell

  // ---- list.sort(key=get_order) ----

  /** Places `p` before the first element whose key is not below its own. */
  function Insert<T>(key: T -> int, p: T, q: seq<T>): (r: seq<T>)
    ensures |r| == |q| + 1
  {
    if q == [] || key(p) <= key(q[0]) then [p] + q
    else [q[0]] + Insert(key, p, q[1..])
  }

  /** `list.sort(key=key)`: insertion sort, stable. */
  function SortBy<T>(key: T -> int, q: seq<T>): (r: seq<T>)
    ensures |r| == |q|
  {
    if q == [] then [] else Insert(key, q[0], SortBy(key, q[1..]))
  }

  predicate SortedBy<T>(key: T -> int, q: seq<T>)
  {
    forall i, j :: 0 <= i < j < |q| ==> key(q[i]) <= key(q[j])
  }

  /** The elements of `q` with key `k`, in their order in `q`. */
  function WithKey<T>(key: T -> int, q: seq<T>, k: int): seq<T>
  {
    if q == [] then []
    else (if key(q[0]) == k then [q[0]] else []) + WithKey(key, q[1..], k)
  }

  /** Inserting adds `p` and keeps everything else. */
  lemma {:induction false} InsertPerm<T>(key: T -> int, p: T, q: seq<T>)
    ensures multiset(Insert(key, p, q)) == multiset([p] + q)
    decreases |q|
  {
    if !(q == [] || key(p) <= key(q[0])) {
      InsertPerm(key, p, q[1..]);
      assert [q[0]] + q[1..] == q;
      assert multiset([p] + q) == multiset([q[0]]) + multiset([p] + q[1..]);
    }
  }

  /** Inserting an element of key at least `b` among elements of key at least `b` keeps that bound. */
  lemma {:induction false} InsertAbove<T>(key: T -> int, p: T, q: seq<T>, b: int)
    requires b <= key(p) && forall i :: 0 <= i < |q| ==> b <= key(q[i])
    ensures forall i :: 0 <= i < |Insert(key, p, q)| ==> b <= key(Insert(key, p, q)[i])
    decreases |q|
  {
    var r := Insert(key, p, q);
    if q == [] || key(p) <= key(q[0]) {
      assert forall i :: 1 <= i < |r| ==> r[i] == q[i - 1];
    } else {
      var t := Insert(key, p, q[1..]);
      InsertAbove(key, p, q[1..], b);
      assert forall i :: 1 <= i < |r| ==> r[i] == t[i - 1];
    }
  }

  lemma {:induction false} InsertSorted<T>(key: T -> int, p: T, q: seq<T>)
    requires SortedBy(key, q)
    ensures SortedBy(key, Insert(key, p, q))
    decreases |q|
  {
    var r := Insert(key, p, q);
    if q == [] || key(p) <= key(q[0]) {
      forall i, j | 0 <= i < j < |r|
        ensures key(r[i]) <= key(r[j])
      {
        assert r[j] == q[j - 1];
        if i > 0 {
          assert r[i] == q[i - 1];
        }
      }
    } else {
      var t := Insert(key, p, q[1..]);
      InsertSorted(key, p, q[1..]);
      InsertAbove(key, p, q[1..], key(q[0]));
      forall i, j | 0 <= i < j < |r|
        ensures key(r[i]) <= key(r[j])
      {
        assert r[j] == t[j - 1];
        if i > 0 {
          assert r[i] == t[i - 1];
        }
      }
    }
  }

  lemma {:induction false} InsertStable<T>(key: T -> int, p: T, q: seq<T>, k: int)
    ensures WithKey(key, Insert(key, p, q), k) == (if key(p) == k then [p] else []) + WithKey(key, q, k)
    decreases |q|
  {
    var hp := if key(p) == k then [p] else [];
    if q == [] || key(p) <= key(q[0]) {
      var r := [p] + q;
      assert r[0] == p && r[1..] == q;
      assert WithKey(key, r, k) == hp + WithKey(key, q, k);
    } else {
      var t := Insert(key, p, q[1..]);
      var r := [q[0]] + t;
      var h0 := if key(q[0]) == k then [q[0]] else [];
      InsertStable(key, p, q[1..], k);
      assert r[0] == q[0] && r[1..] == t;
      assert WithKey(key, r, k) == h0 + WithKey(key, t, k);
      assert WithKey(key, q, k) == h0 + WithKey(key, q[1..], k);
      assert h0 == [] || hp == [];
      assert h0 + (hp + WithKey(key, q[1..], k)) == hp + (h0 + WithKey(key, q[1..], k));
    }
  }

  /** The sort orders by key and keeps every element. */
  lemma {:induction false} SortSorted<T>(key: T -> int, q: seq<T>)
    ensures SortedBy(key, SortBy(key, q))
    ensures multiset(SortBy(key, q)) == multiset(q)
    decreases |q|
  {
    if q != [] {
      SortSorted(key, q[1..]);
      InsertSorted(key, q[0], SortBy(key, q[1..]));
      InsertPerm(key, q[0], SortBy(key, q[1..]));
      assert [q[0]] + q[1..] == q;
    }
  }

  /** The sort is stable: elements of equal key keep their order. */
  lemma {:induction false} SortStable<T>(key: T -> int, q: seq<T>, k: int)
    ensures WithKey(key, SortBy(key, q), k) == WithKey(key, q, k)
    decreases |q|
  {
    if q != [] {
      SortStable(key, q[1..], k);
      InsertStable(key, q[0], SortBy(key, q[1..]), k);
    }
  }

  /** `execution_queue.sort(key=get_order)`. */
  function SortByOrder(q: seq<Pass>): (r: seq<Pass>)
    ensures AllRunnable(q) ==> AllRunnable(r)
  {
    SortSorted(GetOrder, q);
    var r := SortBy(GetOrder, q);
    assert forall i :: 0 <= i < |r| ==> r[i] in multiset(q);
    r
  }

  /**
   * The run file's passes come out sorted by `get_order`, all of them, and
   * passes of equal order keep their run-file order.
   */
  lemma SortByOrderSorts(q: seq<Pass>, k: int)
    ensures SortedBy(GetOrder, SortByOrder(q))
    ensures multiset(SortByOrder(q)) == multiset(q)
    ensures WithKey(GetOrder, SortByOrder(q), k) == WithKey(GetOrder, q, k)
  {
    SortSorted(GetOrder, q);
    SortStable(GetOrder, q, k);
  }

  // ---- execution_queue[0:num] ----

  /** Python's slice `q[0:num]`: a negative `num` counts from the end. */
  function Take(q: seq<Pass>, num: int): (r: seq<Pass>)
    ensures num >= 0 ==> |r| == if num < |q| then num else |q|
    ensures num < 0 ==> |r| == if |q| + num > 0 then |q| + num else 0
    ensures r == q[..|r|]
    ensures AllRunnable(q) ==> AllRunnable(r)
  {
    if num >= 0 then (if num < |q| then q[..num] else q)
    else if |q| + num > 0 then q[..|q| + num]
    else []
  }

  lemma TakeSorted(q: seq<Pass>, num: int)
    requires SortedBy(GetOrder, q)
    ensures SortedBy(GetOrder, Take(q, num))
  {
    var r := Take(q, num);
    forall i, j | 0 <= i < j < |r|
      ensures GetOrder(r[i]) <= GetOrder(r[j])
    {
      assert r[i] == q[i] && r[j] == q[j];
    }
  }

  // ---- the must-run tier ----

  /** The length of the longest prefix of `q` whose orders are at most `f`. */
  function PrefixLen(q: seq<Pass>, f: int): (n: nat)
    ensures n <= |q|
  {
    if q == [] || GetOrder(q[0]) > f then 0 else 1 + PrefixLen(q[1..], f)
  }

  /** The prefix is the longest one: every pass in it is at most `f`, the next one (if any) is above. */
  lemma {:induction false} PrefixLenIs(q: seq<Pass>, f: int, n: nat)
    requires n <= |q|
    ensures PrefixLen(q, f) == n <==>
            (forall t :: 0 <= t < n ==> GetOrder(q[t]) <= f) && (n < |q| ==> GetOrder(q[n]) > f)
    decreases |q|
  {
    if q != [] && GetOrder(q[0]) <= f {
      if n > 0 {
        PrefixLenIs(q[1..], f, n - 1);
        assert forall t :: 1 <= t < n ==> q[1..][t - 1] == q[t];
      }
    }
  }

  /** After a sort, nothing above the must-run prefix is at or below `f`. */
  lemma PrefixLenSorted(q: seq<Pass>, f: int)
    requires SortedBy(GetOrder, q)
    ensures forall t :: PrefixLen(q, f) <= t < |q| ==> GetOrder(q[t]) > f
  {
    var n := PrefixLen(q, f);
    PrefixLenIs(q, f, n);
  }

  /**
   * The `idx` loop: counts the passes at the head whose order is at most `f`
   * and splits there into the must-run tier and the rest.
   */
  method SplitMustRun(q: seq<Pass>, f: int) returns (mustRun: seq<Pass>, rest: seq<Pass>)
    ensures mustRun + rest == q
    ensures forall t :: 0 <= t < |mustRun| ==> GetOrder(mustRun[t]) <= f
    ensures rest == [] || GetOrder(rest[0]) > f
    ensures mustRun == q[..PrefixLen(q, f)] && rest == q[PrefixLen(q, f)..]
    ensures AllRunnable(q) ==> AllRunnable(mustRun) && AllRunnable(rest)
  {
    var idx := -1;
    var j := 0;
    while j < |q|
      invariant 0 <= j <= |q| && idx == j - 1
      invariant forall t :: 0 <= t < j ==> GetOrder(q[t]) <= f
    {
      if GetOrder(q[j]) <= f {
        idx := idx + 1;
      } else {
        break;
      }
      j := j + 1;
    }
    mustRun := q[..idx + 1];
    rest := q[idx + 1..];
    PrefixLenIs(q, f, idx + 1);
  }

  // ---- passes and what dispatching them does ----

  /** A pass `main` can run: its host, command and path are strings (indexing a missing key raises). */
  predicate Runnable(p: Pass)
  {
    "host" in p && p["host"].Str? && "cmd" in p && p["cmd"].Str? && "path" in p && p["path"].Str?
  }

  predicate AllRunnable(ps: seq<Pass>)
  {
    forall i :: 0 <= i < |ps| ==> Runnable(ps[i])
  }

  /** `p.get("local", "no") == "yes"`. */
  predicate IsLocal(p: Pass)
  {
    "local" in p && p["local"] == Str("yes")
  }

  /**
   * What the must-run loop reads of a pass it reaches: the host always, the
   * command unless the host is blacklisted, and the path only when the pass
   * is neither blacklisted nor local.
   */
  predicate Emittable(p: Pass, black: set<string>)
  {
    "host" in p && p["host"].Str? &&
    (p["host"].s !in black ==>
       "cmd" in p && p["cmd"].Str? && (!IsLocal(p) ==> "path" in p && p["path"].Str?))
  }

  /** One `execute_w_channel` call: the host and the command line sent to it. */
  datatype Dispatch = Dispatch(host: string, line: string)

  /**
   * The dispatch of a pass: `p["cmd"] + " " + global_configs`, run in
   * `p["path"]`. A run file's courier never exports anything, so `str(envs)`
   * contributes "".
   */
  function DispatchOf(p: Pass, gc: string): (d: Dispatch)
    requires Runnable(p)
    ensures d.host == p["host"].s
  {
    Dispatch(p["host"].s, Shell.CommandLine(p["path"].s, "", p["cmd"].s + " " + gc))
  }

  /** Whether a pass's host is listed under `null`: such passes are dispatched but not followed. */
  predicate IsNull(p: Pass, nulls: seq<TomlValue>)
    requires Runnable(p)
  {
    p["host"] in nulls
  }

  /** A printer as the scheduler sees it: its name and its order. */
  datatype Followed = Followed(name: string, order: int)

  /** The follow record of a pass dispatched with index tag `i`: named `str(i) + host`. */
  function FollowOf(p: Pass, tag: string): (r: Followed)
    requires Runnable(p)
    ensures r.order == GetOrder(p)
  {
    Followed(tag + p["host"].s, GetOrder(p))
  }

  /** The dispatches of `ps`, in order. */
  function Dispatches(ps: seq<Pass>, gc: string): (r: seq<Dispatch>)
    requires AllRunnable(ps)
    ensures |r| == |ps|
  {
    if ps == [] then [] else Dispatches(ps[..|ps| - 1], gc) + [DispatchOf(ps[|ps| - 1], gc)]
  }

  /** The printers dispatching `ps` creates: one per pass whose host is not null, all labelled `tag`. */
  function Follows(ps: seq<Pass>, nulls: seq<TomlValue>, tag: string): (r: seq<Followed>)
    requires AllRunnable(ps)
    ensures |r| <= |ps|
  {
    if ps == [] then []
    else
      var p := ps[|ps| - 1];
      Follows(ps[..|ps| - 1], nulls, tag) + (if IsNull(p, nulls) then [] else [FollowOf(p, tag)])
  }

  /** Passes whose host is null never get a printer, and every printer follows one of the passes. */
  lemma {:induction false} FollowsOf(ps: seq<Pass>, nulls: seq<TomlValue>, tag: string)
    requires AllRunnable(ps)
    ensures (forall i :: 0 <= i < |ps| ==> IsNull(ps[i], nulls)) ==> Follows(ps, nulls, tag) == []
    ensures forall x :: x in Follows(ps, nulls, tag) ==>
              exists i :: 0 <= i < |ps| && !IsNull(ps[i], nulls) && x == FollowOf(ps[i], tag)
    decreases |ps|
  {
    if ps != [] {
      var init := ps[..|ps| - 1];
      FollowsOf(init, nulls, tag);
      forall x | x in Follows(ps, nulls, tag)
        ensures exists i :: 0 <= i < |ps| && !IsNull(ps[i], nulls) && x == FollowOf(ps[i], tag)
      {
        if x in Follows(init, nulls, tag) {
          var i :| 0 <= i < |init| && !IsNull(init[i], nulls) && x == FollowOf(init[i], tag);
          assert ps[i] == init[i];
        } else {
          assert x == FollowOf(ps[|ps| - 1], tag);
        }
      }
    }
  }

  /**
   * What the must-run loop has done so far: its `runned` counter, the last
   * index `i` it took (None before the first), dispatches, local runs and
   * new printers.
   */
  datatype Effects = Effects(runned: int, last: Option<int>, dispatched: seq<Dispatch>, localRuns: seq<string>, follows: seq<Followed>)

  /** The effects of the must-run loop's iteration for index `i`, when `runned <= num`. */
  function EmitOne(p: Pass, i: nat, black: set<string>, nulls: seq<TomlValue>, gc: string, e: Effects): Effects
    requires Emittable(p, black)
  {
    var e := e.(last := Some(i));
    if p["host"].s in black then e
    else if IsLocal(p) then e.(runned := e.runned + 1, localRuns := e.localRuns + [p["cmd"].s])
    else e.(runned := e.runned + 1, dispatched := e.dispatched + [DispatchOf(p, gc)],
            follows := e.follows + (if IsNull(p, nulls) then [] else [FollowOf(p, Show(i))]))
  }

  /**
   * The must-run loop (`for (i, p) in enumerate(must_run_queue)`) from index
   * `i` and effects `e` on: stop once `runned > num`, skip blacklisted hosts,
   * run local passes with `subprocess.run`, dispatch the others and follow
   * them unless their host is null.
   */
  /**
   * Every pass the must-run loop reaches from index `i` with counter `runned`
   * is one it can read; passes after the `runned > num` break are never read.
   */
  predicate EmitReads(must: seq<Pass>, num: int, black: set<string>, i: nat, runned: int)
    requires i <= |must|
    decreases |must| - i
  {
    i == |must| || runned > num ||
    (Emittable(must[i], black) &&
     EmitReads(must, num, black, i + 1, if must[i]["host"].s in black then runned else runned + 1))
  }

  /** A tier of fully runnable passes can always be read, wherever the loop stops. */
  lemma {:induction false} EmitReadsRunnable(must: seq<Pass>, num: int, black: set<string>, i: nat, runned: int)
    requires i <= |must| && AllRunnable(must)
    ensures EmitReads(must, num, black, i, runned)
    decreases |must| - i
  {
    if i < |must| && runned <= num {
      EmitReadsRunnable(must, num, black, i + 1, if must[i]["host"].s in black then runned else runned + 1);
    }
  }

  function Emit(must: seq<Pass>, num: int, black: set<string>, nulls: seq<TomlValue>, gc: string, i: nat, e: Effects): Effects
    requires i <= |must| && EmitReads(must, num, black, i, e.runned)
    decreases |must| - i
  {
    if i == |must| then e
    else if e.runned > num then e.(last := Some(i))
    else Emit(must, num, black, nulls, gc, i + 1, EmitOne(must[i], i, black, nulls, gc, e))
  }

  /**
   * The must-run loop never dispatches a blacklisted host, follows only
   * passes of the tier whose host is neither null nor blacklisted, never
   * counts past `num + 1`, and sets `i` as soon as the tier is not empty.
   */
  lemma {:induction false} EmitRespects(must: seq<Pass>, num: int, black: set<string>, nulls: seq<TomlValue>, gc: string, i: nat, e: Effects)
    requires i <= |must| && EmitReads(must, num, black, i, e.runned)
    ensures var r := Emit(must, num, black, nulls, gc, i, e);
            (forall d :: d in r.dispatched ==> d in e.dispatched || d.host !in black) &&
            (forall x :: x in r.follows ==>
               x in e.follows ||
               exists j :: i <= j < |must| && Runnable(must[j]) && must[j]["host"].s !in black &&
                           !IsNull(must[j], nulls) && x == FollowOf(must[j], Show(j))) &&
            e.runned <= r.runned <= (if e.runned > num + 1 then e.runned else num + 1) &&
            r.runned - e.runned <= |must| - i &&
            (i < |must| ==> r.last.Some?) && (i == |must| ==> r == e)
    decreases |must| - i
  {
    if i < |must| && e.runned <= num {
      var e' := EmitOne(must[i], i, black, nulls, gc, e);
      EmitRespects(must, num, black, nulls, gc, i + 1, e');
      var r := Emit(must, num, black, nulls, gc, i, e);
      forall x | x in r.follows && x !in e.follows
        ensures exists j :: i <= j < |must| && Runnable(must[j]) && must[j]["host"].s !in black &&
                            !IsNull(must[j], nulls) && x == FollowOf(must[j], Show(j))
      {
        if x in e'.follows {
          assert x == FollowOf(must[i], Show(i));
        }
      }
    }
  }

  // ---- the scheduler state ----

  /** The follow records of the printers, in order. */
  function FollowsOfPrinters(ps: seq<RunPrinter>): (r: seq<Followed>)
    ensures |r| == |ps|
  {
    if ps == [] then [] else FollowsOfPrinters(ps[..|ps| - 1]) + [Followed(ps[|ps| - 1].name, ps[|ps| - 1].order)]
  }

  /** Each printer follows a channel of its own. */
  predicate OwnChannels(ps: seq<RunPrinter>)
  {
    forall i, j :: 0 <= i < j < |ps| ==> ps[i].c != ps[j].c
  }

  /** What a channel holds: its unread stdout and stderr chunks and whether the exit status arrived. */
  datatype ChannelState = ChannelState(stdout: seq<Chunk>, stderr: seq<Chunk>, exited: bool)

  function StateOf(c: Channel): ChannelState
    reads c
  {
    ChannelState(c.stdout, c.stderr, c.exited)
  }

  /** The states of the printers' channels. */
  function States(ps: seq<RunPrinter>): (r: seq<ChannelState>)
    reads set i | 0 <= i < |ps| :: ps[i].c
    ensures |r| == |ps|
  {
    if ps == [] then [] else States(ps[..|ps| - 1]) + [StateOf(ps[|ps| - 1].c)]
  }

  lemma {:induction false} StatesAt(ps: seq<RunPrinter>)
    ensures forall i :: 0 <= i < |ps| ==> States(ps)[i] == StateOf(ps[i].c)
    decreases |ps|
  {
    if ps != [] {
      StatesAt(ps[..|ps| - 1]);
    }
  }

  /**
   * A channel after one `print_one`: drained once its exit status arrived,
   * otherwise one chunk lighter on each queue that had one.
   */
  function AfterPoll(s: ChannelState): ChannelState
  {
    if s.exited then ChannelState([], [], true) else ChannelState(Rest(s.stdout), Rest(s.stderr), false)
  }

  /** The channels of `ps`, which were in states `ss`, after one `print_one` each. */
  ghost predicate AllPolled(ps: seq<RunPrinter>, ss: seq<ChannelState>)
    reads set j | 0 <= j < |ps| :: ps[j].c
  {
    |ss| == |ps| && forall j :: 0 <= j < |ps| ==> StateOf(ps[j].c) == AfterPoll(ss[j])
  }

  /** The printers of `ps` from `k` on follow channels that have received nothing yet. */
  ghost predicate OpenedFrom(ps: seq<RunPrinter>, k: nat)
    reads set j | 0 <= j < |ps| :: ps[j].c
  {
    forall j :: k <= j < |ps| ==> StateOf(ps[j].c) == Opened
  }

  /** Channel `j` once the first `i` channels have been polled. */
  function PolledTo(ss: seq<ChannelState>, i: int, j: int): ChannelState
    requires 0 <= j < |ss|
  {
    if j < i then AfterPoll(ss[j]) else ss[j]
  }

  /** A channel `execute_w_channel` has just opened: nothing received yet. */
  const Opened := ChannelState([], [], false)

  /** Which of the channels have their exit status. */
  function Flags(ss: seq<ChannelState>): (r: seq<bool>)
    ensures |r| == |ss|
  {
    if ss == [] then [] else Flags(ss[..|ss| - 1]) + [ss[|ss| - 1].exited]
  }

  lemma {:induction false} FlagsAt(ss: seq<ChannelState>)
    ensures forall i :: 0 <= i < |ss| ==> Flags(ss)[i] == ss[i].exited
    decreases |ss|
  {
    if ss != [] {
      FlagsAt(ss[..|ss| - 1]);
    }
  }

  /** What polling each channel once prints, channel by channel. */
  function PolledAll(ss: seq<ChannelState>): seq<Output>
  {
    if ss == [] then []
    else
      var s := ss[|ss| - 1];
      PolledAll(ss[..|ss| - 1]) + Polled(s.stdout, s.stderr, s.exited)
  }

  /** The printers still running, in their order. */
  function Kept(ps: seq<RunPrinter>, done: seq<bool>): (r: seq<RunPrinter>)
    requires |done| == |ps|
    ensures |r| <= |ps|
    ensures forall x :: x in r ==> x in ps
  {
    if ps == [] then []
    else Kept(ps[..|ps| - 1], done[..|ps| - 1]) + (if done[|ps| - 1] then [] else [ps[|ps| - 1]])
  }

  /** The frontier after the finished printers, taken in order, each raise it by one when it is at most their order. */
  function Advance(f: int, ps: seq<RunPrinter>, done: seq<bool>): int
    requires |done| == |ps|
  {
    if ps == [] then f
    else
      var g := Advance(f, ps[..|ps| - 1], done[..|ps| - 1]);
      if done[|ps| - 1] && g <= ps[|ps| - 1].order then g + 1 else g
  }

  function CountTrue(done: seq<bool>): nat
  {
    if done == [] then 0 else CountTrue(done[..|done| - 1]) + (if done[|done| - 1] then 1 else 0)
  }

  /** The frontier never goes down and rises by at most the number of finished printers. */
  lemma {:induction false} AdvanceBounds(f: int, ps: seq<RunPrinter>, done: seq<bool>)
    requires |done| == |ps|
    ensures f <= Advance(f, ps, done) <= f + CountTrue(done)
    decreases |ps|
  {
    if ps != [] {
      AdvanceBounds(f, ps[..|ps| - 1], done[..|ps| - 1]);
    }
  }

  /** With no printer finished, the frontier stays where it is. */
  lemma {:induction false} AdvanceNothingDone(f: int, ps: seq<RunPrinter>, done: seq<bool>)
    requires |done| == |ps| && forall i :: 0 <= i < |done| ==> !done[i]
    ensures Advance(f, ps, done) == f
    decreases |ps|
  {
    if ps != [] {
      AdvanceNothingDone(f, ps[..|ps| - 1], done[..|ps| - 1]);
    }
  }

  /** Exactly the unfinished printers are kept. */
  lemma {:induction false} KeptCount(ps: seq<RunPrinter>, done: seq<bool>)
    requires |done| == |ps|
    ensures |Kept(ps, done)| + CountTrue(done) == |ps|
    decreases |ps|
  {
    if ps != [] {
      KeptCount(ps[..|ps| - 1], done[..|ps| - 1]);
    }
  }

  /** The kept printers still follow pairwise different channels. */
  lemma {:induction false} KeptOwnChannels(ps: seq<RunPrinter>, done: seq<bool>)
    requires |done| == |ps| && OwnChannels(ps)
    ensures OwnChannels(Kept(ps, done))
    decreases |ps|
  {
    if ps != [] {
      var init := ps[..|ps| - 1];
      var last := ps[|ps| - 1];
      KeptOwnChannels(init, done[..|ps| - 1]);
      var r0 := Kept(init, done[..|ps| - 1]);
      forall x | x in r0
        ensures x.c != last.c
      {
        var t :| 0 <= t < |init| && init[t] == x;
      }
      if !done[|ps| - 1] {
        var r := r0 + [last];
        forall i, j | 0 <= i < j < |r|
          ensures r[i].c != r[j].c
        {
          if j == |r0| {
            assert r[i] in r0;
          } else {
            assert r[i] == r0[i] && r[j] == r0[j];
          }
        }
      }
    }
  }

  /** The name part of a refill printer: `str(i)` of the must-run loop's last index. */
  function Label(last: Option<int>): string
  {
    if last.Some? then Show(last.value) else ""
  }

  /** The `RunPrinter` for the channel `execute_w_channel` just opened. */
  method NewPrinter(name: string, order: int) returns (pr: RunPrinter)
    ensures fresh(pr) && fresh(pr.c) && StateOf(pr.c) == Opened
    ensures pr.name == name && pr.order == order
  {
    var ch := new Channel();
    pr := new RunPrinter(name, ch, order);
  }

  /**
   * `printer.append(RunPrinter(str(i) + p["host"], res, get_order(p)))`
   * unless the host of `p` is null; `tag` is `str(i)`.
   */
  method FollowUnlessNull(p: Pass, nulls: seq<TomlValue>, tag: string, ps: seq<RunPrinter>) returns (ps': seq<RunPrinter>)
    requires Runnable(p) && OwnChannels(ps)
    ensures FollowsOfPrinters(ps') == FollowsOfPrinters(ps) + (if IsNull(p, nulls) then [] else [FollowOf(p, tag)])
    ensures |ps| <= |ps'| && ps'[..|ps|] == ps && OwnChannels(ps')
    ensures forall j :: |ps| <= j < |ps'| ==> fresh(ps'[j].c) && StateOf(ps'[j].c) == Opened
  {
    ps' := ps;
    if !IsNull(p, nulls) {
      var pr := NewPrinter(tag + p["host"].s, GetOrder(p));
      SnocPrinter(ps, pr);
      ps' := ps + [pr];
    }
  }

  /** Following (or not) the pass at `n` keeps the printers in step with the popped prefix. */
  lemma FollowStep(ps0: seq<RunPrinter>, ps: seq<RunPrinter>, ps': seq<RunPrinter>, queue: seq<Pass>, n: nat,
                   nulls: seq<TomlValue>, tag: string)
    requires n < |queue| && AllRunnable(queue)
    requires FollowsOfPrinters(ps) == FollowsOfPrinters(ps0) + Follows(queue[..n], nulls, tag)
    requires FollowsOfPrinters(ps') ==
             FollowsOfPrinters(ps) + (if IsNull(queue[n], nulls) then [] else [FollowOf(queue[n], tag)])
    ensures FollowsOfPrinters(ps') == FollowsOfPrinters(ps0) + Follows(queue[..n + 1], nulls, tag)
  {
    var pre := queue[..n + 1];
    assert pre[..|pre| - 1] == queue[..n] && pre[|pre| - 1] == queue[n];
    var x := if IsNull(queue[n], nulls) then [] else [FollowOf(queue[n], tag)];
    assert Follows(pre, nulls, tag) == Follows(queue[..n], nulls, tag) + x;
    AppendAssoc(FollowsOfPrinters(ps0), Follows(queue[..n], nulls, tag), x);
  }

  /** One more printer. */
  lemma SnocPrinter(ps: seq<RunPrinter>, pr: RunPrinter)
    ensures FollowsOfPrinters(ps + [pr]) == FollowsOfPrinters(ps) + [Followed(pr.name, pr.order)]
    ensures (ps + [pr])[..|ps|] == ps
  {
    var s := ps + [pr];
    assert s[..|s| - 1] == ps && s[|s| - 1] == pr;
  }

  /** One more printer polled. */
  lemma SweepStep(ps: seq<RunPrinter>, ss: seq<ChannelState>, done: seq<bool>, i: nat, f: int)
    requires i < |ps| == |ss| == |done|
    ensures Kept(ps[..i + 1], done[..i + 1]) == Kept(ps[..i], done[..i]) + (if done[i] then [] else [ps[i]])
    ensures var g := Advance(f, ps[..i], done[..i]);
            Advance(f, ps[..i + 1], done[..i + 1]) == if done[i] && g <= ps[i].order then g + 1 else g
    ensures PolledAll(ss[..i + 1]) == PolledAll(ss[..i]) + Polled(ss[i].stdout, ss[i].stderr, ss[i].exited)
  {
    assert ps[..i + 1][..i] == ps[..i] && done[..i + 1][..i] == done[..i] && ss[..i + 1][..i] == ss[..i];
  }

  /**
   * The `for p in printer` loop over printers whose channels are in states
   * `ss`: polls each, keeps the running ones in `temp`, and raises the
   * frontier `f` for each finished one whose order it does not exceed.
   */
  method PollAll(ps: seq<RunPrinter>, ghost ss: seq<ChannelState>, f0: int) returns (printed: seq<Output>, temp: seq<RunPrinter>, f: int)
    requires OwnChannels(ps) && |ss| == |ps|
    requires forall j :: 0 <= j < |ps| ==> StateOf(ps[j].c) == ss[j]
    modifies set j | 0 <= j < |ps| :: ps[j].c
    ensures printed == PolledAll(ss)
    ensures temp == Kept(ps, Flags(ss))
    ensures f == Advance(f0, ps, Flags(ss))
    ensures AllPolled(ps, ss)
  {
    ghost var done := Flags(ss);
    FlagsAt(ss);
    printed, temp, f := [], [], f0;
    for i := 0 to |ps|
      invariant forall j :: 0 <= j < |ps| ==> StateOf(ps[j].c) == PolledTo(ss, i, j)
      invariant printed == PolledAll(ss[..i])
      invariant temp == Kept(ps[..i], done[..i])
      invariant f == Advance(f0, ps[..i], done[..i])
    {
      printed, temp, f := PollOne(ps, ss, done, i, f0, printed, temp, f);
    }
    assert ps[..|ps|] == ps && done[..|ps|] == done && ss[..|ps|] == ss;
  }

  /**
   * One turn of the `for p in printer` loop: `print_one` on printer `i`, which
   * joins `temp` while it runs and raises the frontier once it is done.
   */
  method PollOne(ps: seq<RunPrinter>, ghost ss: seq<ChannelState>, ghost done: seq<bool>, i: nat, ghost f0: int,
                 printed: seq<Output>, temp: seq<RunPrinter>, f: int)
    returns (printed': seq<Output>, temp': seq<RunPrinter>, f': int)
    requires OwnChannels(ps) && |ss| == |ps| == |done| && i < |ps| && done[i] == ss[i].exited
    requires forall j :: 0 <= j < |ps| ==> StateOf(ps[j].c) == PolledTo(ss, i, j)
    requires printed == PolledAll(ss[..i]) && temp == Kept(ps[..i], done[..i]) && f == Advance(f0, ps[..i], done[..i])
    modifies ps[i].c
    ensures forall j :: 0 <= j < |ps| ==> StateOf(ps[j].c) == PolledTo(ss, i + 1, j)
    ensures printed' == PolledAll(ss[..i + 1]) && temp' == Kept(ps[..i + 1], done[..i + 1])
    ensures f' == Advance(f0, ps[..i + 1], done[..i + 1])
  {
    var p := ps[i];
    assert StateOf(p.c) == ss[i];
    assert p.c.exited == done[i] && p.c.stdout == ss[i].stdout && p.c.stderr == ss[i].stderr;
    var running, out := p.PrintOne();
    assert running == !done[i];
    SweepStep(ps, ss, done, i, f0);
    printed', temp', f' := printed + out, temp, f;
    if running {
      temp' := temp + [p];
    } else if f <= p.order {
      f' := f + 1;
    }
  }

  /**
   * The refill loop: pops the queue head and dispatches it while its order is
   * at or below the frontier `f`; non-null hosts are followed by printers
   * named after the must-run loop's last index `last`, which is bound
   * whenever a pass is ready.
   */
  method PopReady(queue: seq<Pass>, f: int, nulls: seq<TomlValue>, gc: string, last: Option<int>, ps0: seq<RunPrinter>)
    returns (q: seq<Pass>, sent: seq<Dispatch>, ps: seq<RunPrinter>)
    requires AllRunnable(queue) && OwnChannels(ps0)
    requires last.None? ==> queue == [] || GetOrder(queue[0]) > f
    ensures var k := PrefixLen(queue, f);
            q == queue[k..] && sent == Dispatches(queue[..k], gc) &&
            FollowsOfPrinters(ps) == FollowsOfPrinters(ps0) + Follows(queue[..k], nulls, Label(last)) &&
            |ps0| <= |ps| && ps[..|ps0|] == ps0
    ensures forall j :: |ps0| <= j < |ps| ==> fresh(ps[j].c) && StateOf(ps[j].c) == Opened
    ensures OwnChannels(ps) && AllRunnable(q)
    ensures q == [] || GetOrder(q[0]) > f
  {
    q, sent, ps := queue, [], ps0;
    var n := 0;
    RefillStart(queue, f, nulls, gc, last, ps0);
    while q != [] && GetOrder(q[0]) <= f
      invariant Refilling(queue, f, nulls, gc, last, ps0, n, q, sent, ps)
      invariant forall j :: |ps0| <= j < |ps| ==> fresh(ps[j].c) && StateOf(ps[j].c) == Opened
      decreases |q|
    {
      ghost var before := ps;
      q, sent, ps := PopOne(queue, f, nulls, gc, last, ps0, n, q, sent, ps);
      n := n + 1;
      forall j | |ps0| <= j < |before|
        ensures ps[j] == before[j]
      {
      }
    }
    RefillDone(queue, f, nulls, gc, last, ps0, n, q, sent, ps);
  }

  /** Before the first turn the refill loop has popped nothing. */
  lemma RefillStart(queue: seq<Pass>, f: int, nulls: seq<TomlValue>, gc: string, last: Option<int>, ps0: seq<RunPrinter>)
    requires AllRunnable(queue) && OwnChannels(ps0)
    requires last.None? ==> queue == [] || GetOrder(queue[0]) > f
    ensures Refilling(queue, f, nulls, gc, last, ps0, 0, queue, [], ps0)
  {
    assert queue[..0] == [] && queue[0..] == queue && ps0[..|ps0|] == ps0;
  }

  /** Once the head is above the frontier, the refill loop has popped exactly the longest prefix at or below it. */
  lemma RefillDone(queue: seq<Pass>, f: int, nulls: seq<TomlValue>, gc: string, last: Option<int>,
                   ps0: seq<RunPrinter>, n: nat, q: seq<Pass>, sent: seq<Dispatch>, ps: seq<RunPrinter>)
    requires Refilling(queue, f, nulls, gc, last, ps0, n, q, sent, ps)
    requires q == [] || GetOrder(q[0]) > f
    ensures var k := PrefixLen(queue, f);
            q == queue[k..] && sent == Dispatches(queue[..k], gc) &&
            FollowsOfPrinters(ps) == FollowsOfPrinters(ps0) + Follows(queue[..k], nulls, Label(last)) &&
            |ps0| <= |ps| && ps[..|ps0|] == ps0
    ensures OwnChannels(ps) && AllRunnable(q)
  {
  }

  /**
   * The refill loop after popping `n` passes: `q` is the rest of the queue,
   * `sent` the dispatches so far and `ps` extends `ps0` with their printers.
   */
  ghost predicate Refilling(queue: seq<Pass>, f: int, nulls: seq<TomlValue>, gc: string, last: Option<int>,
                            ps0: seq<RunPrinter>, n: nat, q: seq<Pass>, sent: seq<Dispatch>, ps: seq<RunPrinter>)
  {
    AllRunnable(queue) && n <= |queue| && q == queue[n..] &&
    PrefixLen(queue, f) == n + PrefixLen(q, f) &&
    sent == Dispatches(queue[..n], gc) &&
    FollowsOfPrinters(ps) == FollowsOfPrinters(ps0) + Follows(queue[..n], nulls, Label(last)) &&
    |ps0| <= |ps| && ps[..|ps0|] == ps0 && OwnChannels(ps) &&
    (last.None? ==> n == 0 && (queue == [] || GetOrder(queue[0]) > f))
  }

  /**
   * One turn of the refill loop: the head `queue[n]`, at or below the
   * frontier, is popped, dispatched and, unless its host is null, followed
   * by a printer labelled with `last`.
   */
  method PopOne(queue: seq<Pass>, f: int, nulls: seq<TomlValue>, gc: string, last: Option<int>, ghost ps0: seq<RunPrinter>,
                n: nat, q: seq<Pass>, sent: seq<Dispatch>, ps: seq<RunPrinter>)
    returns (q': seq<Pass>, sent': seq<Dispatch>, ps': seq<RunPrinter>)
    requires Refilling(queue, f, nulls, gc, last, ps0, n, q, sent, ps) && q != [] && GetOrder(q[0]) <= f
    ensures Refilling(queue, f, nulls, gc, last, ps0, n + 1, q', sent', ps')
    ensures |ps| <= |ps'| && ps'[..|ps|] == ps
    ensures forall j :: |ps| <= j < |ps'| ==> fresh(ps'[j].c) && StateOf(ps'[j].c) == Opened
  {
    PopStep(queue, n, f);
    var p := q[0];
    assert queue[..n + 1][..n] == queue[..n];
    sent' := sent + [DispatchOf(p, gc)];
    var tag := Show(last.value);
    assert tag == Label(last);
    ps' := FollowUnlessNull(p, nulls, tag, ps);
    FollowStep(ps0, ps, ps', queue, n, nulls, tag);
    PrefixTrans(ps0, ps, ps');
    q' := q[1..];
  }

  /** Popping `queue[n]` extends the popped prefix by it. */
  lemma PopStep(queue: seq<Pass>, n: nat, f: int)
    requires n < |queue| && AllRunnable(queue) && GetOrder(queue[n]) <= f
    ensures queue[n..][0] == queue[n] && queue[n..][1..] == queue[n + 1..]
    ensures PrefixLen(queue[n..], f) == 1 + PrefixLen(queue[n + 1..], f)
  {
  }

  /**
   * The must-run loop (`for (i, p) in enumerate(must_run_queue)`) from the
   * counter `runned0`, the index `last0` a previous run file left, and the
   * printers `ps0`: returns the new counter and index, the dispatches and
   * local runs it made, and the printers.
   */
  method StartMustRun(must: seq<Pass>, num: int, black: set<string>, nulls: seq<TomlValue>, gc: string,
                      runned0: int, last0: Option<int>, ps0: seq<RunPrinter>)
    returns (run: int, last: Option<int>, sent: seq<Dispatch>, locs: seq<string>, ps: seq<RunPrinter>)
    requires EmitReads(must, num, black, 0, runned0) && OwnChannels(ps0)
    ensures var e := Emit(must, num, black, nulls, gc, 0, Effects(runned0, last0, [], [], []));
            run == e.runned && last == e.last && sent == e.dispatched && locs == e.localRuns &&
            FollowsOfPrinters(ps) == FollowsOfPrinters(ps0) + e.follows
    ensures |ps0| <= |ps| && ps[..|ps0|] == ps0 && OwnChannels(ps)
    ensures last.None? ==> last0.None? && must == [] && ps == ps0
  {
    ghost var e0 := Effects(runned0, last0, [], [], []);
    ghost var e := e0;
    run, last, sent, locs, ps := runned0, last0, [], [], ps0;
    for i := 0 to |must|
      invariant EmitReads(must, num, black, i, e.runned)
      invariant Emit(must, num, black, nulls, gc, 0, e0) == Emit(must, num, black, nulls, gc, i, e)
      invariant run == e.runned && last == e.last && sent == e.dispatched && locs == e.localRuns
      invariant FollowsOfPrinters(ps) == FollowsOfPrinters(ps0) + e.follows
      invariant |ps0| <= |ps| && ps[..|ps0|] == ps0 && OwnChannels(ps)
      invariant i == 0 ==> last == last0 && ps == ps0
      invariant i > 0 ==> last.Some?
    {
      var p := must[i];
      last := Some(i);
      if run > num {
        e := e.(last := Some(i));
        break;
      }
      ghost var follows0 := e.follows;
      e := EmitOne(p, i, black, nulls, gc, e);
      if p["host"].s in black {
        continue;
      }
      run := run + 1;
      if IsLocal(p) {
        locs := locs + [p["cmd"].s];
      } else {
        sent := sent + [DispatchOf(p, gc)];
        ghost var before := ps;
        ps := FollowUnlessNull(p, nulls, Show(i), ps);
        PrefixTrans(ps0, before, ps);
        AppendAssoc(FollowsOfPrinters(ps0), follows0, if IsNull(p, nulls) then [] else [FollowOf(p, Show(i))]);
      }
    }
  }

  /**
   * What one run file's passes must offer for `main` to get through them
   * without raising: the must-run tier (after the sort and the cut to `num`)
   * is read as far as the loop reaches, and every queued pass has a host, a
   * command and a path, since the refill loop reads all three.  Passes the
   * cut drops are only ever given to `get_order`, which accepts anything.
   */
  predicate LoadReads(passes: seq<Pass>, num: int, black: set<string>, runned0: int)
  {
    var q := Take(SortByOrder(passes), num);
    var k := PrefixLen(q, 0);
    EmitReads(q[..k], num, black, 0, runned0) && AllRunnable(q[k..])
  }

  /** The requirement is weaker than asking every pass of the run file to be runnable. */
  lemma LoadReadsRunnable(passes: seq<Pass>, num: int, black: set<string>, runned0: int)
    requires AllRunnable(passes)
    ensures LoadReads(passes, num, black, runned0)
  {
    var q := Take(SortByOrder(passes), num);
    var k := PrefixLen(q, 0);
    EmitReadsRunnable(q[..k], num, black, 0, runned0);
  }

  /** A pass the cut to `num` drops is never read: here the second pass has nothing but an order. */
  lemma CutPassNeedsNothing()
    ensures var passes := [map["host" := Str("a"), "cmd" := Str("x"), "path" := Str("/"), "order" := Int(0)],
                           map["order" := Int(1)]];
            LoadReads(passes, 1, {}, 0) && !AllRunnable(passes)
  {
    var p0 := map["host" := Str("a"), "cmd" := Str("x"), "path" := Str("/"), "order" := Int(0)];
    var p1: Pass := map["order" := Int(1)];
    assert GetOrder(p0) == 0 && GetOrder(p1) == 1;
    assert [p0, p1][1..] == [p1] && [p1][1..] == [];
    assert SortBy(GetOrder, [p1]) == [p1];
    assert SortByOrder([p0, p1]) == [p0, p1];
    assert Take([p0, p1], 1) == [p0];
    assert !Runnable([p0, p1][1]);
  }

  /** A local must-run pass is run without its path ever being read. */
  lemma LocalPassNeedsNoPath()
    ensures var passes := [map["host" := Str("h"), "cmd" := Str("make"), "local" := Str("yes"), "order" := Int(0)]];
            LoadReads(passes, 1, {}, 0) && !AllRunnable(passes)
  {
    var p0 := map["host" := Str("h"), "cmd" := Str("make"), "local" := Str("yes"), "order" := Int(0)];
    assert [p0][1..] == [];
    assert SortByOrder([p0]) == [p0];
    assert !Runnable([p0][0]);
  }

  /**
   * A blacklisted pass only has its host read, and once `runned` is past `num`
   * the must-run loop reads nothing at all.
   */
  lemma SkippedPassesNeedNoCommand()
    ensures var blocked: Pass := map["host" := Str("b"), "order" := Int(0)];
            LoadReads([blocked], 1, {"b"}, 0) && !AllRunnable([blocked])
    ensures var bare: Pass := map["order" := Int(0)];
            LoadReads([bare], 1, {}, 2) && !AllRunnable([bare])
  {
    var blocked: Pass := map["host" := Str("b"), "order" := Int(0)];
    var bare: Pass := map["order" := Int(0)];
    assert [blocked][1..] == [] && [bare][1..] == [];
    assert SortByOrder([blocked]) == [blocked] && SortByOrder([bare]) == [bare];
    assert !Runnable([blocked][0]) && !Runnable([bare][0]);
  }

  /**
   * One run file from the counter `runned0`, the index `last0` and the
   * printers `ps0`: sorts the passes, cuts them to `num`, starts the
   * must-run tier and returns the rest, which waits for the frontier.
   */
  method LoadRunFile(passes: seq<Pass>, num: int, black: set<string>, nulls: seq<TomlValue>, gc: string,
                     runned0: int, last0: Option<int>, ps0: seq<RunPrinter>)
    returns (rest: seq<Pass>, run: int, last: Option<int>, sent: seq<Dispatch>, locs: seq<string>, ps: seq<RunPrinter>)
    requires LoadReads(passes, num, black, runned0) && OwnChannels(ps0)
    ensures var q := Take(SortByOrder(passes), num);
            var k := PrefixLen(q, 0);
            var e := Emit(q[..k], num, black, nulls, gc, 0, Effects(runned0, last0, [], [], []));
            rest == q[k..] && run == e.runned && last == e.last && sent == e.dispatched && locs == e.localRuns &&
            FollowsOfPrinters(ps) == FollowsOfPrinters(ps0) + e.follows
    ensures |ps0| <= |ps| && ps[..|ps0|] == ps0 && OwnChannels(ps)
    ensures AllRunnable(rest) && (rest == [] || GetOrder(rest[0]) > 0)
    ensures last.None? ==> last0.None? && |ps| == |ps0|
  {
    var q := SortByOrder(passes);
    q := Take(q, num);
    var must;
    must, rest := SplitMustRun(q, 0);
    run, last, sent, locs, ps := StartMustRun(must, num, black, nulls, gc, runned0, last0, ps0);
  }

  class Scheduler {
    /** `printer`: the passes being followed. */
    var printers: seq<RunPrinter>
    /** `execution_queue`: the passes waiting for the frontier. */
    var queue: seq<Pass>
    /** `global_execution_order`. */
    var frontier: int
    /** `runned`: must-run passes started, across run files. */
    var runned: int
    /** `i`: the last index the must-run loop took, across run files; None while it is unbound. */
    var lastIndex: Option<int>
    /** `config.get("null", [])` and `global_configs` of the last run file loaded. */
    var nulls: seq<TomlValue>
    var globalConfigs: string
    /** Every `execute_w_channel` call so far. */
    var dispatched: seq<Dispatch>
    /** Every `subprocess.run` so far, by command. */
    var localRuns: seq<string>

    /**
     * Each printer follows its own channel and every queued pass can run.
     * While `i` is unbound nothing has been followed and the queue head is
     * beyond the frontier, so the refill loop never reads `i` unbound.
     */
    ghost predicate Valid()
      reads this
    {
      OwnChannels(printers) && AllRunnable(queue) &&
      (lastIndex.None? ==> printers == [] && frontier == 0 && (queue == [] || GetOrder(queue[0]) > 0))
    }

    constructor ()
      ensures Valid()
      ensures printers == [] && queue == [] && frontier == 0 && runned == 0 && lastIndex == None
      ensures dispatched == [] && localRuns == [] && nulls == [] && globalConfigs == ""
    {
      printers := [];
      queue := [];
      frontier := 0;
      runned := 0;
      lastIndex := None;
      nulls := [];
      globalConfigs := "";
      dispatched := [];
      localRuns := [];
    }

    /**
     * One run file (`for c in args.config`): sort, cut to `num`, split off
     * the must-run tier and start it, and queue the rest with the frontier
     * at 0.
     */
    method Load(passes: seq<Pass>, num: int, black: set<string>, nulls: seq<TomlValue>, gc: string)
      requires Valid() && LoadReads(passes, num, black, runned)
      modifies this
      ensures Valid()
      ensures var q := Take(SortByOrder(passes), num);
              var k := PrefixLen(q, 0);
              var e := Emit(q[..k], num, black, nulls, gc, 0,
                            Effects(old(runned), old(lastIndex), [], [], []));
              queue == q[k..] && frontier == 0 && runned == e.runned && lastIndex == e.last &&
              dispatched == old(dispatched) + e.dispatched && localRuns == old(localRuns) + e.localRuns &&
              FollowsOfPrinters(printers) == FollowsOfPrinters(old(printers)) + e.follows &&
              |old(printers)| <= |printers| && printers[..|old(printers)|] == old(printers)
      ensures this.nulls == nulls && globalConfigs == gc
    {
      var sent0, locs0 := dispatched, localRuns;
      var rest, run, last, sent, locs, ps := LoadRunFile(passes, num, black, nulls, gc, runned, lastIndex, printers);
      SetState(ps, rest, 0, run, last, nulls, gc, sent0 + sent, locs0 + locs);
    }

    /** Replaces the whole state. */
    method SetState(ps: seq<RunPrinter>, q: seq<Pass>, f: int, run: int, last: Option<int>, nulls: seq<TomlValue>,
                    gc: string, sent: seq<Dispatch>, locs: seq<string>)
      modifies this
      ensures printers == ps && queue == q && frontier == f && runned == run && lastIndex == last
      ensures this.nulls == nulls && globalConfigs == gc && dispatched == sent && localRuns == locs
    {
      printers, queue, frontier, runned, lastIndex := ps, q, f, run, last;
      this.nulls, globalConfigs, dispatched, localRuns := nulls, gc, sent, locs;
    }

    /** The refill loop after a sweep. */
    method Refill()
      requires Valid()
      modifies this
      ensures Valid()
      ensures var k := PrefixLen(old(queue), frontier);
              queue == old(queue)[k..] &&
              dispatched == old(dispatched) + Dispatches(old(queue)[..k], globalConfigs) &&
              FollowsOfPrinters(printers) ==
                FollowsOfPrinters(old(printers)) + Follows(old(queue)[..k], nulls, Label(lastIndex)) &&
              |old(printers)| <= |printers| && printers[..|old(printers)|] == old(printers)
      ensures OpenedFrom(printers, |old(printers)|) && forall j :: |old(printers)| <= j < |printers| ==> fresh(printers[j].c)
      ensures queue == [] || GetOrder(queue[0]) > frontier
      ensures frontier == old(frontier) && runned == old(runned) && localRuns == old(localRuns)
      ensures lastIndex == old(lastIndex) && nulls == old(nulls) && globalConfigs == old(globalConfigs)
    {
      var sent0 := dispatched;
      var q, sent, ps := PopReady(queue, frontier, nulls, globalConfigs, lastIndex, printers);
      SetState(ps, q, frontier, runned, lastIndex, nulls, globalConfigs, sent0 + sent, localRuns);
    }

    /** The sweep: polls every printer, keeps the running ones, advances the frontier. */
    method Sweep() returns (printed: seq<Output>)
      requires Valid()
      modifies this, set i | 0 <= i < |printers| :: printers[i].c
      ensures Valid()
      ensures var ss := old(States(printers));
              printed == PolledAll(ss) &&
              printers == Kept(old(printers), Flags(ss)) &&
              frontier == Advance(old(frontier), old(printers), Flags(ss))
      ensures AllPolled(old(printers), old(States(printers)))
      ensures old(frontier) <= frontier
      ensures queue == old(queue) && runned == old(runned) && dispatched == old(dispatched) && lastIndex == old(lastIndex)
      ensures localRuns == old(localRuns) && nulls == old(nulls) && globalConfigs == old(globalConfigs)
    {
      var ps := printers;
      ghost var ss := States(ps);
      StatesAt(ps);
      var temp, f;
      printed, temp, f := PollAll(ps, ss, frontier);
      AdvanceBounds(frontier, ps, Flags(ss));
      KeptOwnChannels(ps, Flags(ss));
      SetState(temp, queue, f, runned, lastIndex, nulls, globalConfigs, dispatched, localRuns);
    }

    /**
     * One round of the `while` loop; `more` is its condition. Finished
     * printers go, the frontier advances, then the queue refills.
     */
    method Round() returns (more: bool, printed: seq<Output>)
      requires Valid()
      modifies this, set i | 0 <= i < |printers| :: printers[i].c
      ensures Valid()
      ensures more <==> old(printers) != [] || old(queue) != []
      ensures !more ==> printers == old(printers) && queue == old(queue) && frontier == old(frontier) && printed == []
      ensures more ==>
                var ss := old(States(printers));
                var kept := Kept(old(printers), Flags(ss));
                var f := Advance(old(frontier), old(printers), Flags(ss));
                var k := PrefixLen(old(queue), f);
                printed == PolledAll(ss) &&
                frontier == f && queue == old(queue)[k..] &&
                |kept| <= |printers| && printers[..|kept|] == kept &&
                FollowsOfPrinters(printers) == FollowsOfPrinters(kept) + Follows(old(queue)[..k], nulls, Label(lastIndex)) &&
                dispatched == old(dispatched) + Dispatches(old(queue)[..k], globalConfigs) &&
                OpenedFrom(printers, |kept|) && forall j :: |kept| <= j < |printers| ==> fresh(printers[j].c)
      ensures AllPolled(old(printers), old(States(printers)))
      ensures old(frontier) <= frontier
      ensures runned == old(runned) && localRuns == old(localRuns) && lastIndex == old(lastIndex) && nulls == old(nulls)
    {
      if printers == [] && queue == [] {
        return false, [];
      }
      more := true;
      ghost var ps, ss := printers, States(printers);
      printed := Sweep();
      assert forall j :: 0 <= j < |ps| ==> StateOf(ps[j].c) == AfterPoll(ss[j]);
      Refill();
      assert forall j :: 0 <= j < |ps| ==> StateOf(ps[j].c) == AfterPoll(ss[j]);
    }

    /**
     * The loop's fixed point: once no printer is left and the head of the queue is
     * above the frontier, a round prints nothing, dispatches nothing and leaves the
     * scheduler exactly as it was, while the loop condition still holds, so the
     * `while` loop never ends.  A tier whose hosts are all `null` gets no printer and
     * therefore can never raise the frontier past its order.
     */
    method RoundSpins() returns (more: bool, printed: seq<Output>)
      requires Valid() && printers == [] && queue != [] && GetOrder(queue[0]) > frontier
      modifies this
      ensures more && printed == []
      ensures printers == old(printers) && queue == old(queue) && frontier == old(frontier)
      ensures dispatched == old(dispatched) && runned == old(runned) && localRuns == old(localRuns)
      ensures Valid() && printers == [] && queue != [] && GetOrder(queue[0]) > frontier
    {
      more, printed := Round();
      assert PrefixLen(old(queue), old(frontier)) == 0;
      assert old(queue)[..0] == [];
    }
  }


}
