/**
 The Win32 fetch-and-add of include/grpc/support/atm_win32.h: a retry loop that loads the cell
 and attempts a compare-and-swap.  Any number of threads interleave their loads and swaps.  The
 cell is a two's complement word with `half` = 2^(width - 1) values on each side of zero.
 */
module AtomicFetchAdd {
  import opened Common

  type Tid = nat

  /** A thread between calls, about to load *p, or about to swap after loading `was`, when `seen`
      swaps had succeeded. */
  datatype Pc = Idle | Load(delta: int) | Swap(delta: int, was: int, seen: nat)

  /** A completed call: who added what, and the value it returned. */
  datatype Added = Added(t: Tid, delta: int, returned: int)

  datatype State = State(half: int, cell: int, pc: map<Tid, Pc>, log: seq<Added>)

  datatype Choice = Call(delta: int) | Go

  // ---------- Words ----------

  /** The word with the same low bits as x. */
  function Word(half: int, x: int): (w: int)
    requires half > 0
    ensures -half <= w < half
  {
    (x + half) % (2 * half) - half
  }

  lemma WordFixes(half: int, x: int)
    requires -half <= x < half
    ensures Word(half, x) == x
  {
    EuclidUnique(x + half, 0, x + half, 2 * half);
  }

  lemma EuclidUnique(y: int, q: int, r: int, m: int)
    requires m > 0 && 0 <= r < m && y == m * q + r
    ensures y % m == r
  {
    var d := y / m - q;
    assert m * d == r - y % m;
    assert d >= 1 ==> m * d >= m;
    assert d <= -1 ==> m * d <= -m;
  }

  /** Wrapping early or late gives the same word. */
  lemma WordAbsorbs(half: int, x: int, d: int)
    requires half > 0
    ensures Word(half, Word(half, x) + d) == Word(half, x + d)
  {
    var m := 2 * half;
    var a := x + half;
    var b := a % m + d;
    assert a + d == m * (a / m) + b;
    assert b == m * (b / m) + b % m;
    EuclidUnique(a + d, a / m + b / m, b % m, m) by {
      assert m * (a / m + b / m) == m * (a / m) + m * (b / m);
    }
  }

  // ---------- Steps ----------

  ghost predicate Init(s: State, half: int, start: int) {
    && half > 0 && s.half == half && -half <= start < half
    && s.cell == start && s.log == [] && forall t <- s.pc :: s.pc[t] == Idle
  }

  /** One step of thread t: begin a call, load the cell, or attempt the swap. */
  function Next(s: State, t: Tid, c: Choice): Option<State>
    requires s.half > 0 && t in s.pc
  {
    match s.pc[t]
    case Idle => if c.Call? then Some(s.(pc := s.pc[t := Load(c.delta)])) else None
    case Load(delta) =>
      if c.Go? then Some(s.(pc := s.pc[t := Swap(delta, s.cell, |s.log|)])) else None
    case Swap(delta, was, _) =>
      if !c.Go? then None
      else if s.cell == was
      then Some(s.(cell := Word(s.half, was + delta), pc := s.pc[t := Idle],
                   log := s.log + [Added(t, delta, was)]))
      else Some(s.(pc := s.pc[t := Load(delta)]))
  }

  ghost predicate StepBy(s: State, t: Tid, c: Choice, s': State) {
    s.half > 0 && t in s.pc && Next(s, t, c) == Some(s')
  }

  ghost predicate Steps(s: State, s': State) {
    exists t, c :: StepBy(s, t, c, s')
  }

  ghost predicate IsRun(run: seq<State>, half: int, start: int) {
    && |run| > 0 && Init(run[0], half, start)
    && forall i :: 0 <= i < |run| - 1 ==> Steps(run[i], run[i + 1])
  }

  // ---------- The reference: an atomic fetch-and-add ----------

  /** The cell after the calls of the log, each executed in one indivisible step, or None when some
      call returned a value other than the cell it found. */
  function Atomically(half: int, start: int, log: seq<Added>): Option<int>
    requires half > 0
  {
    if log == [] then Some(start) else
      match Atomically(half, start, log[..|log| - 1])
      case None => None
      case Some(cell) =>
        var a := log[|log| - 1];
        if a.returned == cell then Some(Word(half, cell + a.delta)) else None
  }

  function Sum(log: seq<Added>): int {
    if log == [] then 0 else Sum(log[..|log| - 1]) + log[|log| - 1].delta
  }

  lemma {:induction false} AtomicSum(half: int, start: int, log: seq<Added>)
    requires half > 0 && -half <= start < half && Atomically(half, start, log).Some?
    ensures Atomically(half, start, log) == Some(Word(half, start + Sum(log)))
  {
    hide Word;
    if log == [] {
      WordFixes(half, start);
    } else {
      var before := log[..|log| - 1];
      AtomicSum(half, start, before);
      WordAbsorbs(half, start + Sum(before), log[|log| - 1].delta);
    }
  }

  // ---------- Invariant ----------

  ghost predicate Inv(s: State, half: int, start: int) {
    && half > 0 && s.half == half && -half <= start < half
    && Atomically(half, start, s.log) == Some(s.cell)
    && forall t <- s.pc :: s.pc[t].Swap? ==>
         && s.pc[t].seen <= |s.log|
         && Atomically(half, start, s.log[..s.pc[t].seen]) == Some(s.pc[t].was)
  }

  lemma NextKeepsInv(s: State, t: Tid, c: Choice, s': State, half: int, start: int)
    requires Inv(s, half, start) && StepBy(s, t, c, s')
    ensures Inv(s', half, start)
  {
    hide Word, Atomically;
    assert s.log[..|s.log|] == s.log;
    if s'.log != s.log {
      AtomicallyMore(half, start, s.log, s'.log[|s.log|]);
      assert s'.log == s.log + [s'.log[|s.log|]];
    }
    forall u | u in s'.pc && s'.pc[u].Swap?
      ensures s'.pc[u].seen <= |s'.log|
      ensures Atomically(half, start, s'.log[..s'.pc[u].seen]) == Some(s'.pc[u].was)
    {
      if u != t {
        assert s'.log[..s.pc[u].seen] == s.log[..s.pc[u].seen];
      }
    }
  }

  lemma AtomicallyMore(half: int, start: int, log: seq<Added>, a: Added)
    requires half > 0
    ensures Atomically(half, start, log + [a]) ==
            match Atomically(half, start, log)
            case None => None
            case Some(cell) => if a.returned == cell then Some(Word(half, cell + a.delta)) else None
  {
    hide Word;
    assert (log + [a])[..|log|] == log;
  }

  lemma {:induction false} RunInv(run: seq<State>, half: int, start: int, i: nat)
    requires IsRun(run, half, start) && i < |run|
    ensures Inv(run[i], half, start)
  {
    if i > 0 {
      RunInv(run, half, start, i - 1);
      assert Steps(run[i - 1], run[i - 1 + 1]);
      var t, c :| StepBy(run[i - 1], t, c, run[i]);
      NextKeepsInv(run[i - 1], t, c, run[i], half, start);
    }
  }

  // ---------- Main results, over every interleaving ----------

  /** Linearizability and conservation: the calls, in the order of their swaps, are an atomic
      execution, and the cell is the start value plus every completed delta, modulo the word. */
  lemma CellIsSumOfDeltas(run: seq<State>, half: int, start: int, i: nat)
    requires IsRun(run, half, start) && i < |run|
    ensures half > 0
    ensures Atomically(half, start, run[i].log) == Some(run[i].cell)
    ensures run[i].cell == Word(half, start + Sum(run[i].log))
  {
    RunInv(run, half, start, i);
    AtomicSum(half, start, run[i].log);
  }

  /** Each call returns the cell it replaced: the sum of exactly the calls that swapped before it. */
  lemma ReturnsValueReplaced(run: seq<State>, half: int, start: int, i: nat, k: nat)
    requires IsRun(run, half, start) && i < |run| && k < |run[i].log|
    ensures half > 0
    ensures run[i].log[k].returned == Word(half, start + Sum(run[i].log[..k]))
  {
    RunInv(run, half, start, i);
    var log := run[i].log;
    AtomicPrefix(half, start, log, k + 1);
    AtomicPrefix(half, start, log, k);
    assert log[..k + 1][..k] == log[..k];
    AtomicSum(half, start, log[..k]);
  }

  lemma {:induction false} AtomicPrefix(half: int, start: int, log: seq<Added>, k: nat)
    requires half > 0 && Atomically(half, start, log).Some? && k <= |log|
    ensures Atomically(half, start, log[..k]).Some?
  {
    if k == |log| {
      assert log[..k] == log;
    } else {
      assert log[..|log| - 1][..k] == log[..k];
      AtomicPrefix(half, start, log[..|log| - 1], k);
    }
  }

  /** Lock freedom: a thread is sent back to its load only if another call's swap succeeded since
      that load. */
  lemma RetryMeansProgress(run: seq<State>, half: int, start: int, i: nat, t: Tid)
    requires IsRun(run, half, start) && i + 1 < |run|
    requires t in run[i].pc && t in run[i + 1].pc && run[i].pc[t].Swap? && run[i + 1].pc[t].Load?
    ensures run[i].pc[t].seen < |run[i].log| && run[i + 1].log == run[i].log
  {
    RunInv(run, half, start, i);
    assert Steps(run[i], run[i + 1]);
    assert run[i].log[..|run[i].log|] == run[i].log;
  }
}
