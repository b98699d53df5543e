/**
 The test port allocator of tools/run_tests/port_server.py.  The readings of the clock, which never go
 back, and the ports that can be bound at each request are inputs.
 */
module PortServer {
  import opened Common

  const FIRST := 10000
  const LAST := 65000
  const POOL_LIMIT := 100
  const MIN_AGE := 600.0

  type Clock = nat -> real  // the n-th answer of time.time()

  ghost predicate Monotone(clock: Clock) {
    forall i, k :: i <= k ==> clock(i) <= clock(k)
  }

  // ---------- Steps on values ----------

  /** The two globals, and how often the clock was read. */
  datatype State = State(pool: seq<nat>, inUse: map<nat, real>, ticks: nat)

  /** An allocation: which port, and when. */
  datatype Grant = Grant(port: nat, time: real)

  const START := State([], map[], 0)

  /** The check of a port that was handed out: it is forgotten if that was long enough ago. */
  function Expired(s: State, port: nat, clock: Clock): State {
    if port !in s.inUse then s
    else if clock(s.ticks) - s.inUse[port] < MIN_AGE then s.(ticks := s.ticks + 1)
    else s.(ticks := s.ticks + 1, inUse := s.inUse - {port})
  }

  /** One round of the scan; with a full pool the scan is over and nothing changes any more. */
  function Scan(s: State, port: nat, bindable: set<nat>, clock: Clock): State {
    if |s.pool| > POOL_LIMIT then s else
      var t := Expired(s, port, clock);
      if port !in t.inUse && port in bindable then t.(pool := t.pool + [port]) else t
  }

  /** The scan of the first n ports. */
  function Scanned(s: State, n: nat, bindable: set<nat>, clock: Clock): State {
    if n == 0 then s else Scan(Scanned(s, n - 1, bindable, clock), FIRST + n - 1, bindable, clock)
  }

  function Refilled(s: State, bindable: set<nat>, clock: Clock): State {
    Scanned(s, LAST - FIRST, bindable, clock)
  }

  /** The state in which pool[0] is evaluated. */
  function Ready(s: State, bindable: set<nat>, clock: Clock): State {
    if s.pool == [] then Refilled(s, bindable, clock) else s
  }

  /** The answer to a request; None when pool[0] raises. */
  function Allocated(s: State, bindable: set<nat>, clock: Clock): (Option<Grant>, State) {
    var t := Ready(s, bindable, clock);
    if t.pool == [] then (None, t) else
      var g := Grant(t.pool[0], clock(t.ticks));
      (Some(g), State(t.pool[1..], t.inUse[g.port := g.time], t.ticks + 1))
  }

  datatype Run = Run(state: State, grants: seq<Option<Grant>>)

  /** The server after some requests; a request that fails does not stop it. */
  function Served(requests: seq<set<nat>>, clock: Clock): Run {
    if requests == [] then Run(START, []) else
      var before := Served(requests[..|requests| - 1], clock);
      var (g, next) := Allocated(before.state, requests[|requests| - 1], clock);
      Run(next, before.grants + [g])
  }

  // ---------- Invariant ----------

  ghost predicate PoolOk(s: State) {
    && |s.pool| <= POOL_LIMIT + 1
    && (forall i :: 0 <= i < |s.pool| ==> FIRST <= s.pool[i] < LAST && s.pool[i] !in s.inUse)
    && (forall i, k :: 0 <= i < k < |s.pool| ==> s.pool[i] < s.pool[k])
  }

  /** in_use remembers the latest grant of a port, unless that was long enough ago. */
  ghost predicate Remembers(s: State, grants: seq<Option<Grant>>, clock: Clock) {
    && (forall p <- s.inUse :: s.inUse[p] <= clock(s.ticks))
    && (forall g: Grant :: Some(g) in grants ==>
          if g.port in s.inUse then g.time <= s.inUse[g.port] else g.time + MIN_AGE <= clock(s.ticks))
  }

  /** Any two grants of the same port are at least ten minutes apart. */
  ghost predicate Spaced(grants: seq<Option<Grant>>) {
    forall i, k :: 0 <= i < k < |grants| && grants[i].Some? && grants[k].Some? && grants[i].value.port == grants[k].value.port ==>
                     grants[i].value.time + MIN_AGE <= grants[k].value.time
  }

  lemma Later(clock: Clock, i: nat, k: nat)
    requires Monotone(clock) && i <= k
    ensures clock(i) <= clock(k)
  {
  }

  lemma ScanKeeps(s: State, port: nat, bindable: set<nat>, clock: Clock, grants: seq<Option<Grant>>)
    requires Monotone(clock) && PoolOk(s) && Remembers(s, grants, clock)
    requires FIRST <= port < LAST && forall i :: 0 <= i < |s.pool| ==> s.pool[i] < port
    ensures var t := Scan(s, port, bindable, clock);
            PoolOk(t) && Remembers(t, grants, clock) && forall i :: 0 <= i < |t.pool| ==> t.pool[i] < port + 1
  {
    var t := Expired(s, port, clock);
    Later(clock, s.ticks, t.ticks);
    hide Monotone;
    assert PoolOk(t) && Remembers(t, grants, clock);
  }

  lemma {:induction false} ScannedKeeps(s: State, n: nat, bindable: set<nat>, clock: Clock, grants: seq<Option<Grant>>)
    requires Monotone(clock) && PoolOk(s) && Remembers(s, grants, clock) && s.pool == [] && n <= LAST - FIRST
    ensures var t := Scanned(s, n, bindable, clock);
            PoolOk(t) && Remembers(t, grants, clock) && forall i :: 0 <= i < |t.pool| ==> t.pool[i] < FIRST + n
  {
    hide Scanned, Scan, PoolOk, Remembers, Monotone;
    if n == 0 {
      NoneScanned(s, bindable, clock);
    } else {
      ScannedKeeps(s, n - 1, bindable, clock, grants);
      ScannedOneMore(s, n - 1, bindable, clock);
      ScanKeeps(Scanned(s, n - 1, bindable, clock), FIRST + n - 1, bindable, clock, grants);
    }
  }

  lemma AllocationKeeps(s: State, bindable: set<nat>, clock: Clock, grants: seq<Option<Grant>>)
    requires Monotone(clock) && PoolOk(s) && Remembers(s, grants, clock) && Spaced(grants)
    ensures var (g, next) := Allocated(s, bindable, clock);
            PoolOk(next) && Remembers(next, grants + [g], clock) && Spaced(grants + [g])
  {
    hide Scanned;
    if s.pool == [] {
      ScannedKeeps(s, LAST - FIRST, bindable, clock, grants);
    }
    var t := Ready(s, bindable, clock);
    hide Ready;
    if t.pool == [] {
      NoGrant(grants);
    } else {
      Later(clock, t.ticks, t.ticks + 1);
      GrantKeeps(t, clock, grants);
    }
  }

  lemma NoGrant(grants: seq<Option<Grant>>)
    ensures Spaced(grants) ==> Spaced(grants + [None])
    ensures forall g: Grant :: Some(g) in grants + [None] ==> Some(g) in grants
  {
  }

  lemma GrantKeeps(t: State, clock: Clock, grants: seq<Option<Grant>>)
    requires t.pool != [] && PoolOk(t) && Remembers(t, grants, clock) && Spaced(grants) && clock(t.ticks) <= clock(t.ticks + 1)
    ensures var g := Grant(t.pool[0], clock(t.ticks));
            var next := State(t.pool[1..], t.inUse[g.port := g.time], t.ticks + 1);
            PoolOk(next) && Remembers(next, grants + [Some(g)], clock) && Spaced(grants + [Some(g)])
  {
    var g := Grant(t.pool[0], clock(t.ticks));
    forall i | 0 <= i < |grants| && grants[i].Some? && grants[i].value.port == g.port
      ensures grants[i].value.time + MIN_AGE <= g.time
    {
      assert Some(grants[i].value) in grants;
    }
  }

  /** In every run of the server, for every clock and whatever can be bound: no port is granted twice
      within ten minutes, and the pool holds at most 101 ports in increasing order, none of them in use. */
  lemma {:induction false} GrantsAreSpaced(requests: seq<set<nat>>, clock: Clock)
    requires Monotone(clock)
    ensures var r := Served(requests, clock);
            |r.grants| == |requests| && PoolOk(r.state) && Remembers(r.state, r.grants, clock) && Spaced(r.grants)
  {
    hide Allocated, PoolOk, Remembers, Spaced, Monotone;
    if requests == [] {
      NothingGranted(clock);
    } else {
      var n := |requests| - 1;
      GrantsAreSpaced(requests[..n], clock);
      var before := Served(requests[..n], clock);
      AllocationKeeps(before.state, requests[n], clock, before.grants);
    }
  }

  lemma NothingGranted(clock: Clock)
    ensures PoolOk(START) && Remembers(START, [], clock) && Spaced([])
  {
  }

  // ---------- What a refill finds ----------

  /** Nothing is changed in `now`, and nothing forgotten but what is old enough by `later`. */
  ghost predicate OnlyForgetsOld(now: map<nat, real>, next: map<nat, real>, later: real) {
    && (forall p <- next :: p in now && next[p] == now[p])
    && (forall p <- now :: p in next || now[p] + MIN_AGE <= later)
  }

  /** Of the first n ports, the pool holds those that are free and can be bound, and no other. */
  ghost predicate Offers(s: State, bindable: set<nat>, n: nat) {
    && (forall i :: 0 <= i < |s.pool| ==> s.pool[i] in bindable && s.pool[i] !in s.inUse && FIRST <= s.pool[i] < FIRST + n)
    && (forall p :: FIRST <= p < FIRST + n && p in bindable ==> p in s.pool || p in s.inUse)
  }

  lemma ScanOffers(s: State, n: nat, bindable: set<nat>, clock: Clock)
    requires Offers(s, bindable, n) && |s.pool| <= POOL_LIMIT
    ensures Offers(Scan(s, FIRST + n, bindable, clock), bindable, n + 1)
  {
    var t := Scan(s, FIRST + n, bindable, clock);
    if t.pool != s.pool {
      assert t.pool[|s.pool|] == FIRST + n;
      assert forall p <- s.pool :: p in t.pool;
    }
  }

  lemma ScanForgets(first: map<nat, real>, s: State, port: nat, bindable: set<nat>, clock: Clock)
    requires Monotone(clock) && OnlyForgetsOld(first, s.inUse, clock(s.ticks))
    ensures var t := Scan(s, port, bindable, clock);
            s.ticks <= t.ticks && OnlyForgetsOld(first, t.inUse, clock(t.ticks))
  {
    var t := Scan(s, port, bindable, clock);
    Later(clock, s.ticks, t.ticks);
    hide Monotone;
  }

  /** A refill offers the lowest free ports that can be bound, 101 of them or all there are, and it forgets
      only what was handed out long enough ago. */
  lemma {:induction false} RefillFinds(s: State, n: nat, bindable: set<nat>, clock: Clock)
    requires Monotone(clock) && s.pool == []
    ensures var t := Scanned(s, n, bindable, clock);
            && OnlyForgetsOld(s.inUse, t.inUse, clock(t.ticks))
            && exists m: nat :: m <= n && Offers(t, bindable, m) && (|t.pool| <= POOL_LIMIT ==> m == n)
  {
    hide Scanned, Scan, Offers, OnlyForgetsOld, Monotone;
    if n == 0 {
      NoneScanned(s, bindable, clock);
      NothingFound(s, bindable, clock(s.ticks));
    } else {
      RefillFinds(s, n - 1, bindable, clock);
      var b := Scanned(s, n - 1, bindable, clock);
      ScannedOneMore(s, n - 1, bindable, clock);
      ScanForgets(s.inUse, b, FIRST + (n - 1), bindable, clock);
      var m: nat :| m <= n - 1 && Offers(b, bindable, m) && (|b.pool| <= POOL_LIMIT ==> m == n - 1);
      if |b.pool| <= POOL_LIMIT {
        ScanOffers(b, m, bindable, clock);
      } else {
        FullScan(b, FIRST + (n - 1), bindable, clock);
      }
    }
  }

  lemma NothingFound(s: State, bindable: set<nat>, now: real)
    requires s.pool == []
    ensures Offers(s, bindable, 0) && OnlyForgetsOld(s.inUse, s.inUse, now)
  {
  }

  lemma FullScan(s: State, port: nat, bindable: set<nat>, clock: Clock)
    requires |s.pool| > POOL_LIMIT
    ensures Scan(s, port, bindable, clock) == s
  {
  }

  /** The reading of the clock with which a scan that has found nothing checks port number n. */
  function Reading(s: State, n: nat): nat {
    if n == 0 then s.ticks else Reading(s, n - 1) + if FIRST + n - 1 in s.inUse then 1 else 0
  }

  /** Port number n was granted less than ten minutes before the scan comes to it. */
  predicate Young(s: State, n: nat, clock: Clock) {
    FIRST + n in s.inUse && clock(Reading(s, n)) - s.inUse[FIRST + n] < MIN_AGE
  }

  ghost predicate AllYoung(s: State, n: nat, bindable: set<nat>, clock: Clock) {
    forall k: nat :: k < n && FIRST + k in bindable ==> Young(s, k, clock)
  }

  /** What a scan that has found nothing among the first n ports has left for the others. */
  ghost predicate Unscanned(s: State, t: State, n: nat) {
    && t.ticks == Reading(s, n)
    && forall p: nat :: FIRST + n <= p ==> (p in t.inUse <==> p in s.inUse) && (p in s.inUse ==> t.inUse[p] == s.inUse[p])
  }

  lemma ScanFinds(s: State, t: State, n: nat, bindable: set<nat>, clock: Clock)
    requires t.pool == [] && Unscanned(s, t, n)
    ensures var t' := Scan(t, FIRST + n, bindable, clock);
            && (t'.pool == [] <==> FIRST + n in bindable ==> Young(s, n, clock))
            && (t'.pool == [] ==> Unscanned(s, t', n + 1))
  {
    assert FIRST + n in t.inUse <==> FIRST + n in s.inUse;
  }

  lemma ScanKeepsPool(t: State, port: nat, bindable: set<nat>, clock: Clock)
    requires t.pool != []
    ensures Scan(t, port, bindable, clock).pool != []
  {
  }

  lemma {:induction false} FindsNothingIff(s: State, n: nat, bindable: set<nat>, clock: Clock)
    requires s.pool == []
    ensures var t := Scanned(s, n, bindable, clock);
            (t.pool == [] <==> AllYoung(s, n, bindable, clock)) && (t.pool == [] ==> Unscanned(s, t, n))
  {
    hide Scanned, Scan, Young, Unscanned;
    if n == 0 {
      NoneScanned(s, bindable, clock);
      NothingScanned(s);
    } else {
      FindsNothingIff(s, n - 1, bindable, clock);
      var t := Scanned(s, n - 1, bindable, clock);
      ScannedOneMore(s, n - 1, bindable, clock);
      assert AllYoung(s, n, bindable, clock) <==>
             AllYoung(s, n - 1, bindable, clock) && (FIRST + (n - 1) in bindable ==> Young(s, n - 1, clock));
      if t.pool == [] {
        ScanFinds(s, t, n - 1, bindable, clock);
      } else {
        ScanKeepsPool(t, FIRST + (n - 1), bindable, clock);
      }
    }
  }

  lemma NothingScanned(s: State)
    ensures Unscanned(s, s, 0)
  {
  }

  /** A request fails if and only if the pool is empty and every port that can be bound was granted less than
      ten minutes before the scan comes to it. */
  lemma FailsIff(s: State, bindable: set<nat>, clock: Clock)
    ensures Allocated(s, bindable, clock).0.None? <==> s.pool == [] && AllYoung(s, LAST - FIRST, bindable, clock)
  {
    hide Scanned, AllYoung;
    if s.pool == [] {
      FindsNothingIff(s, LAST - FIRST, bindable, clock);
    }
  }

  /** Then every port that can be bound is still in use after the refill has forgotten the old grants, and only then. */
  lemma FailsIffInUse(s: State, bindable: set<nat>, clock: Clock)
    requires Monotone(clock)
    ensures var t := Ready(s, bindable, clock);
            Allocated(s, bindable, clock).0.None? <==>
            s.pool == [] && forall p :: FIRST <= p < LAST && p in bindable ==> p in t.inUse
  {
    hide Scanned;
    if s.pool == [] {
      RefillFinds(s, LAST - FIRST, bindable, clock);
      var t := Ready(s, bindable, clock);
      hide Ready;
      var m: nat :| m <= LAST - FIRST && Offers(t, bindable, m) && (|t.pool| <= POOL_LIMIT ==> m == LAST - FIRST);
      if t.pool != [] {
        assert t.pool[0] in bindable && t.pool[0] !in t.inUse;
      }
    }
  }

  // ---------- The program ----------

  lemma {:induction false} FullStays(s: State, n: nat, m: nat, bindable: set<nat>, clock: Clock)
    requires n <= m && |Scanned(s, n, bindable, clock).pool| > POOL_LIMIT
    ensures Scanned(s, m, bindable, clock) == Scanned(s, n, bindable, clock)
  {
    if n < m {
      FullStays(s, n, m - 1, bindable, clock);
    }
  }

  class Allocator {
    const clock: Clock
    var pool: seq<nat>
    var inUse: map<nat, real>
    var ticks: nat

    function View(): State
      reads this
    {
      State(pool, inUse, ticks)
    }

    constructor (clock: Clock)
      ensures View() == START && this.clock == clock
    {
      this.clock := clock;
      pool, inUse, ticks := [], map[], 0;
    }

    /** time.time(). */
    method Time() returns (t: real)
      modifies this`ticks
      ensures t == clock(old(ticks)) && ticks == old(ticks) + 1
    {
      t := clock(ticks);
      ticks := ticks + 1;
    }

    /** Scan for ports not marked as in use. */
    method RefillPool(bindable: set<nat>)
      modifies this`pool, this`inUse, this`ticks
      ensures View() == Refilled(old(View()), bindable, clock)
    {
      hide Scanned, Scan;
      ghost var s := View();
      NoneScanned(s, bindable, clock);
      var i := FIRST;
      while i < LAST
        invariant FIRST <= i <= LAST && View() == Scanned(s, i - FIRST, bindable, clock)
      {
        if |pool| > POOL_LIMIT {
          FullStays(s, i - FIRST, LAST - FIRST, bindable, clock);
          break;
        }
        ScannedOneMore(s, i - FIRST, bindable, clock);
        ScanPort(i, bindable);
        i := i + 1;
      }
    }

    /** The body of the scan. */
    method ScanPort(i: nat, bindable: set<nat>)
      requires |pool| <= POOL_LIMIT
      modifies this`pool, this`inUse, this`ticks
      ensures View() == Scan(old(View()), i, bindable, clock)
    {
      if i in inUse {
        var t := Time();
        if t - inUse[i] < MIN_AGE { return; }
        inUse := inUse - {i};
      }
      if i in bindable {
        pool := pool + [i];
      }
    }

    /** allocate_port(); None when pool[0] raises because no free port could be bound. */
    method AllocatePort(bindable: set<nat>) returns (port: Option<nat>)
      modifies this
      ensures var (g, next) := Allocated(old(View()), bindable, clock);
              View() == next && port == if g.Some? then Some(g.value.port) else None
    {
      hide Refilled;
      if pool == [] {
        RefillPool(bindable);
      }
      if pool == [] { return None; }
      var p := pool[0];
      pool := pool[1..];
      var t := Time();
      inUse := inUse[p := t];
      return Some(p);
    }
  }

  lemma NoneScanned(s: State, bindable: set<nat>, clock: Clock)
    ensures Scanned(s, 0, bindable, clock) == s
  {
  }

  lemma ScannedOneMore(s: State, n: nat, bindable: set<nat>, clock: Clock)
    ensures Scanned(s, n + 1, bindable, clock) == Scan(Scanned(s, n, bindable, clock), FIRST + n, bindable, clock)
  {
    hide Scan;
  }

  /** The answers of a fresh server to any requests, each with the ports that can be bound then. */
  method Serve(requests: seq<set<nat>>, clock: Clock) returns (ports: seq<Option<nat>>)
    ensures |ports| == |requests| == |Served(requests, clock).grants|
    ensures forall i :: 0 <= i < |ports| ==>
              var g := Served(requests, clock).grants[i]; ports[i] == if g.Some? then Some(g.value.port) else None
  {
    hide Allocated;
    var server := new Allocator(clock);
    ports := [];
    for r := 0 to |requests|
      invariant fresh(server) && server.clock == clock && server.View() == Served(requests[..r], clock).state
      invariant |ports| == r == |Served(requests[..r], clock).grants|
      invariant forall i :: 0 <= i < r ==>
                  var g := Served(requests[..r], clock).grants[i]; ports[i] == if g.Some? then Some(g.value.port) else None
    {
      assert requests[..r + 1][..r] == requests[..r];
      var port := server.AllocatePort(requests[r]);
      ports := ports + [port];
    }
    assert requests[..|requests|] == requests;
  }
}
