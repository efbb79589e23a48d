module Mutexes {
  // The reader/writer mutex automaton and the goroutines that use it: mutual exclusion, exact misuse detection and
  // writer preference in every run.

  datatype Loc = Idle | WriteLocked | ReadLocking | ReadLocked | ReadToWriteLocked | Bad

  predicate IsCommitted(loc: Loc) { loc.ReadLocking? || loc.ReadToWriteLocked? }

  datatype Kind = Read | Write

  datatype Port = Lock(kind: Kind) | Unlock(kind: Kind)

  datatype Guard = Always | NoPendingReaders | LastReaderNoWriter | LastReaderWriter | NoPendingWriters | ManyReaders

  /** Every edge but the fifth awaits a handshake; `change` is added to active_readers. */
  datatype Edge = Alone(src: Loc, guard: Guard, dst: Loc) | On(port: Port, src: Loc, guard: Guard, change: int, dst: Loc)

  const EDGE_COUNT := 14

  function EdgeAt(n: nat): Edge
    requires 1 <= n <= EDGE_COUNT
  {
    if n == 1 then On(Lock(Write), Idle, Always, 0, WriteLocked)
    else if n == 2 then On(Unlock(Write), WriteLocked, Always, 0, Idle)
    else if n == 3 then On(Lock(Read), Idle, Always, 1, ReadLocking)
    else if n == 4 then On(Lock(Read), ReadLocking, Always, 1, ReadLocking)
    else if n == 5 then Alone(ReadLocking, NoPendingReaders, ReadLocked)
    else if n == 6 then On(Unlock(Read), ReadLocked, LastReaderNoWriter, -1, Idle)
    else if n == 7 then On(Lock(Read), ReadLocked, NoPendingWriters, 1, ReadLocked)
    else if n == 8 then On(Unlock(Read), ReadLocked, ManyReaders, -1, ReadLocked)
    else if n == 9 then On(Unlock(Read), ReadLocked, LastReaderWriter, -1, ReadToWriteLocked)
    else if n == 10 then On(Lock(Write), ReadToWriteLocked, Always, 0, WriteLocked)
    else if n == 11 then On(Unlock(Read), WriteLocked, Always, 0, Bad)
    else if n == 12 then On(Unlock(Read), Idle, Always, 0, Bad)
    else if n == 13 then On(Unlock(Write), Idle, Always, 0, Bad)
    else On(Unlock(Write), ReadLocked, Always, 0, Bad)
  }

  /** One mutex. The observers `readers` and `writers` count acquired and not yet released locks. */
  datatype Mutex = Mutex(loc: Loc, active: int, pendingReaders: int, pendingWriters: int, readers: int, writers: int)

  predicate Holds(guard: Guard, m: Mutex) {
    match guard
    case Always => true
    case NoPendingReaders => m.pendingReaders == 0
    case LastReaderNoWriter => m.active == 1 && m.pendingWriters == 0
    case LastReaderWriter => m.active == 1 && m.pendingWriters > 0
    case NoPendingWriters => m.pendingWriters == 0
    case ManyReaders => m.active > 1
  }

  datatype Go = Running | Awaiting(kind: Kind, mutex: nat)

  datatype Config = Config(mutexes: seq<Mutex>, gos: seq<Go>)

  datatype Step =
    | Move(m: nat, e: nat)
    | Register(g: nat, kind: Kind, m: nat)
    | Acquire(g: nat, m: nat, e: nat)
    | Release(g: nat, kind: Kind, m: nat, e: nat)

  predicate SomeCommitted(s: Config) {
    exists m :: 0 <= m < |s.mutexes| && IsCommitted(s.mutexes[m].loc)
  }

  predicate EdgeEnabled(s: Config, m: nat, e: nat) {
    && m < |s.mutexes| && 1 <= e <= EDGE_COUNT
    && EdgeAt(e).src == s.mutexes[m].loc && Holds(EdgeAt(e).guard, s.mutexes[m])
    && (SomeCommitted(s) ==> IsCommitted(s.mutexes[m].loc))
  }

  predicate Enabled(s: Config, st: Step) {
    match st
    case Move(m, e) => EdgeEnabled(s, m, e) && EdgeAt(e).Alone?
    case Register(g, _, m) => g < |s.gos| && s.gos[g].Running? && m < |s.mutexes| && !SomeCommitted(s)
    case Acquire(g, m, e) =>
      EdgeEnabled(s, m, e) && g < |s.gos| && s.gos[g].Awaiting? && s.gos[g].mutex == m
      && EdgeAt(e).On? && EdgeAt(e).port == Lock(s.gos[g].kind)
    case Release(g, kind, m, e) =>
      EdgeEnabled(s, m, e) && g < |s.gos| && s.gos[g].Running? && EdgeAt(e).On? && EdgeAt(e).port == Unlock(kind)
  }

  function AddPending(m: Mutex, kind: Kind, d: int): Mutex {
    if kind.Read? then m.(pendingReaders := m.pendingReaders + d) else m.(pendingWriters := m.pendingWriters + d)
  }

  function AddHeld(m: Mutex, kind: Kind, d: int): Mutex {
    if kind.Read? then m.(readers := m.readers + d) else m.(writers := m.writers + d)
  }

  function Acquired(m: Mutex, kind: Kind, e: Edge): Mutex
    requires e.On?
  {
    var m1 := AddHeld(AddPending(m, kind, -1), kind, 1);
    m1.(active := m1.active + e.change, loc := e.dst)
  }

  function Released(m: Mutex, kind: Kind, e: Edge): Mutex
    requires e.On?
  {
    var m1 := AddHeld(m, kind, -1);
    m1.(active := m1.active + e.change, loc := e.dst)
  }

  /** The goroutine emits, so its update comes first. */
  function After(s: Config, st: Step): Config
    requires Enabled(s, st)
  {
    match st
    case Move(m, e) => s.(mutexes := s.mutexes[m := s.mutexes[m].(loc := EdgeAt(e).dst)])
    case Register(g, kind, m) =>
      Config(s.mutexes[m := AddPending(s.mutexes[m], kind, 1)], s.gos[g := Awaiting(kind, m)])
    case Acquire(g, m, e) =>
      Config(s.mutexes[m := Acquired(s.mutexes[m], s.gos[g].kind, EdgeAt(e))], s.gos[g := Running])
    case Release(g, kind, m, e) => s.(mutexes := s.mutexes[m := Released(s.mutexes[m], kind, EdgeAt(e))])
  }

  predicate Next(s: Config, st: Step, s': Config) { Enabled(s, st) && s' == After(s, st) }

  predicate Init(s: Config) {
    && (forall m :: 0 <= m < |s.mutexes| ==> s.mutexes[m] == Mutex(Idle, 0, 0, 0, 0, 0))
    && (forall g :: 0 <= g < |s.gos| ==> s.gos[g] == Running)
  }

  predicate IsRun(run: seq<Config>, steps: seq<Step>) {
    && |run| == |steps| + 1
    && forall k :: 0 <= k < |steps| ==> Next(run[k], steps[k], run[k + 1])
  }

  // ---------- The invariant ----------

  function Waiting(s: Config, kind: Kind, m: nat): nat { multiset(s.gos)[Awaiting(kind, m)] }

  /** Who holds the mutex, by location, and who waits for it. */
  predicate MutexOk(m: Mutex, waitingReaders: nat, waitingWriters: nat) {
    && m.pendingReaders == waitingReaders && m.pendingWriters == waitingWriters
    && m.active == m.readers
    && match m.loc
       case Idle => m.readers == 0 && m.writers == 0
       case WriteLocked => m.readers == 0 && m.writers == 1
       case ReadLocking => m.readers > 0 && m.writers == 0
       case ReadLocked => m.readers > 0 && m.writers == 0
       case ReadToWriteLocked => m.readers == 0 && m.writers == 0 && m.pendingWriters > 0
       case Bad => false
  }

  /** A misused mutex accounts for nothing any more; the others do. */
  predicate Ok(s: Config, m: nat)
    requires m < |s.mutexes|
  {
    s.mutexes[m].loc.Bad? || MutexOk(s.mutexes[m], Waiting(s, Read, m), Waiting(s, Write, m))
  }

  predicate Inv(s: Config) {
    && (forall m :: 0 <= m < |s.mutexes| ==> Ok(s, m))
    && (forall m, n :: 0 <= m < |s.mutexes| && 0 <= n < |s.mutexes| && IsCommitted(s.mutexes[m].loc) && IsCommitted(s.mutexes[n].loc) ==> m == n)
  }

  lemma WaitingAfter(s: Config, s': Config, g: nat, go: Go, kind: Kind, m: nat)
    requires g < |s.gos| && s'.gos == s.gos[g := go]
    ensures Waiting(s', kind, m) == Waiting(s, kind, m)
              - (if s.gos[g] == Awaiting(kind, m) then 1 else 0) + (if go == Awaiting(kind, m) then 1 else 0)
  {
    assert multiset(s'.gos) == multiset(s.gos) - multiset{s.gos[g]} + multiset{go};
    assert s.gos[g] in multiset(s.gos);
  }

  lemma AcquireArithmetic(m: Mutex, kind: Kind, e: nat, wr: nat, ww: nat)
    requires 1 <= e <= EDGE_COUNT && EdgeAt(e).On? && EdgeAt(e).port == Lock(kind)
    requires EdgeAt(e).src == m.loc && Holds(EdgeAt(e).guard, m) && MutexOk(m, wr, ww)
    requires if kind.Read? then wr > 0 else ww > 0
    ensures MutexOk(Acquired(m, kind, EdgeAt(e)), if kind.Read? then wr - 1 else wr, if kind.Read? then ww else ww - 1)
  {}

  lemma ReleaseArithmetic(m: Mutex, kind: Kind, e: nat, wr: nat, ww: nat)
    requires 1 <= e <= EDGE_COUNT && EdgeAt(e).On? && EdgeAt(e).port == Unlock(kind) && !EdgeAt(e).dst.Bad?
    requires EdgeAt(e).src == m.loc && Holds(EdgeAt(e).guard, m) && MutexOk(m, wr, ww)
    ensures MutexOk(Released(m, kind, EdgeAt(e)), wr, ww)
  {
    if e == 2 {} else if e == 6 {} else if e == 8 {} else { assert e == 9; }
  }

  /** No edge leaves the bad location. */
  lemma BadStays(s: Config, st: Step, s': Config, m: nat)
    requires Next(s, st, s') && m < |s.mutexes| && s.mutexes[m].loc.Bad?
    ensures s'.mutexes[m].loc.Bad?
  {
  }

  lemma OthersKept(s: Config, st: Step, s': Config, m: nat)
    requires Next(s, st, s') && m < |s.mutexes|
    ensures |s'.mutexes| == |s.mutexes| && st.m < |s.mutexes| && (m != st.m ==> s'.mutexes[m] == s.mutexes[m])
  {
    hide EdgeAt, Holds, Acquired, Released, AddPending;
  }

  lemma RegisterKeepsOk(s: Config, g: nat, kind: Kind, n: nat, s': Config, m: nat)
    requires Next(s, Register(g, kind, n), s') && m < |s.mutexes| && Ok(s, m) && !s.mutexes[m].loc.Bad?
    ensures |s'.mutexes| == |s.mutexes| && Ok(s', m)
  {
    WaitingAfter(s, s', g, s'.gos[g], Read, m);
    WaitingAfter(s, s', g, s'.gos[g], Write, m);
    hide Waiting;
  }

  lemma AcquireKeepsOk(s: Config, g: nat, n: nat, e: nat, s': Config, m: nat)
    requires Next(s, Acquire(g, n, e), s') && m < |s.mutexes| && Ok(s, m) && !s.mutexes[m].loc.Bad?
    ensures |s'.mutexes| == |s.mutexes| && Ok(s', m)
  {
    WaitingAfter(s, s', g, s'.gos[g], Read, m);
    WaitingAfter(s, s', g, s'.gos[g], Write, m);
    if n == m {
      var kind := s.gos[g].kind;
      assert Waiting(s, kind, m) > 0 by { assert s.gos[g] in multiset(s.gos); }
      AcquireArithmetic(s.mutexes[m], kind, e, Waiting(s, Read, m), Waiting(s, Write, m));
    }
    hide Waiting, MutexOk, EdgeAt, Holds, Acquired;
  }

  lemma ReleaseKeepsOk(s: Config, g: nat, kind: Kind, n: nat, e: nat, s': Config, m: nat)
    requires Next(s, Release(g, kind, n, e), s') && m < |s.mutexes| && Ok(s, m) && !s.mutexes[m].loc.Bad?
    ensures |s'.mutexes| == |s.mutexes| && Ok(s', m)
  {
    hide Waiting;
    if n == m && !EdgeAt(e).dst.Bad? {
      ReleaseArithmetic(s.mutexes[m], kind, e, Waiting(s, Read, m), Waiting(s, Write, m));
    }
    hide MutexOk, EdgeAt, Holds;
    assert s'.gos == s.gos;
    assert Waiting(s', Read, m) == Waiting(s, Read, m) && Waiting(s', Write, m) == Waiting(s, Write, m) by { SameWaiting(s, s', m); }
  }

  lemma SameWaiting(s: Config, s': Config, m: nat)
    requires s'.gos == s.gos
    ensures Waiting(s', Read, m) == Waiting(s, Read, m) && Waiting(s', Write, m) == Waiting(s, Write, m)
  {
  }

  lemma MoveKeepsOk(s: Config, n: nat, e: nat, s': Config, m: nat)
    requires Next(s, Move(n, e), s') && m < |s.mutexes| && Ok(s, m) && !s.mutexes[m].loc.Bad?
    ensures |s'.mutexes| == |s.mutexes| && Ok(s', m)
  {
    SameWaiting(s, s', m);
    hide Waiting;
  }

  lemma ServedKeepsOk(s: Config, st: Step, s': Config, m: nat)
    requires Next(s, st, s') && m < |s.mutexes| && Ok(s, m)
    ensures |s'.mutexes| == |s.mutexes| && Ok(s', m)
  {
    hide MutexOk, Waiting, Enabled, After;
    OthersKept(s, st, s', m);
    if s.mutexes[m].loc.Bad? {
      BadStays(s, st, s', m);
    } else {
      match st
      case Move(n, e) => MoveKeepsOk(s, n, e, s', m);
      case Register(g, kind, n) => RegisterKeepsOk(s, g, kind, n, s', m);
      case Acquire(g, n, e) => AcquireKeepsOk(s, g, n, e, s', m);
      case Release(g, kind, n, e) => ReleaseKeepsOk(s, g, kind, n, e, s', m);
    }
  }

  lemma OneCommittedKept(s: Config, st: Step, s': Config)
    requires Inv(s) && Next(s, st, s')
    ensures forall m, n :: 0 <= m < |s'.mutexes| && 0 <= n < |s'.mutexes| && IsCommitted(s'.mutexes[m].loc) && IsCommitted(s'.mutexes[n].loc) ==> m == n
  {
    hide Ok, EdgeAt;
    forall m | 0 <= m < |s'.mutexes| && m != st.m ensures !IsCommitted(s'.mutexes[m].loc) || s'.mutexes[m] == s.mutexes[m] {}
    if m :| 0 <= m < |s.mutexes| && IsCommitted(s.mutexes[m].loc) {
      assert SomeCommitted(s);
    }
  }

  lemma StepKeepsInv(s: Config, st: Step, s': Config)
    requires Inv(s) && Next(s, st, s')
    ensures Inv(s')
  {
    hide Ok;
    OneCommittedKept(s, st, s');
    forall m | 0 <= m < |s'.mutexes| ensures Ok(s', m) {
      ServedKeepsOk(s, st, s', m);
    }
  }

  lemma RunKeepsInv(run: seq<Config>, steps: seq<Step>, k: nat)
    requires IsRun(run, steps) && Init(run[0]) && k < |run|
    ensures Inv(run[k])
  {
    if k == 0 {
      forall m | 0 <= m < |run[0].mutexes| ensures Ok(run[0], m) {
        assert Awaiting(Read, m) !in run[0].gos && Awaiting(Write, m) !in run[0].gos;
      }
    } else {
      assert Next(run[k - 1], steps[k - 1], run[k]);
      RunKeepsInv(run, steps, k - 1);
      StepKeepsInv(run[k - 1], steps[k - 1], run[k]);
    }
  }

  // ---------- What holds in every run ----------

  /** Unless it was misused itself, a mutex is held by at most one writer and never by a writer and a reader;
      active_readers counts the readers and the pending counters count the goroutines that wait. */
  lemma MutualExclusion(run: seq<Config>, steps: seq<Step>, m: nat)
    requires IsRun(run, steps) && Init(run[0]) && m < |run[|steps|].mutexes| && !run[|steps|].mutexes[m].loc.Bad?
    ensures var s := run[|steps|]; var mutex := s.mutexes[m];
      && 0 <= mutex.writers <= 1 && mutex.readers >= 0 && (mutex.writers == 0 || mutex.readers == 0)
      && mutex.active == mutex.readers
      && mutex.pendingReaders == Waiting(s, Read, m) && mutex.pendingWriters == Waiting(s, Write, m)
  {
    RunKeepsInv(run, steps, |steps|);
    assert Ok(run[|steps|], m);
  }

  /** The bad location is entered exactly by an unlock without an outstanding lock of its kind. */
  lemma BadExactly(s: Config, st: Step, s': Config, m: nat)
    requires Inv(s) && Next(s, st, s') && m < |s.mutexes| && !s.mutexes[m].loc.Bad?
    ensures s'.mutexes[m].loc.Bad? <==>
      st.Release? && st.m == m && (if st.kind.Read? then s.mutexes[m].readers else s.mutexes[m].writers) == 0
  {
    hide EdgeAt, Waiting, Enabled, After;
    assert Ok(s, m);
    TurnsBad(s, st, s', m);
  }

  lemma TurnsBad(s: Config, st: Step, s': Config, m: nat)
    requires Next(s, st, s') && m < |s.mutexes| && Ok(s, m) && !s.mutexes[m].loc.Bad?
    ensures s'.mutexes[m].loc.Bad? <==>
      st.Release? && st.m == m && (if st.kind.Read? then s.mutexes[m].readers else s.mutexes[m].writers) == 0
  {
    hide Waiting, SomeCommitted;
    if st.Release? && st.m == m {
      assert s'.mutexes[m].loc == EdgeAt(st.e).dst;
    }
  }

  /** An unlock is refused only while another statement is being served. */
  lemma UnlockAlwaysPossible(s: Config, g: nat, kind: Kind, m: nat) returns (e: nat)
    requires Inv(s) && !SomeCommitted(s) && g < |s.gos| && s.gos[g].Running? && m < |s.mutexes| && !s.mutexes[m].loc.Bad?
    ensures Enabled(s, Release(g, kind, m, e))
  {
    assert Ok(s, m);
    var mutex := s.mutexes[m];
    assert !IsCommitted(mutex.loc);
    if kind.Write? {
      e := if mutex.loc.WriteLocked? then 2 else if mutex.loc.Idle? then 13 else 14;
    } else {
      e := if mutex.loc.WriteLocked? then 11 else if mutex.loc.Idle? then 12
           else if mutex.active > 1 then 8 else if mutex.pendingWriters > 0 then 9 else 6;
    }
  }

  /** read_locking and read_locked_to_write_locked can always be left. */
  lemma CommittedNeverStuck(run: seq<Config>, steps: seq<Step>) returns (st: Step)
    requires IsRun(run, steps) && Init(run[0]) && SomeCommitted(run[|steps|])
    ensures Enabled(run[|steps|], st)
  {
    var s := run[|steps|];
    RunKeepsInv(run, steps, |steps|);
    var m :| 0 <= m < |s.mutexes| && IsCommitted(s.mutexes[m].loc);
    assert Ok(s, m);
    if s.mutexes[m].loc.ReadLocking? && s.mutexes[m].pendingReaders == 0 {
      st := Move(m, 5);
    } else {
      var kind: Kind := if s.mutexes[m].loc.ReadLocking? then Read else Write;
      var g := SomeWaiter(s, kind, m);
      st := Acquire(g, m, if kind.Read? then 4 else 10);
    }
  }

  lemma SomeWaiter(s: Config, kind: Kind, m: nat) returns (g: nat)
    requires Waiting(s, kind, m) > 0
    ensures g < |s.gos| && s.gos[g] == Awaiting(kind, m)
  {
    assert Awaiting(kind, m) in multiset(s.gos);
    assert Awaiting(kind, m) in s.gos;
    g :| g < |s.gos| && s.gos[g] == Awaiting(kind, m);
  }

  // ---------- When a lock is granted ----------

  /** Nobody who would be excluded holds the mutex, and a reader who joins others passes no waiting writer. */
  predicate Free(s: Config, m: nat, kind: Kind)
    requires m < |s.mutexes|
  {
    if kind.Write? then s.mutexes[m].readers == 0 && s.mutexes[m].writers == 0
    else s.mutexes[m].writers == 0 && (s.mutexes[m].readers == 0 || Waiting(s, Write, m) == 0)
  }

  /** With nothing committed, whoever waits for a lock can acquire it exactly if the mutex is free for it. */
  lemma GrantedExactly(run: seq<Config>, steps: seq<Step>, g: nat, kind: Kind, m: nat)
    requires IsRun(run, steps) && Init(run[0])
    requires var s := run[|steps|];
             && !SomeCommitted(s) && m < |s.mutexes| && !s.mutexes[m].loc.Bad? && g < |s.gos| && s.gos[g] == Awaiting(kind, m)
    ensures (exists e :: Enabled(run[|steps|], Acquire(g, m, e))) <==> Free(run[|steps|], m, kind)
  {
    var s := run[|steps|];
    RunKeepsInv(run, steps, |steps|);
    assert Ok(s, m) && !IsCommitted(s.mutexes[m].loc);
    hide Waiting;
    if Free(s, m, kind) {
      var e := if kind.Write? then 1 else if s.mutexes[m].loc.Idle? then 3 else 7;
      assert Enabled(s, Acquire(g, m, e));
    }
  }

  /** A lock statement can always begin, and it then acquires at once exactly if the mutex was free for it. */
  lemma LockBegins(run: seq<Config>, steps: seq<Step>, g: nat, kind: Kind, m: nat) returns (s': Config)
    requires IsRun(run, steps) && Init(run[0])
    requires var s := run[|steps|];
             !SomeCommitted(s) && m < |s.mutexes| && !s.mutexes[m].loc.Bad? && g < |s.gos| && s.gos[g].Running?
    ensures Next(run[|steps|], Register(g, kind, m), s')
    ensures (exists e :: Enabled(s', Acquire(g, m, e))) <==> Free(run[|steps|], m, kind)
  {
    var s, st := run[|steps|], Register(g, kind, m);
    s' := After(s, st);
    var run1, steps1 := run + [s'], steps + [st];
    assert forall k :: 0 <= k < |steps| ==> Next(run[k], steps[k], run[k + 1]);
    assert forall k :: 0 <= k < |steps1| ==> Next(run1[k], steps1[k], run1[k + 1]);
    WaitingAfter(s, s', g, Awaiting(kind, m), Write, m);
    hide Waiting;
    assert !SomeCommitted(s') by {
      assert forall n :: 0 <= n < |s.mutexes| ==> s'.mutexes[n].loc == s.mutexes[n].loc;
    }
    GrantedExactly(run1, steps1, g, kind, m);
  }

  /** While a mutex takes in readers, every waiting reader can enter; while it is handed to a writer, every waiting writer can
      take it; and nobody else can acquire anything. */
  lemma CommittedGrants(run: seq<Config>, steps: seq<Step>, g: nat, kind: Kind, m: nat, n: nat)
    requires IsRun(run, steps) && Init(run[0])
    requires var s := run[|steps|];
             m < |s.mutexes| && IsCommitted(s.mutexes[m].loc) && g < |s.gos| && s.gos[g] == Awaiting(kind, n) && n < |s.mutexes|
    ensures var s := run[|steps|];
            (exists e :: Enabled(s, Acquire(g, n, e))) <==> n == m && kind == (if s.mutexes[m].loc.ReadLocking? then Read else Write)
  {
    var s := run[|steps|];
    RunKeepsInv(run, steps, |steps|);
    assert Ok(s, m);
    assert SomeCommitted(s);
    hide Waiting;
    if n == m && kind == (if s.mutexes[m].loc.ReadLocking? then Read else Write) {
      assert Enabled(s, Acquire(g, m, if kind.Read? then 4 else 10));
    }
  }

  /** The first reader takes all waiting readers along: before anything else happens, nobody waits to read. */
  lemma {:induction false} ReadersTogether(run: seq<Config>, steps: seq<Step>, i: nat, j: nat, m: nat)
    requires IsRun(run, steps) && Init(run[0]) && i < j < |run|
    requires Acquires(run[i], steps[i], Read, m) && run[i].mutexes[m].readers == 0
    requires forall l :: i < l < j ==> SomeCommitted(run[l])
    ensures m < |run[j].mutexes| && forall l :: i < l < j ==> TakesIn(run[l], steps[l], m)
    ensures if SomeCommitted(run[j]) then run[j].mutexes[m].loc.ReadLocking?
            else run[j].mutexes[m].loc.ReadLocked? && Waiting(run[j], Read, m) == 0
  {
    hide Waiting;
    assert Next(run[j - 1], steps[j - 1], run[j]);
    RunKeepsInv(run, steps, j - 1);
    RunKeepsInv(run, steps, j);
    if i + 1 == j {
      assert Ok(run[i], m);
      FirstReader(run[i], steps[i], run[j], m);
    } else {
      ReadersTogether(run, steps, i, j - 1, m);
      assert SomeCommitted(run[j - 1]);
      NextReader(run[j - 1], steps[j - 1], run[j], m);
    }
  }

  /** A reader enters, or the mutex has taken in all of them. */
  predicate TakesIn(s: Config, st: Step, m: nat) { Acquires(s, st, Read, m) || (st.Move? && st.m == m) }

  lemma FirstReader(s: Config, st: Step, s': Config, m: nat)
    requires Inv(s) && Next(s, st, s') && Acquires(s, st, Read, m) && m < |s.mutexes| && s.mutexes[m].readers == 0
    ensures m < |s'.mutexes| && s'.mutexes[m].loc.ReadLocking? && SomeCommitted(s')
  {
    assert Ok(s, m);
    ReadEdges(s.mutexes[m], st.e, Waiting(s, Read, m), Waiting(s, Write, m));
    hide Waiting, Ok, MutexOk, Inv, Holds;
    assert s'.mutexes[m].loc == EdgeAt(st.e).dst && IsCommitted(s'.mutexes[m].loc);
  }

  lemma ReadEdges(m: Mutex, e: nat, wr: nat, ww: nat)
    requires 1 <= e <= EDGE_COUNT && EdgeAt(e).On? && EdgeAt(e).port == Lock(Read) && EdgeAt(e).src == m.loc
    requires MutexOk(m, wr, ww) && m.readers == 0
    ensures e == 3
  {
  }

  /** The committed mutex goes first. */
  lemma CommittedFirst(s: Config, st: Step, m: nat)
    requires Inv(s) && Enabled(s, st) && m < |s.mutexes| && IsCommitted(s.mutexes[m].loc)
    ensures st.m == m && !st.Register?
  {
    hide Ok, EdgeAt, Holds;
    assert SomeCommitted(s);
  }

  lemma NextReader(s: Config, st: Step, s': Config, m: nat)
    requires Inv(s) && Next(s, st, s') && Inv(s') && m < |s.mutexes| && s.mutexes[m].loc.ReadLocking?
    ensures TakesIn(s, st, m) && m < |s'.mutexes|
    ensures if SomeCommitted(s') then s'.mutexes[m].loc.ReadLocking?
            else s'.mutexes[m].loc.ReadLocked? && Waiting(s', Read, m) == 0
  {
    hide Waiting, Ok;
    CommittedFirst(s, st, m);
    OthersKept(s, st, s', m);
    ReadLockingEdges(s, st, s', m);
    hide Enabled, After;
    assert Ok(s', m);
    if s'.mutexes[m].loc.ReadLocking? {
      assert IsCommitted(s'.mutexes[m].loc);
    } else {
      NoReaders(s', m);
    }
  }

  lemma NoReaders(s: Config, m: nat)
    requires m < |s.mutexes| && Ok(s, m) && s.mutexes[m].loc.ReadLocked? && s.mutexes[m].pendingReaders == 0
    ensures Waiting(s, Read, m) == 0
  {
  }

  lemma ReadLockingEdges(s: Config, st: Step, s': Config, m: nat)
    requires Next(s, st, s') && st.m == m < |s.mutexes| && !st.Register? && s.mutexes[m].loc.ReadLocking?
    ensures TakesIn(s, st, m) && m < |s'.mutexes|
    ensures s'.mutexes[m].loc.ReadLocking? || (s'.mutexes[m].loc.ReadLocked? && s'.mutexes[m].pendingReaders == 0)
  {
  }

  /** When the last reader leaves while writers wait, one of them has the mutex before anything else happens. */
  lemma HandedToWriter(run: seq<Config>, steps: seq<Step>, i: nat, m: nat)
    requires IsRun(run, steps) && Init(run[0]) && i + 1 < |steps|
    requires steps[i].Release? && steps[i].kind.Read? && steps[i].m == m && m < |run[i].mutexes|
    requires run[i].mutexes[m].readers == 1 && Waiting(run[i], Write, m) > 0
    ensures Acquires(run[i + 1], steps[i + 1], Write, m)
  {
    assert Next(run[i], steps[i], run[i + 1]) && Next(run[i + 1], steps[i + 1], run[i + 1 + 1]);
    RunKeepsInv(run, steps, i);
    RunKeepsInv(run, steps, i + 1);
    assert Ok(run[i], m) && Ok(run[i + 1], m);
    hide Waiting;
    assert run[i + 1].mutexes[m].loc.ReadToWriteLocked?;
    assert IsCommitted(run[i + 1].mutexes[m].loc) && SomeCommitted(run[i + 1]);
    assert steps[i + 1].m == m;
  }

  // ---------- Writer preference ----------

  /** A writer waits for the readers to finish. */
  predicate WriterNext(s: Config, m: nat) {
    m < |s.mutexes| &&
    ((s.mutexes[m].loc.ReadLocked? && s.mutexes[m].pendingWriters > 0) || s.mutexes[m].loc.ReadToWriteLocked? || s.mutexes[m].loc.Bad?)
  }

  predicate Acquires(s: Config, st: Step, kind: Kind, m: nat) {
    Enabled(s, st) && st.Acquire? && st.m == m && s.gos[st.g].kind == kind
  }

  lemma WriterStaysNext(s: Config, st: Step, s': Config, m: nat)
    requires WriterNext(s, m) && Next(s, st, s') && !Acquires(s, st, Write, m)
    ensures WriterNext(s', m) && !Acquires(s, st, Read, m)
  {}

  /** No writer acquires mutex m in steps i to j. */
  predicate NoWriterIn(run: seq<Config>, steps: seq<Step>, i: nat, j: nat, m: nat)
    requires j <= |steps| < |run|
  {
    forall l :: i <= l < j ==> !Acquires(run[l], steps[l], Write, m)
  }

  /** Once a writer is registered while readers hold the mutex, no reader acquires it before a writer
      does, however the run goes on. */
  lemma {:induction false} WriterPreference(run: seq<Config>, steps: seq<Step>, i: nat, j: nat, m: nat)
    requires IsRun(run, steps) && i <= j < |steps|
    requires m < |run[i].mutexes| && run[i].mutexes[m].loc.ReadLocked? && run[i].mutexes[m].pendingWriters > 0
    requires Acquires(run[j], steps[j], Read, m)
    ensures !NoWriterIn(run, steps, i, j, m)
  {
    if NoWriterIn(run, steps, i, j, m) {
      WriterNextUntil(run, steps, i, j, m);
      assert Next(run[j], steps[j], run[j + 1]);
      WriterStaysNext(run[j], steps[j], run[j + 1], m);
    }
  }

  lemma {:induction false} WriterNextUntil(run: seq<Config>, steps: seq<Step>, i: nat, j: nat, m: nat)
    requires IsRun(run, steps) && i <= j < |run| && WriterNext(run[i], m) && NoWriterIn(run, steps, i, j, m)
    ensures WriterNext(run[j], m)
  {
    if i < j {
      WriterNextUntil(run, steps, i, j - 1, m);
      assert Next(run[j - 1], steps[j - 1], run[j]);
      assert !Acquires(run[j - 1], steps[j - 1], Write, m);
      hide WriterNext, Acquires;
      WriterStaysNext(run[j - 1], steps[j - 1], run[j], m);
    }
  }
}
