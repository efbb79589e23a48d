/** Every step of the channel network keeps the invariant as long as no select is stuck at a bad channel. */
module ChannelSafety {
  import opened ChannelAutomaton
  import opened ChannelNetwork
  import opened ChannelInvariant

  // ---------- Accounts of one channel after one goroutine moved ----------

  /** The count of a role at channel d after goroutine g moved to `go`. */
  predicate CountMoves(gos: seq<Go>, g: nat, go: Go, d: nat, role: Role)
    requires g < |gos|
  {
    Count(gos[g := go], d, role) == Count(gos, d, role) - Bit(RoleAt(gos[g], d) == role) + Bit(RoleAt(go, d) == role)
  }

  lemma CountsAfter(gos: seq<Go>, g: nat, go: Go, d: nat)
    requires g < |gos|
    ensures CountMoves(gos, g, go, d, Waits(Sending)) && CountMoves(gos, g, go, d, Waits(Receiving))
    ensures CountMoves(gos, g, go, d, Reserves(Sending)) && CountMoves(gos, g, go, d, Reserves(Receiving))
    ensures Count(gos, d, RoleAt(gos[g], d)) > 0
  {
    CountAfter(gos, g, go, d, Waits(Sending));
    CountAfter(gos, g, go, d, Waits(Receiving));
    CountAfter(gos, g, go, d, Reserves(Sending));
    CountAfter(gos, g, go, d, Reserves(Receiving));
    MemberCounts(gos, d, g);
  }

  /** A channel is untouched when neither its variables nor the registration of g change. */
  lemma Untouched(s: Config, s': Config, g: nat, go: Go, d: nat)
    requires g < |s.gos| && s'.gos == s.gos[g := go] && d < |s.chans| == |s'.chans|
    requires Accounted(s, d) && s'.chans[d] == s.chans[d] && RoleAt(s.gos[g], d) == RoleAt(go, d)
    ensures Accounted(s', d)
  {
    CountsAfter(s.gos, g, go, d);
  }

  /** How the registration of one goroutine may change at a channel that is not being served. */
  predicate QuietChange(before: Role, after: Role, delta: int, ch: Chan) {
    || (before == after && delta == 0)
    || (before.Absent? && after.Reserves? && delta == Delta(after.dir))
    || (before.Reserves? && after.Absent? && delta == -Delta(before.dir))
    || (before.Waits? && after.Absent? && delta == -Delta(before.dir))
    || (before.Reserves? && after == Waits(before.dir) && delta == 0 && ch.buffer >= 0 &&
        if before.dir.Sending? then ch.counter > ch.buffer else ch.counter < 0)
  }

  predicate Shifted(n: nat, n': nat, before: Role, after: Role, role: Role) {
    n' == n - Bit(before == role) + Bit(after == role)
  }

  lemma QuietArithmetic(ch: Chan, delta: int, before: Role, after: Role,
                        ws: nat, wr: nat, hs: nat, hr: nat, ws': nat, wr': nat, hs': nat, hr': nat)
    requires ChanOk(ch, ws, wr, hs, hr) && !IsCommitted(ch.loc) && QuietChange(before, after, delta, ch)
    requires Shifted(ws, ws', before, after, Waits(Sending)) && Shifted(wr, wr', before, after, Waits(Receiving))
    requires Shifted(hs, hs', before, after, Reserves(Sending)) && Shifted(hr, hr', before, after, Reserves(Receiving))
    requires before.Reserves? && after.Waits? ==> hs + hr == 1
    ensures ChanOk(ch.(counter := ch.counter + delta), ws', wr', hs', hr')
  {}

  /** A channel that is not being served keeps its accounts through a quiet change. When a waiting
      select becomes a full registration, no other select may be undecided. */
  lemma Bystander(s: Config, s': Config, g: nat, go: Go, d: nat, delta: int)
    requires g < |s.gos| && s'.gos == s.gos[g := go] && d < |s.chans| == |s'.chans|
    requires Accounted(s, d) && !IsCommitted(s.chans[d].loc)
    requires s'.chans[d] == s.chans[d].(counter := s.chans[d].counter + delta)
    requires QuietChange(RoleAt(s.gos[g], d), RoleAt(go, d), delta, s.chans[d])
    requires RoleAt(s.gos[g], d).Reserves? && RoleAt(go, d).Waits? ==> SoleSelect(s.gos, g)
    ensures Accounted(s', d)
  {
    hide ChanOk, Find;
    CountsAfter(s.gos, g, go, d);
    var before, after := RoleAt(s.gos[g], d), RoleAt(go, d);
    if before.Reserves? && after.Waits? { SoleReserver(s.gos, g, d); }
    QuietArithmetic(s.chans[d], delta, before, after,
      Count(s.gos, d, Waits(Sending)), Count(s.gos, d, Waits(Receiving)),
      Count(s.gos, d, Reserves(Sending)), Count(s.gos, d, Reserves(Receiving)),
      Count(s'.gos, d, Waits(Sending)), Count(s'.gos, d, Waits(Receiving)),
      Count(s'.gos, d, Reserves(Sending)), Count(s'.gos, d, Reserves(Receiving)));
  }

  predicate SoleSelect(gos: seq<Go>, g: nat) {
    forall h :: 0 <= h < |gos| && h != g ==> !Selecting(gos[h])
  }

  lemma SoleReserver(gos: seq<Go>, g: nat, d: nat)
    requires g < |gos| && SoleSelect(gos, g)
    ensures forall dir :: Count(gos, d, Reserves(dir)) == Bit(RoleAt(gos[g], d) == Reserves(dir))
  {
    forall dir ensures Count(gos, d, Reserves(dir)) == Bit(RoleAt(gos[g], d) == Reserves(dir)) {
      CountAfter(gos, g, Running(Started), d, Reserves(dir));
      NoMember(gos[g := Running(Started)], d, Reserves(dir));
    }
  }

  lemma NoReserver(gos: seq<Go>, d: nat)
    requires forall h :: 0 <= h < |gos| ==> !Selecting(gos[h])
    ensures forall dir :: Count(gos, d, Reserves(dir)) == 0
  {
    forall dir { NoMember(gos, d, Reserves(dir)); }
  }

  lemma TriggeredIsServed(s: Config, h: nat)
    requires Valid(s) && OneTransaction(s) && h < |s.gos| && s.gos[h].Triggered?
    ensures SomeCommitted(s)
  {
    var k := s.gos[h].cases[s.gos[h].index];
    assert IsCommitted(s.chans[k.chan].loc);
  }

  lemma NobodySelecting(s: Config)
    requires Valid(s) && OneTransaction(s) && !SomeCommitted(s)
    ensures forall h :: 0 <= h < |s.gos| ==> !Selecting(s.gos[h])
  {
    forall h | 0 <= h < |s.gos| ensures !Selecting(s.gos[h]) {
      assert !GoCommitted(s.gos[h]);
      if s.gos[h].Triggered? {
        TriggeredIsServed(s, h);
      }
    }
  }

  // ---------- Steps of a channel alone ----------

  lemma ChanMoveArithmetic(e: nat, ch: Chan, ws: nat, wr: nat, hs: nat, hr: nat)
    requires 1 <= e <= EDGE_COUNT && EdgeAt(e).sync.NoSync? && ch.loc == EdgeAt(e).src && Holds(EdgeAt(e).guard, ch)
    requires ChanOk(ch, ws, wr, hs, hr)
    ensures ChanOk(Take(EdgeAt(e), ch), ws, wr, hs, hr)
  {
    if e == 2 {} else if e == 4 {} else if e == 7 {} else if e == 9 {} else { assert e == 13; }
  }

  lemma ChanMoveAccount(s: Config, s': Config, c: nat, e: nat)
    requires ChanEdgeEnabled(s, c, e) && EdgeAt(e).sync.NoSync? && Accounted(s, c)
    requires s' == s.(chans := s.chans[c := Take(EdgeAt(e), s.chans[c])])
    ensures Accounted(s', c)
  {
    hide ChanOk, Take, Holds, EdgeAt;
    ChanMoveArithmetic(e, s.chans[c],
      Count(s.gos, c, Waits(Sending)), Count(s.gos, c, Waits(Receiving)),
      Count(s.gos, c, Reserves(Sending)), Count(s.gos, c, Reserves(Receiving)));
  }

  lemma ChanMoveTransaction(s: Config, s': Config, c: nat, e: nat)
    requires Valid(s) && Valid(s') && ChanEdgeEnabled(s, c, e) && EdgeAt(e).sync.NoSync?
    requires s' == s.(chans := s.chans[c := Take(EdgeAt(e), s.chans[c])]) && OneTransaction(s)
    ensures OneTransaction(s')
  {
    // A channel that still serves a select does not move on alone.
    assert !ServesSelect(Sending, s.chans[c]) && !ServesSelect(Receiving, s.chans[c]);
    assert IsCommitted(s.chans[c].loc);
    hide EdgeAt, Take, ServesSelect;
  }

  lemma ChanMoveRangeFlags(s: Config, s': Config, c: nat, e: nat)
    requires Valid(s) && Valid(s') && ChanEdgeEnabled(s, c, e) && EdgeAt(e).sync.NoSync?
    requires s' == s.(chans := s.chans[c := Take(EdgeAt(e), s.chans[c])]) && RangeFlags(s) && Accounted(s, c)
    ensures RangeFlags(s')
  {
    forall g | 0 <= g < |s'.gos| && s'.gos[g].RangeReceiving?
      ensures RangeFlag(s'.chans[s'.gos[g].chan], s'.gos[g].ok)
    {
      assert RangeFlag(s.chans[s.gos[g].chan], s.gos[g].ok);
    }
  }

  lemma ChanMoveKeepsInv(s: Config, c: nat, e: nat)
    requires Inv(s) && Enabled(s, ChanMove(c, e))
    ensures Inv(After(s, ChanMove(c, e)))
  {
    hide Accounted, RangeFlags, OneTransaction, Take;
    var s' := After(s, ChanMove(c, e));
    assert s' == s.(chans := s.chans[c := Take(EdgeAt(e), s.chans[c])]) && Valid(s');
    forall d | 0 <= d < |s'.chans| ensures Accounted(s', d) {
      if d == c { ChanMoveAccount(s, s', c, e); } else { SameAccount(s, s', d); }
    }
    ChanMoveTransaction(s, s', c, e);
    ChanMoveRangeFlags(s, s', c, e);
    FreshIsIdle(s, c);
  }

  lemma SameAccount(s: Config, s': Config, d: nat)
    requires d < |s.chans| == |s'.chans| && s'.gos == s.gos && s'.chans[d] == s.chans[d] && Accounted(s, d)
    ensures Accounted(s', d)
  {}

  lemma FreshIsIdle(s: Config, c: nat)
    requires Unmade(s) && c < |s.chans| && !s.chans[c].loc.Idle?
    ensures c < MadeCount(s)
  {}

  // ---------- Steps of a goroutine alone ----------

  lemma RangeEndKeepsInv(s: Config, g: nat, m: GoEdge)
    requires Inv(s) && Enabled(s, GoMove(g, m)) && (m.EnterBody? || m.ExitRange?)
    ensures Inv(After(s, GoMove(g, m)))
  {
    var s' := After(s, GoMove(g, m));
    var go := s'.gos[g];
    assert s'.chans == s.chans && s'.gos == s.gos[g := go] && go.Running?;
    forall d | 0 <= d < |s'.chans| ensures Accounted(s', d) {
      assert Accounted(s, d);
      Untouched(s, s', g, go, d);
    }
  }

  /** A select statement of goroutine g that is entered, given up for the default, or parked. */
  predicate SelectMove(s: Config, s': Config, g: nat, m: GoEdge, cases: seq<Case>) {
    && Valid(s) && g < |s.gos| == |s'.gos| && |s'.chans| == |s.chans| && ValidCases(cases, MadeCount(s))
    && s'.count == s.count && s'.gos == s.gos[g := s'.gos[g]]
    && match m
       case EnterSelect(_, d) =>
         s.gos[g].Running? && s'.gos[g] == Pass1(cases, d) && s'.chans == BumpCases(s.chans, cases, |cases|, -1, 1)
       case TakeDefault =>
         s.gos[g].Pass1? && s.gos[g].cases == cases && s'.gos[g] == Running(DefaultEntered)
         && s'.chans == BumpCases(s.chans, cases, |cases|, -1, -1)
       case Park =>
         s.gos[g].Pass1? && s.gos[g].cases == cases && s'.gos[g] == Pass2(cases) && s'.chans == s.chans
         && NonePossible(cases, s.chans)
       case _ => false
  }

  lemma SelectMoveShape(s: Config, g: nat, m: GoEdge) returns (cases: seq<Case>)
    requires Valid(s) && Enabled(s, GoMove(g, m)) && (m.EnterSelect? || m.TakeDefault? || m.Park?)
    ensures SelectMove(s, After(s, GoMove(g, m)), g, m, cases)
  {
    cases := if m.EnterSelect? then m.cases else s.gos[g].cases;
    assert ValidGo(s.gos[g], MadeCount(s));
  }

  /** What a select move does to the variables of channel d. */
  function SelectDelta(m: GoEdge, cases: seq<Case>, d: nat): int {
    var i := Find(cases, d);
    if i < 0 || m.Park? then 0 else if m.EnterSelect? then Delta(cases[i].dir) else -Delta(cases[i].dir)
  }

  lemma SelectDeltaAt(s: Config, s': Config, g: nat, m: GoEdge, cases: seq<Case>, d: nat)
    requires SelectMove(s, s', g, m, cases) && d < |s.chans|
    ensures s'.chans[d] == s.chans[d].(counter := s.chans[d].counter + SelectDelta(m, cases, d))
    ensures QuietChange(RoleAt(s.gos[g], d), RoleAt(s'.gos[g], d), SelectDelta(m, cases, d), s.chans[d])
    ensures d >= MadeCount(s) ==> SelectDelta(m, cases, d) == 0
  {
    BumpAt(s.chans, cases, |cases|, -1, if m.EnterSelect? then 1 else -1, d);
    if m.Park? {
      var i := Find(cases, d);
      if i >= 0 { assert !Possible(cases[i], s.chans); }
    }
  }

  lemma SelectBumps(s: Config, s': Config, g: nat, m: GoEdge, cases: seq<Case>, d: nat)
    requires SelectMove(s, s', g, m, cases) && d < |s.chans| && Accounted(s, d) && SoleSelect(s.gos, g)
    requires !IsCommitted(s.chans[d].loc)
    ensures Accounted(s', d) && s'.chans[d] == s.chans[d].(counter := s'.chans[d].counter)
    ensures d >= MadeCount(s) ==> s'.chans[d] == s.chans[d]
  {
    hide Accounted, QuietChange, SelectDelta;
    SelectDeltaAt(s, s', g, m, cases, d);
    Bystander(s, s', g, s'.gos[g], d, SelectDelta(m, cases, d));
  }

  lemma SelectMoveKeepsInv(s: Config, g: nat, m: GoEdge)
    requires Inv(s) && Enabled(s, GoMove(g, m)) && (m.EnterSelect? || m.TakeDefault? || m.Park?)
    ensures Inv(After(s, GoMove(g, m)))
  {
    hide Accounted, RangeFlags;
    var s' := After(s, GoMove(g, m));
    var cases := SelectMoveShape(s, g, m);
    if m.EnterSelect? { NobodySelecting(s); }
    forall d | 0 <= d < |s.chans| ensures !IsCommitted(s.chans[d].loc) {}
    assert SoleSelect(s.gos, g);
    hide Enabled, After, SelectDelta;
    forall d | 0 <= d < |s.chans|
      ensures Accounted(s', d) && s'.chans[d] == s.chans[d].(counter := s'.chans[d].counter)
      ensures d >= MadeCount(s) ==> s'.chans[d] == s.chans[d]
    {
      SelectBumps(s, s', g, m, cases, d);
    }
    RangeFlagsKept(s, s', g);
  }

  /** Range flags only depend on the location of channels that are not being served. */
  lemma RangeFlagsKept(s: Config, s': Config, g: nat)
    requires Valid(s) && Valid(s') && RangeFlags(s)
    requires |s'.chans| == |s.chans| && g < |s.gos| == |s'.gos| && s'.gos == s.gos[g := s'.gos[g]]
    requires !s'.gos[g].RangeReceiving?
    requires forall d :: 0 <= d < |s.chans| ==> s'.chans[d].loc == s.chans[d].loc && !IsCommitted(s.chans[d].loc)
    ensures RangeFlags(s')
  {
    forall h | 0 <= h < |s'.gos| && s'.gos[h].RangeReceiving?
      ensures RangeFlag(s'.chans[s'.gos[h].chan], s'.gos[h].ok)
    {
      assert RangeFlag(s.chans[s.gos[h].chan], s.gos[h].ok);
    }
  }

  /** A channel nobody is registered at, with nothing in its buffer. */
  lemma EmptyAccount(s: Config, d: nat)
    requires d < |s.chans| && s.chans[d].loc.Idle? && s.chans[d].counter == s.chans[d].Items() == 0
    requires s.chans[d].cap == s.chans[d].buffer >= 0
    requires Count(s.gos, d, Waits(Sending)) == Count(s.gos, d, Waits(Receiving)) == 0
    requires Count(s.gos, d, Reserves(Sending)) == Count(s.gos, d, Reserves(Receiving)) == 0
    ensures Accounted(s, d)
  {}

  lemma FreshAccount(s: Config, s': Config, g: nat, size: nat)
    requires Valid(s) && Unmade(s) && g < |s.gos| && s.gos[g].Running? && s.count < |s.chans|
    requires s' == AfterMakeChan(s, g, size)
    ensures Accounted(s', s.count)
  {
    hide ChanOk, Accounted;
    NobodyAt(s, s.count);
    CountsAfter(s.gos, g, Running(Made(s.count)), s.count);
    EmptyAccount(s', s.count);
  }

  lemma ValidGoGrows(go: Go, made: nat, made': nat)
    requires ValidGo(go, made) && made <= made'
    ensures ValidGo(go, made')
  {}

  lemma MakeChanKeepsInv(s: Config, g: nat, m: GoEdge)
    requires Inv(s) && Enabled(s, GoMove(g, m)) && m.MakeChan?
    ensures Inv(After(s, GoMove(g, m)))
  {
    hide ChanOk, Accounted, RangeFlag;
    var s' := AfterMakeChan(s, g, m.size);
    assert s'.gos == s.gos[g := s'.gos[g]];
    forall h | 0 <= h < |s'.gos| ensures ValidGo(s'.gos[h], MadeCount(s')) {
      ValidGoGrows(s.gos[h], MadeCount(s), MadeCount(s'));
    }
    forall d | 0 <= d < |s'.chans|
      ensures Accounted(s', d) && s'.chans[d].loc == s.chans[d].loc
      ensures d < MadeCount(s) || d >= MadeCount(s') ==> s'.chans[d] == s.chans[d]
    {
      if d == s.count {
        FreshAccount(s, s', g, m.size);
      } else {
        Untouched(s, s', g, s'.gos[g], d);
      }
    }
    ServedKept(s, s');
    forall h | 0 <= h < |s'.gos| && s'.gos[h].RangeReceiving?
      ensures RangeFlag(s'.chans[s'.gos[h].chan], s'.gos[h].ok)
    {
      assert ValidGo(s.gos[h], MadeCount(s));
      assert RangeFlag(s.chans[s.gos[h].chan], s.gos[h].ok);
    }
  }

  lemma ServedKept(s: Config, s': Config)
    requires Valid(s) && OneTransaction(s) && Valid(s') && |s.chans| == |s'.chans| && |s.gos| == |s'.gos|
    requires forall d :: 0 <= d < |s.chans| ==> s'.chans[d].loc == s.chans[d].loc
    requires forall d :: 0 <= d < MadeCount(s) ==> s'.chans[d] == s.chans[d]
    requires forall h :: 0 <= h < |s.gos| && Selecting(s'.gos[h]) ==> s'.gos[h] == s.gos[h]
    ensures OneTransaction(s')
  {
    forall g | 0 <= g < |s'.gos| && s'.gos[g].Triggered?
      ensures var k := s'.gos[g].cases[s'.gos[g].index]; ServesSelect(k.dir, s'.chans[k.chan])
    {
      assert ValidGo(s.gos[g], MadeCount(s));
      var k := s.gos[g].cases[s.gos[g].index];
      assert ServesSelect(k.dir, s.chans[k.chan]);
    }
  }

  /** Nobody is registered at a channel that has not been made. */
  lemma NobodyAt(s: Config, c: nat)
    requires Valid(s) && MadeCount(s) <= c
    ensures forall role: Role :: !role.Absent? ==> Count(s.gos, c, role) == 0
  {
    forall role: Role | !role.Absent? ensures Count(s.gos, c, role) == 0 {
      forall g | 0 <= g < |s.gos| ensures RoleAt(s.gos[g], c) != role {
        assert ValidGo(s.gos[g], MadeCount(s));
      }
      NoMember(s.gos, c, role);
    }
  }

  // ---------- Handshakes ----------

  /** A goroutine starts a channel operation, or a select its chosen case. */
  lemma TriggerKeepsInv(s: Config, c: nat, e: nat, g: nat, m: GoEdge)
    requires Inv(s) && Enabled(s, Handshake(c, e, g, m)) && (e == 1 || e == 6 || e == 15)
    ensures Inv(After(s, Handshake(c, e, g, m)))
  {
    hide Accounted, RangeFlags;
    var s' := After(s, Handshake(c, e, g, m));
    var dir: Dir := if e == 1 then Sending else Receiving;
    OpenBuffer(s, c);
    TriggerRoles(s, c, e, g, m, dir);
    TriggerAlone(s, c, e, g, m);
    hide Enabled, After, RoleAt, EdgeAt;
    TriggerTransaction(s, s', c, e, g, m, dir);
    TriggerRangeFlags(s, s', c, e, g, m, dir);
    hide OneTransaction;
    forall d | 0 <= d < |s'.chans| ensures Accounted(s', d) {
      if d == c {
        TriggerAccount(s, s', c, e, g, dir);
      } else {
        Untouched(s, s', g, s'.gos[g], d);
      }
    }
  }

  /** Nothing else is under way when an operation is triggered. */
  lemma TriggerAlone(s: Config, c: nat, e: nat, g: nat, m: GoEdge)
    requires Inv(s) && Enabled(s, Handshake(c, e, g, m)) && (e == 1 || e == 6 || e == 15)
    ensures SoleSelect(s.gos, g) && (forall d :: 0 <= d < |s.chans| ==> !IsCommitted(s.chans[d].loc))
    ensures var s' := After(s, Handshake(c, e, g, m));
      Valid(s') && c < MadeCount(s) == MadeCount(s') && (Selecting(s'.gos[g]) ==> m.TriggerCase?)
  {
    hide Accounted, RangeFlags, Unmade;
    assert ValidGo(s.gos[g], MadeCount(s));
    assert m.StartOp? || m.StartRange? || m.TriggerCase?;
    if !m.TriggerCase? { NobodySelecting(s); }
  }

  lemma OpenBuffer(s: Config, c: nat)
    requires c < |s.chans| && Accounted(s, c)
    ensures s.chans[c].loc.Idle? ==> s.chans[c].buffer >= 0
  {}

  predicate Triggering(s: Config, s': Config, c: nat, e: nat, g: nat, m: GoEdge, dir: Dir) {
    && Valid(s) && Valid(s') && |s'.chans| == |s.chans| && c < |s.chans| && g < |s.gos| == |s'.gos|
    && ((e == 1 && dir.Sending?) || ((e == 6 || e == 15) && dir.Receiving?))
    && s'.gos == s.gos[g := s'.gos[g]] && SoleSelect(s.gos, g) && RoleAt(s'.gos[g], c) == Waits(dir)
    && (forall d :: 0 <= d < |s.chans| && d != c ==> s'.chans[d] == s.chans[d])
    && (forall d :: 0 <= d < |s.chans| ==> !IsCommitted(s.chans[d].loc))
    && s.chans[c].loc == EdgeAt(e).src && s'.chans[c].loc == EdgeAt(e).dst
    && (Selecting(s'.gos[g]) ==> m.TriggerCase?)
    && (m.TriggerCase? ==> ServesSelect(dir, s'.chans[c]) && s'.gos[g].Triggered?)
    && (s'.gos[g].RangeReceiving? ==> s'.gos[g].chan == c && s'.gos[g].ok == (s'.chans[c].counter >= 0))
  }

  lemma TriggerTransaction(s: Config, s': Config, c: nat, e: nat, g: nat, m: GoEdge, dir: Dir)
    requires Triggering(s, s', c, e, g, m, dir)
    ensures OneTransaction(s')
  {
    if s'.gos[g].Triggered? {
      var k := s'.gos[g].cases[s'.gos[g].index];
      assert ValidGo(s'.gos[g], MadeCount(s'));
      assert k.chan == c && k.dir == dir;
    }
  }

  lemma TriggerRangeFlags(s: Config, s': Config, c: nat, e: nat, g: nat, m: GoEdge, dir: Dir)
    requires Triggering(s, s', c, e, g, m, dir) && RangeFlags(s) && Accounted(s, c)
    ensures RangeFlags(s')
  {
    forall h | 0 <= h < |s'.gos| && s'.gos[h].RangeReceiving?
      ensures RangeFlag(s'.chans[s'.gos[h].chan], s'.gos[h].ok)
    {
      if h != g {
        assert RangeFlag(s.chans[s.gos[h].chan], s.gos[h].ok);
        MemberCounts(s.gos, c, h);
      }
    }
  }

  lemma TriggerRoles(s: Config, c: nat, e: nat, g: nat, m: GoEdge, dir: Dir)
    requires Valid(s) && Enabled(s, Handshake(c, e, g, m))
    requires (e == 1 && dir.Sending?) || ((e == 6 || e == 15) && dir.Receiving?)
    requires s.chans[c].loc.Idle? ==> s.chans[c].buffer >= 0
    ensures var s' := After(s, Handshake(c, e, g, m));
      && s'.gos == s.gos[g := s'.gos[g]]
      && g < |s.gos| && s.chans[c].loc == EdgeAt(e).src
      && (m.TriggerCase? ==> s'.gos[g].Triggered?)
      && (s'.gos[g].RangeReceiving? ==> s'.gos[g].chan == c && s'.gos[g].ok == (s'.chans[c].counter >= 0))
      && RoleAt(s'.gos[g], c) == Waits(dir)
      && RoleAt(s.gos[g], c) == (if m.TriggerCase? then Reserves(dir) else Absent)
      && (forall d :: 0 <= d < |s.chans| && d != c ==> s'.chans[d] == s.chans[d] && RoleAt(s'.gos[g], d) == RoleAt(s.gos[g], d))
      && s'.chans[c] == s.chans[c].(loc := EdgeAt(e).dst,
           counter := s.chans[c].counter + if m.TriggerCase? then 0 else Delta(dir))
      && (m.TriggerCase? ==> ServesSelect(dir, s'.chans[c]))
  {
    assert ValidGo(s.gos[g], MadeCount(s));
    if m.TriggerCase? {
      var i := Find(s.gos[g].cases, c);
      assert i == m.index;
    }
  }

  lemma TriggerAccount(s: Config, s': Config, c: nat, e: nat, g: nat, dir: Dir)
    requires c < |s.chans| == |s'.chans| && g < |s.gos| == |s'.gos| && s'.gos == s.gos[g := s'.gos[g]]
    requires (e == 1 && dir.Sending?) || ((e == 6 || e == 15) && dir.Receiving?)
    requires Accounted(s, c) && s.chans[c].loc == EdgeAt(e).src && SoleSelect(s.gos, g)
    requires RoleAt(s'.gos[g], c) == Waits(dir)
    requires RoleAt(s.gos[g], c) == Absent || RoleAt(s.gos[g], c) == Reserves(dir)
    requires s'.chans[c] == s.chans[c].(loc := EdgeAt(e).dst,
               counter := s.chans[c].counter + if RoleAt(s.gos[g], c).Reserves? then 0 else Delta(dir))
    requires e == 15 ==> s.chans[c].loc.Closed?
    ensures Accounted(s', c)
  {
    CountsAfter(s.gos, g, s'.gos[g], c);
    SoleReserver(s.gos, g, c);
  }

  predicate ConfirmEdge(e: nat, dir: Dir) {
    if dir.Sending? then e == 3 || e == 10 else e == 5 || e == 8 || e == 12 || e == 16
  }

  function Release(role: Role): int { if role.Absent? then 0 else -Delta(role.dir) }

  /** Handshake e confirms goroutine g at channel c: g gives up all its registrations, and takes
      back its bumps of every counter but c's. */
  predicate Confirming(s: Config, s': Config, c: nat, e: nat, g: nat, dir: Dir) {
    && ConfirmEdge(e, dir) && c < |s.chans| == |s'.chans| && g < |s.gos| == |s'.gos|
    && s.chans[c].loc == EdgeAt(e).src && Holds(EdgeAt(e).guard, s.chans[c])
    && s'.gos == s.gos[g := s'.gos[g]] && (s'.gos[g].Running? || s'.gos[g].RangeReceived?)
    && RoleAt(s.gos[g], c) == Waits(dir)
    && s'.chans[c] == Take(EdgeAt(e), s.chans[c])
    && forall d :: 0 <= d < |s.chans| && d != c ==>
         s'.chans[d] == s.chans[d].(counter := s.chans[d].counter + Release(RoleAt(s.gos[g], d)))
  }

  lemma ConfirmShape(s: Config, c: nat, e: nat, g: nat, m: GoEdge, dir: Dir)
    requires Valid(s) && Enabled(s, Handshake(c, e, g, m)) && ConfirmEdge(e, dir)
    ensures Confirming(s, After(s, Handshake(c, e, g, m)), c, e, g, dir)
  {
    var s' := After(s, Handshake(c, e, g, m));
    var go := s.gos[g];
    var chans1 := s.chans[c := Take(EdgeAt(e), s.chans[c])];
    assert ValidGo(go, MadeCount(s));
    assert m.ConfirmOp? || m.ConfirmRange? || m.ConfirmCase?;
    assert s'.chans == GoUpdate(go, m, chans1);
    assert m.ConfirmCase? ==> go.cases[m.index] == Case(dir, c);
    assert s'.gos == s.gos[g := s'.gos[g]] && (s'.gos[g].Running? || s'.gos[g].RangeReceived?);
    assert !m.ConfirmCase? ==> RoleAt(go, c) == Waits(dir) && forall d :: d != c ==> RoleAt(go, d).Absent?;
    hide Enabled, After, EdgeAt, Take;
    if m.ConfirmCase? {
      ConfirmReleases(s.chans, c, chans1[c], go, m.index);
    }
  }

  /** Confirming a case takes back what the select registered for its other cases. */
  lemma ConfirmReleases(chans: seq<Chan>, c: nat, ch: Chan, go: Go, k: nat)
    requires (go.Triggered? && k == go.index) || go.Pass2?
    requires ValidCases(go.cases, |chans|) && k < |go.cases| && go.cases[k].chan == c
    ensures var after := BumpCases(chans[c := ch], go.cases, |go.cases|, k, -1);
            forall d :: 0 <= d < |chans| ==>
              after[d] == if d == c then ch else chans[d].(counter := chans[d].counter + Release(RoleAt(go, d)))
    ensures Find(go.cases, c) == k
  {
    hide ValidCases;
    ConfirmedIsFound(go.cases, |chans|, k);
    forall d | 0 <= d < |chans|
      ensures BumpCases(chans[c := ch], go.cases, |go.cases|, k, -1)[d]
              == if d == c then ch else chans[d].(counter := chans[d].counter + Release(RoleAt(go, d)))
    {
      BumpAt(chans[c := ch], go.cases, |go.cases|, k, -1, d);
    }
  }

  lemma ConfirmedIsFound(cases: seq<Case>, made: nat, k: nat)
    requires ValidCases(cases, made) && k < |cases|
    ensures Find(cases, cases[k].chan) == k
    ensures forall i :: 0 <= i < |cases| ==> cases[i].chan < made
  {
  }

  lemma ConfirmArithmetic(e: nat, dir: Dir, ch: Chan, ws: nat, wr: nat, hs: nat, hr: nat)
    requires ConfirmEdge(e, dir) && ch.loc == EdgeAt(e).src && Holds(EdgeAt(e).guard, ch)
    requires ChanOk(ch, ws, wr, hs, hr)
    requires if dir.Sending? then ws > 0 else wr > 0
    ensures ChanOk(Take(EdgeAt(e), ch), if dir.Sending? then ws - 1 else ws, if dir.Sending? then wr else wr - 1, hs, hr)
  {
    if e == 3 {} else if e == 5 {} else if e == 8 {} else if e == 10 {} else if e == 12 {} else { assert e == 16; }
  }

  lemma ConfirmAccounts(s: Config, s': Config, c: nat, e: nat, g: nat, dir: Dir, d: nat)
    requires Confirming(s, s', c, e, g, dir) && d < |s.chans| && Accounted(s, d)
    requires d != c ==> !IsCommitted(s.chans[d].loc)
    ensures Accounted(s', d)
  {
    if d == c {
      CountsAfter(s.gos, g, s'.gos[g], c);
      ConfirmArithmetic(e, dir, s.chans[c],
        Count(s.gos, d, Waits(Sending)), Count(s.gos, d, Waits(Receiving)),
        Count(s.gos, d, Reserves(Sending)), Count(s.gos, d, Reserves(Receiving)));
    } else {
      hide ChanOk, Accounted;
      Bystander(s, s', g, s'.gos[g], d, Release(RoleAt(s.gos[g], d)));
    }
  }

  /** The first confirmation of an arriving operation goes to the goroutine that arrived. */
  lemma FirstConfirmation(s: Config, c: nat, e: nat, g: nat, h: nat, dir: Dir)
    requires c < |s.chans| && g < |s.gos| && h < |s.gos| && Accounted(s, c)
    requires ((e == 8 || e == 16) && dir.Receiving?) || (e == 3 && dir.Sending?)
    requires s.chans[c].loc == EdgeAt(e).src && Holds(EdgeAt(e).guard, s.chans[c])
    requires RoleAt(s.gos[g], c) == RoleAt(s.gos[h], c) == Waits(dir)
    ensures g == h
  {
    OnlyMember(s.gos, c, Waits(dir), g, h);
  }

  lemma ConfirmTransaction(s: Config, s': Config, c: nat, e: nat, g: nat, dir: Dir)
    requires Valid(s) && Valid(s') && Confirming(s, s', c, e, g, dir) && OneTransaction(s) && Accounted(s, c)
    ensures OneTransaction(s')
  {
    hide Accounted, RoleAt;
    assert IsCommitted(s.chans[c].loc);
    forall d | 0 <= d < |s.chans| && d != c ensures !IsCommitted(s'.chans[d].loc) {
      assert !IsCommitted(s.chans[d].loc);
    }
    forall h | 0 <= h < |s'.gos| ensures !s'.gos[h].Triggered? && !s'.gos[h].Pass1? {
      NoneStaysTriggered(s, s', c, e, g, dir, h);
    }
  }

  /** The select that triggered a channel is the one that gets confirmed first. */
  lemma NoneStaysTriggered(s: Config, s': Config, c: nat, e: nat, g: nat, dir: Dir, h: nat)
    requires Valid(s) && Confirming(s, s', c, e, g, dir) && OneTransaction(s) && Accounted(s, c)
    requires h < |s.gos| && IsCommitted(s.chans[c].loc)
    ensures !s'.gos[h].Triggered?
  {
    if h != g && s.gos[h].Triggered? {
      var go := s.gos[h];
      var k := go.cases[go.index];
      assert ServesSelect(k.dir, s.chans[k.chan]);
      assert k.chan == c;
      assert Find(go.cases, c) == go.index;
      FirstConfirmation(s, c, e, g, h, dir);
    }
  }

  lemma ConfirmRangeFlags(s: Config, s': Config, c: nat, e: nat, g: nat, dir: Dir)
    requires Valid(s) && Valid(s') && Confirming(s, s', c, e, g, dir) && RangeFlags(s) && Accounted(s, c)
    requires forall d :: 0 <= d < |s.chans| && d != c ==> !IsCommitted(s.chans[d].loc)
    ensures RangeFlags(s')
  {
    forall h | 0 <= h < |s'.gos| && s'.gos[h].RangeReceiving?
      ensures RangeFlag(s'.chans[s'.gos[h].chan], s'.gos[h].ok)
    {
      assert h != g && RangeFlag(s.chans[s.gos[h].chan], s.gos[h].ok);
      if s.gos[h].chan == c {
        MemberCounts(s.gos, c, h);
        if e == 8 || e == 16 { FirstConfirmation(s, c, e, g, h, dir); }
      }
    }
  }

  lemma ConfirmKeepsInv(s: Config, c: nat, e: nat, g: nat, m: GoEdge)
    requires Inv(s) && Enabled(s, Handshake(c, e, g, m)) && (ConfirmEdge(e, Sending) || ConfirmEdge(e, Receiving))
    ensures Inv(After(s, Handshake(c, e, g, m)))
  {
    hide Accounted, RangeFlags;
    var s' := After(s, Handshake(c, e, g, m));
    var dir: Dir := if e == 3 || e == 10 then Sending else Receiving;
    ConfirmShape(s, c, e, g, m, dir);
    assert IsCommitted(s.chans[c].loc);
    forall d | 0 <= d < |s'.chans| ensures Accounted(s', d) {
      ConfirmAccounts(s, s', c, e, g, dir, d);
    }
    assert Valid(s');
    ConfirmTransaction(s, s', c, e, g, dir);
    ConfirmRangeFlags(s, s', c, e, g, dir);
    ConfirmUnmade(s, s', c, e, g, dir);
  }

  lemma ConfirmUnmade(s: Config, s': Config, c: nat, e: nat, g: nat, dir: Dir)
    requires Valid(s) && Unmade(s) && Confirming(s, s', c, e, g, dir) && MadeCount(s') == MadeCount(s)
    requires IsCommitted(s.chans[c].loc)
    ensures Unmade(s')
  {
    assert ValidGo(s.gos[g], MadeCount(s));
    forall d | MadeCount(s) <= d < |s.chans| ensures s'.chans[d] == FRESH {
      assert s.chans[d] == FRESH && d != c;
      assert RoleAt(s.gos[g], d).Absent?;
    }
  }

  // ---------- Close ----------

  lemma CloseShape(s: Config, c: nat, g: nat, m: GoEdge)
    requires Valid(s) && Enabled(s, Handshake(c, 11, g, m))
    ensures var s' := After(s, Handshake(c, 11, g, m));
      && s.gos[g].Running? && s.chans[c].loc.Idle? && s.chans[c].counter <= s.chans[c].buffer && !SomeCommitted(s)
      && s' == s.(chans := s.chans[c := s.chans[c].(loc := Closing, buffer := -1)], gos := s.gos[g := Running(ClosedChan)])
  {
    assert m.StartClose?;
  }

  lemma CloseKeepsInv(s: Config, c: nat, g: nat, m: GoEdge)
    requires Inv(s) && Enabled(s, Handshake(c, 11, g, m))
    ensures Inv(After(s, Handshake(c, 11, g, m)))
  {
    hide Accounted, RangeFlags;
    var s' := After(s, Handshake(c, 11, g, m));
    CloseShape(s, c, g, m);
    NobodySelecting(s);
    CloseRangeFlags(s, s', c, g);
    assert OneTransaction(s');
    assert c < MadeCount(s) by { assert GoEdgeEnabled(s, g, m); }
    hide Enabled, After, OneTransaction, RoleAt, EdgeAt;
    forall d | 0 <= d < |s'.chans| ensures Accounted(s', d) {
      if d == c { CloseAccount(s, s', c, g); } else { NotInvolved(s, s', g, d); }
    }
  }

  lemma NotInvolved(s: Config, s': Config, g: nat, d: nat)
    requires g < |s.gos| == |s'.gos| && s'.gos == s.gos[g := s'.gos[g]] && s.gos[g].Running? && s'.gos[g].Running?
    requires d < |s.chans| == |s'.chans| && s'.chans[d] == s.chans[d] && Accounted(s, d)
    ensures Accounted(s', d)
  {
    hide Accounted;
    Untouched(s, s', g, s'.gos[g], d);
  }

  lemma CloseAccount(s: Config, s': Config, c: nat, g: nat)
    requires c < |s.chans| == |s'.chans| && g < |s.gos| && s'.gos == s.gos[g := Running(ClosedChan)] && s.gos[g].Running?
    requires s.chans[c].loc.Idle? && s.chans[c].counter <= s.chans[c].buffer && Accounted(s, c)
    requires s'.chans[c] == s.chans[c].(loc := Closing, buffer := -1)
    requires forall h :: 0 <= h < |s.gos| ==> !Selecting(s.gos[h])
    ensures Accounted(s', c)
  {
    CountsAfter(s.gos, g, s'.gos[g], c);
    NoReserver(s.gos, c);
  }

  lemma CloseRangeFlags(s: Config, s': Config, c: nat, g: nat)
    requires Valid(s) && Valid(s') && RangeFlags(s) && c < |s.chans| == |s'.chans| && g < |s.gos|
    requires s'.gos == s.gos[g := Running(ClosedChan)] && s.chans[c].loc.Idle?
    requires s'.chans == s.chans[c := s.chans[c].(loc := Closing, buffer := -1)]
    ensures RangeFlags(s')
  {
    forall h | 0 <= h < |s'.gos| && s'.gos[h].RangeReceiving?
      ensures RangeFlag(s'.chans[s'.gos[h].chan], s'.gos[h].ok)
    {
      assert RangeFlag(s.chans[s.gos[h].chan], s.gos[h].ok);
    }
  }

  // ---------- A channel turns bad ----------

  lemma TurnsBadShape(s: Config, c: nat, e: nat, g: nat, m: GoEdge)
    requires Valid(s) && Enabled(s, Handshake(c, e, g, m)) && EdgeAt(e).dst.Bad? && !m.TriggerCase? && Accounted(s, c)
    ensures var s' := After(s, Handshake(c, e, g, m));
      && s.gos[g].Running? && !SomeCommitted(s) && s'.gos == s.gos[g := s'.gos[g]] && s'.count == s.count
      && (s'.gos[g].Running? || s'.gos[g] == Pending(Case(Sending, c))) && c < MadeCount(s)
      && |s'.chans| == |s.chans| && s'.chans[c].loc.Bad? && s'.chans[c].buffer < 0
      && forall d :: 0 <= d < |s.chans| && d != c ==> s'.chans[d] == s.chans[d]
  {
    assert e == 14 || e == 17 || e == 18;
    assert ValidGo(s.gos[g], MadeCount(s));
  }

  lemma TurnsBadKeepsInv(s: Config, c: nat, e: nat, g: nat, m: GoEdge)
    requires Inv(s) && Enabled(s, Handshake(c, e, g, m)) && EdgeAt(e).dst.Bad? && !m.TriggerCase?
    ensures Inv(After(s, Handshake(c, e, g, m)))
  {
    hide Accounted, RangeFlags, EdgeAt;
    var s' := After(s, Handshake(c, e, g, m));
    TurnsBadShape(s, c, e, g, m);
    hide After, Enabled;
    NobodySelecting(s);
    forall d | 0 <= d < |s'.chans| ensures Accounted(s', d) {
      if d == c {
        BadAccount(s', c);
      } else {
        Untouched(s, s', g, s'.gos[g], d);
      }
    }
    BadRangeFlags(s, s', c, g);
    assert OneTransaction(s');
  }

  lemma BadAccount(s: Config, c: nat)
    requires c < |s.chans| && s.chans[c].loc.Bad? && s.chans[c].buffer < 0
    ensures Accounted(s, c)
  {
  }

  lemma BadRangeFlags(s: Config, s': Config, c: nat, g: nat)
    requires Valid(s) && Valid(s') && RangeFlags(s) && c < |s.chans| == |s'.chans| && g < |s.gos| == |s'.gos|
    requires s'.gos == s.gos[g := s'.gos[g]] && !s'.gos[g].RangeReceiving? && s'.chans[c].loc.Bad?
    requires forall d :: 0 <= d < |s.chans| && d != c ==> s'.chans[d] == s.chans[d]
    ensures RangeFlags(s')
  {
    forall h | 0 <= h < |s'.gos| && s'.gos[h].RangeReceiving?
      ensures RangeFlag(s'.chans[s'.gos[h].chan], s'.gos[h].ok)
    {
      assert RangeFlag(s.chans[s.gos[h].chan], s.gos[h].ok);
    }
  }

  // ---------- Every step, every run ----------

  /** Channel ids stay valid whatever happens, so no run ends because of one. */
  lemma StepKeepsValid(s: Config, st: Step, s': Config)
    requires Next(s, st, s')
    ensures Valid(s') && |s'.chans| == |s.chans| && |s'.gos| == |s.gos|
  {
    forall h | 0 <= h < |s'.gos| ensures ValidGo(s'.gos[h], MadeCount(s')) {
      ValidGoGrows(s.gos[h], MadeCount(s), MadeCount(s'));
      assert st.ChanMove? || h != st.g || ValidGo(s'.gos[h], MadeCount(s));
    }
  }

  /** A select chooses to send to a closed channel. */
  predicate SendsToClosed(st: Step) {
    st.Handshake? && st.m.TriggerCase? && 1 <= st.e <= EDGE_COUNT && EdgeAt(st.e).dst.Bad?
  }

  /** A step keeps the invariant exactly if it is not a select that chooses to send to a closed channel. */
  lemma StepKeepsInv(s: Config, st: Step, s': Config)
    requires Inv(s) && Next(s, st, s')
    ensures Valid(s') && (Inv(s') <==> !SendsToClosed(st))
    ensures Inv(s') <==> NoStuckSelect(s')
  {
    hide Accounted, RangeFlags, OneTransaction, Unmade;
    StepKeepsValid(s, st, s');
    if SendsToClosed(st) {
      ChosenIsStuck(s, st.c, st.e, st.g, st.m);
      if Inv(s') { InvMeansNoneStuck(s'); }
    } else {
      OtherStepKeepsInv(s, st, s');
      InvMeansNoneStuck(s');
    }
  }

  lemma InvMeansNoneStuck(s: Config)
    requires Inv(s)
    ensures NoStuckSelect(s)
  {
    forall g | 0 <= g < |s.gos| && s.gos[g].Triggered? ensures !s.chans[s.gos[g].cases[s.gos[g].index].chan].loc.Bad? {
      var k := s.gos[g].cases[s.gos[g].index];
      assert ServesSelect(k.dir, s.chans[k.chan]);
    }
  }

  lemma OtherStepKeepsInv(s: Config, st: Step, s': Config)
    requires Inv(s) && Next(s, st, s') && !SendsToClosed(st)
    ensures Inv(s')
  {
    hide Accounted, RangeFlags, OneTransaction, Unmade;
    match st {
      case ChanMove(c, e) => ChanMoveKeepsInv(s, c, e);
      case GoMove(g, m) =>
        if m.EnterBody? || m.ExitRange? { RangeEndKeepsInv(s, g, m); }
        else if m.MakeChan? { MakeChanKeepsInv(s, g, m); }
        else { SelectMoveKeepsInv(s, g, m); }
      case Handshake(c, e, g, m) =>
        if EdgeAt(e).dst.Bad? { TurnsBadKeepsInv(s, c, e, g, m); }
        else if e == 1 || e == 6 || e == 15 { TriggerKeepsInv(s, c, e, g, m); }
        else if e == 11 { CloseKeepsInv(s, c, g, m); }
        else { ConfirmKeepsInv(s, c, e, g, m); }
    }
  }

  /** A select that sends to a closed channel is stuck at it. */
  lemma ChosenIsStuck(s: Config, c: nat, e: nat, g: nat, m: GoEdge)
    requires Valid(s) && Enabled(s, Handshake(c, e, g, m)) && EdgeAt(e).dst.Bad? && m.TriggerCase?
    ensures var s' := After(s, Handshake(c, e, g, m)); Valid(s') ==> !NoStuckSelect(s')
  {
    var s' := After(s, Handshake(c, e, g, m));
    assert ValidGo(s.gos[g], MadeCount(s));
    assert s'.gos[g] == Triggered(s.gos[g].cases, m.index);
    assert s'.chans[c].loc.Bad?;
  }
}
