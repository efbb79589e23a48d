module ChannelInvariant {
  // The inductive invariant of the channel network: one integer per channel accounts for buffered values, blocked
  // senders and blocked receivers at once.

  import opened ChannelAutomaton
  import opened ChannelNetwork

  // ---------- Who is registered at which channel ----------

  /** How a goroutine is registered at a channel: it waits for a confirmation, or its select has
      bumped the counter and has not chosen this case. */
  datatype Role = Absent | Waits(dir: Dir) | Reserves(dir: Dir)

  function Find(cases: seq<Case>, c: nat): (i: int)
    ensures i == -1 || (0 <= i < |cases| && cases[i].chan == c)
    ensures i == -1 ==> forall j :: 0 <= j < |cases| ==> cases[j].chan != c
  {
    if cases == [] then -1
    else if cases[|cases| - 1].chan == c then |cases| - 1
    else Find(cases[..|cases| - 1], c)
  }

  function RoleAt(go: Go, c: nat): Role {
    match go
    case Pending(op) => if op.chan == c then Waits(op.dir) else Absent
    case RangeReceiving(d, _) => if c == d then Waits(Receiving) else Absent
    case Pass1(cases, _) => (var i := Find(cases, c); if i >= 0 then Reserves(cases[i].dir) else Absent)
    case Triggered(cases, k) =>
      (var i := Find(cases, c); if i < 0 then Absent else if i == k then Waits(cases[i].dir) else Reserves(cases[i].dir))
    case Pass2(cases) => (var i := Find(cases, c); if i >= 0 then Waits(cases[i].dir) else Absent)
    case _ => Absent
  }

  function Members(gos: seq<Go>, c: nat, role: Role): set<nat> {
    set g: nat | g < |gos| && RoleAt(gos[g], c) == role
  }

  function Count(gos: seq<Go>, c: nat, role: Role): nat { |Members(gos, c, role)| }

  function Bit(b: bool): nat { if b then 1 else 0 }

  lemma MembersAfter(gos: seq<Go>, g: nat, go: Go, c: nat, role: Role)
    requires g < |gos|
    ensures Members(gos[g := go], c, role) ==
            Members(gos, c, role) - {g} + if RoleAt(go, c) == role then {g} else {}
  {
    var after := Members(gos[g := go], c, role);
    forall h: nat
      ensures h in after <==> h in Members(gos, c, role) - {g} + if RoleAt(go, c) == role then {g} else {}
    {
      if h < |gos| && h != g {
        assert gos[g := go][h] == gos[h];
      }
    }
  }

  lemma CountAfter(gos: seq<Go>, g: nat, go: Go, c: nat, role: Role)
    requires g < |gos|
    ensures Count(gos[g := go], c, role) == Count(gos, c, role) - Bit(RoleAt(gos[g], c) == role) + Bit(RoleAt(go, c) == role)
  {
    MembersAfter(gos, g, go, c, role);
    var before := Members(gos, c, role);
    assert |before - {g}| == |before| - Bit(g in before);
  }

  lemma SomeMember(gos: seq<Go>, c: nat, role: Role) returns (g: nat)
    requires Count(gos, c, role) > 0
    ensures g < |gos| && RoleAt(gos[g], c) == role
  {
    g :| g in Members(gos, c, role);
  }

  lemma NoMember(gos: seq<Go>, c: nat, role: Role)
    requires forall g :: 0 <= g < |gos| ==> RoleAt(gos[g], c) != role
    ensures Count(gos, c, role) == 0
  {
    assert Members(gos, c, role) == {};
  }

  lemma MemberCounts(gos: seq<Go>, c: nat, g: nat)
    requires g < |gos|
    ensures Count(gos, c, RoleAt(gos[g], c)) > 0
  {
    assert g in Members(gos, c, RoleAt(gos[g], c));
  }

  /** The only member of a role with count one. */
  lemma OnlyMember(gos: seq<Go>, c: nat, role: Role, g: nat, h: nat)
    requires g < |gos| && h < |gos| && RoleAt(gos[g], c) == role && RoleAt(gos[h], c) == role
    requires Count(gos, c, role) == 1
    ensures g == h
  {
    var all := Members(gos, c, role);
    assert g in all && h in all;
    assert |all - {g}| == 0;
    assert h !in all - {g};
  }

  // ---------- Counter updates of a select ----------

  lemma BumpAt(chans: seq<Chan>, cases: seq<Case>, n: nat, skip: int, sign: int, d: nat)
    requires ValidCases(cases, |chans|) && n <= |cases| && d < |chans|
    ensures
      var i := Find(cases, d);
      BumpCases(chans, cases, n, skip, sign)[d] ==
      chans[d].(counter := chans[d].counter + if 0 <= i < n && i != skip then sign * Delta(cases[i].dir) else 0)
  {
    if n > 0 {
      BumpAt(chans, cases, n - 1, skip, sign, d);
    }
  }

  // ---------- The invariant of one channel ----------

  function Pos(x: int): nat { if x > 0 then x else 0 }
  function Clamp(x: int, hi: int): int { if x < 0 then 0 else if x > hi then hi else x }

  /** Settled accounts for counter value t: blocked senders, blocked receivers, buffered values. */
  predicate Settled(t: int, cap: int, senders: int, receivers: int, items: int) {
    senders == Pos(t - cap) && receivers == Pos(-t) && items == Clamp(t, cap)
  }

  /** `ws` and `wr` goroutines wait to send and to receive; `hs` and `hr` selects have bumped the
      counter without having chosen the channel. Of a bad channel only that its buffer is marked. */
  predicate ChanOk(ch: Chan, ws: nat, wr: nat, hs: nat, hr: nat) {
    var t := ch.counter - hs + hr;
    var undisturbed := hs == 0 && hr == 0;
    match ch.loc
    case Idle => ch.buffer == ch.cap >= 0 && Settled(t, ch.cap, ws, wr, ch.Items())
    case NewSender => ch.buffer == ch.cap >= 0 && undisturbed && Settled(t - 1, ch.cap, ws - 1, wr, ch.Items())
    case ConfirmingA =>
      ch.buffer == ch.cap >= 0 && undisturbed && t <= ch.cap && Settled(t - 1, ch.cap, ws, wr, ch.Items() - 1)
    case NewReceiver => ch.buffer == ch.cap >= 0 && undisturbed && Settled(t + 1, ch.cap, ws, wr - 1, ch.Items())
    case ConfirmingB =>
      ch.buffer == ch.cap >= 0 && undisturbed && t >= 0 && Settled(t + 1, ch.cap, ws, wr, ch.Items() + 1)
    case Closing => ch.buffer == -1 && ch.cap >= 0 && undisturbed && t <= ch.cap && Settled(t, ch.cap, ws, wr, ch.Items())
    case Closed => ch.buffer == -1 && ch.cap >= 0 && ws == 0 && wr == 0 && 0 <= ch.Items() == t <= ch.cap
    case ConfirmingClosed =>
      ch.buffer == -1 && ch.cap >= 0 && undisturbed && ws == 0 && wr == 1 && 0 <= ch.Items() == t + 1 <= ch.cap
    case Bad => ch.buffer < 0
  }

  predicate Accounted(s: Config, c: nat)
    requires c < |s.chans|
  {
    ChanOk(s.chans[c], Count(s.gos, c, Waits(Sending)), Count(s.gos, c, Waits(Receiving)),
           Count(s.gos, c, Reserves(Sending)), Count(s.gos, c, Reserves(Receiving)))
  }

  // ---------- The invariant of the network ----------

  predicate Selecting(go: Go) { go.Pass1? || go.Triggered? }

  /** A channel that was just triggered by a select whose case fits. */
  predicate ServesSelect(dir: Dir, ch: Chan) {
    if dir.Sending? then ch.loc.NewSender? && ch.counter <= ch.buffer
    else (ch.loc.NewReceiver? && ch.counter >= 0) || ch.loc.ConfirmingClosed?
  }

  /** At most one channel and one select are being served. */
  predicate OneTransaction(s: Config)
    requires Valid(s)
  {
    && (forall c, d :: 0 <= c < |s.chans| && 0 <= d < |s.chans| && IsCommitted(s.chans[c].loc) && IsCommitted(s.chans[d].loc) ==> c == d)
    && (forall g, h :: 0 <= g < |s.gos| && 0 <= h < |s.gos| && Selecting(s.gos[g]) && Selecting(s.gos[h]) ==> g == h)
    && (forall g, c :: 0 <= g < |s.gos| && 0 <= c < |s.chans| && s.gos[g].Pass1? ==> !IsCommitted(s.chans[c].loc))
    && (forall g :: 0 <= g < |s.gos| && s.gos[g].Triggered? ==>
          (var k := s.gos[g].cases[s.gos[g].index]; ServesSelect(k.dir, s.chans[k.chan])))
  }

  /** The flag `ok` of a range statement that has not been confirmed. */
  predicate RangeFlag(ch: Chan, ok: bool) {
    match ch.loc
    case NewReceiver => ok ==> ch.counter >= 0
    case ConfirmingClosed => ok == (ch.counter >= 0)
    case Bad => true
    case _ => !ok
  }

  predicate RangeFlags(s: Config)
    requires Valid(s)
  {
    forall g :: 0 <= g < |s.gos| && s.gos[g].RangeReceiving? ==> RangeFlag(s.chans[s.gos[g].chan], s.gos[g].ok)
  }

  /** No select has chosen a case of a bad channel, which will never confirm it. */
  predicate NoStuckSelect(s: Config)
    requires Valid(s)
  {
    forall g :: 0 <= g < |s.gos| && s.gos[g].Triggered? ==> !s.chans[s.gos[g].cases[s.gos[g].index].chan].loc.Bad?
  }

  predicate Unmade(s: Config) {
    forall c :: MadeCount(s) <= c < |s.chans| ==> s.chans[c] == FRESH
  }

  predicate Inv(s: Config) {
    && Valid(s)
    && (forall c :: 0 <= c < |s.chans| ==> Accounted(s, c))
    && OneTransaction(s)
    && RangeFlags(s)
    && Unmade(s)
  }
}
