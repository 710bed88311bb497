/** Every step of every thread keeps the invariant. */
module Preservation {
  import opened Options
  import opened Sequences
  import opened Posix
  import opened Atomic
  import opened Catalog
  import opened Machine
  import opened Invariant

  // ---------- what a move may do ----------

  /** Lock actions enter and leave exactly the sections they name. */
  predicate SectionsFit(from: Section, to: Section, act: Act) {
    match act
    case LockRead(r) => from == Outside && to == Reading(r)
    case UnlockRead(r) => from == Reading(r) && to == Outside
    case LockWrite(r) => from == Outside && to == Writing(r)
    case UnlockWrite(r) => from == Writing(r) && to == Outside
    case _ => from == to
  }

  /** What a thread holds after an action. */
  function HeldAfter(held: multiset<TypeObj>, act: Act): multiset<TypeObj> {
    match act
    case Inc(t) => held + multiset{t}
    case Dec(t) => held - multiset{t}
    case Take(t) => held + multiset{t}
    case Give(_) => multiset{}
    case _ => held
  }

  /** Where in the code an action on shared memory comes from, and the lock it waits for. */
  predicate OriginFits(s: State, th: Thread, act: Act) {
    match act
    case SetOne(t) => th.pc == Registering(t, RSet)
    case Link(t) => th.pc == Registering(t, RLink)
    case SetNewest(t) => th.pc == Registering(t, RDefault)
    case Unlink(t) => th.pc == Unregistering(t, UUnlink)
    case Inc(t) => th.pc.Acquiring? && th.pc.a == AInc(t)
    case Dec(t) => t in th.held
    case Take(t) => t in s.live
    case Give(ts) => ts == th.held
    case LockRead(r) => At(s, r).lock.writer.None?
    case LockWrite(r) => Free(At(s, r).lock)
    case _ => true
  }

  predicate MoveOk(s: State, th: Thread, m: Move) {
    && SectionsFit(SectionOf(th.pc), SectionOf(m.th.pc), m.act)
    && multiset(m.th.held) == HeldAfter(multiset(th.held), m.act)
    && OriginFits(s, th, m.act)
  }

  lemma CutMultiset(ts: seq<TypeObj>, d: nat)
    requires d < |ts|
    ensures multiset(Cut(ts, d)) == multiset(ts) - multiset{ts[d]}
  {
    assert ts == ts[..d] + [ts[d]] + ts[d + 1..];
  }

  lemma CodeMoves(s: State, i: nat, c: Choice)
    requires Enabled(s, i) && Rested(s.threads[i])
    ensures MoveOk(s, s.threads[i], Code(s, s.threads[i], c))
  {
    var th := s.threads[i];
    match th.pc
    case Ready => BeginMoves(s, th, c);
    case Registering(_, _) => RegisterMoves(s, th);
    case Unregistering(_, _) => UnregisterMoves(s, th);
    case Acquiring(_, _, _) => AcquireMoves(s, th);
    case Unwind(_, _) => UnwindMoves(s, th);
    case _ =>
  }

  lemma BeginMoves(s: State, th: Thread, c: Choice)
    requires Busy(th) && Rested(th) && th.pc == Ready
    ensures MoveOk(s, th, Begin(s, th, c))
  {
    assert th.held == [];
  }

  lemma RegisterMoves(s: State, th: Thread)
    requires th.pc.Registering? && (th.pc.r.RLock? ==> Free(At(s, RegOf(th.pc.t)).lock))
    ensures MoveOk(s, th, RegisterCode(s, th))
  {
    match th.pc.r
    case RLock =>
    case RScan(_) =>
    case RSet =>
    case RLink =>
    case RDefault =>
    case RUnlock(_) =>
  }

  lemma UnregisterMoves(s: State, th: Thread)
    requires th.pc.Unregistering? && (th.pc.u.ULock? ==> Free(At(s, RegOf(th.pc.t)).lock))
    ensures MoveOk(s, th, UnregisterCode(s, th))
  {
    match th.pc.u
    case ULock =>
    case UDefault =>
    case UCount =>
    case UUnlink =>
    case UUnlock(_) =>
  }

  lemma AcquireMoves(s: State, th: Thread)
    requires Busy(th) && th.pc.Acquiring? && (th.pc.a.ALock? ==> At(s, Registry(th.pc.w)).lock.writer.None?)
    ensures MoveOk(s, th, AcquireCode(s, th))
  {
    match th.pc.a
    case ALock =>
    case ADefault =>
    case AScan(_) =>
    case AInc(_) =>
    case AUnlock(_) =>
  }

  lemma UnwindMoves(s: State, th: Thread)
    requires Busy(th) && th.pc.Unwind?
    ensures MoveOk(s, th, UnwindCode(th))
  {
    if th.held != [] {
      CutMultiset(th.held, NextDrop(th.held));
    }
  }

  // ---------- locks ----------

  lemma SectionsAfter(s: State, i: nat, m: Move, j: nat)
    requires i < |s.threads|
    ensures SectionAt(Effect(s, i, m), j) == if j == i then SectionOf(m.th.pc) else SectionAt(s, j)
  {
  }

  /** The lock of r changes only by the four lock actions on r. */
  lemma LockAfter(s: State, i: nat, act: Act, r: Reg)
    ensures var l, l' := At(s, r).lock, At(Apply(s, i, act), r).lock;
            l' == if act == LockRead(r) then RWLock(l.readers + {i}, l.writer)
                  else if act == UnlockRead(r) then RWLock(l.readers - {i}, l.writer)
                  else if act == LockWrite(r) then RWLock(l.readers, Some(i))
                  else if act == UnlockWrite(r) then RWLock(l.readers, None)
                  else l
  {
  }

  lemma LockStep(s: State, i: nat, m: Move, r: Reg)
    requires i < |s.threads| && LockFits(s, r) && MoveOk(s, s.threads[i], m)
    ensures LockFits(Effect(s, i, m), r)
  {
    var s' := Effect(s, i, m);
    LockAfter(s, i, m.act, r);
    assert At(s', r) == At(Apply(s, i, m.act), r);
    assert SectionAt(s, i) == SectionOf(s.threads[i].pc);
    forall j: nat
      ensures SectionAt(s', j) == if j == i then SectionOf(m.th.pc) else SectionAt(s, j)
    {
      SectionsAfter(s, i, m, j);
    }
  }

  /** While i is inside a write section of r, nobody else is inside any section of r. */
  lemma Exclusion(s: State, i: nat, j: nat, r: Reg)
    requires LockFits(s, r) && i != j
    ensures SectionAt(s, i) == Writing(r) ==> SectionAt(s, j) != Reading(r) && SectionAt(s, j) != Writing(r)
  {
  }

  // ---------- references ----------

  lemma {:induction false} InFlightUpdate(ths: seq<Thread>, i: nat, th: Thread, t: TypeObj)
    requires i < |ths|
    ensures InFlight(ths[i := th], t) + multiset(ths[i].held)[t] == InFlight(ths, t) + multiset(th.held)[t]
    ensures InFlight(ths, t) >= multiset(ths[i].held)[t]
  {
    var n := |ths| - 1;
    if i < n {
      assert ths[i := th][..n] == ths[..n][i := th];
      InFlightUpdate(ths[..n], i, th, t);
    } else {
      assert ths[i := th][..n] == ths[..n];
    }
  }

  function Delta(act: Act, t: TypeObj): int {
    if act == Inc(t) then 1 else if act == Dec(t) then -1 else 0
  }

  lemma LiveAfter(s: State, i: nat, act: Act, t: TypeObj)
    ensures Apply(s, i, act).live ==
              if act.Take? then s.live - multiset{act.t}
              else if act.Give? then s.live + multiset(act.ts)
              else s.live
  {
  }

  /** Handing a reference to a client or back moves it; only increments and decrements change the total. */
  lemma HoldersStep(s: State, i: nat, m: Move, t: TypeObj)
    requires i < |s.threads| && MoveOk(s, s.threads[i], m)
    ensures Holders(Effect(s, i, m), t) == Holders(s, t) + Delta(m.act, t)
  {
    InFlightUpdate(s.threads, i, m.th, t);
    LiveAfter(s, i, m.act, t);
    HandOver(s, s.threads[i], m, t);
    assert Effect(s, i, m).threads == s.threads[i := m.th];
    assert Effect(s, i, m).live == Apply(s, i, m.act).live;
  }

  lemma HandOver(s: State, th: Thread, m: Move, t: TypeObj)
    requires multiset(m.th.held) == HeldAfter(multiset(th.held), m.act) && OriginFits(s, th, m.act)
    ensures (if m.act.Take? then s.live - multiset{m.act.t}
             else if m.act.Give? then s.live + multiset(m.act.ts)
             else s.live)[t] + multiset(m.th.held)[t]
            == s.live[t] + multiset(th.held)[t] + Delta(m.act, t)
  {
    var h, h' := multiset(th.held), multiset(m.th.held);
    match m.act
    case Inc(u) => assert h'[t] == h[t] + multiset{u}[t];
    case Dec(u) => assert u in h;
    case Take(u) =>
    case Give(ts) =>
    case _ =>
  }

  lemma HeldIsCounted(s: State, i: nat, t: TypeObj)
    requires i < |s.threads| && t in s.threads[i].held
    ensures Holders(s, t) > 0
  {
    InFlightUpdate(s.threads, i, s.threads[i], t);
    assert t in multiset(s.threads[i].held);
  }

  // ---------- the ring of one registry ----------

  lemma {:induction false} WithoutFacts(ts: seq<TypeObj>, t: TypeObj)
    ensures forall u :: u in Without(ts, t) <==> u in ts && u != t
    ensures t !in ts ==> Without(ts, t) == ts
  {
    if ts != [] {
      WithoutFacts(ts[1..], t);
    }
  }

  lemma {:induction false} WithoutDistinct(ts: seq<TypeObj>, t: TypeObj)
    requires Distinct(ts)
    ensures Distinct(Without(ts, t))
  {
    if ts != [] {
      var r := Without(ts[1..], t);
      WithoutDistinct(ts[1..], t);
      WithoutFacts(ts[1..], t);
      forall k | 0 <= k < |r|
        ensures LabelOf(r[k]) != LabelOf(ts[0])
      {
        assert r[k] in ts[1..];
      }
      assert Distinct([ts[0]] + r);
    }
  }

  /** The ring and the default of r change only by the three ring actions on r. */
  lemma ApplyRing(s: State, i: nat, act: Act, r: Reg)
    ensures var a, b := At(s, r), At(Apply(s, i, act), r);
            if act.Link? && RegOf(act.t) == r then b.ring == a.ring + [act.t] && b.newest == a.newest
            else if act.Unlink? && RegOf(act.t) == r then b.ring == Without(a.ring, act.t) && b.newest == a.newest
            else if act.SetNewest? && RegOf(act.t) == r then b.ring == a.ring && b.newest == Some(act.t)
            else b.ring == a.ring && b.newest == a.newest
  {
  }

  lemma RingAfter(s: State, i: nat, m: Move, r: Reg)
    requires i < |s.threads|
    ensures var act, a, b := m.act, At(s, r), At(Effect(s, i, m), r);
            if act.Link? && RegOf(act.t) == r then b.ring == a.ring + [act.t] && b.newest == a.newest
            else if act.Unlink? && RegOf(act.t) == r then b.ring == Without(a.ring, act.t) && b.newest == a.newest
            else if act.SetNewest? && RegOf(act.t) == r then b.ring == a.ring && b.newest == Some(act.t)
            else b.ring == a.ring && b.newest == a.newest
  {
    ApplyRing(s, i, m.act, r);
    assert Effect(s, i, m).regs == Apply(s, i, m.act).regs;
  }

  /** Inside anybody's section of r, other threads leave the ring and the default of r alone. */
  lemma RingStable(s: State, i: nat, m: Move, j: nat, r: Reg)
    requires i < |s.threads| && LockFits(s, r) && MoveOk(s, s.threads[i], m)
    requires i != j && (SectionAt(s, j) == Reading(r) || SectionAt(s, j) == Writing(r))
    ensures At(Effect(s, i, m), r).ring == At(s, r).ring && At(Effect(s, i, m), r).newest == At(s, r).newest
  {
    RingAfter(s, i, m, r);
    Exclusion(s, i, j, r);
  }

  lemma KnownGrows(s: State, i: nat, m: Move)
    requires i < |s.threads|
    ensures s.counts.Keys <= Effect(s, i, m).counts.Keys
  {
  }

  lemma RingStep(s: State, i: nat, m: Move, r: Reg)
    requires i < |s.threads| && RingOk(s, r) && SharedOk(s, s.threads[i].pc) && MoveOk(s, s.threads[i], m)
    ensures RingOk(Effect(s, i, m), r)
  {
    RingAfter(s, i, m, r);
    KnownGrows(s, i, m);
    if m.act.Unlink? && RegOf(m.act.t) == r {
      WithoutFacts(At(s, r).ring, m.act.t);
      WithoutDistinct(At(s, r).ring, m.act.t);
      var ring' := Without(At(s, r).ring, m.act.t);
      forall j | 0 <= j < |ring'|
        ensures RegOf(ring'[j]) == r && ring'[j] in s.counts
      {
        assert ring'[j] in At(s, r).ring;
      }
    }
  }

  /** Comparing the newcomer with the default restores the default. */
  lemma NewDefault(ring: seq<TypeObj>, newest: Option<TypeObj>)
    requires ring != [] && Versioned(RegOf(ring[0]))
    requires forall j :: 0 <= j < |ring| ==> RegOf(ring[j]) == RegOf(ring[0])
    requires Distinct(ring)
    requires RightDefault(ring[..|ring| - 1], newest)
    ensures var t := ring[|ring| - 1];
            RightDefault(ring, if newest.None? || VersionOf(newest.value) < VersionOf(t) then Some(t) else newest)
  {
    var n := |ring| - 1;
    assert forall u :: u in ring ==> u in ring[..n] || u == ring[n];
    if newest.Some? {
      var j :| 0 <= j < n && ring[j] == newest.value;
      assert LabelOf(ring[j]) != LabelOf(ring[n]);
      assert Older(ring[j], ring[n]) || Older(ring[n], ring[j]);
    }
  }

  predicate UpdatingPc(pc: PC, r: Reg) {
    pc.Registering? && pc.r.RDefault? && RegOf(pc.t) == r
  }

  /** The writer of r is the only thread that can be between linking and updating the default. */
  lemma UpdatingIff(s: State, r: Reg, j: nat)
    requires LockFits(s, r) && j < |s.threads| && UpdatingPc(s.threads[j].pc, r)
    ensures Updating(s, r)
  {
    assert SectionAt(s, j) == Writing(r);
  }

  lemma UpdatingWho(s: State, r: Reg) returns (j: nat)
    requires LockFits(s, r) && Updating(s, r)
    ensures j < |s.threads| && UpdatingPc(s.threads[j].pc, r)
  {
    j := At(s, r).lock.writer.value;
    assert SectionAt(s, j) == Writing(r);
  }

  lemma DefaultStep(s: State, i: nat, c: Choice, r: Reg)
    requires Enabled(s, i) && MemoryOk(s) && Rested(s.threads[i]) && Versioned(r)
    ensures DefaultOk(Next(s, i, c), r)
  {
    var th, m := s.threads[i], Code(s, s.threads[i], c);
    CodeMoves(s, i, c);
    assert LockFits(s, r) && RingOk(s, r) && DefaultOk(s, r) && SharedOk(s, th.pc);
    LockStep(s, i, m, r);
    if th.pc.Registering? && RegOf(th.pc.t) == r && (th.pc.r.RDefault? || th.pc.r.RLink?) {
      DefaultRegister(s, i);
    } else {
      DefaultKept(s, i, m, r);
    }
  }

  lemma DefaultRegister(s: State, i: nat)
    requires i < |s.threads| && s.threads[i].pc.Registering?
    requires s.threads[i].pc.r.RDefault? || s.threads[i].pc.r.RLink?
    requires var r := RegOf(s.threads[i].pc.t); Versioned(r) && RingOk(s, r)
    requires SharedOk(s, s.threads[i].pc)
    requires LockFits(Effect(s, i, RegisterCode(s, s.threads[i])), RegOf(s.threads[i].pc.t))
    ensures DefaultOk(Effect(s, i, RegisterCode(s, s.threads[i])), RegOf(s.threads[i].pc.t))
  {
    var th, m := s.threads[i], RegisterCode(s, s.threads[i]);
    var r := RegOf(th.pc.t);
    RingAfter(s, i, m, r);
    if th.pc.r.RLink? {
      UpdatingIff(Effect(s, i, m), r, i);
    } else {
      NewDefault(At(s, r).ring, At(s, r).newest);
    }
  }

  lemma DefaultKept(s: State, i: nat, m: Move, r: Reg)
    requires i < |s.threads| && LockFits(s, r) && LockFits(Effect(s, i, m), r) && DefaultOk(s, r) && Versioned(r)
    requires MoveOk(s, s.threads[i], m) && SharedOk(s, s.threads[i].pc)
    requires !UpdatingPc(s.threads[i].pc, r)
    requires !(s.threads[i].pc.Registering? && s.threads[i].pc.r.RLink? && RegOf(s.threads[i].pc.t) == r)
    ensures DefaultOk(Effect(s, i, m), r)
  {
    var s' := Effect(s, i, m);
    RingAfter(s, i, m, r);
    if Updating(s, r) {
      var j := UpdatingWho(s, r);
      UpdatingIff(s', r, j);
    } else if m.act.Unlink? && RegOf(m.act.t) == r {
      WithoutFacts(At(s, r).ring, m.act.t);
    }
  }

  // ---------- counters and safety ----------

  lemma CountsAfter(s: State, i: nat, act: Act, t: TypeObj)
    ensures var a, b := s.counts, Apply(s, i, act).counts;
            if act == SetOne(t) then t in b && b[t] == 1
            else if act == Inc(t) then t in b && b[t] == AsLong(Count(s, t) + 1)
            else if act == Dec(t) then t in b && b[t] == AsLong(Count(s, t) - 1)
            else (t in b <==> t in a) && (t in a ==> b[t] == a[t])
  {
  }

  lemma IncLinked(s: State, th: Thread, t: TypeObj)
    requires th.pc.Acquiring? && th.pc.a == AInc(t) && SharedOk(s, th.pc) && RingOk(s, Registry(th.pc.w))
    ensures RegOf(t) == Registry(th.pc.w) && t in At(s, RegOf(t)).ring && t in s.counts
  {
  }

  /** References are taken inside a read section of the registry that the type belongs to. */
  lemma IncReads(s: State, i: nat, m: Move, t: TypeObj)
    requires i < |s.threads| && MoveOk(s, s.threads[i], m) && MemoryOk(s)
    ensures m.act == Inc(t) ==> SectionAt(s, i) == Reading(RegOf(t))
  {
    if m.act == Inc(t) {
      assert SharedOk(s, s.threads[i].pc) && RingOk(s, Registry(s.threads[i].pc.w));
      IncLinked(s, s.threads[i], t);
    }
  }

  lemma CountedStep(s: State, i: nat, m: Move, t: TypeObj)
    requires i < |s.threads| && MoveOk(s, s.threads[i], m) && Counted(s, t)
    requires SharedOk(s, s.threads[i].pc)
    requires m.act == Inc(t) ==> RingOk(s, Registry(s.threads[i].pc.w))
    ensures Counted(Effect(s, i, m), t) <==> !(m.act == SetOne(t) && Resets(s, i))
  {
    HoldersStep(s, i, m, t);
    assert Effect(s, i, m).counts == Apply(s, i, m.act).counts;
    if m.act == Inc(t) {
      IncLinked(s, s.threads[i], t);
      CountedMove(s, i, m, t);
    } else if m.act == Dec(t) {
      HeldIsCounted(s, i, t);
      CountedMove(s, i, m, t);
    } else {
      CountsAfter(s, i, m.act, t);
      CountsOne(Holders(s, t));
    }
  }

  lemma KnownStep(s: State, i: nat, m: Move, t: TypeObj)
    requires i < |s.threads| && MoveOk(s, s.threads[i], m) && Known(s, t)
    requires SharedOk(s, s.threads[i].pc)
    requires m.act == Inc(t) ==> RingOk(s, Registry(s.threads[i].pc.w))
    ensures Known(Effect(s, i, m), t)
  {
    HoldersStep(s, i, m, t);
    KnownGrows(s, i, m);
    if m.act == Inc(t) {
      IncLinked(s, s.threads[i], t);
    }
  }

  lemma CountedMove(s: State, i: nat, m: Move, t: TypeObj)
    requires m.act == Inc(t) || m.act == Dec(t)
    requires t in s.counts && Counted(s, t)
    ensures t in Apply(s, i, m.act).counts
    ensures Apply(s, i, m.act).counts[t] == AsLong(1 + Holders(s, t) + Delta(m.act, t))
  {
    AddWraps(1 + Holders(s, t), Delta(m.act, t));
  }

  lemma NoMatchUnlinked(ring: seq<TypeObj>, t: TypeObj)
    requires NoMatch(ring, |ring|, LabelOf(t))
    ensures t !in ring
  {
  }

  lemma SafeStep(s: State, i: nat, m: Move, t: TypeObj)
    requires i < |s.threads| && MoveOk(s, s.threads[i], m) && Safe(s, t)
    requires SharedOk(s, s.threads[i].pc) && !Severs(s, i)
    requires m.act == Inc(t) ==> RingOk(s, Registry(s.threads[i].pc.w))
    ensures Safe(Effect(s, i, m), t)
  {
    HoldersStep(s, i, m, t);
    RingAfter(s, i, m, RegOf(t));
    if m.act == Inc(t) {
      IncLinked(s, s.threads[i], t);
    } else if m.act.Unlink? && RegOf(m.act.t) == RegOf(t) {
      WithoutFacts(At(s, RegOf(t)).ring, m.act.t);
    }
  }

  // ---------- what threads inside a section know ----------

  /** A step of another thread does not disturb what thread j knows. */
  lemma SharedOther(s: State, i: nat, m: Move, j: nat)
    requires i < |s.threads| && MoveOk(s, s.threads[i], m) && MemoryOk(s)
    requires j < |s.threads| && j != i
    ensures SharedOk(Effect(s, i, m), s.threads[j].pc)
  {
    var pc := s.threads[j].pc;
    assert SectionAt(s, j) == SectionOf(pc) && SharedOk(s, pc) && SharedOk(s, s.threads[i].pc);
    KnownGrows(s, i, m);
    match SectionOf(pc)
    case Outside =>
    case Reading(r) =>
      assert LockFits(s, r);
      RingStable(s, i, m, j, r);
    case Writing(r) =>
      assert LockFits(s, r);
      RingStable(s, i, m, j, r);
  }

  /** While thread j holds the write lock nobody takes a reference, so what it is unlinking stays unheld. */
  lemma UnlinkOther(s: State, i: nat, m: Move, j: nat)
    requires i < |s.threads| && MoveOk(s, s.threads[i], m) && MemoryOk(s)
    requires j < |s.threads| && j != i && UnlinkOk(s, s.threads[j].pc)
    ensures UnlinkOk(Effect(s, i, m), s.threads[j].pc)
  {
    var pc := s.threads[j].pc;
    if pc.Unregistering? && pc.u.UUnlink? {
      assert SectionAt(s, j) == Writing(RegOf(pc.t)) && LockFits(s, RegOf(pc.t));
      HoldersStep(s, i, m, pc.t);
      IncReads(s, i, m, pc.t);
      Exclusion(s, j, i, RegOf(pc.t));
    }
  }

  lemma UnlinkSelf(s: State, i: nat, c: Choice)
    requires Enabled(s, i) && MoveOk(s, s.threads[i], Code(s, s.threads[i], c)) && !Ambiguous(s, i)
    requires forall t :: Counted(s, t)
    ensures UnlinkOk(Next(s, i, c), Code(s, s.threads[i], c).th.pc)
  {
    var th, m := s.threads[i], Code(s, s.threads[i], c);
    if !th.pc.Unregistering? {
      UnlinkCode(s, th, c);
    } else if m.th.pc.Unregistering? && m.th.pc.u.UUnlink? {
      assert Counted(s, th.pc.t);
      HoldersStep(s, i, m, th.pc.t);
      CheckPasses(s, th.pc.t);
    }
  }

  lemma UnlinkCode(s: State, th: Thread, c: Choice)
    requires Busy(th) && !th.pc.Unregistering?
    ensures var pc := Code(s, th, c).th.pc; !(pc.Unregistering? && pc.u.UUnlink?)
  {
    match th.pc
    case Registering(_, _) =>
    case Acquiring(_, _, _) =>
    case _ =>
  }

  lemma SharedSelf(s: State, i: nat, c: Choice)
    requires Enabled(s, i) && MemoryOk(s) && ThreadOk(s.threads[i])
    ensures SharedOk(Next(s, i, c), Code(s, s.threads[i], c).th.pc)
  {
    var th := s.threads[i];
    assert SharedOk(s, th.pc) && SectionAt(s, i) == SectionOf(th.pc);
    match th.pc
    case Registering(t, _) =>
      assert RingOk(s, RegOf(t)) && LockFits(s, RegOf(t)) && DefaultOk(s, RegOf(t));
      SharedRegister(s, i);
    case Unregistering(_, _) => SharedUnregister(s, i);
    case Acquiring(_, w, a) =>
      if a.ADefault? {
        DefaultSettled(s, i, Registry(w));
      }
      SharedAcquire(s, i);
    case Use(k) => UseOutside(s, i, c);
    case _ =>
  }

  lemma UseOutside(s: State, i: nat, c: Choice)
    requires Enabled(s, i) && s.threads[i].pc.Use?
    ensures SharedOk(Next(s, i, c), AfterUse(s.threads[i].todo[0], s.threads[i].pc.k, c.success))
  {
  }

  /** While somebody reads r, nobody is updating its default. */
  lemma DefaultSettled(s: State, i: nat, r: Reg)
    requires LockFits(s, r) && DefaultOk(s, r) && Versioned(r) && SectionAt(s, i) == Reading(r)
    ensures RightDefault(At(s, r).ring, At(s, r).newest)
  {
    assert i in At(s, r).lock.readers;
  }

  lemma SharedRegister(s: State, i: nat)
    requires i < |s.threads| && s.threads[i].pc.Registering?
    requires SharedOk(s, s.threads[i].pc) && RingOk(s, RegOf(s.threads[i].pc.t))
    requires Versioned(RegOf(s.threads[i].pc.t)) && s.threads[i].pc.r.RLink? ==>
               RightDefault(At(s, RegOf(s.threads[i].pc.t)).ring, At(s, RegOf(s.threads[i].pc.t)).newest)
    ensures var m := RegisterCode(s, s.threads[i]); SharedOk(Effect(s, i, m), m.th.pc)
  {
    if s.threads[i].pc.r.RLink? {
      SharedLink(s, i);
    } else {
      SharedScan(s, i);
    }
  }

  lemma SharedLink(s: State, i: nat)
    requires i < |s.threads| && s.threads[i].pc.Registering? && s.threads[i].pc.r.RLink?
    requires Versioned(RegOf(s.threads[i].pc.t)) ==>
               RightDefault(At(s, RegOf(s.threads[i].pc.t)).ring, At(s, RegOf(s.threads[i].pc.t)).newest)
    ensures var m := RegisterCode(s, s.threads[i]); SharedOk(Effect(s, i, m), m.th.pc)
  {
    var m, t := RegisterCode(s, s.threads[i]), s.threads[i].pc.t;
    var ring := At(s, RegOf(t)).ring;
    RingAfter(s, i, m, RegOf(t));
    assert (ring + [t])[..|ring|] == ring;
  }

  lemma SharedScan(s: State, i: nat)
    requires i < |s.threads| && s.threads[i].pc.Registering? && !s.threads[i].pc.r.RLink?
    requires SharedOk(s, s.threads[i].pc)
    ensures var m := RegisterCode(s, s.threads[i]); SharedOk(Effect(s, i, m), m.th.pc)
  {
    RingAfter(s, i, RegisterCode(s, s.threads[i]), RegOf(s.threads[i].pc.t));
  }

  lemma SharedUnregister(s: State, i: nat)
    requires i < |s.threads| && s.threads[i].pc.Unregistering?
    requires SharedOk(s, s.threads[i].pc)
    ensures var m := UnregisterCode(s, s.threads[i]); SharedOk(Effect(s, i, m), m.th.pc)
  {
    var t, m := s.threads[i].pc.t, UnregisterCode(s, s.threads[i]);
    RingAfter(s, i, m, RegOf(t));
  }

  /** The counter reads 1 when the number of holders is a multiple of 2^32; below that, when nobody holds the type. */
  lemma CheckPasses(s: State, t: TypeObj)
    requires Counted(s, t)
    ensures AsInt(Count(s, t)) == 1 <==> t in s.counts && Holders(s, t) % TWO_32 == 0
    ensures Holders(s, t) < TWO_32 ==> (AsInt(Count(s, t)) == 1 <==> t in s.counts && Holders(s, t) == 0)
  {
    NarrowedOne(Holders(s, t));
  }

  lemma SharedAcquire(s: State, i: nat)
    requires i < |s.threads| && Busy(s.threads[i]) && s.threads[i].pc.Acquiring?
    requires ThreadOk(s.threads[i]) && SharedOk(s, s.threads[i].pc)
    requires s.threads[i].pc.a.ADefault? ==>
               RightDefault(At(s, Registry(s.threads[i].pc.w)).ring, At(s, Registry(s.threads[i].pc.w)).newest)
    ensures var m := AcquireCode(s, s.threads[i]); SharedOk(Effect(s, i, m), m.th.pc)
  {
    var m := AcquireCode(s, s.threads[i]);
    RingAfter(s, i, m, Registry(s.threads[i].pc.w));
  }

  lemma PastStep(s: State, th: Thread, c: Choice)
    requires Busy(th) && ThreadOk(th) && PastOk(th)
    ensures PastOk(Code(s, th, c).th)
  {
  }

  /** Every step of every thread keeps the structure, whatever the counters say. */
  lemma StepWellFormed(s: State, i: nat, c: Choice)
    requires WellFormed(s) && Enabled(s, i)
    ensures WellFormed(Next(s, i, c))
  {
    var s', m := Next(s, i, c), Code(s, s.threads[i], c);
    CodeMoves(s, i, c);
    ThreadStep(s, s.threads[i], c);
    PastStep(s, s.threads[i], c);
    assert ThreadsOk(s');
    assert SharedOk(s, s.threads[i].pc);
    forall r
      ensures LockFits(s', r) && RingOk(s', r) && DefaultOk(s', r)
    {
      assert LockFits(s, r) && RingOk(s, r);
      LockStep(s, i, m, r);
      RingStep(s, i, m, r);
      if Versioned(r) {
        DefaultStep(s, i, c, r);
      }
    }
    forall t
      ensures Known(s', t)
    {
      assert Known(s, t);
      if m.act == Inc(t) {
        assert RingOk(s, Registry(s.threads[i].pc.w));
      }
      KnownStep(s, i, m, t);
    }
    forall j | 0 <= j < |s'.threads|
      ensures SharedOk(s', s'.threads[j].pc)
    {
      if j == i {
        SharedSelf(s, i, c);
      } else {
        SharedOther(s, i, m, j);
      }
    }
  }

  /** A step keeps the counters right if and only if it does not set one that stands for other references. */
  lemma StepCounted(s: State, i: nat, c: Choice)
    requires WellFormed(s) && Enabled(s, i) && forall t :: Counted(s, t)
    ensures (forall t :: Counted(Next(s, i, c), t)) <==> !Resets(s, i)
  {
    var s', m := Next(s, i, c), Code(s, s.threads[i], c);
    CodeMoves(s, i, c);
    assert SharedOk(s, s.threads[i].pc);
    forall t
      ensures Counted(s', t) <==> !(m.act == SetOne(t) && Resets(s, i))
    {
      if m.act == Inc(t) {
        assert RingOk(s, Registry(s.threads[i].pc.w));
      }
      CountedStep(s, i, m, t);
    }
    if Resets(s, i) {
      assert m.act == SetOne(s.threads[i].pc.t);
      assert !Counted(s', s.threads[i].pc.t);
    }
  }

  /** Types whose counter is about to be set are unlinked, and so held by nobody. */
  lemma BalancedNeverResets(s: State, i: nat)
    requires MemoryOk(s) && Balanced(s)
    ensures !Resets(s, i)
  {
    if i < |s.threads| && s.threads[i].pc.Registering? && s.threads[i].pc.r.RSet? {
      var t := s.threads[i].pc.t;
      assert SharedOk(s, s.threads[i].pc) && Safe(s, t);
      NoMatchUnlinked(At(s, RegOf(t)).ring, t);
    }
  }

  /** Every step except unlinking a held type keeps counters and links in line with the references. */
  lemma StepBalanced(s: State, i: nat, c: Choice)
    requires WellFormed(s) && Balanced(s) && Enabled(s, i) && !Severs(s, i)
    ensures Balanced(Next(s, i, c))
  {
    var s', m := Next(s, i, c), Code(s, s.threads[i], c);
    CodeMoves(s, i, c);
    BalancedNeverResets(s, i);
    StepCounted(s, i, c);
    assert SharedOk(s, s.threads[i].pc);
    forall t
      ensures Safe(s', t)
    {
      assert Safe(s, t);
      if m.act == Inc(t) {
        assert RingOk(s, Registry(s.threads[i].pc.w));
      }
      SafeStep(s, i, m, t);
    }
  }

  /** Every step except the check of an ambiguous counter keeps held types from being unlinked. */
  lemma StepTally(s: State, i: nat, c: Choice)
    requires Inv(s) && Enabled(s, i) && !Ambiguous(s, i)
    ensures Tally(Next(s, i, c))
  {
    var s', m := Next(s, i, c), Code(s, s.threads[i], c);
    CodeMoves(s, i, c);
    TallyIsUnsevered(s, i);
    StepBalanced(s, i, c);
    forall j | 0 <= j < |s'.threads|
      ensures UnlinkOk(s', s'.threads[j].pc)
    {
      if j == i {
        UnlinkSelf(s, i, c);
      } else {
        UnlinkOther(s, i, m, j);
      }
    }
  }

  lemma TallyIsUnsevered(s: State, i: nat)
    requires Tally(s)
    ensures !Severs(s, i)
  {
    assert i < |s.threads| ==> UnlinkOk(s, s.threads[i].pc);
  }

  lemma Step(s: State, i: nat, c: Choice)
    requires Inv(s) && Enabled(s, i) && !Ambiguous(s, i)
    ensures Inv(Next(s, i, c))
  {
    StepWellFormed(s, i, c);
    StepTally(s, i, c);
  }

  lemma {:induction false} StartHoldsNothing(ths: seq<Thread>, t: TypeObj)
    requires forall j :: 0 <= j < |ths| ==> ths[j].held == []
    ensures InFlight(ths, t) == 0
  {
    if ths != [] {
      StartHoldsNothing(ths[..|ths| - 1], t);
    }
  }

  lemma StartOk(scripts: seq<seq<Call>>)
    ensures Inv(Start(scripts))
  {
    var s := Start(scripts);
    forall t
      ensures Holders(s, t) == 0
    {
      StartHoldsNothing(s.threads, t);
    }
    assert forall j: nat :: SectionAt(s, j) == Outside;
  }

  /** Every state of every run is well formed, whatever the threads call and however they interleave. */
  lemma {:induction false} RunWellFormed(ss: seq<State>, ps: seq<Pick>, n: nat)
    requires IsRun(ss, ps) && n < |ss|
    ensures WellFormed(ss[n])
  {
    if n == 0 {
      var scripts :| ss[0] == Start(scripts);
      StartOk(scripts);
    } else {
      RunWellFormed(ss, ps, n - 1);
      StepWellFormed(ss[n - 1], ps[n - 1].i, ps[n - 1].c);
    }
  }

  lemma {:induction false} RunCounted(ss: seq<State>, ps: seq<Pick>, n: nat)
    requires Unreset(ss, ps, n)
    ensures forall t :: Counted(ss[n], t)
  {
    if n == 0 {
      var scripts :| ss[0] == Start(scripts);
      StartOk(scripts);
    } else {
      RunCounted(ss, ps, n - 1);
      RunWellFormed(ss, ps, n - 1);
      StepCounted(ss[n - 1], ps[n - 1].i, ps[n - 1].c);
    }
  }

  /** Counters and links agree with the references as long as no held type is unlinked. */
  lemma {:induction false} RunBalanced(ss: seq<State>, ps: seq<Pick>, n: nat)
    requires Unsevered(ss, ps, n)
    ensures WellFormed(ss[n]) && Balanced(ss[n])
  {
    if n == 0 {
      var scripts :| ss[0] == Start(scripts);
      StartOk(scripts);
    } else {
      RunBalanced(ss, ps, n - 1);
      StepWellFormed(ss[n - 1], ps[n - 1].i, ps[n - 1].c);
      StepBalanced(ss[n - 1], ps[n - 1].i, ps[n - 1].c);
    }
  }

  /** The whole invariant holds as long as `unregister` never reads an ambiguous counter. */
  lemma {:induction false} RunOk(ss: seq<State>, ps: seq<Pick>, n: nat)
    requires Guarded(ss, ps, n)
    ensures Inv(ss[n])
  {
    if n == 0 {
      var scripts :| ss[0] == Start(scripts);
      StartOk(scripts);
    } else {
      RunOk(ss, ps, n - 1);
      Step(ss[n - 1], ps[n - 1].i, ps[n - 1].c);
    }
  }

  /** If no ambiguous counter is read, no held type is unlinked. */
  lemma GuardedIsUnsevered(ss: seq<State>, ps: seq<Pick>, n: nat)
    requires Guarded(ss, ps, n)
    ensures Unsevered(ss, ps, n)
  {
    forall k | 0 <= k < n
      ensures !Severs(ss[k], ps[k].i)
    {
      RunOk(ss, ps, k);
      TallyIsUnsevered(ss[k], ps[k].i);
    }
  }

  /** If no held type is unlinked, no counter of a held type is ever set to 1. */
  lemma UnseveredIsUnreset(ss: seq<State>, ps: seq<Pick>, n: nat)
    requires Unsevered(ss, ps, n)
    ensures Unreset(ss, ps, n)
  {
    forall k | 0 <= k < n
      ensures !Resets(ss[k], ps[k].i)
    {
      RunBalanced(ss, ps, k);
      BalancedNeverResets(ss[k], ps[k].i);
    }
  }
}
