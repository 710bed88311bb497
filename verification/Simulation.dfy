/**
 * Linearizability: whatever the interleaving, the registries behave as the atomic map of Catalog.
 * Each call takes effect at single steps, inside its lock section or at its atomic decrement.
 */
module Simulation {
  import opened Options
  import opened Catalog
  import opened Machine
  import opened Invariant
  import opened Preservation

  /** t has its counter set and is about to be linked. */
  ghost predicate Pending(s: State, t: TypeObj) {
    exists j :: 0 <= j < |s.threads| && s.threads[j].pc == Registering(t, RLink)
  }

  /** What the next holder of the lock will find in the ring. */
  ghost predicate InView(s: State, t: TypeObj) {
    t in At(s, RegOf(t)).ring || Pending(s, t)
  }

  ghost predicate Represents(s: State, b: Book) {
    && (forall t :: Linked(b, t) <==> InView(s, t))
    && (forall t :: Linked(b, t) ==> b.entries[IdentOf(t)].refs == 1 + Holders(s, t))
    && (forall id :: id in b.entries ==> IdentOf(b.entries[id].ty) == id)
    && b.known == s.counts.Keys
  }

  // ---------- how a step changes the view ----------

  lemma LinkCode(s: State, th: Thread, c: Choice, t: TypeObj)
    requires Busy(th)
    ensures var m := Code(s, th, c);
            && (m.act == SetOne(t) <==> m.th.pc == Registering(t, RLink))
            && (m.act == Link(t) <==> th.pc == Registering(t, RLink))
  {
    match th.pc
    case Registering(_, _) => LinkRegister(s, th, t);
    case _ =>
  }

  lemma LinkRegister(s: State, th: Thread, t: TypeObj)
    requires th.pc.Registering?
    ensures var m := RegisterCode(s, th);
            && (m.act == SetOne(t) <==> m.th.pc == Registering(t, RLink))
            && (m.act == Link(t) <==> th.pc == Registering(t, RLink))
  {
  }

  /** Nobody is about to link into a registry whose section thread i is in, unless i itself is. */
  lemma NoPending(s: State, i: nat, t: TypeObj)
    requires LockFits(s, RegOf(t)) && i < |s.threads|
    requires SectionOf(s.threads[i].pc) == Reading(RegOf(t)) || SectionOf(s.threads[i].pc) == Writing(RegOf(t))
    requires s.threads[i].pc != Registering(t, RLink)
    ensures !Pending(s, t)
  {
    assert SectionAt(s, i) == SectionOf(s.threads[i].pc);
    forall j | 0 <= j < |s.threads|
      ensures s.threads[j].pc != Registering(t, RLink)
    {
      if j != i {
        Exclusion(s, j, i, RegOf(t));
        assert SectionAt(s, j) == SectionOf(s.threads[j].pc);
      }
    }
  }

  lemma PendingAfter(s: State, i: nat, m: Move, t: TypeObj)
    requires i < |s.threads|
    requires m.act == SetOne(t) <==> m.th.pc == Registering(t, RLink)
    requires m.act == Link(t) <==> s.threads[i].pc == Registering(t, RLink)
    ensures Pending(s, t) && m.act != Link(t) ==> Pending(Effect(s, i, m), t)
    ensures Pending(Effect(s, i, m), t) ==> Pending(s, t) || m.act == SetOne(t)
    ensures m.act == SetOne(t) ==> Pending(Effect(s, i, m), t)
  {
    var s' := Effect(s, i, m);
    assert s'.threads == s.threads[i := m.th];
    if j :| 0 <= j < |s.threads| && s.threads[j].pc == Registering(t, RLink) {
      assert m.act != Link(t) ==> s'.threads[j].pc == Registering(t, RLink);
    }
    if j :| 0 <= j < |s'.threads| && s'.threads[j].pc == Registering(t, RLink) && j != i {
      assert s.threads[j].pc == Registering(t, RLink);
    }
    if m.act == SetOne(t) {
      assert s'.threads[i].pc == Registering(t, RLink);
    }
  }

  /** Setting the counter is the step at which a registration becomes visible; unlinking ends it. */
  lemma ViewAfter(s: State, i: nat, c: Choice, t: TypeObj)
    requires Enabled(s, i) && MemoryOk(s) && MoveOk(s, s.threads[i], Code(s, s.threads[i], c))
    ensures var act := Code(s, s.threads[i], c).act;
            InView(Next(s, i, c), t) <==> act == SetOne(t) || (InView(s, t) && act != Unlink(t))
  {
    var m := Code(s, s.threads[i], c);
    LinkCode(s, s.threads[i], c, t);
    PendingAfter(s, i, m, t);
    RingAfter(s, i, m, RegOf(t));
    assert LockFits(s, RegOf(t));
    if m.act.Unlink? {
      WithoutFacts(At(s, RegOf(t)).ring, m.act.t);
      if m.act == Unlink(t) {
        NoPending(s, i, t);
      }
    } else if m.act == Link(t) {
      assert Pending(s, t);
      LinkedOnce(s, i, t);
    }
  }

  lemma LinkedOnce(s: State, i: nat, t: TypeObj)
    requires i < |s.threads| && s.threads[i].pc == Registering(t, RLink)
    ensures Pending(s, t)
  {
  }

  lemma KnownAfter(s: State, i: nat, c: Choice)
    requires Enabled(s, i) && MemoryOk(s) && MoveOk(s, s.threads[i], Code(s, s.threads[i], c))
    ensures var act := Code(s, s.threads[i], c).act;
            Next(s, i, c).counts.Keys == if act.SetOne? then s.counts.Keys + {act.t} else s.counts.Keys
  {
    var act := Code(s, s.threads[i], c).act;
    if act.Inc? {
      assert RingOk(s, Registry(s.threads[i].pc.w)) && SharedOk(s, s.threads[i].pc);
      IncLinked(s, s.threads[i], act.t);
    } else if act.Dec? {
      HeldIsCounted(s, i, act.t);
      assert Known(s, act.t);
    }
    KeysAfter(s, i, act);
    assert Next(s, i, c).counts == Apply(s, i, act).counts;
  }

  lemma KeysAfter(s: State, i: nat, act: Act)
    requires act.Inc? || act.Dec? ==> act.t in s.counts
    ensures Apply(s, i, act).counts.Keys == if act.SetOne? then s.counts.Keys + {act.t} else s.counts.Keys
  {
  }

  // ---------- which operation takes effect ----------

  /** The operation that takes effect at a step, as its action on shared memory shows. */
  predicate EventFits(act: Act, ev: Option<Event>) {
    match act
    case SetOne(t) => ev == Some(ERegister(t, true))
    case Unlink(t) => ev == Some(EUnregister(t, true))
    case Inc(t) => ev.Some? && ev.value.EFind? && ev.value.found == Some(t)
    case Dec(t) => ev == Some(EDrop(t))
    case _ =>
      ev.Some? ==>
        match ev.value
        case ERegister(_, ok) => !ok
        case EUnregister(_, ok) => !ok
        case EFind(_, found) => found == None
        case EDrop(_) => false
  }

  lemma EventCode(s: State, th: Thread, c: Choice)
    requires Busy(th)
    ensures EventFits(Code(s, th, c).act, Code(s, th, c).ev)
  {
    match th.pc
    case Registering(_, _) => EventRegister(s, th);
    case Unregistering(_, _) => EventUnregister(s, th);
    case Acquiring(_, _, _) => EventAcquire(s, th);
    case _ =>
  }

  lemma EventRegister(s: State, th: Thread)
    requires th.pc.Registering?
    ensures EventFits(RegisterCode(s, th).act, RegisterCode(s, th).ev)
  {
  }

  lemma EventUnregister(s: State, th: Thread)
    requires th.pc.Unregistering?
    ensures EventFits(UnregisterCode(s, th).act, UnregisterCode(s, th).ev)
  {
  }

  lemma EventAcquire(s: State, th: Thread)
    requires Busy(th) && th.pc.Acquiring?
    ensures EventFits(AcquireCode(s, th).act, AcquireCode(s, th).ev)
  {
  }

  /**
   * A call takes effect only inside the lock section of the registry concerned, or, for a dropped
   * reference, at its atomic decrement.
   */
  lemma EffectPoint(s: State, th: Thread, c: Choice)
    requires Busy(th) && ThreadOk(th)
    ensures match Code(s, th, c).ev
            case None => true
            case Some(ERegister(t, _)) => SectionOf(th.pc) == Writing(RegOf(t))
            case Some(EUnregister(t, _)) => SectionOf(th.pc) == Writing(RegOf(t))
            case Some(EFind(w, _)) => SectionOf(th.pc) == Reading(Registry(w))
            case Some(EDrop(t)) => Code(s, th, c).act == Dec(t)
  {
    match th.pc
    case Registering(_, _) =>
    case Unregistering(_, _) =>
    case Acquiring(_, _, _) =>
    case _ =>
  }

  // ---------- the answers are those of the atomic map ----------

  /** In the section of r the view is the ring. */
  lemma ViewIsRing(s: State, b: Book, i: nat, r: Reg)
    requires Represents(s, b) && LockFits(s, r) && i < |s.threads|
    requires SectionOf(s.threads[i].pc) == Reading(r) || SectionOf(s.threads[i].pc) == Writing(r)
    requires !(s.threads[i].pc.Registering? && s.threads[i].pc.r.RLink?)
    ensures forall t :: RegOf(t) == r ==> (Linked(b, t) <==> t in At(s, r).ring)
  {
    forall t | RegOf(t) == r
      ensures Linked(b, t) <==> t in At(s, r).ring
    {
      NoPending(s, i, t);
    }
  }

  lemma NewestInRing(b: Book, r: Reg, ring: seq<TypeObj>, newest: Option<TypeObj>, t: TypeObj)
    requires Versioned(r) && RegOf(t) == r && t in ring && RightDefault(ring, newest)
    requires forall u :: RegOf(u) == r ==> (Linked(b, u) <==> u in ring)
    requires forall j :: 0 <= j < |ring| ==> RegOf(ring[j]) == r
    ensures Newest(b, t) <==> newest == Some(t)
  {
    if newest != Some(t) {
      assert Linked(b, newest.value) && RegOf(newest.value) == r;
    }
  }

  lemma RegisterLegal(s: State, b: Book, i: nat)
    requires MemoryOk(s) && Represents(s, b) && i < |s.threads| && s.threads[i].pc.Registering?
    ensures var ev := RegisterCode(s, s.threads[i]).ev; ev.Some? ==> Legal(b, ev.value)
  {
    var t := s.threads[i].pc.t;
    var r := RegOf(t);
    assert LockFits(s, r) && RingOk(s, r) && SharedOk(s, s.threads[i].pc);
    var ev := RegisterCode(s, s.threads[i]).ev;
    if ev.Some? {
      ViewIsRing(s, b, i, r);
      if IdentOf(t) in b.entries {
        var u := b.entries[IdentOf(t)].ty;
        assert Linked(b, u) && u in At(s, r).ring;
      }
      if ev == Some(ERegister(t, false)) {
        var u := At(s, r).ring[s.threads[i].pc.r.i];
        assert Linked(b, u) && IdentOf(u) == IdentOf(t);
      }
    }
  }

  lemma UnregisterLegal(s: State, b: Book, i: nat)
    requires MemoryOk(s) && Balanced(s) && Represents(s, b)
    requires i < |s.threads| && s.threads[i].pc.Unregistering?
    requires ThreadOk(s.threads[i])
    ensures var ev := UnregisterCode(s, s.threads[i]).ev; ev.Some? ==> (Legal(b, ev.value) <==> !Severs(s, i))
  {
    var t := s.threads[i].pc.t;
    var r := RegOf(t);
    assert LockFits(s, r) && RingOk(s, r) && SharedOk(s, s.threads[i].pc) && DefaultOk(s, r);
    assert Counted(s, t) && Safe(s, t);
    var ev := UnregisterCode(s, s.threads[i]).ev;
    if ev.Some? {
      ViewIsRing(s, b, i, r);
      CheckPasses(s, t);
      WriterSettled(s, i, r);
      if Versioned(r) && t in At(s, r).ring {
        NewestInRing(b, r, At(s, r).ring, At(s, r).newest, t);
      }
    }
  }

  /** A thread that is unregistering excludes the one that would be updating the default. */
  lemma WriterSettled(s: State, i: nat, r: Reg)
    requires LockFits(s, r) && i < |s.threads| && SectionOf(s.threads[i].pc) == Writing(r)
    requires !s.threads[i].pc.Registering?
    ensures !Updating(s, r)
  {
    assert SectionAt(s, i) == Writing(r);
  }

  lemma AcquireLegal(s: State, b: Book, i: nat)
    requires MemoryOk(s) && Represents(s, b) && i < |s.threads| && s.threads[i].pc.Acquiring?
    requires Busy(s.threads[i]) && ThreadOk(s.threads[i])
    ensures var ev := AcquireCode(s, s.threads[i]).ev; ev.Some? ==> Legal(b, ev.value)
  {
    var w := s.threads[i].pc.w;
    var r := Registry(w);
    assert LockFits(s, r) && RingOk(s, r) && SharedOk(s, s.threads[i].pc) && DefaultOk(s, r);
    var ev := AcquireCode(s, s.threads[i]).ev;
    if ev.Some? {
      ViewIsRing(s, b, i, r);
      if ByDefault(w) {
        assert SectionAt(s, i) == Reading(r);
        DefaultSettled(s, i, r);
        if ev.value.found.Some? {
          NewestInRing(b, r, At(s, r).ring, At(s, r).newest, ev.value.found.value);
        }
      } else if WantedIdent(w) in b.entries {
        var u := b.entries[WantedIdent(w)].ty;
        assert Linked(b, u) && u in At(s, r).ring;
      }
    }
  }

  lemma DropLegal(s: State, b: Book, i: nat, t: TypeObj)
    requires Balanced(s) && Represents(s, b) && i < |s.threads| && t in s.threads[i].held
    ensures Legal(b, EDrop(t))
  {
    HeldIsCounted(s, i, t);
    assert Safe(s, t) && InView(s, t);
  }

  /** The map gives the answer of each operation, except when a held type is unlinked. */
  lemma EventLegal(s: State, b: Book, i: nat, c: Choice)
    requires WellFormed(s) && Balanced(s) && Represents(s, b) && Enabled(s, i)
    ensures var ev := Code(s, s.threads[i], c).ev; ev.Some? ==> (Legal(b, ev.value) <==> !Severs(s, i))
  {
    var th := s.threads[i];
    match th.pc
    case Registering(_, _) => RegisterLegal(s, b, i);
    case Unregistering(_, _) => UnregisterLegal(s, b, i);
    case Acquiring(_, _, _) => AcquireLegal(s, b, i);
    case Unwind(_, _) =>
      var m := UnwindCode(th);
      if m.ev.Some? {
        DropLegal(s, b, i, m.ev.value.t);
      }
    case _ =>
  }

  // ---------- the simulation ----------

  function Changed(b: Book, ev: Option<Event>): Book {
    match ev
    case None => b
    case Some(e) => After(b, e)
  }

  /** How one operation changes what is linked and how often it is held. */
  lemma BookAfter(b: Book, act: Act, ev: Option<Event>, t: TypeObj)
    requires EventFits(act, ev) && (ev.Some? ==> Legal(b, ev.value))
    requires forall id :: id in b.entries ==> IdentOf(b.entries[id].ty) == id
    ensures var b' := Changed(b, ev);
            && (Linked(b', t) <==> act == SetOne(t) || (Linked(b, t) && act != Unlink(t)))
            && (Linked(b', t) && act != SetOne(t) ==>
                  b'.entries[IdentOf(t)].refs == b.entries[IdentOf(t)].refs + Delta(act, t))
            && (act == SetOne(t) ==> b'.entries[IdentOf(t)].refs == 1)
  {
  }

  lemma BookFiled(b: Book, act: Act, ev: Option<Event>)
    requires EventFits(act, ev)
    requires forall id :: id in b.entries ==> IdentOf(b.entries[id].ty) == id
    ensures var b' := Changed(b, ev);
            && (forall id :: id in b'.entries ==> IdentOf(b'.entries[id].ty) == id)
            && b'.known == if act.SetOne? then b.known + {act.t} else b.known
  {
  }

  /**
   * Every step either leaves the atomic map alone or performs on it the operation it is labelled
   * with, and gets the answer the map gives.
   */
  lemma Simulates(s: State, b: Book, i: nat, c: Choice)
    requires WellFormed(s) && Balanced(s) && Represents(s, b) && Enabled(s, i) && !Severs(s, i)
    ensures var ev := Code(s, s.threads[i], c).ev;
            && (ev.Some? ==> Legal(b, ev.value))
            && Represents(Next(s, i, c), Changed(b, ev))
  {
    var s', m := Next(s, i, c), Code(s, s.threads[i], c);
    var b' := Changed(b, m.ev);
    CodeMoves(s, i, c);
    EventCode(s, s.threads[i], c);
    EventLegal(s, b, i, c);
    BookFiled(b, m.act, m.ev);
    KnownAfter(s, i, c);
    forall t
      ensures Linked(b', t) <==> InView(s', t)
      ensures Linked(b', t) ==> b'.entries[IdentOf(t)].refs == 1 + Holders(s', t)
    {
      EntryAfter(s, b, i, c, t);
    }
  }

  lemma EntryAfter(s: State, b: Book, i: nat, c: Choice, t: TypeObj)
    requires MemoryOk(s) && Balanced(s) && Represents(s, b) && Enabled(s, i)
    requires var m := Code(s, s.threads[i], c);
             MoveOk(s, s.threads[i], m) && EventFits(m.act, m.ev) && (m.ev.Some? ==> Legal(b, m.ev.value))
    ensures var s', b' := Next(s, i, c), Changed(b, Code(s, s.threads[i], c).ev);
            && (Linked(b', t) <==> InView(s', t))
            && (Linked(b', t) ==> b'.entries[IdentOf(t)].refs == 1 + Holders(s', t))
  {
    var m := Code(s, s.threads[i], c);
    BookAfter(b, m.act, m.ev, t);
    ViewAfter(s, i, c, t);
    HoldersStep(s, i, m, t);
    if m.act == SetOne(t) {
      FreshUnheld(s, i, t);
    }
  }

  /** A counter is set to 1 only while nobody holds the type: live references are never forgotten. */
  lemma FreshUnheld(s: State, i: nat, t: TypeObj)
    requires MemoryOk(s) && Balanced(s) && i < |s.threads| && s.threads[i].pc == Registering(t, RSet)
    ensures Holders(s, t) == 0 && t !in At(s, RegOf(t)).ring
  {
    assert SharedOk(s, s.threads[i].pc) && Safe(s, t);
    NoMatchUnlinked(At(s, RegOf(t)).ring, t);
  }

  /** The operation that takes effect when a step is taken. */
  function EventOf(s: State, p: Pick): Option<Event>
    requires Enabled(s, p.i)
  {
    Code(s, s.threads[p.i], p.c).ev
  }

  /** The operations a run performs on the atomic map, in the order they take effect. */
  function Trace(ss: seq<State>, ps: seq<Pick>, n: nat): seq<Event>
    requires n <= |ps| < |ss|
    requires forall k :: 0 <= k < n ==> Enabled(ss[k], ps[k].i)
  {
    if n == 0 then [] else
      assert Enabled(ss[n - 1], ps[n - 1].i);
      var ev := EventOf(ss[n - 1], ps[n - 1]);
      Trace(ss, ps, n - 1) + if ev.Some? then [ev.value] else []
  }

  lemma StartRepresents(scripts: seq<seq<Call>>)
    ensures Represents(Start(scripts), EMPTY)
  {
  }

  /**
   * Every run in which no held type is unlinked is simulated by a legal sequential history of the
   * atomic map, and the state it reaches represents the map that history leads to.
   */
  lemma {:induction false} Linearizable(ss: seq<State>, ps: seq<Pick>, n: nat)
    requires Unsevered(ss, ps, n)
    ensures LegalHistory(EMPTY, Trace(ss, ps, n))
    ensures Represents(ss[n], AfterAll(EMPTY, Trace(ss, ps, n)))
  {
    if n == 0 {
      var scripts :| ss[0] == Start(scripts);
      StartRepresents(scripts);
    } else {
      Linearizable(ss, ps, n - 1);
      RunBalanced(ss, ps, n - 1);
      Simulates(ss[n - 1], AfterAll(EMPTY, Trace(ss, ps, n - 1)), ps[n - 1].i, ps[n - 1].c);
      TraceStep(ss, ps, n - 1);
    }
  }

  /** The history grows by the operation that takes effect, if any. */
  lemma TraceStep(ss: seq<State>, ps: seq<Pick>, n: nat)
    requires IsRun(ss, ps) && n < |ps|
    ensures Enabled(ss[n], ps[n].i)
    ensures var es, ev := Trace(ss, ps, n), EventOf(ss[n], ps[n]);
            && AfterAll(EMPTY, Trace(ss, ps, n + 1)) == Changed(AfterAll(EMPTY, es), ev)
            && (LegalHistory(EMPTY, Trace(ss, ps, n + 1)) <==>
                  LegalHistory(EMPTY, es) && (ev.Some? ==> Legal(AfterAll(EMPTY, es), ev.value)))
  {
    var es, ev := Trace(ss, ps, n), EventOf(ss[n], ps[n]);
    if ev.Some? {
      AfterAllAppend(EMPTY, es, ev.value);
    } else {
      assert es + [] == es;
    }
  }

  lemma {:induction false} LegalBefore(ss: seq<State>, ps: seq<Pick>, m: nat, n: nat)
    requires IsRun(ss, ps) && m <= n <= |ps| && LegalHistory(EMPTY, Trace(ss, ps, n))
    ensures LegalHistory(EMPTY, Trace(ss, ps, m))
    decreases n
  {
    if m < n {
      TraceStep(ss, ps, n - 1);
      LegalBefore(ss, ps, m, n - 1);
    }
  }

  /** Unlinking a held type is a success that the map refuses, and leaves a held type unlinked. */
  lemma SeverBreaks(s: State, b: Book, i: nat, c: Choice)
    requires WellFormed(s) && Balanced(s) && Represents(s, b) && Enabled(s, i) && Severs(s, i)
    ensures var ev := Code(s, s.threads[i], c).ev; ev.Some? && !Legal(b, ev.value)
    ensures !Safe(Next(s, i, c), s.threads[i].pc.t)
  {
    var t, m := s.threads[i].pc.t, Code(s, s.threads[i], c);
    EventLegal(s, b, i, c);
    CodeMoves(s, i, c);
    HoldersStep(s, i, m, t);
    RingAfter(s, i, m, RegOf(t));
    WithoutFacts(At(s, RegOf(t)).ring, t);
  }

  /** The first step that unlinks a held type. */
  lemma {:induction false} FirstSever(ss: seq<State>, ps: seq<Pick>, n: nat) returns (k: nat)
    requires IsRun(ss, ps) && n < |ss| && !Unsevered(ss, ps, n)
    ensures k < n && Unsevered(ss, ps, k) && Severs(ss[k], ps[k].i)
  {
    if Unsevered(ss, ps, n - 1) {
      k := n - 1;
    } else {
      k := FirstSever(ss, ps, n - 1);
    }
  }

  /** The history of a run is legal if and only if the run unlinks no held type. */
  lemma LinearizableExactly(ss: seq<State>, ps: seq<Pick>, n: nat)
    requires IsRun(ss, ps) && n <= |ps|
    ensures LegalHistory(EMPTY, Trace(ss, ps, n)) <==> Unsevered(ss, ps, n)
  {
    if Unsevered(ss, ps, n) {
      Linearizable(ss, ps, n);
    } else {
      var k := FirstSever(ss, ps, n);
      Linearizable(ss, ps, k);
      RunBalanced(ss, ps, k);
      TraceStep(ss, ps, k);
      SeverBreaks(ss[k], AfterAll(EMPTY, Trace(ss, ps, k)), ps[k].i, ps[k].c);
      if LegalHistory(EMPTY, Trace(ss, ps, n)) {
        LegalBefore(ss, ps, k + 1, n);
      }
    }
  }

  /** What is held stays linked throughout a run if and only if the run unlinks no held type. */
  lemma SafeExactly(ss: seq<State>, ps: seq<Pick>, n: nat)
    requires IsRun(ss, ps) && n < |ss|
    ensures (forall k, t :: 0 <= k <= n ==> Safe(ss[k], t)) <==> Unsevered(ss, ps, n)
  {
    if Unsevered(ss, ps, n) {
      forall k, t | 0 <= k <= n
        ensures Safe(ss[k], t)
      {
        RunBalanced(ss, ps, k);
      }
    } else {
      var k := FirstSever(ss, ps, n);
      Linearizable(ss, ps, k);
      RunBalanced(ss, ps, k);
      SeverBreaks(ss[k], AfterAll(EMPTY, Trace(ss, ps, k)), ps[k].i, ps[k].c);
      assert ss[k + 1] == Next(ss[k], ps[k].i, ps[k].c);
      assert !Safe(ss[k + 1], ss[k].threads[ps[k].i].pc.t);
    }
  }
}
