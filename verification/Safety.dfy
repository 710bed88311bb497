/** What the invariant means for the users of the registries, in every state of every run. */
module Safety {
  import opened Options
  import opened Atomic
  import opened Catalog
  import opened Machine
  import opened Invariant
  import opened Preservation

  /** The writer type's code runs when the cipher has been found too. */
  predicate UsesWriter(th: Thread) {
    && th.pc.Use? && Busy(th) && |th.held| >= 2
    && (th.todo[0].WriterCreate? || (th.todo[0].FileCreate? && th.pc.k == 2))
  }

  /** The type whose code the thread's next step calls outside every lock. */
  function Using(th: Thread): Option<TypeObj> {
    match th.pc
    case Use(_) =>
      if th.held == [] then None
      else if UsesWriter(th) then Some(th.held[|th.held| - 2])
      else Some(th.held[|th.held| - 1])
    case Destroy(t) => Some(t)
    case Unwind(k, _) =>
      if th.todo != [] && th.todo[0].FileCreate? && k > 0 && |th.held| == 1 then Some(th.held[0]) else None
    case _ => None
  }

  /**
   * Nothing that a live object or a call in progress refers to is ever unlinked, so type code that
   * runs outside the lock belongs to a type still in its ring.
   */
  lemma ReferencesSafe(ss: seq<State>, ps: seq<Pick>, n: nat)
    requires Unsevered(ss, ps, n)
    ensures forall t :: t in ss[n].live ==> t in At(ss[n], RegOf(t)).ring
    ensures forall j, t :: 0 <= j < |ss[n].threads| && t in ss[n].threads[j].held ==> t in At(ss[n], RegOf(t)).ring
    ensures forall j :: 0 <= j < |ss[n].threads| && Using(ss[n].threads[j]).Some? ==>
              var t := Using(ss[n].threads[j]).value; t in At(ss[n], RegOf(t)).ring
  {
    RunBalanced(ss, ps, n);
    var s := ss[n];
    forall t | t in s.live
      ensures t in At(s, RegOf(t)).ring
    {
      assert Safe(s, t);
    }
    forall j, t | 0 <= j < |s.threads| && t in s.threads[j].held
      ensures t in At(s, RegOf(t)).ring
    {
      HeldIsCounted(s, j, t);
      assert Safe(s, t);
    }
    forall j | 0 <= j < |s.threads| && Using(s.threads[j]).Some?
      ensures var t := Using(s.threads[j]).value; t in At(s, RegOf(t)).ring
    {
      UsingIsHeld(s.threads[j]);
      HeldIsCounted(s, j, Using(s.threads[j]).value);
      assert Safe(s, Using(s.threads[j]).value);
    }
  }

  lemma UsingIsHeld(th: Thread)
    requires ThreadOk(th) && Using(th).Some?
    ensures Using(th).value in th.held
  {
  }

  /** The counter of t is one plus held, or 0 for a type never registered. */
  predicate CounterTells(s: State, t: TypeObj, held: nat) {
    && (t !in s.counts ==> Count(s, t) == 0 == held)
    && (t in s.counts ==> Count(s, t) == AsLong(1 + held))
    && (t in s.counts && 1 + held < TWO_63 ==> Count(s, t) == 1 + held)
  }

  /**
   * Each counter is one for the registration, plus the live objects, plus the references in flight,
   * up to the wrap-around of a `long`.
   */
  lemma CountsConserved(ss: seq<State>, ps: seq<Pick>, n: nat, t: TypeObj)
    requires Unreset(ss, ps, n)
    ensures CounterTells(ss[n], t, Holders(ss[n], t))
  {
    RunCounted(ss, ps, n);
    ExactCount(ss[n], t);
  }

  lemma {:induction false} FirstReset(ss: seq<State>, ps: seq<Pick>, n: nat) returns (k: nat)
    requires IsRun(ss, ps) && n < |ss| && !Unreset(ss, ps, n)
    ensures k < n && Unreset(ss, ps, k) && Resets(ss[k], ps[k].i)
  {
    if Unreset(ss, ps, n - 1) {
      k := n - 1;
    } else {
      k := FirstReset(ss, ps, n - 1);
    }
  }

  /**
   * Every counter is right throughout a run if and only if no registration sets one that stands for
   * other references too.
   */
  lemma CountsExactly(ss: seq<State>, ps: seq<Pick>, n: nat)
    requires IsRun(ss, ps) && n < |ss|
    ensures (forall k, t :: 0 <= k <= n ==> Counted(ss[k], t)) <==> Unreset(ss, ps, n)
  {
    if Unreset(ss, ps, n) {
      forall k, t | 0 <= k <= n
        ensures Counted(ss[k], t)
      {
        RunCounted(ss, ps, k);
      }
    } else {
      var k := FirstReset(ss, ps, n);
      RunCounted(ss, ps, k);
      RunWellFormed(ss, ps, k);
      StepCounted(ss[k], ps[k].i, ps[k].c);
      var t :| !Counted(Next(ss[k], ps[k].i, ps[k].c), t);
      assert !Counted(ss[k + 1], t);
    }
  }

  lemma ExactCount(s: State, t: TypeObj)
    requires Counted(s, t)
    ensures CounterTells(s, t, Holders(s, t))
  {
    NoWrap(Holders(s, t));
  }

  /** The version field of the default of r, or -1 for no default. */
  function DefaultVersion(s: State, r: Reg): int {
    match At(s, r).newest
    case None => -1
    case Some(HeaderType(_, v)) => v
    case Some(WriterType(_, v)) => v
    case Some(AlgoType(_, _, _, _)) => 0
  }

  /**
   * Outside the few steps of a registration, the default is NULL exactly when the ring is empty,
   * and is otherwise linked with the strictly largest version.
   */
  lemma DefaultIsNewest(ss: seq<State>, ps: seq<Pick>, n: nat, r: Reg)
    requires IsRun(ss, ps) && n < |ss| && (r == HeaderReg || r == WriterReg) && !Updating(ss[n], r)
    ensures At(ss[n], r).newest.None? <==> At(ss[n], r).ring == []
    ensures At(ss[n], r).newest.Some? ==> LargestField(At(ss[n], r).ring, r, At(ss[n], r).newest.value)
  {
    RunWellFormed(ss, ps, n);
    assert DefaultOk(ss[n], r) && RingOk(ss[n], r);
  }

  /** t is in the ring, and every other type there has a smaller version field. */
  predicate LargestField(ring: seq<TypeObj>, r: Reg, t: TypeObj) {
    && t in ring
    && (r == HeaderReg ==> t.HeaderType? && forall u :: u in ring && u != t ==> u.HeaderType? && u.v16 < t.v16)
    && (r == WriterReg ==> t.WriterType? && forall u :: u in ring && u != t ==> u.WriterType? && u.v32 < t.v32)
  }

  lemma DefaultVersionStep(s: State, i: nat, c: Choice, r: Reg)
    requires Enabled(s, i)
    ensures DefaultVersion(s, r) <= DefaultVersion(Next(s, i, c), r)
  {
    var m := Code(s, s.threads[i], c);
    RingAfter(s, i, m, r);
    if m.act.SetNewest? {
      SetNewestCode(s, s.threads[i], c);
    }
  }

  lemma SetNewestCode(s: State, th: Thread, c: Choice)
    requires Busy(th) && Code(s, th, c).act.SetNewest?
    ensures var t := Code(s, th, c).act.t; DefaultVersion(s, RegOf(t)) < VersionOf(t)
  {
    match th.pc
    case Registering(_, _) =>
    case _ =>
  }

  lemma {:induction false} Rises(vs: seq<int>, m: nat, n: nat)
    requires m <= n < |vs| && forall k :: 0 <= k < |vs| - 1 ==> vs[k] <= vs[k + 1]
    ensures vs[m] <= vs[n]
    decreases n
  {
    if m < n {
      Rises(vs, m, n - 1);
      assert vs[n - 1] <= vs[n - 1 + 1];
    }
  }

  /** Between any two states of a run the default version never decreases, and a default never disappears. */
  lemma DefaultMonotone(ss: seq<State>, ps: seq<Pick>, m: nat, n: nat, r: Reg)
    requires IsRun(ss, ps) && m <= n < |ss|
    ensures DefaultVersion(ss[m], r) <= DefaultVersion(ss[n], r)
  {
    var vs := seq(|ss|, k requires 0 <= k < |ss| => DefaultVersion(ss[k], r));
    forall k | 0 <= k < |vs| - 1
      ensures vs[k] <= vs[k + 1]
    {
      DefaultRunStep(ss, ps, k, r);
    }
    Rises(vs, m, n);
  }

  lemma DefaultRunStep(ss: seq<State>, ps: seq<Pick>, k: nat, r: Reg)
    requires IsRun(ss, ps) && k < |ps|
    ensures DefaultVersion(ss[k], r) <= DefaultVersion(ss[k + 1], r)
  {
    var s, s' := ss[k], ss[k + 1];
    assert Enabled(s, ps[k].i) && s' == Next(s, ps[k].i, ps[k].c);
    DefaultVersionStep(s, ps[k].i, ps[k].c, r);
  }

  /** Once a header or writer type is registered its registry never becomes empty again. */
  lemma NeverEmptyAgain(ss: seq<State>, ps: seq<Pick>, m: nat, n: nat, r: Reg)
    requires IsRun(ss, ps) && m <= n < |ss| && (r == HeaderReg || r == WriterReg)
    requires !Updating(ss[m], r) && !Updating(ss[n], r)
    requires At(ss[m], r).ring != []
    ensures At(ss[n], r).ring != []
  {
    DefaultIsNewest(ss, ps, m, r);
    DefaultIsNewest(ss, ps, n, r);
    DefaultMonotone(ss, ps, m, n, r);
  }

  /** Keys are unique, so the type a search stops at is the only one with the key searched for. */
  lemma KeysUnique(ss: seq<State>, ps: seq<Pick>, n: nat, t: TypeObj, u: TypeObj)
    requires IsRun(ss, ps) && n < |ss|
    requires t in At(ss[n], RegOf(t)).ring && u in At(ss[n], RegOf(u)).ring && IdentOf(t) == IdentOf(u)
    ensures t == u
  {
    RunWellFormed(ss, ps, n);
    assert RingOk(ss[n], RegOf(t));
    var ring := At(ss[n], RegOf(t)).ring;
    var j :| 0 <= j < |ring| && ring[j] == t;
    var k :| 0 <= k < |ring| && ring[k] == u;
    assert !(j < k) && !(k < j);
  }

  ghost predicate Present(s: State, t: TypeObj) {
    exists r :: t in At(s, r).ring
  }

  lemma PresentIn(s: State, t: TypeObj)
    requires WellFormed(s) && Present(s, t)
    ensures t in At(s, RegOf(t)).ring
  {
    var r :| t in At(s, r).ring;
    assert RingOk(s, r);
  }

  /**
   * In every run the answer to a search is the right one among the types that are linked: by default
   * the one with the largest version field, otherwise the one with the name or version asked for.
   */
  lemma SearchAnswers(ss: seq<State>, ps: seq<Pick>, n: nat, w: Want, found: Option<TypeObj>)
    requires IsRun(ss, ps) && n < |ps|
    requires var s, p := ss[n], ps[n]; Enabled(s, p.i) && Code(s, s.threads[p.i], p.c).ev == Some(EFind(w, found))
    ensures Answered(t => Present(ss[n], t), w, found)
  {
    var s, i := ss[n], ps[n].i;
    var r := Registry(w);
    RunWellFormed(ss, ps, n);
    AnswerCode(s, i, ps[n].c, w, found);
    assert LockFits(s, r) && RingOk(s, r) && DefaultOk(s, r);
    if ByDefault(w) {
      assert SectionAt(s, i) == Reading(r);
      DefaultSettled(s, i, r);
    }
    forall u | Present(s, u)
      ensures u in At(s, RegOf(u)).ring
    {
      PresentIn(s, u);
    }
    forall u | Present(s, u) && Asked(w, u)
      ensures found == Some(u)
    {
      SearchSelects(s, w, found, u);
    }
    if found.Some? {
      assert found.value in At(s, r).ring;
      KeyIsAsked(w, found.value);
    }
  }

  /** The two types have one name in one algorithm registry, or one version. */
  predicate Rivals(u: TypeObj, t: TypeObj) {
    || (u.AlgoType? && t.AlgoType? && u.algo == t.algo && u.name == t.name)
    || (u.HeaderType? && t.HeaderType? && u.v16 == t.v16)
    || (u.WriterType? && t.WriterType? && u.v32 == t.v32)
  }

  lemma RivalsShareKey(u: TypeObj, t: TypeObj)
    ensures Rivals(u, t) <==> IdentOf(u) == IdentOf(t)
  {
  }

  /** In every run a registration is accepted exactly when no linked type has its name or version. */
  lemma RegisterAnswers(ss: seq<State>, ps: seq<Pick>, n: nat, t: TypeObj, ok: bool)
    requires IsRun(ss, ps) && n < |ps|
    requires var s, p := ss[n], ps[n]; Enabled(s, p.i) && Code(s, s.threads[p.i], p.c).ev == Some(ERegister(t, ok))
    ensures ok <==> forall u :: Present(ss[n], u) ==> !Rivals(u, t)
  {
    var s, i := ss[n], ps[n].i;
    RunWellFormed(ss, ps, n);
    RegisterEvent(s, s.threads[i], ps[n].c, t, ok);
    var ring := At(s, RegOf(t)).ring;
    assert SharedOk(s, s.threads[i].pc) && RingOk(s, RegOf(t));
    if ok {
      forall u | Present(s, u)
        ensures !Rivals(u, t)
      {
        PresentIn(s, u);
        RivalsShareKey(u, t);
      }
    } else {
      var u := ring[s.threads[i].pc.r.i];
      RivalsShareKey(u, t);
      assert Present(s, u);
    }
  }

  lemma RegisterEvent(s: State, th: Thread, c: Choice, t: TypeObj, ok: bool)
    requires Busy(th) && Code(s, th, c).ev == Some(ERegister(t, ok))
    ensures th.pc.Registering? && th.pc.t == t && if ok then th.pc.r == RSet else th.pc.r.RScan?
    ensures !ok ==> th.pc.r.i < |At(s, RegOf(t)).ring| && LabelOf(At(s, RegOf(t)).ring[th.pc.r.i]) == LabelOf(t)
  {
    match th.pc
    case Registering(_, _) =>
    case Unregistering(_, _) =>
    case Acquiring(_, _, _) =>
    case _ =>
  }

  /** A linked type that is asked for is the answer: -1 converts to the largest version there can be. */
  lemma SearchSelects(s: State, w: Want, found: Option<TypeObj>, u: TypeObj)
    requires var r := Registry(w); RingOk(s, r) && AnswerFits(At(s, r), w, found)
    requires ByDefault(w) ==> RightDefault(At(s, Registry(w)).ring, At(s, Registry(w)).newest)
    requires u in At(s, RegOf(u)).ring && Asked(w, u)
    ensures found == Some(u)
  {
    KeyIsAsked(w, u);
    if ByDefault(w) {
      assert forall v :: !Older(u, v);
    } else {
      SameKey(At(s, Registry(w)).ring, found, u);
    }
  }

  lemma SameKey(ring: seq<TypeObj>, found: Option<TypeObj>, u: TypeObj)
    requires Distinct(ring) && u in ring
    requires found.None? ==> NoMatch(ring, |ring|, LabelOf(u))
    requires found.Some? ==> found.value in ring && LabelOf(found.value) == LabelOf(u)
    ensures found == Some(u)
  {
    var k :| 0 <= k < |ring| && ring[k] == u;
    if found.Some? {
      var j :| 0 <= j < |ring| && ring[j] == found.value;
      assert !(j < k) && !(k < j);
    }
  }

  /** The answer is the default, or the match in the ring. */
  predicate AnswerFits(rs: RegState, w: Want, found: Option<TypeObj>) {
    && (found.Some? ==> found.value in rs.ring)
    && if ByDefault(w) then found == rs.newest
       else if found.Some? then LabelOf(found.value) == WantedLabel(w)
       else NoMatch(rs.ring, |rs.ring|, WantedLabel(w))
  }

  /** Where a search gets its answer from. */
  lemma AnswerCode(s: State, i: nat, c: Choice, w: Want, found: Option<TypeObj>)
    requires WellFormed(s) && Enabled(s, i) && Code(s, s.threads[i], c).ev == Some(EFind(w, found))
    ensures s.threads[i].pc.Acquiring? && s.threads[i].pc.w == w && SectionOf(s.threads[i].pc) == Reading(Registry(w))
    ensures AnswerFits(At(s, Registry(w)), w, found)
  {
    var th := s.threads[i];
    assert SharedOk(s, th.pc) && ThreadOk(th);
    match th.pc
    case Registering(_, _) =>
    case Unregistering(_, _) =>
    case Acquiring(_, _, _) => AnswerStep(s, th, w, found);
    case _ =>
  }

  lemma AnswerStep(s: State, th: Thread, w: Want, found: Option<TypeObj>)
    requires Busy(th) && th.pc.Acquiring? && ThreadOk(th) && SharedOk(s, th.pc)
    requires AcquireCode(s, th).ev == Some(EFind(w, found))
    ensures th.pc.w == w && SectionOf(th.pc) == Reading(Registry(w))
    ensures AnswerFits(At(s, Registry(w)), w, found)
  {
  }

  /**
   * A registration that goes through finds its object unlinked: linked types are refused before their
   * counter or node is touched. Nobody holds it, so no live reference is ever reset to 1.
   */
  lemma NoDoubleLink(ss: seq<State>, ps: seq<Pick>, n: nat, j: nat)
    requires IsRun(ss, ps) && n < |ss| && j < |ss[n].threads|
    requires ss[n].threads[j].pc.Registering? && (ss[n].threads[j].pc.r.RSet? || ss[n].threads[j].pc.r.RLink?)
    ensures var t := ss[n].threads[j].pc.t;
            && t !in At(ss[n], RegOf(t)).ring
            && (Unsevered(ss, ps, n) ==> ss[n].live[t] + InFlight(ss[n].threads, t) == 0)
  {
    RunWellFormed(ss, ps, n);
    var t := ss[n].threads[j].pc.t;
    assert SharedOk(ss[n], ss[n].threads[j].pc);
    NoMatchUnlinked(At(ss[n], RegOf(t)).ring, t);
    if Unsevered(ss, ps, n) {
      RunBalanced(ss, ps, n);
      assert Safe(ss[n], t);
    }
  }

  /** What is about to be unlinked is not the default, and is held by nobody. */
  lemma UnlinkSafe(ss: seq<State>, ps: seq<Pick>, n: nat, j: nat)
    requires IsRun(ss, ps) && n < |ss| && j < |ss[n].threads|
    requires ss[n].threads[j].pc.Unregistering? && ss[n].threads[j].pc.u.UUnlink?
    ensures var t := ss[n].threads[j].pc.t;
            && (Versioned(RegOf(t)) ==> At(ss[n], RegOf(t)).newest != Some(t))
            && (Guarded(ss, ps, n) ==> ss[n].live[t] + InFlight(ss[n].threads, t) == 0)
  {
    RunWellFormed(ss, ps, n);
    assert SharedOk(ss[n], ss[n].threads[j].pc);
    if Guarded(ss, ps, n) {
      RunOk(ss, ps, n);
      assert UnlinkOk(ss[n], ss[n].threads[j].pc);
    }
  }
}
