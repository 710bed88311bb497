/**
 * What holds in the states the machine reaches, however its threads interleave. `WellFormed` holds
 * in every run: locks exclude, keys are unique, the default is the newest. `Balanced` holds until a
 * held type is unlinked: counters equal one plus the references held, and what is held is linked.
 * `Tally` adds that nothing held is about to be unlinked, which depends on the check in `unregister`.
 */
module Invariant {
  import opened Options
  import opened Sequences
  import opened Posix
  import opened Atomic
  import opened Catalog
  import opened Machine

  // ---------- one thread on its own ----------

  /** The lookups of a call that found hs so far. */
  function Finds(ws: seq<Want>, hs: seq<TypeObj>): seq<Event>
    requires |hs| <= |ws|
    ensures |Finds(ws, hs)| == |hs|
  {
    if hs == [] then [] else
      Finds(ws, hs[..|hs| - 1]) + [EFind(ws[|hs| - 1], Some(hs[|hs| - 1]))]
  }

  /** The drops that give back hs, in the order the rollback code makes them. */
  function Rollback(hs: seq<TypeObj>): seq<Event> {
    if hs == [] then [] else [EDrop(hs[NextDrop(hs)])] + Rollback(Cut(hs, NextDrop(hs)))
  }

  /** The history of a call that found hs, then missed its next lookup or had type code fail, and gave hs back. */
  function FailLog(ws: seq<Want>, hs: seq<TypeObj>, missed: bool): seq<Event>
    requires |hs| <= |ws| && (missed ==> |hs| < |ws|)
  {
    Finds(ws, hs) + (if missed then [EFind(ws[|hs|], None)] else []) + Rollback(hs)
  }

  /** The outcome of a call that found hs and then missed its next lookup, or ran type code. */
  predicate FailOutcome(call: Call, out: Outcome, hs: seq<TypeObj>, missed: bool) {
    && |hs| <= |Plan(call)|
    && if missed then |hs| < |Plan(call)| && out == MissOutcome(call, |hs|)
       else if hs == [] then out == Failed && call.FileCreate?
       else UsesAfter(call, |hs| - 1) && (out == Failed || (out == Success && Transient(call)))
  }

  predicate FailFits(call: Call, out: Outcome, log: seq<Event>, hs: seq<TypeObj>, missed: bool) {
    FailOutcome(call, out, hs, missed) && log == FailLog(Plan(call), hs, missed)
  }

  predicate SuccessFits(call: Call, out: Outcome, log: seq<Event>, hs: seq<TypeObj>) {
    out == Success && |hs| == |Plan(call)| && log == Finds(Plan(call), hs)
  }

  /** The outcome of a finished call and the atomic operations it performed explain each other. */
  ghost predicate Explained(call: Call, out: Outcome, log: seq<Event>) {
    match call
    case Register(t) =>
      if !Complete(t) then out == Refused(EINVAL) && log == []
      else
        || (out == Success && log == [ERegister(t, true)])
        || (out == Refused(EBUSY) && log == [ERegister(t, false)])
    case Unregister(t) =>
      || (out == Success && log == [EUnregister(t, true)])
      || (out == Refused(EBUSY) && log == [EUnregister(t, false)])
    case Release => out == Success && (log == [] || exists t :: log == [EDrop(t)])
    case _ =>
      if !ArgsOk(call) then out == Refused(EINVAL) && log == []
      else if out == Success && !Transient(call) then exists hs :: SuccessFits(call, out, log, hs)
      else exists hs, missed :: FailFits(call, out, log, hs, missed)
  }

  /** k lookups have succeeded. */
  predicate Forward(th: Thread, k: nat)
    requires Busy(th)
  {
    |th.held| == k && k <= |Plan(th.todo[0])| && th.log == Finds(Plan(th.todo[0]), th.held)
  }

  /** Dropping what is still held completes the history of a failed call. */
  ghost predicate Unwinding(call: Call, out: Outcome, log: seq<Event>, held: seq<TypeObj>) {
    exists hs, missed :: FailFits(call, out, log + Rollback(held), hs, missed)
  }

  /** Between calls a thread holds nothing. */
  predicate Rested(th: Thread) {
    th.pc == Ready ==> th.held == []
  }

  predicate Fresh(th: Thread) {
    th.held == [] && th.log == []
  }

  ghost predicate ThreadOk(th: Thread) {
    if th.todo == [] then th.pc == Ready && Fresh(th) else
    var call := th.todo[0];
    match th.pc
    case Ready => Fresh(th)
    case FileNew => call.FileCreate? && Fresh(th)
    case Registering(t, r) =>
      && call == Register(t) && Complete(t) && th.held == []
      && (r.RDefault? ==> Versioned(RegOf(t)))
      && th.log == (if r.RLink? || r.RDefault? then [ERegister(t, true)]
                    else if r.RUnlock? then [ERegister(t, r.ok)]
                    else [])
    case Unregistering(t, u) =>
      && call == Unregister(t) && th.held == []
      && (u.UDefault? ==> Versioned(RegOf(t)))
      && th.log == if u.UUnlock? then [EUnregister(t, u.ok)] else []
    case Acquiring(k, w, a) =>
      && ArgsOk(call) && k < |Plan(call)| && Plan(call)[k] == w
      && (a.ADefault? ==> ByDefault(w)) && (a.AScan? ==> !ByDefault(w))
      && if a == AUnlock(true) then Forward(th, k + 1)
         else if a == AUnlock(false) then |th.held| == k && th.log == Finds(Plan(call), th.held) + [EFind(w, None)]
         else Forward(th, k)
    case Use(k) => ArgsOk(call) && k < |Plan(call)| && UsesAfter(call, k) && Forward(th, k + 1)
    case Unwind(_, out) =>
      if call.Release? then
        && out == Success
        && ((|th.held| == 1 && th.log == []) || (th.held == [] && exists t :: th.log == [EDrop(t)]))
      else
        && Acquires(call) && ArgsOk(call)
        && Unwinding(call, out, th.log, th.held)
    case Destroy(t) => call.Release? && th.held == [t] && th.log == []
    case Leave(out) =>
      && Explained(call, out, th.log)
      && if Acquires(call) && out == Success && !Transient(call) then Forward(th, |Plan(call)|) else th.held == []
  }

  ghost predicate PastOk(th: Thread) {
    forall r :: r in th.past ==> Explained(r.call, r.out, r.log)
  }

  // ---------- shared memory ----------

  ghost predicate LockFits(s: State, r: Reg) {
    var l := At(s, r).lock;
    && (forall j: nat :: j in l.readers <==> SectionAt(s, j) == Reading(r))
    && (forall j: nat :: l.writer == Some(j) <==> SectionAt(s, j) == Writing(r))
    && (l.writer.Some? ==> l.readers == {})
  }

  ghost predicate LockOk(s: State) {
    forall r :: LockFits(s, r)
  }

  predicate NoMatch(ring: seq<TypeObj>, n: nat, key: Label) {
    n <= |ring| && forall j :: 0 <= j < n ==> LabelOf(ring[j]) != key
  }

  /** newest is NULL for the empty ring, and otherwise linked with the strictly largest version. */
  predicate RightDefault(ring: seq<TypeObj>, newest: Option<TypeObj>) {
    match newest
    case None => ring == []
    case Some(t) => t in ring && forall u :: u in ring && u != t ==> Older(u, t)
  }

  /** The thread is between linking its type and updating the default. */
  predicate Updating(s: State, r: Reg) {
    var w := At(s, r).lock.writer;
    && w.Some? && w.value < |s.threads|
    && s.threads[w.value].pc.Registering? && s.threads[w.value].pc.r.RDefault?
  }

  /** Keys are pairwise distinct. */
  predicate Distinct(ring: seq<TypeObj>) {
    forall j, k :: 0 <= j < k < |ring| ==> LabelOf(ring[j]) != LabelOf(ring[k])
  }

  ghost predicate RingOk(s: State, r: Reg) {
    var ring := At(s, r).ring;
    && (forall j :: 0 <= j < |ring| ==> RegOf(ring[j]) == r && ring[j] in s.counts)
    && Distinct(ring)
  }

  ghost predicate DefaultOk(s: State, r: Reg) {
    Versioned(r) && !Updating(s, r) ==> RightDefault(At(s, r).ring, At(s, r).newest)
  }

  /** What a thread inside a lock section knows about the shared state. */
  ghost predicate SharedOk(s: State, pc: PC) {
    match pc
    case Registering(t, r) => RegisteringOk(s, t, r)
    case Unregistering(t, u) => UnregisteringOk(s, t, u)
    case Acquiring(_, w, a) => AcquiringOk(s, w, a)
    case _ => true
  }

  ghost predicate RegisteringOk(s: State, t: TypeObj, r: RStep) {
    var rs := At(s, RegOf(t));
    match r
    case RScan(i) => NoMatch(rs.ring, i, LabelOf(t))
    case RSet => NoMatch(rs.ring, |rs.ring|, LabelOf(t))
    case RLink => t in s.counts && NoMatch(rs.ring, |rs.ring|, LabelOf(t))
    case RDefault =>
      rs.ring != [] && rs.ring[|rs.ring| - 1] == t && RightDefault(rs.ring[..|rs.ring| - 1], rs.newest)
    case _ => true
  }

  ghost predicate UnregisteringOk(s: State, t: TypeObj, u: UStep) {
    match u
    case UCount => Versioned(RegOf(t)) ==> At(s, RegOf(t)).newest != Some(t)
    case UUnlink => (Versioned(RegOf(t)) ==> At(s, RegOf(t)).newest != Some(t)) && t in s.counts
    case _ => true
  }

  ghost predicate AcquiringOk(s: State, w: Want, a: AStep) {
    var rs := At(s, Registry(w));
    match a
    case AScan(i) => NoMatch(rs.ring, i, WantedLabel(w))
    case AInc(t) =>
      t in rs.ring && if ByDefault(w) then rs.newest == Some(t) else LabelOf(t) == WantedLabel(w)
    case _ => true
  }

  /** Only types that were registered are ever held. */
  ghost predicate Known(s: State, t: TypeObj) {
    Holders(s, t) > 0 ==> t in s.counts
  }

  /** A type that somebody holds is linked. */
  ghost predicate Safe(s: State, t: TypeObj) {
    Holders(s, t) > 0 ==> t in At(s, RegOf(t)).ring
  }

  /** The counter of a type that was ever registered is one plus its holders. */
  ghost predicate Counted(s: State, t: TypeObj) {
    if t in s.counts then s.counts[t] == AsLong(1 + Holders(s, t)) else Holders(s, t) == 0
  }

  ghost predicate ThreadsOk(s: State) {
    forall j :: 0 <= j < |s.threads| ==> ThreadOk(s.threads[j]) && PastOk(s.threads[j])
  }

  ghost predicate MemoryOk(s: State) {
    && LockOk(s)
    && (forall r :: RingOk(s, r))
    && (forall r :: DefaultOk(s, r))
    && (forall t :: Known(s, t))
    && (forall j :: 0 <= j < |s.threads| ==> SharedOk(s, s.threads[j].pc))
  }

  /** What needs no condition on the counters. */
  ghost predicate WellFormed(s: State) {
    ThreadsOk(s) && MemoryOk(s)
  }

  /** A thread that is about to unlink a type found it unheld. */
  ghost predicate UnlinkOk(s: State, pc: PC) {
    pc.Unregistering? && pc.u.UUnlink? ==> Holders(s, pc.t) == 0
  }

  ghost predicate Balanced(s: State) {
    && (forall t :: Safe(s, t))
    && (forall t :: Counted(s, t))
  }

  ghost predicate Tally(s: State) {
    && Balanced(s)
    && (forall j :: 0 <= j < |s.threads| ==> UnlinkOk(s, s.threads[j].pc))
  }

  ghost predicate Inv(s: State) {
    WellFormed(s) && Tally(s)
  }

  // ---------- facts about the code of one thread ----------

  lemma FindsAppend(ws: seq<Want>, hs: seq<TypeObj>, t: TypeObj)
    requires |hs| < |ws|
    ensures Finds(ws, hs + [t]) == Finds(ws, hs) + [EFind(ws[|hs|], Some(t))]
  {
    assert (hs + [t])[..|hs|] == hs;
  }

  /** Each step leaves the thread's own invariant intact. */
  lemma ThreadStep(s: State, th: Thread, c: Choice)
    requires Busy(th) && ThreadOk(th)
    ensures ThreadOk(Code(s, th, c).th)
  {
    match th.pc
    case Ready => BeginStep(s, th, c);
    case FileNew => assert FailFits(th.todo[0], Failed, [], [], false);
    case Registering(_, _) => RegisterStep(s, th);
    case Unregistering(_, _) => UnregisterStep(s, th);
    case Acquiring(_, _, _) => AcquireStep(s, th);
    case Use(_) => UseStep(th, c);
    case Unwind(_, _) => UnwindStep(th);
    case Destroy(_) =>
    case Leave(_) =>
  }

  lemma BeginStep(s: State, th: Thread, c: Choice)
    requires Busy(th) && th.pc == Ready && Fresh(th)
    ensures ThreadOk(Begin(s, th, c).th)
  {
  }

  lemma RegisterStep(s: State, th: Thread)
    requires Busy(th) && ThreadOk(th) && th.pc.Registering?
    ensures ThreadOk(RegisterCode(s, th).th)
  {
    match th.pc.r
    case RLock =>
    case RScan(_) =>
    case RSet =>
    case RLink =>
    case RDefault =>
    case RUnlock(_) =>
  }

  lemma UnregisterStep(s: State, th: Thread)
    requires Busy(th) && ThreadOk(th) && th.pc.Unregistering?
    ensures ThreadOk(UnregisterCode(s, th).th)
  {
  }

  lemma AcquireStep(s: State, th: Thread)
    requires Busy(th) && ThreadOk(th) && th.pc.Acquiring?
    ensures ThreadOk(AcquireCode(s, th).th)
  {
    match th.pc.a
    case AInc(_) => IncStep(s, th);
    case AUnlock(_) => AnsweredStep(s, th);
    case _ => SearchStep(s, th);
  }

  lemma SearchStep(s: State, th: Thread)
    requires Busy(th) && ThreadOk(th) && th.pc.Acquiring? && !th.pc.a.AInc? && !th.pc.a.AUnlock?
    ensures ThreadOk(AcquireCode(s, th).th)
  {
    match th.pc.a
    case ALock =>
    case ADefault =>
    case AScan(_) =>
    case _ =>
  }

  lemma IncStep(s: State, th: Thread)
    requires Busy(th) && ThreadOk(th) && th.pc.Acquiring? && th.pc.a.AInc?
    ensures ThreadOk(AcquireCode(s, th).th)
  {
    FindsAppend(Plan(th.todo[0]), th.held, th.pc.a.t);
  }

  lemma AnsweredStep(s: State, th: Thread)
    requires Busy(th) && ThreadOk(th) && th.pc.Acquiring? && th.pc.a.AUnlock?
    ensures ThreadOk(AcquireCode(s, th).th)
  {
    var call, k := th.todo[0], th.pc.k;
    if !th.pc.a.found {
      MissUnwinds(call, k, th.log, th.held);
    } else if !UsesAfter(call, k) {
      OnwardOk(th, call, k);
    }
  }

  lemma MissUnwinds(call: Call, k: nat, log: seq<Event>, held: seq<TypeObj>)
    requires k < |Plan(call)| && |held| == k
    requires log == Finds(Plan(call), held) + [EFind(Plan(call)[k], None)]
    ensures Unwinding(call, MissOutcome(call, k), log, held)
  {
    assert FailFits(call, MissOutcome(call, k), log + Rollback(held), held, true);
  }

  lemma UseStep(th: Thread, c: Choice)
    requires Busy(th) && ThreadOk(th) && th.pc.Use?
    ensures ThreadOk(th.(pc := AfterUse(th.todo[0], th.pc.k, c.success)))
  {
    var call := th.todo[0];
    OnwardOk(th, call, th.pc.k);
    var out := if Transient(call) && c.success then Success else Failed;
    assert FailFits(call, out, th.log + Rollback(th.held), th.held, false);
  }

  lemma OnwardOk(th: Thread, call: Call, k: nat)
    requires Busy(th) && th.todo[0] == call && ArgsOk(call) && k < |Plan(call)| && Forward(th, k + 1)
    ensures !Transient(call) ==> ThreadOk(th.(pc := Onward(call, k)))
  {
    if k + 1 == |Plan(call)| {
      assert SuccessFits(call, Success, th.log, th.held);
    }
  }

  lemma UnwindStep(th: Thread)
    requires Busy(th) && ThreadOk(th) && th.pc.Unwind?
    ensures ThreadOk(UnwindCode(th).th)
  {
    if !th.todo[0].Release? {
      if th.held == [] {
        assert th.log + Rollback(th.held) == th.log;
      } else {
        DropUnwinds(th.todo[0], th.pc.out, th.log, th.held);
      }
    }
  }

  lemma DropUnwinds(call: Call, out: Outcome, log: seq<Event>, held: seq<TypeObj>)
    requires Unwinding(call, out, log, held) && held != []
    ensures Unwinding(call, out, log + [EDrop(held[NextDrop(held)])], Cut(held, NextDrop(held)))
  {
    var e, rest := EDrop(held[NextDrop(held)]), Cut(held, NextDrop(held));
    assert (log + [e]) + Rollback(rest) == log + ([e] + Rollback(rest));
  }
}
