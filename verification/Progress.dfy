/**
 * Every finite set of calls finishes: no unfinished state is stuck, and each step of any thread
 * brings the whole system closer to the end.
 */
module Progress {
  import opened Options
  import opened Atomic
  import opened Catalog
  import opened Machine
  import opened Invariant
  import opened Preservation
  import opened Simulation

  // ---------- no deadlock ----------

  ghost predicate Finished(s: State) {
    forall j :: 0 <= j < |s.threads| ==> !Busy(s.threads[j])
  }

  ghost predicate Holds(s: State, j: nat, r: Reg) {
    j in At(s, r).lock.readers || At(s, r).lock.writer == Some(j)
  }

  /** A thread holds at most one of the registry locks, also while it composes three registries. */
  lemma OneLock(s: State, j: nat, r: Reg, q: Reg)
    requires LockOk(s) && Holds(s, j, r) && Holds(s, j, q)
    ensures r == q
  {
    assert LockFits(s, r) && LockFits(s, q);
  }

  /** A thread with a call to make or finish waits exactly while others are inside the lock it wants. */
  lemma WaitsForHolders(s: State, j: nat)
    requires WellFormed(s) && j < |s.threads| && Busy(s.threads[j])
    ensures Enabled(s, j) <==>
              match s.threads[j].pc
              case Registering(t, RLock) => forall h: nat :: !Inside(s, h, RegOf(t))
              case Unregistering(t, ULock) => forall h: nat :: !Inside(s, h, RegOf(t))
              case Acquiring(_, w, ALock) => forall h: nat :: SectionAt(s, h) != Writing(Registry(w))
              case _ => true
  {
    var r := match s.threads[j].pc
      case Registering(t, _) => RegOf(t)
      case Unregistering(t, _) => RegOf(t)
      case Acquiring(_, w, _) => Registry(w)
      case _ => HeaderReg;
    assert LockFits(s, r);
    var l := At(s, r).lock;
    if l.writer.Some? {
      assert Inside(s, l.writer.value, r);
    }
    if h :| h in l.readers {
      assert Inside(s, h, r);
    }
    assert (forall h: nat :: !Inside(s, h, r)) ==> l.readers == {};
  }

  predicate Inside(s: State, h: nat, r: Reg) {
    SectionAt(s, h) == Reading(r) || SectionAt(s, h) == Writing(r)
  }

  lemma HolderRuns(s: State, j: nat, r: Reg)
    requires WellFormed(s) && Holds(s, j, r)
    ensures Enabled(s, j)
  {
    assert LockFits(s, r);
    assert ThreadOk(s.threads[j]);
  }

  lemma NotStuck(s: State)
    requires WellFormed(s) && !Finished(s)
    ensures exists i :: Enabled(s, i)
  {
    var j :| 0 <= j < |s.threads| && Busy(s.threads[j]);
    if !Enabled(s, j) {
      var r := match s.threads[j].pc
        case Registering(t, _) => RegOf(t)
        case Unregistering(t, _) => RegOf(t)
        case Acquiring(_, w, _) => Registry(w)
        case _ => HeaderReg;
      var l := At(s, r).lock;
      if l.writer.Some? {
        HolderRuns(s, l.writer.value, r);
      } else {
        var h :| h in l.readers;
        HolderRuns(s, h, r);
      }
    }
  }

  // ---------- a measure ----------

  predicate PastSet(pc: PC) {
    pc.Leave? || (pc.Registering? && (pc.r.RLink? || pc.r.RDefault? || pc.r.RUnlock?))
  }

  function Registrations(calls: seq<Call>): nat {
    if calls == [] then 0 else (if calls[0].Register? then 1 else 0) + Registrations(calls[1..])
  }

  /** Registrations a thread may still carry out. */
  function Unset(th: Thread): nat {
    if th.todo == [] then 0 else
      (if th.todo[0].Register? && !PastSet(th.pc) then 1 else 0) + Registrations(th.todo[1..])
  }

  function AllUnset(ths: seq<Thread>): nat {
    if ths == [] then 0 else AllUnset(ths[..|ths| - 1]) + Unset(ths[|ths| - 1])
  }

  /** No ring ever grows longer than this. */
  function Room(s: State): nat {
    |s.counts| + AllUnset(s.threads)
  }

  function CallCost(room: nat): nat {
    3 * room + 24
  }

  /** Cost of the lookups after lookup k. */
  function Later(call: Call, k: nat, room: nat): nat {
    if |Plan(call)| <= k + 1 then 0 else if |Plan(call)| == k + 2 then room + 5 else 2 * (room + 5)
  }

  function Minus(x: nat, y: nat): nat {
    if x <= y then 0 else x - y
  }

  /** A bound on the steps left in the current call. */
  function Left(th: Thread, room: nat): nat
    requires Busy(th)
  {
    var call := th.todo[0];
    match th.pc
    case Ready => CallCost(room)
    case FileNew => Later(call, 0, room) + room + 13
    case Registering(_, r) => (
      match r
      case RLock => room + 8
      case RScan(i) => Minus(room, i) + 7
      case RSet => 6
      case RLink => 5
      case RDefault => 4
      case RUnlock(_) => 3)
    case Unregistering(_, u) => (
      match u
      case ULock => 8
      case UDefault => 7
      case UCount => 6
      case UUnlink => 5
      case UUnlock(_) => 3)
    case Acquiring(k, _, a) => (
      match a
      case ALock => Later(call, k, room) + room + 12
      case ADefault => Later(call, k, room) + 11
      case AScan(i) => Later(call, k, room) + Minus(room, i) + 11
      case AInc(_) => Later(call, k, room) + 10
      case AUnlock(_) => Later(call, k, room) + 9)
    case Use(k) => Later(call, k, room) + 8
    case Unwind(k, _) => |th.held| + (if k > 0 then 3 else 2)
    case Destroy(_) => 4
    case Leave(_) => 1
  }

  function Rest(calls: seq<Call>, room: nat): nat {
    if calls == [] then 0 else CallCost(room) + Rest(calls[1..], room)
  }

  function Work(th: Thread, room: nat): nat {
    if th.todo == [] then 0 else Left(th, room) + Rest(th.todo[1..], room)
  }

  function AllWork(ths: seq<Thread>, room: nat): nat {
    if ths == [] then 0 else AllWork(ths[..|ths| - 1], room) + Work(ths[|ths| - 1], room)
  }

  /** A bound on the steps left in the whole system. */
  function StepsLeft(s: State): nat {
    AllWork(s.threads, Room(s))
  }

  // ---------- rings stay within the room ----------

  lemma {:induction false} DistinctFits(ring: seq<TypeObj>, known: set<TypeObj>)
    requires Distinct(ring) && forall j :: 0 <= j < |ring| ==> ring[j] in known
    ensures |ring| <= |known|
  {
    if ring != [] {
      var n := |ring| - 1;
      assert forall j :: 0 <= j < n ==> ring[j] != ring[n];
      DistinctFits(ring[..n], known - {ring[n]});
    }
  }

  lemma {:induction false} UnsetUpdate(ths: seq<Thread>, i: nat, th: Thread)
    requires i < |ths|
    ensures AllUnset(ths[i := th]) + Unset(ths[i]) == AllUnset(ths) + Unset(th)
  {
    var n := |ths| - 1;
    if i < n {
      assert ths[i := th][..n] == ths[..n][i := th];
      UnsetUpdate(ths[..n], i, th);
    } else {
      assert ths[i := th][..n] == ths[..n];
    }
  }

  lemma UnsetStep(s: State, th: Thread, c: Choice)
    requires Busy(th) && ThreadOk(th)
    ensures var m := Code(s, th, c);
            Unset(m.th) + (if m.act.SetOne? then 1 else 0) <= Unset(th)
  {
    match th.pc
    case Ready => UnsetBegin(s, th, c);
    case Registering(_, _) => UnsetRegister(s, th);
    case Unregistering(_, _) => UnsetUnregister(s, th);
    case Acquiring(_, _, _) => UnsetAcquire(s, th);
    case _ =>
  }

  lemma UnsetBegin(s: State, th: Thread, c: Choice)
    requires Busy(th) && th.pc == Ready
    ensures Unset(Begin(s, th, c).th) <= Unset(th) && !Begin(s, th, c).act.SetOne?
  {
  }

  lemma UnsetRegister(s: State, th: Thread)
    requires Busy(th) && th.pc.Registering? && th.todo[0].Register?
    ensures var m := RegisterCode(s, th);
            Unset(m.th) + (if m.act.SetOne? then 1 else 0) <= Unset(th)
  {
  }

  lemma UnsetUnregister(s: State, th: Thread)
    requires Busy(th) && th.pc.Unregistering?
    ensures Unset(UnregisterCode(s, th).th) <= Unset(th) && !UnregisterCode(s, th).act.SetOne?
  {
  }

  lemma UnsetAcquire(s: State, th: Thread)
    requires Busy(th) && th.pc.Acquiring?
    ensures Unset(AcquireCode(s, th).th) <= Unset(th) && !AcquireCode(s, th).act.SetOne?
  {
  }

  lemma KeysCount(a: map<TypeObj, int64>, b: map<TypeObj, int64>, t: TypeObj)
    ensures b.Keys == a.Keys ==> |b| == |a|
    ensures b.Keys == a.Keys + {t} ==> |b| <= |a| + 1
  {
    assert |a.Keys| == |a| && |b.Keys| == |b|;
    if b.Keys == a.Keys + {t} && t in a.Keys {
      assert b.Keys == a.Keys;
    }
  }

  lemma RoomShrinks(s: State, i: nat, c: Choice)
    requires WellFormed(s) && Enabled(s, i)
    ensures Room(Next(s, i, c)) <= Room(s)
  {
    var m, s' := Code(s, s.threads[i], c), Next(s, i, c);
    CodeMoves(s, i, c);
    KnownAfter(s, i, c);
    UnsetStep(s, s.threads[i], c);
    UnsetUpdate(s.threads, i, m.th);
    KeysCount(s.counts, s'.counts, if m.act.SetOne? then m.act.t else HeaderType(0, 0));
  }

  // ---------- every step does work ----------

  lemma {:induction false} RestMonotone(calls: seq<Call>, x: nat, y: nat)
    requires x <= y
    ensures Rest(calls, x) <= Rest(calls, y)
  {
    if calls != [] {
      RestMonotone(calls[1..], x, y);
    }
  }

  lemma LeftMonotone(th: Thread, x: nat, y: nat)
    requires x <= y && Busy(th)
    ensures Left(th, x) <= Left(th, y)
  {
  }

  lemma {:induction false} WorkMonotone(ths: seq<Thread>, x: nat, y: nat)
    requires x <= y
    ensures AllWork(ths, x) <= AllWork(ths, y)
  {
    if ths != [] {
      var th := ths[|ths| - 1];
      WorkMonotone(ths[..|ths| - 1], x, y);
      if th.todo != [] {
        LeftMonotone(th, x, y);
        RestMonotone(th.todo[1..], x, y);
      }
    }
  }

  lemma {:induction false} WorkUpdate(ths: seq<Thread>, i: nat, th: Thread, room: nat)
    requires i < |ths|
    ensures AllWork(ths[i := th], room) + Work(ths[i], room) == AllWork(ths, room) + Work(th, room)
  {
    var n := |ths| - 1;
    if i < n {
      assert ths[i := th][..n] == ths[..n][i := th];
      WorkUpdate(ths[..n], i, th, room);
    } else {
      assert ths[i := th][..n] == ths[..n];
    }
  }

  lemma PlanSize(call: Call)
    ensures |Plan(call)| <= 3
  {
  }

  /** One step leaves less to do in the thread that takes it. */
  lemma WorkStep(s: State, th: Thread, c: Choice, room: nat)
    requires Busy(th) && ThreadOk(th)
    requires forall r :: |At(s, r).ring| <= room
    ensures Work(Code(s, th, c).th, room) < Work(th, room)
  {
    PlanSize(th.todo[0]);
    match th.pc
    case Ready => WorkBegin(s, th, c, room);
    case Registering(_, _) => WorkRegister(s, th, room);
    case Unregistering(_, _) => WorkUnregister(s, th, room);
    case Acquiring(_, _, _) => WorkAcquire(s, th, room);
    case Use(_) => WorkUse(th, c, room);
    case _ =>
  }

  lemma WorkUse(th: Thread, c: Choice, room: nat)
    requires Busy(th) && th.pc.Use? && |th.held| <= 3
    ensures Work(th.(pc := AfterUse(th.todo[0], th.pc.k, c.success)), room) < Work(th, room)
  {
    PlanSize(th.todo[0]);
  }

  lemma WorkBegin(s: State, th: Thread, c: Choice, room: nat)
    requires Busy(th) && th.pc == Ready
    ensures Work(Begin(s, th, c).th, room) < Work(th, room)
  {
    PlanSize(th.todo[0]);
  }

  lemma WorkRegister(s: State, th: Thread, room: nat)
    requires Busy(th) && th.pc.Registering? && |At(s, RegOf(th.pc.t)).ring| <= room
    ensures Work(RegisterCode(s, th).th, room) < Work(th, room)
  {
  }

  lemma WorkUnregister(s: State, th: Thread, room: nat)
    requires Busy(th) && th.pc.Unregistering?
    ensures Work(UnregisterCode(s, th).th, room) < Work(th, room)
  {
  }

  lemma WorkAcquire(s: State, th: Thread, room: nat)
    requires Busy(th) && th.pc.Acquiring? && |th.held| <= 3 && |At(s, Registry(th.pc.w)).ring| <= room
    ensures Work(AcquireCode(s, th).th, room) < Work(th, room)
  {
    match th.pc.a
    case ALock =>
    case ADefault =>
    case AScan(_) =>
    case AInc(_) =>
    case AUnlock(_) => WorkAnswered(s, th, room);
  }

  lemma WorkAnswered(s: State, th: Thread, room: nat)
    requires Busy(th) && th.pc.Acquiring? && |th.held| <= 3 && th.pc.a.AUnlock?
    ensures Work(AcquireCode(s, th).th, room) < Work(th, room)
  {
    PlanSize(th.todo[0]);
    OnwardCost(th.todo[0], th, th.pc.k, room);
  }

  lemma OnwardCost(call: Call, th: Thread, k: nat, room: nat)
    requires Busy(th) && th.todo[0] == call
    ensures Left(th.(pc := Onward(call, k)), room) <= Later(call, k, room) + 7
  {
    PlanSize(call);
  }

  /** The global measure strictly decreases at every step of every thread. */
  lemma StepsDecrease(s: State, i: nat, c: Choice)
    requires WellFormed(s) && Enabled(s, i)
    ensures StepsLeft(Next(s, i, c)) < StepsLeft(s)
  {
    var s', th' := Next(s, i, c), Code(s, s.threads[i], c).th;
    var room := Room(s');
    RoomShrinks(s, i, c);
    forall r
      ensures |At(s, r).ring| <= room
    {
      CodeMoves(s, i, c);
      KnownGrows(s, i, Code(s, s.threads[i], c));
      assert RingOk(s, r);
      DistinctFits(At(s, r).ring, s'.counts.Keys);
    }
    WorkStep(s, s.threads[i], c, room);
    WorkUpdate(s.threads, i, th', room);
    WorkMonotone(s.threads, room, Room(s));
    assert s'.threads == s.threads[i := th'];
  }

  /** A run takes no more steps than the measure of its first state. */
  lemma {:induction false} RunsAreBounded(ss: seq<State>, ps: seq<Pick>, n: nat)
    requires IsRun(ss, ps) && n <= |ps|
    ensures n + StepsLeft(ss[n]) <= StepsLeft(ss[0])
  {
    if n > 0 {
      RunsAreBounded(ss, ps, n - 1);
      RunWellFormed(ss, ps, n - 1);
      assert Enabled(ss[n - 1], ps[n - 1].i);
      StepsDecrease(ss[n - 1], ps[n - 1].i, ps[n - 1].c);
    }
  }

  /**
   * Whole-system completion. A run has at most StepsLeft(ss[0]) steps, and a run that cannot be
   * continued has finished every call of every thread.
   */
  lemma Completion(ss: seq<State>, ps: seq<Pick>)
    requires IsRun(ss, ps)
    ensures |ps| <= StepsLeft(ss[0])
    ensures (exists i :: Enabled(ss[|ps|], i)) <==> !Finished(ss[|ps|])
  {
    RunsAreBounded(ss, ps, |ps|);
    RunWellFormed(ss, ps, |ps|);
    if !Finished(ss[|ps|]) {
      NotStuck(ss[|ps|]);
    }
  }
}
