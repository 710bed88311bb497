/**
 * What every finished call did, call by call and as the source spells it out: which registries it
 * searched, whose code it ran with what result, which references it gave back in which order, and what
 * it returned. Nothing here refers to the tables that drive the step machine.
 */
module Reports {
  import opened Options
  import opened Posix
  import opened Sequences
  import opened Atomic
  import opened Catalog
  import opened Machine
  import opened Invariant
  import opened Preservation
  import opened Simulation
  import opened History
  import opened Safety

  /** Code run outside every lock: of a type (alloc, alloc_ctx, derive, get, destroy, free), or calloc. */
  datatype Ran = Ran(ty: Option<TypeObj>, ok: bool)

  // ---------- the reports ----------

  /** One lookup, then the type's code, whose success keeps the reference. */
  predicate KeepReport(w: Want, out: Outcome, log: seq<Event>, runs: seq<Ran>) {
    && log != []
    && match log[0]
       case EFind(v, None) => v == w && out == Refused(ENOSYS) && |log| == 1 && runs == []
       case EFind(v, Some(t)) =>
         && v == w && |runs| == 1 && runs[0].ty == Some(t)
         && if runs[0].ok then out == Success && |log| == 1 else out == Failed && log == [log[0], EDrop(t)]
       case _ => false
  }

  /** One lookup, then the type's code; the reference is given back in any case. */
  predicate BorrowReport(w: Want, out: Outcome, log: seq<Event>, runs: seq<Ran>) {
    && log != []
    && match log[0]
       case EFind(v, None) => v == w && out == Refused(ENOSYS) && |log| == 1 && runs == []
       case EFind(v, Some(t)) =>
         && v == w && |runs| == 1 && runs[0].ty == Some(t)
         && log == [log[0], EDrop(t)] && out == if runs[0].ok then Success else Failed
       case _ => false
  }

  /** cfe_filewriter_create */
  predicate WriterReport(version: int32, cipher: string, out: Outcome, log: seq<Event>, runs: seq<Ran>) {
    && log != []
    && match log[0]
       case EFind(v, None) => v == WantWriter(version) && out == Refused(ENOSYS) && |log| == 1 && runs == []
       case EFind(v, Some(t)) => v == WantWriter(version) && CipherReport(t, cipher, out, log, runs)
       case _ => false
  }

  predicate CipherReport(t: TypeObj, cipher: string, out: Outcome, log: seq<Event>, runs: seq<Ran>) {
    && |log| >= 2
    && match log[1]
       case EFind(v, None) =>
         v == WantAlgo(Cipher, cipher) && out == Failed && log == [log[0], log[1], EDrop(t)] && runs == []
       case EFind(v, Some(c)) =>
         && v == WantAlgo(Cipher, cipher) && |runs| == 1 && runs[0].ty == Some(t)
         && if runs[0].ok then out == Success && |log| == 2
            else out == Failed && log == [log[0], log[1], EDrop(t), EDrop(c)]
       case _ => false
  }

  /** do_create: calloc, the header, then a writer; the header is closed again if there is no writer. */
  predicate FileReport(cipher: string, out: Outcome, log: seq<Event>, runs: seq<Ran>) {
    && runs != [] && runs[0].ty == None
    && if !runs[0].ok then out == Failed && log == [] && |runs| == 1
       else
         && log != []
         && match log[0]
            case EFind(v, None) => v == WantHeader(-1) && out == Refused(ENOSYS) && |log| == 1 && |runs| == 1
            case EFind(v, Some(h)) => v == WantHeader(-1) && HeaderReport(h, cipher, out, log, runs)
            case _ => false
  }

  predicate HeaderReport(h: TypeObj, cipher: string, out: Outcome, log: seq<Event>, runs: seq<Ran>) {
    && |log| >= 2 && |runs| >= 2 && runs[1].ty == Some(h)
    && if !runs[1].ok then out == Failed && log == [log[0], EDrop(h)] && |runs| == 2
       else if out == Success then WriterReport(-1, cipher, out, log[1..], runs[2..])
       else
         && |runs| >= 3 && runs[|runs| - 1] == Ran(Some(h), true) && log[|log| - 1] == EDrop(h)
         && WriterReport(-1, cipher, out, log[1..|log| - 1], runs[2..|runs| - 1])
  }

  /** Arguments that the call refuses before it does anything. */
  predicate RefusedReport(out: Outcome, log: seq<Event>, runs: seq<Ran>) {
    out == Refused(EINVAL) && log == [] && runs == []
  }

  /**
   * What a call does. `runs` is the code it ran, `pick` the live object that a release was given, if any.
   */
  ghost predicate Reported(call: Call, out: Outcome, log: seq<Event>, runs: seq<Ran>, pick: Option<TypeObj>) {
    match call
    case Register(t) =>
      if t.AlgoType? && !t.complete then RefusedReport(out, log, runs)
      else
        && runs == []
        && (|| (out == Success && log == [ERegister(t, true)])
            || (out == Refused(EBUSY) && log == [ERegister(t, false)]))
    case Unregister(t) =>
      && runs == []
      && (|| (out == Success && log == [EUnregister(t, true)])
          || (out == Refused(EBUSY) && log == [EUnregister(t, false)]))
    case CipherRef(name) =>
      && runs == []
      && exists found :: log == [EFind(WantAlgo(Cipher, name), found)] && out == if found.Some? then Success else Failed
    case CipherAlloc(name) => KeepReport(WantAlgo(Cipher, name), out, log, runs)
    case HashAlloc(name) => KeepReport(WantAlgo(Hash, name), out, log, runs)
    case PbkdfDerive(argsOk, name) =>
      if !argsOk then RefusedReport(out, log, runs) else BorrowReport(WantAlgo(Pbkdf, name), out, log, runs)
    case RandGet(argsOk) =>
      if !argsOk then RefusedReport(out, log, runs) else BorrowReport(WantAlgo(Rand, "rand"), out, log, runs)
    case HeaderCreate(version) => KeepReport(WantHeader(version), out, log, runs)
    case WriterCreate(version, cipher) => WriterReport(version, cipher, out, log, runs)
    case FileCreate(cipher) => FileReport(cipher, out, log, runs)
    case Release =>
      && out == Success
      && if pick.Some? then log == [EDrop(pick.value)] && runs == [Ran(pick, true)] else log == [] && runs == []
  }

  // ---------- what a thread has run in its current call ----------

  function RanAt(th: Thread, c: Choice): seq<Ran> {
    if th.pc.FileNew? then [Ran(None, c.success)]
    else if Using(th).Some? then [Ran(Using(th), th.pc.Use? ==> c.success)]
    else []
  }

  /** The code that thread i has run since its current call began. */
  function Runs(ss: seq<State>, ps: seq<Pick>, n: nat, i: nat): seq<Ran>
    requires n <= |ps| < |ss|
    requires forall k :: 0 <= k < n ==> Enabled(ss[k], ps[k].i)
  {
    if n == 0 then [] else
      assert Enabled(ss[n - 1], ps[n - 1].i);
      if ps[n - 1].i != i then Runs(ss, ps, n - 1, i)
      else if ss[n - 1].threads[i].pc.Ready? then []
      else Runs(ss, ps, n - 1, i) + RanAt(ss[n - 1].threads[i], ps[n - 1].c)
  }

  /** The live object that thread i was given when its current call began. */
  function Offer(ss: seq<State>, ps: seq<Pick>, n: nat, i: nat): Option<TypeObj>
    requires n <= |ps| < |ss|
    requires forall k :: 0 <= k < n ==> Enabled(ss[k], ps[k].i)
  {
    if n == 0 then None else
      assert Enabled(ss[n - 1], ps[n - 1].i);
      if ps[n - 1].i != i || !ss[n - 1].threads[i].pc.Ready? then Offer(ss, ps, n - 1, i)
      else Offered(ss[n - 1], ps[n - 1].c)
  }

  function Offered(s: State, c: Choice): Option<TypeObj> {
    if c.pick.Some? && c.pick.value in s.live then c.pick else None
  }

  // ---------- what the machine's tables say about it ----------

  /** The types that a log found, in order. */
  function Founds(log: seq<Event>): seq<TypeObj> {
    if log == [] then [] else
      Founds(log[..|log| - 1]) +
      match log[|log| - 1]
      case EFind(_, Some(t)) => [t]
      case _ => []
  }

  predicate Misses(log: seq<Event>) {
    log != [] && (Misses(log[..|log| - 1]) || (log[|log| - 1].EFind? && log[|log| - 1].found.None?))
  }

  function Attempts(log: seq<Event>): nat {
    |Founds(log)| + if Misses(log) then 1 else 0
  }

  /** Whose code runs after lookup j. */
  function UserOf(call: Call, hs: seq<TypeObj>, j: nat): TypeObj
    requires j < |hs|
  {
    if j > 0 && (call.WriterCreate? || (call.FileCreate? && j == 2)) then hs[j - 1] else hs[j]
  }

  /** The code run by a call whose first k lookups and their uses succeeded. */
  function Used(call: Call, hs: seq<TypeObj>, k: nat): seq<Ran>
    requires k <= |hs|
  {
    if k == 0 then if call.FileCreate? then [Ran(None, true)] else []
    else Used(call, hs, k - 1) + if UsesAfter(call, k - 1) then [Ran(Some(UserOf(call, hs, k - 1)), true)] else []
  }

  /** The code run by a call that missed a lookup, or whose last lookup's type code returned `ok`. */
  function EndRuns(call: Call, ok: bool, log: seq<Event>): seq<Ran>
    requires Attempts(log) > 0
  {
    var hs := Founds(log);
    if Misses(log) then Used(call, hs, |hs|)
    else Used(call, hs, |hs| - 1) + [Ran(Some(UserOf(call, hs, |hs| - 1)), ok)]
  }

  /** Closing the header of a file. */
  function FreeRun(call: Call, log: seq<Event>): seq<Ran> {
    if call.FileCreate? && Attempts(log) > 1 then [Ran(Some(Founds(log)[0]), true)] else []
  }

  predicate UnwindRuns(call: Call, k: nat, out: Outcome, log: seq<Event>, held: seq<TypeObj>, runs: seq<Ran>) {
    && Attempts(log) > 0
    && (k == Attempts(log) - 1 || (call.FileCreate? && k == 0))
    && runs == EndRuns(call, out == Success, log) + (if k == 0 then FreeRun(call, log) else [])
    && (call.FileCreate? ==> HeaderLast(k, log, held))
  }

  /** The header is the last reference that a file gives back. */
  predicate HeaderLast(k: nat, log: seq<Event>, held: seq<TypeObj>) {
    && (k > 0 ==> held != [])
    && (held != [] ==> Founds(log) != [] && held[0] == Founds(log)[0] && held[0].HeaderType?)
  }

  predicate LeaveRuns(call: Call, out: Outcome, log: seq<Event>, runs: seq<Ran>) {
    if !Acquires(call) || !ArgsOk(call) then runs == []
    else if log == [] then runs == [Ran(None, false)]
    else if out == Success && !Transient(call) then runs == Used(call, Founds(log), |Founds(log)|)
    else Attempts(log) > 0 && runs == EndRuns(call, out == Success, log) + FreeRun(call, log)
  }

  predicate ReleaseOk(th: Thread, runs: seq<Ran>, pick: Option<TypeObj>) {
    match th.pc
    case Destroy(t) => runs == [] && pick == Some(t)
    case Unwind(_, _) =>
      && pick.Some? && runs == [Ran(pick, true)]
      && (th.held != [] ==> th.held == [pick.value])
      && (th.held == [] ==> th.log == [EDrop(pick.value)])
    case Leave(_) =>
      if pick.Some? then th.log == [EDrop(pick.value)] && runs == [Ran(pick, true)] else th.log == [] && runs == []
    case _ => true
  }

  predicate RunsOk(th: Thread, runs: seq<Ran>, pick: Option<TypeObj>) {
    Busy(th) ==>
      var call := th.todo[0];
      if call.Release? then ReleaseOk(th, runs, pick)
      else
        match th.pc
        case Ready => true
        case Acquiring(k, _, _) => k <= |th.held| && runs == Used(call, th.held, k)
        case Use(k) => k < |th.held| && runs == Used(call, th.held, k)
        case Unwind(k, out) => UnwindRuns(call, k, out, th.log, th.held, runs)
        case Leave(out) => LeaveRuns(call, out, th.log, runs)
        case _ => runs == []
  }

  /** Everything found belongs to the registry searched. */
  ghost predicate Typed(log: seq<Event>) {
    forall k :: 0 <= k < |log| && log[k].EFind? && log[k].found.Some? ==>
      RegOf(log[k].found.value) == Registry(log[k].want)
  }

  lemma {:induction false} FoundsAppend(x: seq<Event>, y: seq<Event>)
    ensures Founds(x + y) == Founds(x) + Founds(y)
    ensures Misses(x + y) <==> Misses(x) || Misses(y)
  {
    if y == [] {
      assert x + y == x;
    } else {
      var n := |y| - 1;
      assert (x + y)[..|x + y| - 1] == x + y[..n];
      FoundsAppend(x, y[..n]);
    }
  }

  lemma FoundsOne(e: Event)
    ensures Founds([e]) == match e case EFind(_, Some(t)) => [t] case _ => []
    ensures Misses([e]) <==> e.EFind? && e.found.None?
  {
    assert [e][..0] == [];
  }

  lemma {:induction false} FoundsFinds(ws: seq<Want>, hs: seq<TypeObj>)
    requires |hs| <= |ws|
    ensures Founds(Finds(ws, hs)) == hs && !Misses(Finds(ws, hs))
  {
    if hs != [] {
      var n := |hs| - 1;
      FoundsFinds(ws, hs[..n]);
      FoundsOne(EFind(ws[n], Some(hs[n])));
      FoundsAppend(Finds(ws, hs[..n]), [EFind(ws[n], Some(hs[n]))]);
    }
  }

  lemma {:induction false} FoundsRollback(hs: seq<TypeObj>)
    ensures Founds(Rollback(hs)) == [] && !Misses(Rollback(hs))
    decreases |hs|
  {
    if hs != [] {
      var d := NextDrop(hs);
      FoundsRollback(Cut(hs, d));
      FoundsOne(EDrop(hs[d]));
      FoundsAppend([EDrop(hs[d])], Rollback(Cut(hs, d)));
    }
  }

  lemma {:induction false} UsedPrefix(call: Call, hs: seq<TypeObj>, t: TypeObj, k: nat)
    requires k <= |hs|
    ensures Used(call, hs + [t], k) == Used(call, hs, k)
  {
    if k > 0 {
      UsedPrefix(call, hs, t, k - 1);
    }
  }

  lemma HeaderFirst(call: Call, log: seq<Event>, held: seq<TypeObj>)
    requires call.FileCreate? && held != [] && |held| <= |Plan(call)|
    requires log == Finds(Plan(call), held) && Typed(log)
    ensures held[0].HeaderType?
  {
    FindsAt(Plan(call), held, 0);
    assert log[0].found == Some(held[0]);
  }

  // ---------- every step keeps it ----------

  lemma RunsStep(s: State, th: Thread, c: Choice, runs: seq<Ran>, pick: Option<TypeObj>)
    requires Busy(th) && ThreadOk(th) && RunsOk(th, runs, pick) && Typed(th.log)
    ensures RunsOk(Code(s, th, c).th, RunsNext(th, c, runs), PickNext(s, th, c, pick))
  {
    if th.todo[0].Release? {
      ReleaseStep(s, th, c, runs, pick);
    } else if th.pc.Use? || th.pc.Unwind? || th.pc.FileNew? {
      LoudStep(s, th, c, runs, pick);
    } else {
      QuietStep(s, th, c, runs, pick);
    }
  }

  function RunsNext(th: Thread, c: Choice, runs: seq<Ran>): seq<Ran> {
    if th.pc.Ready? then [] else runs + RanAt(th, c)
  }

  function PickNext(s: State, th: Thread, c: Choice, pick: Option<TypeObj>): Option<TypeObj> {
    if th.pc.Ready? then Offered(s, c) else pick
  }

  /** Steps that run no code outside the lock. */
  lemma QuietStep(s: State, th: Thread, c: Choice, runs: seq<Ran>, pick: Option<TypeObj>)
    requires Busy(th) && ThreadOk(th) && RunsOk(th, runs, pick) && Typed(th.log) && !th.todo[0].Release?
    requires !th.pc.Use? && !th.pc.Unwind? && !th.pc.FileNew?
    ensures RunsOk(Code(s, th, c).th, RunsNext(th, c, runs), PickNext(s, th, c, pick))
  {
    assert runs + [] == runs;
    match th.pc
    case Ready => RunsBegin(s, th, c);
    case Registering(_, _) => RunsRegister(s, th, c, runs, pick);
    case Unregistering(_, _) => RunsUnregister(s, th, c, runs, pick);
    case Acquiring(_, _, _) => RunsAcquire(s, th, runs, pick);
    case Leave(_) =>
  }

  lemma LoudStep(s: State, th: Thread, c: Choice, runs: seq<Ran>, pick: Option<TypeObj>)
    requires Busy(th) && ThreadOk(th) && RunsOk(th, runs, pick) && Typed(th.log) && !th.todo[0].Release?
    requires th.pc.Use? || th.pc.Unwind? || th.pc.FileNew?
    ensures RunsOk(Code(s, th, c).th, RunsNext(th, c, runs), PickNext(s, th, c, pick))
  {
    match th.pc
    case Use(_) => RunsUse(s, th, c, runs, pick);
    case Unwind(_, _) => RunsUnwind(s, th, c, runs, pick);
    case FileNew => RunsNew(s, th, c, runs, pick);
    case _ =>
  }

  lemma RunsNew(s: State, th: Thread, c: Choice, runs: seq<Ran>, pick: Option<TypeObj>)
    requires Busy(th) && ThreadOk(th) && th.pc.FileNew? && !th.todo[0].Release? && RunsOk(th, runs, pick)
    ensures RunsOk(Code(s, th, c).th, runs + RanAt(th, c), pick)
  {
  }

  lemma ReleaseStep(s: State, th: Thread, c: Choice, runs: seq<Ran>, pick: Option<TypeObj>)
    requires Busy(th) && ThreadOk(th) && th.todo[0].Release? && ReleaseOk(th, runs, pick)
    ensures RunsOk(Code(s, th, c).th, RunsNext(th, c, runs), PickNext(s, th, c, pick))
  {
    assert runs + [] == runs;
  }

  lemma RunsBegin(s: State, th: Thread, c: Choice)
    requires Busy(th) && th.pc == Ready && Fresh(th) && !th.todo[0].Release?
    ensures RunsOk(Begin(s, th, c).th, [], Offered(s, c))
  {
  }

  lemma RunsRegister(s: State, th: Thread, c: Choice, runs: seq<Ran>, pick: Option<TypeObj>)
    requires Busy(th) && ThreadOk(th) && th.pc.Registering? && RunsOk(th, runs, pick)
    ensures RunsOk(RegisterCode(s, th).th, runs + RanAt(th, c), pick)
  {
    assert runs == [] && RanAt(th, c) == [];
  }

  lemma RunsUnregister(s: State, th: Thread, c: Choice, runs: seq<Ran>, pick: Option<TypeObj>)
    requires Busy(th) && ThreadOk(th) && th.pc.Unregistering? && RunsOk(th, runs, pick)
    ensures RunsOk(UnregisterCode(s, th).th, runs + RanAt(th, c), pick)
  {
    assert runs == [] && RanAt(th, c) == [];
  }

  lemma RunsAcquire(s: State, th: Thread, runs: seq<Ran>, pick: Option<TypeObj>)
    requires Busy(th) && ThreadOk(th) && th.pc.Acquiring? && !th.todo[0].Release? && Typed(th.log)
    requires RunsOk(th, runs, pick)
    ensures RunsOk(AcquireCode(s, th).th, runs, pick)
  {
    match th.pc.a
    case AInc(t) => UsedPrefix(th.todo[0], th.held, t, th.pc.k);
    case AUnlock(found) =>
      if found {
        RunsFound(s, th, runs, pick);
      } else {
        RunsMissed(s, th, runs, pick);
      }
    case _ =>
  }

  lemma RunsFound(s: State, th: Thread, runs: seq<Ran>, pick: Option<TypeObj>)
    requires Busy(th) && ThreadOk(th) && th.pc.Acquiring? && th.pc.a == AUnlock(true) && !th.todo[0].Release?
    requires RunsOk(th, runs, pick)
    ensures RunsOk(AcquireCode(s, th).th, runs, pick)
  {
    if !UsesAfter(th.todo[0], th.pc.k) {
      RunsOnward(th, th.pc.k, runs, pick);
    }
  }

  /** Lookup k and its use have succeeded. */
  lemma RunsOnward(th: Thread, k: nat, runs: seq<Ran>, pick: Option<TypeObj>)
    requires Busy(th) && !th.todo[0].Release? && ArgsOk(th.todo[0]) && k < |Plan(th.todo[0])| && Forward(th, k + 1)
    requires runs == Used(th.todo[0], th.held, k + 1) && !Transient(th.todo[0])
    ensures RunsOk(th.(pc := Onward(th.todo[0], k)), runs, pick)
  {
    FoundsFinds(Plan(th.todo[0]), th.held);
  }

  lemma RunsMissed(s: State, th: Thread, runs: seq<Ran>, pick: Option<TypeObj>)
    requires Busy(th) && ThreadOk(th) && th.pc.Acquiring? && th.pc.a == AUnlock(false) && !th.todo[0].Release?
    requires RunsOk(th, runs, pick) && Typed(th.log)
    ensures RunsOk(AcquireCode(s, th).th, runs, pick)
  {
    var call, k := th.todo[0], th.pc.k;
    MissRuns(call, k, MissOutcome(call, k), th.held, runs, th.log);
  }

  lemma MissRuns(call: Call, k: nat, out: Outcome, held: seq<TypeObj>, runs: seq<Ran>, log: seq<Event>)
    requires k < |Plan(call)| && |held| == k && runs == Used(call, held, k) && Typed(log)
    requires log == Finds(Plan(call), held) + [EFind(Plan(call)[k], None)]
    ensures UnwindRuns(call, k, out, log, held, runs)
  {
    var finds, miss := Finds(Plan(call), held), EFind(Plan(call)[k], None);
    FoundsFinds(Plan(call), held);
    FoundsOne(miss);
    FoundsAppend(finds, [miss]);
    if call.FileCreate? && held != [] {
      assert forall j :: 0 <= j < |finds| ==> finds[j] == log[j];
      HeaderFirst(call, finds, held);
    }
    StartUnwind(call, k, out, log, held, runs);
  }

  /** The cleanup begins, with everything found still held. */
  lemma StartUnwind(call: Call, k: nat, out: Outcome, log: seq<Event>, held: seq<TypeObj>, runs: seq<Ran>)
    requires Founds(log) == held && Attempts(log) == k + 1 && runs == EndRuns(call, out == Success, log)
    requires call.FileCreate? && held != [] ==> held[0].HeaderType?
    ensures UnwindRuns(call, k, out, log, held, runs)
  {
    assert runs + [] == runs;
  }

  lemma RunsUse(s: State, th: Thread, c: Choice, runs: seq<Ran>, pick: Option<TypeObj>)
    requires Busy(th) && ThreadOk(th) && th.pc.Use? && !th.todo[0].Release? && Typed(th.log)
    requires RunsOk(th, runs, pick)
    ensures RunsOk(Code(s, th, c).th, runs + RanAt(th, c), pick)
  {
    var call, k := th.todo[0], th.pc.k;
    UsingIsUser(th);
    var runs' := runs + [Ran(Some(UserOf(call, th.held, k)), c.success)];
    assert RanAt(th, c) == [Ran(Some(UserOf(call, th.held, k)), c.success)];
    if Transient(call) || !c.success {
      UseRuns(call, k, c.success, if c.success then Success else Failed, th.held, runs', th.log);
    } else {
      RunsOnward(th, k, runs', pick);
    }
  }

  lemma UseRuns(call: Call, k: nat, ok: bool, out: Outcome, held: seq<TypeObj>, runs: seq<Ran>, log: seq<Event>)
    requires k < |Plan(call)| && |held| == k + 1 && log == Finds(Plan(call), held) && Typed(log)
    requires runs == Used(call, held, k) + [Ran(Some(UserOf(call, held, k)), ok)] && (out == Success <==> ok)
    ensures UnwindRuns(call, k, out, log, held, runs)
  {
    FoundsFinds(Plan(call), held);
    if call.FileCreate? {
      HeaderFirst(call, log, held);
    }
    StartUnwind(call, k, out, log, held, runs);
  }

  lemma UsingIsUser(th: Thread)
    requires Busy(th) && ThreadOk(th) && th.pc.Use?
    ensures |th.held| == th.pc.k + 1 && Using(th) == Some(UserOf(th.todo[0], th.held, th.pc.k))
  {
  }

  lemma RunsUnwind(s: State, th: Thread, c: Choice, runs: seq<Ran>, pick: Option<TypeObj>)
    requires Busy(th) && ThreadOk(th) && th.pc.Unwind? && !th.todo[0].Release?
    requires RunsOk(th, runs, pick)
    ensures RunsOk(Code(s, th, c).th, runs + RanAt(th, c), pick)
  {
    var call, k, out := th.todo[0], th.pc.k, th.pc.out;
    if th.held == [] {
      LastRuns(call, k, out, th.log, runs);
    } else if call.FileCreate? && k > 0 && |th.held| == 1 {
      FreeRuns(call, k, out, th.log, th.held, runs);
    } else {
      DropRuns(call, k, out, th.log, th.held, runs);
      assert runs + [] == runs;
    }
  }

  lemma LastRuns(call: Call, k: nat, out: Outcome, log: seq<Event>, runs: seq<Ran>)
    requires Acquires(call) && ArgsOk(call) && UnwindRuns(call, k, out, log, [], runs)
    requires out == Success ==> Transient(call)
    ensures LeaveRuns(call, out, log, runs + [])
  {
    assert runs + [] == runs;
    assert log != [];
    if call.FileCreate? {
      assert k == 0;
    } else {
      assert FreeRun(call, log) == [];
    }
  }

  lemma FreeRuns(call: Call, k: nat, out: Outcome, log: seq<Event>, held: seq<TypeObj>, runs: seq<Ran>)
    requires UnwindRuns(call, k, out, log, held, runs) && call.FileCreate? && k > 0 && |held| == 1
    ensures UnwindRuns(call, 0, out, log, held, runs + [Ran(Some(held[0]), true)])
  {
  }

  lemma DropRuns(call: Call, k: nat, out: Outcome, log: seq<Event>, held: seq<TypeObj>, runs: seq<Ran>)
    requires UnwindRuns(call, k, out, log, held, runs) && held != []
    requires !(call.FileCreate? && k > 0 && |held| == 1)
    ensures var d := NextDrop(held); UnwindRuns(call, k, out, log + [EDrop(held[d])], Cut(held, d), runs)
  {
    var d := NextDrop(held);
    FoundsOne(EDrop(held[d]));
    FoundsAppend(log, [EDrop(held[d])]);
    assert Founds(log + [EDrop(held[d])]) == Founds(log);
  }

  // ---------- finished calls ----------

  lemma Finds1(ws: seq<Want>, a: TypeObj)
    requires |ws| >= 1
    ensures Finds(ws, [a]) == [EFind(ws[0], Some(a))]
  {
    assert [a][..0] == [];
  }

  lemma Finds2(ws: seq<Want>, a: TypeObj, b: TypeObj)
    requires |ws| >= 2
    ensures Finds(ws, [a, b]) == [EFind(ws[0], Some(a)), EFind(ws[1], Some(b))]
  {
    assert [a, b][..1] == [a];
    Finds1(ws, a);
  }

  lemma Finds3(ws: seq<Want>, a: TypeObj, b: TypeObj, c: TypeObj)
    requires |ws| >= 3
    ensures Finds(ws, [a, b, c]) == [EFind(ws[0], Some(a)), EFind(ws[1], Some(b)), EFind(ws[2], Some(c))]
  {
    assert [a, b, c][..2] == [a, b];
    Finds2(ws, a, b);
  }

  lemma Rollback1(a: TypeObj)
    ensures Rollback([a]) == [EDrop(a)]
  {
    assert Cut([a], 0) == [];
  }

  /** The first drop is the writer's, or the only one that is not the header's. */
  lemma Rollback2(a: TypeObj, b: TypeObj)
    ensures Rollback([a, b]) == if a.HeaderType? then [EDrop(b), EDrop(a)] else [EDrop(a), EDrop(b)]
  {
    assert Cut([a, b], 0) == [b] && Cut([a, b], 1) == [a];
    Rollback1(a);
    Rollback1(b);
  }

  lemma Rollback3(a: TypeObj, b: TypeObj, c: TypeObj)
    requires a.HeaderType?
    ensures Rollback([a, b, c]) == [EDrop(b), EDrop(c), EDrop(a)]
  {
    assert Cut([a, b, c], 1) == [a, c];
    Rollback2(a, c);
  }

  /** Explained by a failure: the found types, and whether a lookup was missed, are those of the log. */
  lemma FailFounds(ws: seq<Want>, hs: seq<TypeObj>, missed: bool)
    requires |hs| <= |ws| && (missed ==> |hs| < |ws|)
    ensures Founds(FailLog(ws, hs, missed)) == hs && (Misses(FailLog(ws, hs, missed)) <==> missed)
  {
    var miss := if missed then [EFind(ws[|hs|], None)] else [];
    FoundsFinds(ws, hs);
    FoundsRollback(hs);
    if missed {
      FoundsOne(EFind(ws[|hs|], None));
    }
    FoundsAppend(Finds(ws, hs), miss);
    FoundsAppend(Finds(ws, hs) + miss, Rollback(hs));
  }

  /** The report of a finished call follows from what explains it and the code it ran. */
  lemma Report(call: Call, out: Outcome, log: seq<Event>, runs: seq<Ran>)
    requires !call.Release? && Explained(call, out, log) && LeaveRuns(call, out, log, runs) && Typed(log)
    ensures Reported(call, out, log, runs, None)
  {
    match call
    case Register(_) =>
    case Unregister(_) =>
    case WriterCreate(_, _) => ReportWriter(call, out, log, runs);
    case FileCreate(_) => ReportFile(call, out, log, runs);
    case _ => ReportSingle(call, out, log, runs);
  }

  lemma ReportSingle(call: Call, out: Outcome, log: seq<Event>, runs: seq<Ran>)
    requires Acquires(call) && |Plan(call)| == 1 && !call.FileCreate? && !call.WriterCreate?
    requires Explained(call, out, log) && LeaveRuns(call, out, log, runs)
    ensures Reported(call, out, log, runs, None)
  {
    if ArgsOk(call) {
      if out == Success && !Transient(call) {
        var hs :| SuccessFits(call, out, log, hs);
        assert hs == [hs[0]];
        SingleKept(call, hs[0], log, runs);
      } else {
        var hs, missed :| FailFits(call, out, log, hs, missed);
        SingleFailed(call, out, hs, missed, log, runs);
      }
    }
  }

  lemma SingleFailed(call: Call, out: Outcome, hs: seq<TypeObj>, missed: bool, log: seq<Event>, runs: seq<Ran>)
    requires |Plan(call)| == 1 && !call.FileCreate? && !call.WriterCreate? && ArgsOk(call)
    requires FailFits(call, out, log, hs, missed) && LeaveRuns(call, out, log, runs)
    requires out == Success ==> Transient(call)
    ensures Reported(call, out, log, runs, None)
  {
    if hs == [] {
      SingleMissed(call, out, log, runs);
    } else {
      assert hs == [hs[0]];
      SingleDropped(call, out, hs[0], log, runs);
    }
  }

  lemma SingleKept(call: Call, h: TypeObj, log: seq<Event>, runs: seq<Ran>)
    requires |Plan(call)| == 1 && !call.FileCreate? && ArgsOk(call) && !Transient(call)
    requires log == Finds(Plan(call), [h]) && runs == Used(call, Founds(log), |Founds(log)|)
    ensures Reported(call, Success, log, runs, None)
  {
    Finds1(Plan(call), h);
    FoundsFinds(Plan(call), [h]);
    assert Used(call, [h], 1) == Used(call, [h], 0) + if UsesAfter(call, 0) then [Ran(Some(h), true)] else [];
  }

  lemma SingleMissed(call: Call, out: Outcome, log: seq<Event>, runs: seq<Ran>)
    requires |Plan(call)| == 1 && !call.FileCreate? && ArgsOk(call) && out == MissOutcome(call, 0)
    requires log == FailLog(Plan(call), [], true) && LeaveRuns(call, out, log, runs) && out != Success
    ensures Reported(call, out, log, runs, None)
  {
    FailFounds(Plan(call), [], true);
    assert log == [EFind(Plan(call)[0], None)];
    assert runs == [];
  }

  lemma SingleDropped(call: Call, out: Outcome, h: TypeObj, log: seq<Event>, runs: seq<Ran>)
    requires |Plan(call)| == 1 && !call.FileCreate? && ArgsOk(call) && UsesAfter(call, 0)
    requires out == Failed || (out == Success && Transient(call))
    requires log == FailLog(Plan(call), [h], false) && LeaveRuns(call, out, log, runs)
    ensures Reported(call, out, log, runs, None)
  {
    FailFounds(Plan(call), [h], false);
    Finds1(Plan(call), h);
    Rollback1(h);
    assert log == [EFind(Plan(call)[0], Some(h)), EDrop(h)];
    assert runs == [Ran(Some(h), out == Success)];
  }

  lemma ReportWriter(call: Call, out: Outcome, log: seq<Event>, runs: seq<Ran>)
    requires call.WriterCreate? && Typed(log)
    requires Explained(call, out, log) && LeaveRuns(call, out, log, runs)
    ensures WriterReport(call.version, call.cipher, out, log, runs)
  {
    if out == Success {
      var hs :| SuccessFits(call, out, log, hs);
      assert hs == [hs[0], hs[1]];
      WriterKept(call, hs[0], hs[1], log, runs);
    } else {
      var hs, missed :| FailFits(call, out, log, hs, missed);
      WriterUndone(call, out, hs, missed, log, runs);
    }
  }

  lemma WriterUndone(call: Call, out: Outcome, hs: seq<TypeObj>, missed: bool, log: seq<Event>, runs: seq<Ran>)
    requires call.WriterCreate? && out != Success && Typed(log)
    requires FailFits(call, out, log, hs, missed) && LeaveRuns(call, out, log, runs)
    ensures WriterReport(call.version, call.cipher, out, log, runs)
  {
    if hs == [] {
      FailFounds(Plan(call), [], true);
      assert log == [EFind(WantWriter(call.version), None)] && runs == [];
    } else if missed {
      assert hs == [hs[0]];
      CipherMissed(call, hs[0], log, runs);
    } else {
      assert hs == [hs[0], hs[1]];
      WriterFailed(call, hs[0], hs[1], log, runs);
    }
  }

  lemma UsedWriter(call: Call, w: TypeObj, hs: seq<TypeObj>)
    requires call.WriterCreate? && hs != [] && hs[0] == w
    ensures Used(call, hs, 1) == []
    ensures |hs| == 2 ==> Used(call, hs, 2) == [Ran(Some(w), true)]
  {
    assert Used(call, hs, 0) == [];
  }

  lemma WriterKept(call: Call, w: TypeObj, c: TypeObj, log: seq<Event>, runs: seq<Ran>)
    requires call.WriterCreate? && log == Finds(Plan(call), [w, c]) && runs == Used(call, Founds(log), |Founds(log)|)
    ensures WriterReport(call.version, call.cipher, Success, log, runs)
  {
    Finds2(Plan(call), w, c);
    FoundsFinds(Plan(call), [w, c]);
    UsedWriter(call, w, [w, c]);
  }

  lemma CipherMissed(call: Call, w: TypeObj, log: seq<Event>, runs: seq<Ran>)
    requires call.WriterCreate? && log == FailLog(Plan(call), [w], true) && LeaveRuns(call, Failed, log, runs)
    ensures WriterReport(call.version, call.cipher, Failed, log, runs)
  {
    FailFounds(Plan(call), [w], true);
    Finds1(Plan(call), w);
    Rollback1(w);
    UsedWriter(call, w, [w]);
    assert log == [EFind(WantWriter(call.version), Some(w)), EFind(WantAlgo(Cipher, call.cipher), None), EDrop(w)];
  }

  lemma WriterFailed(call: Call, w: TypeObj, c: TypeObj, log: seq<Event>, runs: seq<Ran>)
    requires call.WriterCreate? && log == FailLog(Plan(call), [w, c], false) && LeaveRuns(call, Failed, log, runs)
    requires Typed(log)
    ensures WriterReport(call.version, call.cipher, Failed, log, runs)
  {
    FailFounds(Plan(call), [w, c], false);
    Finds2(Plan(call), w, c);
    Rollback2(w, c);
    UsedWriter(call, w, [w, c]);
    assert log[0] == EFind(WantWriter(call.version), Some(w));
    assert log == [log[0], EFind(WantAlgo(Cipher, call.cipher), Some(c)), EDrop(w), EDrop(c)];
    assert runs == [Ran(Some(w), false)];
  }

  lemma ReportFile(call: Call, out: Outcome, log: seq<Event>, runs: seq<Ran>)
    requires call.FileCreate? && Typed(log)
    requires Explained(call, out, log) && LeaveRuns(call, out, log, runs)
    ensures FileReport(call.cipher, out, log, runs)
  {
    if out == Success {
      var hs :| SuccessFits(call, out, log, hs);
      assert hs == [hs[0], hs[1], hs[2]];
      FileKept(call, hs[0], hs[1], hs[2], log, runs);
    } else {
      var hs, missed :| FailFits(call, out, log, hs, missed);
      FailFounds(Plan(call), hs, missed);
      if hs == [] {
        NoHeader(call, missed, out, log, runs);
      } else {
        FailedFile(call, hs, missed, out, log, runs);
      }
    }
  }

  /** The code run by a file creation up to each lookup. */
  lemma UsedFile(call: Call, hs: seq<TypeObj>)
    requires call.FileCreate?
    ensures Used(call, hs, 0) == [Ran(None, true)]
    ensures |hs| >= 1 ==> Used(call, hs, 1) == [Ran(None, true), Ran(Some(hs[0]), true)]
    ensures |hs| >= 2 ==> Used(call, hs, 2) == [Ran(None, true), Ran(Some(hs[0]), true)]
    ensures |hs| >= 3 ==> Used(call, hs, 3) == [Ran(None, true), Ran(Some(hs[0]), true), Ran(Some(hs[1]), true)]
  {
    assert |hs| >= 1 ==> Used(call, hs, 1) == Used(call, hs, 0) + [Ran(Some(hs[0]), true)];
    assert |hs| >= 2 ==> Used(call, hs, 2) == Used(call, hs, 1) + [];
    assert |hs| >= 3 ==> Used(call, hs, 3) == Used(call, hs, 2) + [Ran(Some(hs[1]), true)];
  }

  lemma FileKept(call: Call, h: TypeObj, w: TypeObj, c: TypeObj, log: seq<Event>, runs: seq<Ran>)
    requires call.FileCreate? && log == Finds(Plan(call), [h, w, c])
    requires runs == Used(call, Founds(log), |Founds(log)|)
    ensures FileReport(call.cipher, Success, log, runs)
  {
    Finds3(Plan(call), h, w, c);
    FoundsFinds(Plan(call), [h, w, c]);
    UsedFile(call, [h, w, c]);
    assert runs[2..] == [Ran(Some(w), true)];
    assert log[1..] == [EFind(WantWriter(-1), Some(w)), EFind(WantAlgo(Cipher, call.cipher), Some(c))];
  }

  lemma NoHeader(call: Call, missed: bool, out: Outcome, log: seq<Event>, runs: seq<Ran>)
    requires call.FileCreate? && FailFits(call, out, log, [], missed) && LeaveRuns(call, out, log, runs)
    requires Founds(log) == [] && (Misses(log) <==> missed)
    ensures FileReport(call.cipher, out, log, runs)
  {
    if missed {
      UsedFile(call, []);
      assert log == [EFind(WantHeader(-1), None)];
      assert runs == [Ran(None, true)];
    } else {
      assert log == [];
    }
  }

  lemma FailedFile(call: Call, hs: seq<TypeObj>, missed: bool, out: Outcome, log: seq<Event>, runs: seq<Ran>)
    requires call.FileCreate? && hs != [] && FailFits(call, out, log, hs, missed) && LeaveRuns(call, out, log, runs)
    requires Founds(log) == hs && (Misses(log) <==> missed) && Typed(log)
    ensures FileReport(call.cipher, out, log, runs)
  {
    UsedFile(call, hs);
    FindsAt(Plan(call), hs, 0);
    assert log[0] == EFind(WantHeader(-1), Some(hs[0]));
    if |hs| == 1 {
      assert hs == [hs[0]];
      FailedEarly(call, hs[0], missed, out, log, runs);
    } else {
      FailedLate(call, hs, missed, out, log, runs);
    }
  }

  lemma FailedEarly(call: Call, h: TypeObj, missed: bool, out: Outcome, log: seq<Event>, runs: seq<Ran>)
    requires call.FileCreate? && FailFits(call, out, log, [h], missed) && LeaveRuns(call, out, log, runs)
    requires Founds(log) == [h] && (Misses(log) <==> missed)
    ensures FileReport(call.cipher, out, log, runs)
  {
    UsedFile(call, [h]);
    Finds1(Plan(call), h);
    Rollback1(h);
    FileWithHeader(call, h, missed, out, log, runs);
  }

  lemma FailedLate(call: Call, hs: seq<TypeObj>, missed: bool, out: Outcome, log: seq<Event>, runs: seq<Ran>)
    requires call.FileCreate? && |hs| >= 2 && FailFits(call, out, log, hs, missed) && LeaveRuns(call, out, log, runs)
    requires Founds(log) == hs && (Misses(log) <==> missed) && hs[0].HeaderType?
    ensures FileReport(call.cipher, out, log, runs)
  {
    UsedFile(call, hs);
    if |hs| == 2 {
      assert hs == [hs[0], hs[1]];
      Finds2(Plan(call), hs[0], hs[1]);
      Rollback2(hs[0], hs[1]);
      FileWithWriter(call, hs[0], hs[1], out, log, runs);
    } else {
      assert hs == [hs[0], hs[1], hs[2]];
      Finds3(Plan(call), hs[0], hs[1], hs[2]);
      Rollback3(hs[0], hs[1], hs[2]);
      FileWithCipher(call, hs[0], hs[1], hs[2], out, log, runs);
    }
  }

  lemma FileWithHeader(call: Call, h: TypeObj, missed: bool, out: Outcome, log: seq<Event>, runs: seq<Ran>)
    requires out == if missed then Refused(ENOSYS) else Failed
    requires log ==
             [EFind(WantHeader(-1), Some(h))] + (if missed then [EFind(WantWriter(-1), None)] else []) + [EDrop(h)]
    requires runs == [Ran(None, true), Ran(Some(h), missed)] + if missed then [Ran(Some(h), true)] else []
    requires call.FileCreate?
    ensures FileReport(call.cipher, out, log, runs)
  {
    if missed {
      assert log[1..|log| - 1] == [EFind(WantWriter(-1), None)];
      assert runs[2..|runs| - 1] == [];
    }
  }

  lemma FileWithWriter(call: Call, h: TypeObj, w: TypeObj, out: Outcome, log: seq<Event>, runs: seq<Ran>)
    requires call.FileCreate? && out == Failed
    requires log == [EFind(WantHeader(-1), Some(h)), EFind(WantWriter(-1), Some(w)),
                     EFind(WantAlgo(Cipher, call.cipher), None), EDrop(w), EDrop(h)]
    requires runs == [Ran(None, true), Ran(Some(h), true), Ran(Some(h), true)]
    ensures FileReport(call.cipher, out, log, runs)
  {
    assert log[1..|log| - 1] == [EFind(WantWriter(-1), Some(w)), EFind(WantAlgo(Cipher, call.cipher), None), EDrop(w)];
    assert runs[2..|runs| - 1] == [];
  }

  lemma FileWithCipher(call: Call, h: TypeObj, w: TypeObj, c: TypeObj, out: Outcome, log: seq<Event>, runs: seq<Ran>)
    requires call.FileCreate? && out == Failed
    requires log == [EFind(WantHeader(-1), Some(h)), EFind(WantWriter(-1), Some(w)),
                     EFind(WantAlgo(Cipher, call.cipher), Some(c)), EDrop(w), EDrop(c), EDrop(h)]
    requires runs == [Ran(None, true), Ran(Some(h), true), Ran(Some(w), false), Ran(Some(h), true)]
    ensures FileReport(call.cipher, out, log, runs)
  {
    assert log[1..|log| - 1] ==
           [EFind(WantWriter(-1), Some(w)), EFind(WantAlgo(Cipher, call.cipher), Some(c)), EDrop(w), EDrop(c)];
    assert runs[2..|runs| - 1] == [Ran(Some(w), false)];
  }

  // ---------- over runs ----------

  /** Call `call` of thread i, begun after `past`, returned at step m; `log` is what it had done. */
  ghost predicate ReturnedAt(ss: seq<State>, ps: seq<Pick>, m: nat, i: nat, past: seq<Return>, r: Return)
    requires IsRun(ss, ps)
  {
    && m < |ps| && ps[m].i == i && i < |ss[m].threads|
    && ss[m].threads[i].past == past && Busy(ss[m].threads[i]) && ss[m].threads[i].todo[0] == r.call
    && ss[m].threads[i].pc == Leave(r.out) && ss[m].threads[i].log == r.log
    && Reported(r.call, r.out, r.log, Runs(ss, ps, m, i), Offer(ss, ps, m, i))
  }

  lemma LogTyped(ss: seq<State>, ps: seq<Pick>, n: nat, i: nat)
    requires IsRun(ss, ps) && n <= |ps| && i < |ss[0].threads|
    ensures |ss[n].threads| == |ss[0].threads| && Typed(ss[n].threads[i].log)
  {
    ProgramOrder(ss, ps, n, i);
    var th := ss[n].threads[i];
    forall k | 0 <= k < |th.log| && th.log[k].EFind? && th.log[k].found.Some?
      ensures RegOf(th.log[k].found.value) == Registry(th.log[k].want)
    {
      assert th.log[k] in Logs(th.past) + th.log;
      TraceOfIn(ss, ps, n, i, th.log[k]);
      TraceFits(ss, ps, n, th.log[k].want, th.log[k].found.value);
    }
  }

  lemma {:induction false} RunRuns(ss: seq<State>, ps: seq<Pick>, n: nat, i: nat)
    requires IsRun(ss, ps) && n <= |ps| && i < |ss[0].threads|
    ensures |ss[n].threads| == |ss[0].threads|
    ensures RunsOk(ss[n].threads[i], Runs(ss, ps, n, i), Offer(ss, ps, n, i))
  {
    if n > 0 {
      RunRuns(ss, ps, n - 1, i);
      LogTyped(ss, ps, n - 1, i);
      RunWellFormed(ss, ps, n - 1);
      var s, p := ss[n - 1], ps[n - 1];
      assert Enabled(s, p.i) && ss[n].threads == s.threads[p.i := Code(s, s.threads[p.i], p.c).th];
      assert ThreadOk(s.threads[i]);
      if p.i == i {
        RunsStep(s, s.threads[i], p.c, Runs(ss, ps, n - 1, i), Offer(ss, ps, n - 1, i));
        RunsGrow(ss, ps, n - 1);
      }
    }
  }

  lemma RunsGrow(ss: seq<State>, ps: seq<Pick>, n: nat)
    requires IsRun(ss, ps) && n < |ps|
    ensures var s, i := ss[n], ps[n].i;
            && i < |s.threads|
            && Runs(ss, ps, n + 1, i) == RunsNext(s.threads[i], ps[n].c, Runs(ss, ps, n, i))
            && Offer(ss, ps, n + 1, i) == PickNext(s, s.threads[i], ps[n].c, Offer(ss, ps, n, i))
  {
    assert Enabled(ss[n], ps[n].i);
  }

  /** A thread that is leaving a call has done what is reported of it. */
  lemma LeavingReported(ss: seq<State>, ps: seq<Pick>, m: nat, i: nat)
    requires IsRun(ss, ps) && m < |ps| && i < |ss[0].threads| && ps[m].i == i
    ensures |ss[m].threads| == |ss[0].threads|
    ensures ss[m].threads[i].pc.Leave? ==>
              var th := ss[m].threads[i];
              && Busy(th)
              && Reported(th.todo[0], th.pc.out, th.log, Runs(ss, ps, m, i), Offer(ss, ps, m, i))
  {
    RunRuns(ss, ps, m, i);
    LogTyped(ss, ps, m, i);
    RunWellFormed(ss, ps, m);
    var th := ss[m].threads[i];
    assert Enabled(ss[m], i) && ThreadOk(th);
    if th.pc.Leave? && !th.todo[0].Release? {
      Report(th.todo[0], th.pc.out, th.log, Runs(ss, ps, m, i));
    }
  }

  /**
   * Every finished call of every run did what is reported of it: what it found, the code it ran, the
   * references it gave back and what it returned fit each other as in the source.
   */
  lemma {:induction false} CallReported(ss: seq<State>, ps: seq<Pick>, n: nat, i: nat, j: nat) returns (m: nat)
    requires IsRun(ss, ps) && n <= |ps| && i < |ss[0].threads|
    requires i < |ss[n].threads| && j < |ss[n].threads[i].past|
    ensures m < n && ReturnedAt(ss, ps, m, i, ss[n].threads[i].past[..j], ss[n].threads[i].past[j])
    decreases n
  {
    StartPast(ss, ps, i);
    assert n > 0;
    ProgramOrder(ss, ps, n - 1, i);
    var s, p := ss[n - 1], ps[n - 1];
    assert Enabled(s, p.i) && ss[n].threads == s.threads[p.i := Code(s, s.threads[p.i], p.c).th];
    var past, past' := s.threads[i].past, ss[n].threads[i].past;
    PastGrows(s, s.threads[i], p.c);
    if j < |past| {
      m := CallReported(ss, ps, n - 1, i, j);
      assert past'[..j] == past[..j];
    } else {
      m := n - 1;
      LeavingReported(ss, ps, m, i);
      assert past'[..j] == past;
    }
  }

  lemma StartPast(ss: seq<State>, ps: seq<Pick>, i: nat)
    requires IsRun(ss, ps) && i < |ss[0].threads|
    ensures ss[0].threads[i].past == []
  {
    var scripts :| ss[0] == Start(scripts);
  }

  lemma PastGrows(s: State, th: Thread, c: Choice)
    ensures Busy(th) ==>
              Code(s, th, c).th.past ==
              if th.pc.Leave? then th.past + [Return(th.todo[0], th.pc.out, th.log)] else th.past
  {
    if Busy(th) && !th.pc.Leave? {
      LogStep(s, th, c);
    }
  }

  // ---------- what a finished call owns ----------

  predicate IsCipher(t: TypeObj, name: string) {
    t.AlgoType? && t.algo == Cipher && t.name == name
  }

  predicate IsHeader(t: TypeObj, version: int32) {
    t.HeaderType? && (version != -1 ==> (t.v16 - version) % TWO_16 == 0)
  }

  predicate IsWriter(t: TypeObj, version: int32) {
    t.WriterType? && (version != -1 ==> (t.v32 - version) % TWO_32 == 0)
  }

  predicate Fits(w: Want, t: TypeObj) {
    match w
    case WantAlgo(algo, name) => t.AlgoType? && t.algo == algo && t.name == name
    case WantHeader(version) => IsHeader(t, version)
    case WantWriter(version) => IsWriter(t, version)
  }

  /** The references behind what a call returned. */
  predicate Owns(call: Call, out: Outcome, owned: seq<TypeObj>) {
    match call
    case CipherRef(name) => if out == Success then |owned| == 1 && IsCipher(owned[0], name) else owned == []
    case CipherAlloc(name) => if out == Success then |owned| == 1 && IsCipher(owned[0], name) else owned == []
    case HashAlloc(name) =>
      if out == Success then |owned| == 1 && owned[0].AlgoType? && owned[0].algo == Hash && owned[0].name == name
      else owned == []
    case HeaderCreate(version) => if out == Success then |owned| == 1 && IsHeader(owned[0], version) else owned == []
    case WriterCreate(version, cipher) =>
      if out == Success then |owned| == 2 && IsWriter(owned[0], version) && IsCipher(owned[1], cipher) else owned == []
    case FileCreate(cipher) =>
      if out == Success then
        |owned| == 3 && IsHeader(owned[0], -1) && IsWriter(owned[1], -1) && IsCipher(owned[2], cipher)
      else owned == []
    case _ => owned == []
  }

  /** What a finished call found is what it asked for. */
  lemma FoundIsAsked(ss: seq<State>, ps: seq<Pick>, n: nat, i: nat, j: nat, w: Want, t: TypeObj)
    requires IsRun(ss, ps) && n <= |ps| && i < |ss[0].threads|
    requires i < |ss[n].threads| && j < |ss[n].threads[i].past|
    requires EFind(w, Some(t)) in ss[n].threads[i].past[j].log
    ensures Fits(w, t)
  {
    var past := ss[n].threads[i].past;
    FinishedExplained(ss, ps, n, i, j);
    var k :| 0 <= k < n && OccursAt(ss, ps, k, i, past[j].call, past[..j], EFind(w, Some(t)));
    SearchAnswers(ss, ps, k, w, Some(t));
  }

  /**
   * All or nothing, call by call and in every run: what a finished call returned stands for exactly the
   * references it has taken and not given back; a release gives back one, any other call none that it
   * did not take.
   */
  lemma CallBalance(ss: seq<State>, ps: seq<Pick>, n: nat, i: nat, j: nat) returns (owned: seq<TypeObj>)
    requires IsRun(ss, ps) && n <= |ps| && i < |ss[0].threads|
    requires i < |ss[n].threads| && j < |ss[n].threads[i].past|
    ensures var r := ss[n].threads[i].past[j];
            && Owns(r.call, r.out, owned)
            && forall t ::
                 Net(r.log, t) + (if r.call.Release? && r.log == [EDrop(t)] then 1 else 0) == multiset(owned)[t]
  {
    var r := ss[n].threads[i].past[j];
    if Acquires(r.call) {
      owned := CallOwns(ss, ps, n, i, j);
    } else {
      owned := [];
      FinishedExplained(ss, ps, n, i, j);
      forall t
        ensures Net(r.log, t) + (if r.call.Release? && r.log == [EDrop(t)] then 1 else 0) == 0
      {
        NetSingle(r.call, r.out, r.log, t);
      }
    }
  }

  lemma CallOwns(ss: seq<State>, ps: seq<Pick>, n: nat, i: nat, j: nat) returns (owned: seq<TypeObj>)
    requires IsRun(ss, ps) && n <= |ps| && i < |ss[0].threads|
    requires i < |ss[n].threads| && j < |ss[n].threads[i].past| && Acquires(ss[n].threads[i].past[j].call)
    ensures var r := ss[n].threads[i].past[j];
            Owns(r.call, r.out, owned) && forall t :: Net(r.log, t) == multiset(owned)[t]
  {
    var r := ss[n].threads[i].past[j];
    FinishedExplained(ss, ps, n, i, j);
    owned := AllOrNothing(r.call, r.out, r.log);
    forall k | 0 <= k < |owned|
      ensures Fits(Plan(r.call)[k], owned[k])
    {
      assert r.log[k] in r.log;
      FoundIsAsked(ss, ps, n, i, j, Plan(r.call)[k], owned[k]);
    }
    OwnsPlanned(r.call, r.out, owned);
  }

  lemma OwnsPlanned(call: Call, out: Outcome, owned: seq<TypeObj>)
    requires Acquires(call)
    requires |owned| == if out == Success && !Transient(call) then |Plan(call)| else 0
    requires forall k :: 0 <= k < |owned| ==> Fits(Plan(call)[k], owned[k])
    ensures Owns(call, out, owned)
  {
  }

  /** Calls that look nothing up perform one operation at most. */
  lemma NetSingle(call: Call, out: Outcome, log: seq<Event>, t: TypeObj)
    requires !Acquires(call) && Explained(call, out, log)
    ensures Net(log, t) + (if call.Release? && log == [EDrop(t)] then 1 else 0) == 0
  {
    if log != [] {
      assert log == [log[0]] && log[..0] == [];
    }
  }
}
