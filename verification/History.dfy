/**
 * What finished calls have done: the operations of a thread appear in the global history in
 * program order, and a call that fails has taken no reference it did not give back.
 */
module History {
  import opened Options
  import opened Sequences
  import opened Catalog
  import opened Machine
  import opened Invariant
  import opened Preservation
  import opened Simulation

  function Logs(past: seq<Return>): seq<Event> {
    if past == [] then [] else Logs(past[..|past| - 1]) + past[|past| - 1].log
  }

  function Calls(past: seq<Return>): seq<Call> {
    if past == [] then [] else Calls(past[..|past| - 1]) + [past[|past| - 1].call]
  }

  /** All operations of a thread, those of finished calls first. */
  function Performed(th: Thread): seq<Event> {
    Logs(th.past) + th.log
  }

  /** The operations in the run's history that thread i performed. */
  function TraceOf(ss: seq<State>, ps: seq<Pick>, n: nat, i: nat): seq<Event>
    requires n <= |ps| < |ss|
    requires forall k :: 0 <= k < n ==> Enabled(ss[k], ps[k].i)
  {
    if n == 0 then [] else
      assert Enabled(ss[n - 1], ps[n - 1].i);
      var ev := EventOf(ss[n - 1], ps[n - 1]);
      TraceOf(ss, ps, n - 1, i) + if ps[n - 1].i == i && ev.Some? then [ev.value] else []
  }

  lemma PerformedStep(s: State, th: Thread, c: Choice)
    requires Busy(th) && ThreadOk(th)
    ensures var m := Code(s, th, c);
            Performed(m.th) == Performed(th) + if m.ev.Some? then [m.ev.value] else []
  {
    if th.pc.Leave? {
      PerformedLeave(s, th, c);
    } else {
      LogStep(s, th, c);
      PerformedLog(th, Code(s, th, c));
    }
  }

  lemma PerformedLog(th: Thread, m: Move)
    requires m.th.past == th.past && m.th.log == th.log + if m.ev.Some? then [m.ev.value] else []
    ensures Performed(m.th) == Performed(th) + if m.ev.Some? then [m.ev.value] else []
  {
  }

  lemma PerformedLeave(s: State, th: Thread, c: Choice)
    requires Busy(th) && th.pc.Leave?
    ensures var m := Code(s, th, c); m.ev == None && Performed(m.th) == Performed(th)
  {
    LogsAppend(th.past, Return(th.todo[0], th.pc.out, th.log));
  }

  lemma LogsAppend(past: seq<Return>, r: Return)
    ensures Logs(past + [r]) == Logs(past) + r.log
  {
    assert (past + [r])[..|past|] == past;
  }

  lemma LogStep(s: State, th: Thread, c: Choice)
    requires Busy(th) && !th.pc.Leave?
    ensures var m := Code(s, th, c);
            && m.th.past == th.past && m.th.todo == th.todo
            && m.th.log == th.log + if m.ev.Some? then [m.ev.value] else []
  {
    assert th.log + [] == th.log;
  }

  lemma CallsStep(s: State, th: Thread, c: Choice)
    requires Busy(th)
    ensures var th' := Code(s, th, c).th; Calls(th'.past) + th'.todo == Calls(th.past) + th.todo
  {
    if th.pc.Leave? {
      var th' := Code(s, th, c).th;
      assert th'.past[..|th.past|] == th.past;
      assert th.todo == [th.todo[0]] + th.todo[1..];
    } else {
      LogStep(s, th, c);
    }
  }

  /** Each thread's operations occur in the run's history in the order the thread performed them. */
  lemma {:induction false} ProgramOrder(ss: seq<State>, ps: seq<Pick>, n: nat, i: nat)
    requires IsRun(ss, ps) && n <= |ps|
    requires i < |ss[0].threads|
    ensures |ss[n].threads| == |ss[0].threads|
    ensures Performed(ss[n].threads[i]) == TraceOf(ss, ps, n, i)
    ensures Calls(ss[n].threads[i].past) + ss[n].threads[i].todo == ss[0].threads[i].todo
  {
    if n > 0 {
      ProgramOrder(ss, ps, n - 1, i);
      RunWellFormed(ss, ps, n - 1);
      var s, p := ss[n - 1], ps[n - 1];
      assert Enabled(s, p.i) && ss[n].threads == s.threads[p.i := Code(s, s.threads[p.i], p.c).th];
      if p.i == i {
        PerformedStep(s, s.threads[i], p.c);
        CallsStep(s, s.threads[i], p.c);
      }
      assert Performed(s.threads[i]) + [] == Performed(s.threads[i]);
    }
  }

  // ---------- operations take effect during their call ----------

  /** e took effect at step k, taken by thread i in the call it started after finishing `past`. */
  ghost predicate OccursAt(ss: seq<State>, ps: seq<Pick>, k: nat, i: nat, call: Call, past: seq<Return>, e: Event) {
    && k < |ps| && k < |ss|
    && ps[k].i == i && Enabled(ss[k], i)
    && EventOf(ss[k], ps[k]) == Some(e)
    && ss[k].threads[i].todo[0] == call && ss[k].threads[i].past == past
  }

  ghost predicate Occurs(ss: seq<State>, ps: seq<Pick>, n: nat, i: nat, call: Call, past: seq<Return>, e: Event) {
    exists k :: 0 <= k < n && OccursAt(ss, ps, k, i, call, past, e)
  }

  /** The operations in a thread's logs took effect during the calls that logged them. */
  ghost predicate LogsOccur(ss: seq<State>, ps: seq<Pick>, n: nat, i: nat, th: Thread) {
    && (Busy(th) ==> forall e :: e in th.log ==> Occurs(ss, ps, n, i, th.todo[0], th.past, e))
    && (forall j, e :: 0 <= j < |th.past| && e in th.past[j].log ==>
          Occurs(ss, ps, n, i, th.past[j].call, th.past[..j], e))
  }

  lemma OccursLater(ss: seq<State>, ps: seq<Pick>, m: nat, n: nat, i: nat, th: Thread)
    requires m <= n && LogsOccur(ss, ps, m, i, th)
    ensures LogsOccur(ss, ps, n, i, th)
  {
    forall call, past, e | Occurs(ss, ps, m, i, call, past, e)
      ensures Occurs(ss, ps, n, i, call, past, e)
    {
      var k :| 0 <= k < m && OccursAt(ss, ps, k, i, call, past, e);
    }
  }

  /** The step that thread i takes at n logs what it does in the call it is in. */
  lemma LogsStep(ss: seq<State>, ps: seq<Pick>, n: nat, i: nat)
    requires n < |ps| && n < |ss| && ps[n].i == i && Enabled(ss[n], i)
    requires LogsOccur(ss, ps, n + 1, i, ss[n].threads[i])
    ensures LogsOccur(ss, ps, n + 1, i, Code(ss[n], ss[n].threads[i], ps[n].c).th)
  {
    var th, m := ss[n].threads[i], Code(ss[n], ss[n].threads[i], ps[n].c);
    if th.pc.Leave? {
      FinishedLogs(ss, ps, n + 1, i, th, Return(th.todo[0], th.pc.out, th.log));
    } else {
      LogStep(ss[n], th, ps[n].c);
      if m.ev.Some? {
        assert OccursAt(ss, ps, n, i, th.todo[0], th.past, m.ev.value);
      }
    }
  }

  lemma FinishedLogs(ss: seq<State>, ps: seq<Pick>, n: nat, i: nat, th: Thread, r: Return)
    requires Busy(th) && LogsOccur(ss, ps, n, i, th) && th.todo[0] == r.call && r.log == th.log
    ensures LogsOccur(ss, ps, n, i, Thread(th.todo[1..], Ready, [], [], th.past + [r]))
  {
    var past := th.past + [r];
    forall j, e | 0 <= j < |past| && e in past[j].log
      ensures Occurs(ss, ps, n, i, past[j].call, past[..j], e)
    {
      assert past[..j] == th.past[..j];
    }
  }

  lemma {:induction false} RunLogs(ss: seq<State>, ps: seq<Pick>, n: nat, i: nat)
    requires IsRun(ss, ps) && n <= |ps| && i < |ss[0].threads|
    ensures |ss[n].threads| == |ss[0].threads|
    ensures LogsOccur(ss, ps, n, i, ss[n].threads[i])
  {
    if n > 0 {
      RunLogs(ss, ps, n - 1, i);
      var s, p := ss[n - 1], ps[n - 1];
      assert Enabled(s, p.i) && ss[n].threads == s.threads[p.i := Code(s, s.threads[p.i], p.c).th];
      OccursLater(ss, ps, n - 1, n, i, s.threads[i]);
      if p.i == i {
        LogsStep(ss, ps, n - 1, i);
      }
    }
  }

  /**
   * Whatever call j of a thread returned is explained by the operations it performed, and each of
   * those took effect at a step of that very call.
   */
  lemma FinishedExplained(ss: seq<State>, ps: seq<Pick>, n: nat, i: nat, j: nat)
    requires IsRun(ss, ps) && n <= |ps| && i < |ss[0].threads|
    requires i < |ss[n].threads| && j < |ss[n].threads[i].past|
    ensures var past := ss[n].threads[i].past;
            && Explained(past[j].call, past[j].out, past[j].log)
            && forall e :: e in past[j].log ==> Occurs(ss, ps, n, i, past[j].call, past[..j], e)
  {
    ReturnExplained(ss, ps, n, i, ss[n].threads[i].past[j]);
    RunLogs(ss, ps, n, i);
  }

  lemma ReturnExplained(ss: seq<State>, ps: seq<Pick>, n: nat, i: nat, r: Return)
    requires IsRun(ss, ps) && n < |ss|
    requires i < |ss[n].threads| && r in ss[n].threads[i].past
    ensures Explained(r.call, r.out, r.log)
  {
    RunWellFormed(ss, ps, n);
    assert PastOk(ss[n].threads[i]);
  }

  lemma {:induction false} TraceOfIn(ss: seq<State>, ps: seq<Pick>, n: nat, i: nat, e: Event)
    requires n <= |ps| < |ss|
    requires forall k :: 0 <= k < n ==> Enabled(ss[k], ps[k].i)
    requires e in TraceOf(ss, ps, n, i)
    ensures e in Trace(ss, ps, n)
  {
    if n > 0 && e in TraceOf(ss, ps, n - 1, i) {
      TraceOfIn(ss, ps, n - 1, i, e);
    }
  }

  lemma {:induction false} LogIn(past: seq<Return>, r: Return, e: Event)
    requires r in past && e in r.log
    ensures e in Logs(past)
  {
    var n := |past| - 1;
    if r != past[n] {
      LogIn(past[..n], r, e);
    }
  }

  /** A search finds a type of the registry searched. */
  lemma FindFits(s: State, i: nat, c: Choice, w: Want, t: TypeObj)
    requires WellFormed(s) && Enabled(s, i)
    requires Code(s, s.threads[i], c).ev == Some(EFind(w, Some(t)))
    ensures RegOf(t) == Registry(w)
  {
    var th := s.threads[i];
    CodeMoves(s, i, c);
    EventCode(s, th, c);
    assert th.pc.Acquiring? && th.pc.w == w && th.pc.a == AInc(t);
    assert SharedOk(s, th.pc) && RingOk(s, Registry(w));
    IncLinked(s, th, t);
  }

  lemma {:induction false} TraceFits(ss: seq<State>, ps: seq<Pick>, n: nat, w: Want, t: TypeObj)
    requires IsRun(ss, ps) && n <= |ps|
    requires EFind(w, Some(t)) in Trace(ss, ps, n)
    ensures RegOf(t) == Registry(w)
  {
    if EFind(w, Some(t)) in Trace(ss, ps, n - 1) {
      TraceFits(ss, ps, n - 1, w, t);
    } else {
      RunWellFormed(ss, ps, n - 1);
      FindFits(ss[n - 1], ps[n - 1].i, ps[n - 1].c, w, t);
    }
  }

  // ---------- net effect ----------

  /** References to t taken minus references given back. */
  function Net(log: seq<Event>, t: TypeObj): int {
    if log == [] then 0 else
      Net(log[..|log| - 1], t) +
      match log[|log| - 1]
      case EFind(_, Some(u)) => if u == t then 1 else 0
      case EDrop(u) => if u == t then -1 else 0
      case _ => 0
  }

  lemma {:induction false} NetAppend(x: seq<Event>, y: seq<Event>, t: TypeObj)
    ensures Net(x + y, t) == Net(x, t) + Net(y, t)
  {
    if y == [] {
      assert x + y == x;
    } else {
      var n := |y| - 1;
      assert (x + y)[..|x + y| - 1] == x + y[..n];
      NetAppend(x, y[..n], t);
    }
  }

  lemma {:induction false} NetFinds(ws: seq<Want>, hs: seq<TypeObj>, t: TypeObj)
    requires |hs| <= |ws|
    ensures Net(Finds(ws, hs), t) == multiset(hs)[t]
  {
    if hs != [] {
      var n := |hs| - 1;
      NetFinds(ws, hs[..n], t);
      assert hs == hs[..n] + [hs[n]];
      assert Finds(ws, hs)[..n] == Finds(ws, hs[..n]);
    }
  }

  lemma {:induction false} NetRollback(hs: seq<TypeObj>, t: TypeObj)
    ensures Net(Rollback(hs), t) == -(multiset(hs)[t] as int)
    decreases |hs|
  {
    if hs != [] {
      var d := NextDrop(hs);
      NetRollback(Cut(hs, d), t);
      CutMultiset(hs, d);
      assert hs[d] in multiset(hs);
      assert [EDrop(hs[d])][..0] == [];
      NetAppend([EDrop(hs[d])], Rollback(Cut(hs, d)), t);
    }
  }

  /**
   * All or nothing: a call that returns an object owns one reference for each of its lookups;
   * any other call leaves every count as it found it.
   */
  lemma AllOrNothing(call: Call, out: Outcome, log: seq<Event>) returns (owned: seq<TypeObj>)
    requires Acquires(call) && Explained(call, out, log)
    ensures out == Success && !Transient(call) ==>
              |owned| == |Plan(call)| && forall j :: 0 <= j < |owned| ==> log[j] == EFind(Plan(call)[j], Some(owned[j]))
    ensures out == Success && !Transient(call) ==> |log| == |owned|
    ensures !(out == Success && !Transient(call)) ==> owned == []
    ensures forall t :: Net(log, t) == multiset(owned)[t]
  {
    owned := [];
    if ArgsOk(call) {
      if out == Success && !Transient(call) {
        var hs :| SuccessFits(call, out, log, hs);
        owned := hs;
        forall t
          ensures Net(log, t) == multiset(hs)[t]
        {
          NetFinds(Plan(call), hs, t);
        }
        forall j | 0 <= j < |hs|
          ensures log[j] == EFind(Plan(call)[j], Some(hs[j]))
        {
          FindsAt(Plan(call), hs, j);
        }
      } else {
        var hs, missed :| FailFits(call, out, log, hs, missed);
        forall t
          ensures Net(log, t) == 0
        {
          NetFail(Plan(call), hs, missed, t);
        }
      }
    }
  }

  lemma {:induction false} FindsAt(ws: seq<Want>, hs: seq<TypeObj>, j: nat)
    requires |hs| <= |ws| && j < |hs|
    ensures Finds(ws, hs)[j] == EFind(ws[j], Some(hs[j]))
  {
    if j < |hs| - 1 {
      FindsAt(ws, hs[..|hs| - 1], j);
    }
  }

  lemma NetMiss(ws: seq<Want>, k: nat, missed: bool, t: TypeObj)
    requires missed ==> k < |ws|
    ensures Net(if missed then [EFind(ws[k], None)] else [], t) == 0
  {
    if missed {
      assert [EFind(ws[k], None)][..0] == [];
    }
  }

  lemma NetFail(ws: seq<Want>, hs: seq<TypeObj>, missed: bool, t: TypeObj)
    requires |hs| <= |ws| && (missed ==> |hs| < |ws|)
    ensures Net(FailLog(ws, hs, missed), t) == 0
  {
    var miss := if missed then [EFind(ws[|hs|], None)] else [];
    NetFinds(ws, hs, t);
    NetRollback(hs, t);
    NetMiss(ws, |hs|, missed, t);
    NetAppend(Finds(ws, hs), miss, t);
    NetAppend(Finds(ws, hs) + miss, Rollback(hs), t);
  }

  /** The call owns exactly one header, one writer and one cipher reference. */
  ghost predicate OwnsFile(cipher: string, log: seq<Event>, h: TypeObj, w: TypeObj, c: TypeObj) {
    && h.HeaderType? && w.WriterType? && c.AlgoType? && c.algo == Cipher
    && log == [EFind(WantHeader(-1), Some(h)), EFind(WantWriter(-1), Some(w)), EFind(WantAlgo(Cipher, cipher), Some(c))]
    && forall t :: Net(log, t) == multiset{h, w, c}[t]
  }

  /**
   * do_create, in any run and under any interference: NULL leaves all counts as they were,
   * a file object owns exactly one header, one writer and one cipher reference.
   */
  lemma CreateAllOrNothing(ss: seq<State>, ps: seq<Pick>, n: nat, i: nat, r: Return)
    requires IsRun(ss, ps) && n <= |ps| && i < |ss[0].threads|
    requires i < |ss[n].threads| && r in ss[n].threads[i].past && r.call.FileCreate?
    ensures if r.out == Success then exists h, w, c :: OwnsFile(r.call.cipher, r.log, h, w, c)
            else forall t :: Net(r.log, t) == 0
  {
    ReturnExplained(ss, ps, n, i, r);
    var owned := AllOrNothing(r.call, r.out, r.log);
    if r.out == Success {
      assert owned == [owned[0], owned[1], owned[2]];
      FoundFits(ss, ps, n, i, r, 0, owned[0]);
      FoundFits(ss, ps, n, i, r, 1, owned[1]);
      FoundFits(ss, ps, n, i, r, 2, owned[2]);
      assert OwnsFile(r.call.cipher, r.log, owned[0], owned[1], owned[2]);
    }
  }

  /** What a finished call found belongs to the registry it searched. */
  lemma FoundFits(ss: seq<State>, ps: seq<Pick>, n: nat, i: nat, r: Return, j: nat, t: TypeObj)
    requires IsRun(ss, ps) && n <= |ps| && i < |ss[0].threads|
    requires i < |ss[n].threads| && r in ss[n].threads[i].past
    requires j < |r.log| && j < |Plan(r.call)| && r.log[j] == EFind(Plan(r.call)[j], Some(t))
    ensures RegOf(t) == Registry(Plan(r.call)[j])
  {
    InHistory(ss, ps, n, i, r, r.log[j]);
    TraceFits(ss, ps, n, Plan(r.call)[j], t);
  }

  lemma InHistory(ss: seq<State>, ps: seq<Pick>, n: nat, i: nat, r: Return, e: Event)
    requires IsRun(ss, ps) && n <= |ps| && i < |ss[0].threads|
    requires i < |ss[n].threads| && r in ss[n].threads[i].past && e in r.log
    ensures e in Trace(ss, ps, n)
  {
    ProgramOrder(ss, ps, n, i);
    LogIn(ss[n].threads[i].past, r, e);
    TraceOfIn(ss, ps, n, i, e);
  }
}
