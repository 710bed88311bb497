/**
 * What finished calls of the key store returned, tied to the run: each operation a call performed took
 * effect at a step of that call, and its answer is the one the atomic map gave at that step.
 */
module KeyStoreHistory {
  import opened Options
  import opened Posix
  import opened KeyStore
  import opened KeyStoreAtomic

  function Logs(past: seq<Return>): seq<Event> {
    if past == [] then [] else Logs(past[..|past| - 1]) + past[|past| - 1].log
  }

  /** All operations of a thread, those of finished calls first. */
  function Performed(th: Thread): seq<Event> {
    Logs(th.past) + th.log
  }

  /** The operations in the run's history that thread i performed. */
  function TraceOf(ss: seq<State>, ps: seq<Pick>, n: nat, i: nat): seq<Event>
    requires n <= |ps| < |ss|
    requires forall k :: 0 <= k < n ==> Enabled(ss[k], ps[k].i)
  {
    if n == 0 then [] else
      assert Enabled(ss[n - 1], ps[n - 1].i);
      var ev := EventOf(ss[n - 1], ps[n - 1]);
      TraceOf(ss, ps, n - 1, i) + if ps[n - 1].i == i && ev.Some? then [ev.value] else []
  }

  lemma LogsAppend(past: seq<Return>, r: Return)
    ensures Logs(past + [r]) == Logs(past) + r.log
  {
    assert (past + [r])[..|past|] == past;
  }

  lemma PerformedStep(s: State, th: Thread, c: Choice)
    requires ThreadOk(th)
    ensures var m := Code(s, th, c); Performed(m.th) == Performed(th) + if m.ev.Some? then [m.ev.value] else []
  {
    if th.pc.Leave? {
      LogsAppend(th.past, Return(th.call.value, th.pc.out, th.log));
    } else {
      LogStep(s, th, c);
    }
  }

  /** Within a call the log grows by the operations that take effect. */
  lemma LogStep(s: State, th: Thread, c: Choice)
    requires ThreadOk(th) && !th.pc.Leave?
    ensures var m := Code(s, th, c);
            && m.th.past == th.past
            && (!th.pc.Ready? ==> m.th.call == th.call)
            && m.th.log == th.log + if m.ev.Some? then [m.ev.value] else []
  {
    assert th.log + [] == th.log;
  }

  /** Each thread's operations occur in the run's history in the order the thread performed them. */
  lemma {:induction false} ProgramOrder(ss: seq<State>, ps: seq<Pick>, n: nat, i: nat)
    requires IsRun(ss, ps) && n <= |ps| && i < |ss[0].threads|
    ensures |ss[n].threads| == |ss[0].threads|
    ensures Performed(ss[n].threads[i]) == TraceOf(ss, ps, n, i)
  {
    if n > 0 {
      ProgramOrder(ss, ps, n - 1, i);
      RunOk(ss, ps, n - 1);
      var s, p := ss[n - 1], ps[n - 1];
      assert Enabled(s, p.i) && ss[n].threads == s.threads[p.i := Code(s, s.threads[p.i], p.c).th];
      assert ThreadOk(s.threads[i]);
      if p.i == i {
        PerformedStep(s, s.threads[i], p.c);
      }
      assert Performed(s.threads[i]) + [] == Performed(s.threads[i]);
    }
  }

  /** e took effect at step k, taken by thread i in the call it started after finishing `past`. */
  ghost predicate OccursAt(ss: seq<State>, ps: seq<Pick>, k: nat, i: nat, call: Option<Call>, past: seq<Return>,
                           e: Event) {
    && k < |ps| && k < |ss|
    && ps[k].i == i && Enabled(ss[k], i)
    && EventOf(ss[k], ps[k]) == Some(e)
    && ss[k].threads[i].call == call && ss[k].threads[i].past == past
  }

  ghost predicate Occurs(ss: seq<State>, ps: seq<Pick>, n: nat, i: nat, call: Option<Call>, past: seq<Return>,
                         e: Event) {
    exists k :: 0 <= k < n && OccursAt(ss, ps, k, i, call, past, e)
  }

  /** The operations in a thread's logs took effect during the calls that logged them. */
  ghost predicate LogsOccur(ss: seq<State>, ps: seq<Pick>, n: nat, i: nat, th: Thread) {
    && (forall e :: e in th.log ==> Occurs(ss, ps, n, i, th.call, th.past, e))
    && (forall j, e :: 0 <= j < |th.past| && e in th.past[j].log ==>
          Occurs(ss, ps, n, i, Some(th.past[j].call), th.past[..j], e))
  }

  lemma OccursLater(ss: seq<State>, ps: seq<Pick>, m: nat, n: nat, i: nat, th: Thread)
    requires m <= n && LogsOccur(ss, ps, m, i, th)
    ensures LogsOccur(ss, ps, n, i, th)
  {
    forall call, past, e | Occurs(ss, ps, m, i, call, past, e)
      ensures Occurs(ss, ps, n, i, call, past, e)
    {
      var k :| 0 <= k < m && OccursAt(ss, ps, k, i, call, past, e);
    }
  }

  /** The step that thread i takes at n logs what it does in the call it is in. */
  lemma LogsStep(ss: seq<State>, ps: seq<Pick>, n: nat, i: nat)
    requires n < |ps| && n < |ss| && ps[n].i == i && Enabled(ss[n], i) && ThreadOk(ss[n].threads[i])
    requires LogsOccur(ss, ps, n + 1, i, ss[n].threads[i])
    ensures LogsOccur(ss, ps, n + 1, i, Code(ss[n], ss[n].threads[i], ps[n].c).th)
  {
    var th, m := ss[n].threads[i], Code(ss[n], ss[n].threads[i], ps[n].c);
    if th.pc.Leave? {
      FinishedLogs(ss, ps, n + 1, i, th, Return(th.call.value, th.pc.out, th.log));
    } else {
      LogStep(ss[n], th, ps[n].c);
      if m.ev.Some? {
        assert OccursAt(ss, ps, n, i, th.call, th.past, m.ev.value);
      }
    }
  }

  lemma FinishedLogs(ss: seq<State>, ps: seq<Pick>, n: nat, i: nat, th: Thread, r: Return)
    requires LogsOccur(ss, ps, n, i, th) && th.call == Some(r.call) && r.log == th.log
    ensures LogsOccur(ss, ps, n, i, Thread(None, Ready, [], th.past + [r]))
  {
    var past := th.past + [r];
    forall j, e | 0 <= j < |past| && e in past[j].log
      ensures Occurs(ss, ps, n, i, Some(past[j].call), past[..j], e)
    {
      assert past[..j] == th.past[..j];
    }
  }

  lemma {:induction false} RunLogs(ss: seq<State>, ps: seq<Pick>, n: nat, i: nat)
    requires IsRun(ss, ps) && n <= |ps| && i < |ss[0].threads|
    ensures |ss[n].threads| == |ss[0].threads|
    ensures LogsOccur(ss, ps, n, i, ss[n].threads[i])
  {
    if n > 0 {
      RunLogs(ss, ps, n - 1, i);
      RunOk(ss, ps, n - 1);
      var s, p := ss[n - 1], ps[n - 1];
      assert Enabled(s, p.i) && ss[n].threads == s.threads[p.i := Code(s, s.threads[p.i], p.c).th];
      assert ThreadOk(s.threads[i]);
      OccursLater(ss, ps, n - 1, n, i, s.threads[i]);
      if p.i == i {
        LogsStep(ss, ps, n - 1, i);
      }
    }
  }

  /**
   * What call j of thread i returned is explained by the operations it performed, and each of those
   * took effect at a step of that very call.
   */
  lemma FinishedExplained(ss: seq<State>, ps: seq<Pick>, n: nat, i: nat, j: nat)
    requires IsRun(ss, ps) && n <= |ps| && i < |ss[0].threads|
    requires i < |ss[n].threads| && j < |ss[n].threads[i].past|
    ensures var past := ss[n].threads[i].past;
            && Explained(past[j].call, past[j].out, past[j].log)
            && forall e :: e in past[j].log ==> Occurs(ss, ps, n, i, Some(past[j].call), past[..j], e)
  {
    RunOk(ss, ps, n);
    assert ThreadOk(ss[n].threads[i]);
    assert ss[n].threads[i].past[j] in ss[n].threads[i].past;
    RunLogs(ss, ps, n, i);
  }

  // ---------- running out of memory ----------

  /** The answers of Core Foundation's allocations in the current call of thread i: the string, then the data. */
  function Allocs(ss: seq<State>, ps: seq<Pick>, n: nat, i: nat): seq<bool>
    requires n <= |ps| < |ss|
    requires forall k :: 0 <= k < n ==> Enabled(ss[k], ps[k].i)
  {
    if n == 0 then [] else
      assert Enabled(ss[n - 1], ps[n - 1].i);
      if ps[n - 1].i != i then Allocs(ss, ps, n - 1, i)
      else AllocsAfter(ss[n - 1].threads[i].pc, Allocs(ss, ps, n - 1, i), ps[n - 1].c.success)
  }

  function AllocsAfter(pc: PC, allocs: seq<bool>, success: bool): seq<bool> {
    if pc.Ready? then [success] else if pc.MakeData? then allocs + [success] else allocs
  }

  /** A call with good arguments fails for want of memory exactly when one of its allocations fails. */
  ghost predicate MemoryReport(call: Call, out: Result, allocs: seq<bool>) {
    match call
    case AddKey(desc, payload) =>
      desc.Some? && payload.Some? && payload.value != [] ==>
        if allocs == [true, true] then out == Ok
        else (allocs == [false] || allocs == [true, false]) && out == Error(ENOMEM)
    case ReadKey(desc, room, _) =>
      desc.Some? && room.Some? ==> |allocs| == 1 && (out == Error(ENOMEM) <==> !allocs[0])
    case RemoveKey(_) => out == Ok
  }

  ghost predicate AllocsOk(th: Thread, allocs: seq<bool>) {
    match th.pc
    case Ready => true
    case MakeData(_, _) => allocs == [true]
    case AddLock(_, _) => allocs == [true, true]
    case AddRemove(_, _) => allocs == [true, true]
    case AddInsert(_, _) => allocs == [true, true]
    case AddUnlock(_) => allocs == [true, true]
    case Drop(_, out) => th.call.Some? && MemoryReport(th.call.value, out, allocs)
    case Leave(out) => th.call.Some? && MemoryReport(th.call.value, out, allocs)
    case _ => th.call.Some? && !th.call.value.AddKey? && (th.call.value.ReadKey? ==> allocs == [true])
  }

  lemma AllocsStep(s: State, th: Thread, c: Choice, allocs: seq<bool>)
    requires ThreadOk(th) && AllocsOk(th, allocs)
    ensures AllocsOk(Code(s, th, c).th, AllocsAfter(th.pc, allocs, c.success))
  {
    if th.pc.MakeData? {
      assert (allocs + [c.success])[1] == c.success;
    }
  }

  lemma {:induction false} RunAllocs(ss: seq<State>, ps: seq<Pick>, n: nat, i: nat)
    requires IsRun(ss, ps) && n <= |ps| && i < |ss[0].threads|
    ensures |ss[n].threads| == |ss[0].threads|
    ensures AllocsOk(ss[n].threads[i], Allocs(ss, ps, n, i))
  {
    if n > 0 {
      RunAllocs(ss, ps, n - 1, i);
      RunOk(ss, ps, n - 1);
      var s, p := ss[n - 1], ps[n - 1];
      assert Enabled(s, p.i) && ss[n].threads == s.threads[p.i := Code(s, s.threads[p.i], p.c).th];
      assert ThreadOk(s.threads[i]);
      if p.i == i {
        AllocsStep(s, s.threads[i], p.c, Allocs(ss, ps, n - 1, i));
      }
    }
  }

  /** Thread i returns from call r at step m, having finished `past` before. */
  ghost predicate ReturnedAt(ss: seq<State>, ps: seq<Pick>, m: nat, i: nat, past: seq<Return>, r: Return)
    requires IsRun(ss, ps)
  {
    && m < |ps| && ps[m].i == i && i < |ss[m].threads|
    && ss[m].threads[i].past == past && ss[m].threads[i].call == Some(r.call)
    && ss[m].threads[i].pc == Leave(r.out) && ss[m].threads[i].log == r.log
    && MemoryReport(r.call, r.out, Allocs(ss, ps, m, i))
  }

  /** Every finished call of every run has failed for want of memory exactly when an allocation failed. */
  lemma {:induction false} MemoryReported(ss: seq<State>, ps: seq<Pick>, n: nat, i: nat, j: nat) returns (m: nat)
    requires IsRun(ss, ps) && n <= |ps| && i < |ss[0].threads|
    requires i < |ss[n].threads| && j < |ss[n].threads[i].past|
    ensures m < n && ReturnedAt(ss, ps, m, i, ss[n].threads[i].past[..j], ss[n].threads[i].past[j])
    decreases n
  {
    assert ss[0].threads[i].past == [];
    assert n > 0;
    RunAllocs(ss, ps, n - 1, i);
    RunOk(ss, ps, n - 1);
    var s, p := ss[n - 1], ps[n - 1];
    assert Enabled(s, p.i) && ss[n].threads == s.threads[p.i := Code(s, s.threads[p.i], p.c).th];
    assert ThreadOk(s.threads[i]);
    var past, past' := s.threads[i].past, ss[n].threads[i].past;
    PastGrows(s, s.threads[i], p.c);
    if j < |past| {
      m := MemoryReported(ss, ps, n - 1, i, j);
      assert past'[..j] == past[..j];
    } else {
      m := n - 1;
      assert past'[..j] == past;
    }
  }

  lemma PastGrows(s: State, th: Thread, c: Choice)
    requires ThreadOk(th)
    ensures Code(s, th, c).th.past ==
            if th.pc.Leave? then th.past + [Return(th.call.value, th.pc.out, th.log)] else th.past
  {
    if !th.pc.Leave? {
      LogStep(s, th, c);
    }
  }

  /** What a state's dictionary maps key to. */
  function Mapped(s: State, key: string): Option<Bytes> {
    if key in s.dict then Some(s.dict[key].bytes) else None
  }

  lemma ReadCode(s: State, i: nat, c: Choice, key: string, found: Option<Bytes>)
    requires Enabled(s, i) && Code(s, s.threads[i], c).ev == Some(ERead(key, found))
    ensures found == Mapped(s, key) && SectionOf(s.threads[i].pc) == Reading
  {
  }

  /**
   * A read that has finished returned the whole payload that the dictionary, and the atomic map,
   * held for its key at a step k inside the read lock of that call, whatever was replaced or removed
   * before the bytes were copied; or ENOSPC for want of room, or ENOENT when there was none.
   */
  lemma ReadsSnapshot(ss: seq<State>, ps: seq<Pick>, n: nat, i: nat, j: nat) returns (k: nat)
    requires IsRun(ss, ps) && n <= |ps| && i < |ss[0].threads|
    requires i < |ss[n].threads| && j < |ss[n].threads[i].past|
    requires var r := ss[n].threads[i].past[j];
             r.call.ReadKey? && r.call.desc.Some? && r.call.room.Some? && r.out != Error(ENOMEM)
    ensures k < n && ps[k].i == i && i < |ss[k].threads|
    ensures ss[k].threads[i].call == Some(ss[n].threads[i].past[j].call)
    ensures ss[k].threads[i].past == ss[n].threads[i].past[..j]
    ensures SectionOf(ss[k].threads[i].pc) == Reading
    ensures var r := ss[n].threads[i].past[j];
            r.out == Answer(Mapped(ss[k], r.call.desc.value), r.call.room.value, r.call.buffer)
    ensures var key := ss[n].threads[i].past[j].call.desc.value;
            Mapped(ss[k], key) == Lookup(AfterAll(Trace(ss, ps, k)), key)
  {
    var past := ss[n].threads[i].past;
    var r := past[j];
    FinishedExplained(ss, ps, n, i, j);
    var key := r.call.desc.value;
    var found :| r.log == [ERead(key, found)] && r.out == Answer(found, r.call.room.value, r.call.buffer);
    assert ERead(key, found) in r.log;
    k :| 0 <= k < n && OccursAt(ss, ps, k, i, Some(r.call), past[..j], ERead(key, found));
    ReadCode(ss[k], i, ps[k].c, key, found);
    RunOk(ss, ps, k);
    Linearizable(ss, ps, k);
    Simulates(ss[k], AfterAll(Trace(ss, ps, k)), i, ps[k].c);
  }
}
