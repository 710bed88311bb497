/**
 * A condition on the calls alone that keeps counters unambiguous: a set of calls with fewer than
 * 2^32 lookups in all never has 2^32 references outstanding.
 */
module Demand {
  import opened Atomic
  import opened Catalog
  import opened Machine
  import opened Invariant
  import opened Preservation
  import opened Sharpness
  import Progress

  /** Each lookup takes at most one reference. */
  function Lookups(calls: seq<Call>): nat {
    if calls == [] then 0 else |Plan(calls[0])| + Lookups(calls[1..])
  }

  function TotalLookups(scripts: seq<seq<Call>>): nat {
    if scripts == [] then 0 else TotalLookups(scripts[..|scripts| - 1]) + Lookups(scripts[|scripts| - 1])
  }

  /** Lookups of the current call that have not taken their reference yet. */
  function Open(call: Call, pc: PC): nat {
    match pc
    case Ready => |Plan(call)|
    case FileNew => |Plan(call)|
    case Acquiring(k, _, a) => Progress.Minus(|Plan(call)|, if a.AUnlock? then k + 1 else k)
    case Use(k) => Progress.Minus(|Plan(call)|, k + 1)
    case _ => 0
  }

  /** The references a thread has, and those it may still take. */
  function Claim(th: Thread): nat {
    |th.held| + if th.todo == [] then 0 else Open(th.todo[0], th.pc) + Lookups(th.todo[1..])
  }

  function AllClaims(ths: seq<Thread>): nat {
    if ths == [] then 0 else AllClaims(ths[..|ths| - 1]) + Claim(ths[|ths| - 1])
  }

  function Total(s: State): nat {
    |s.live| + AllClaims(s.threads)
  }

  lemma {:induction false} ClaimsUpdate(ths: seq<Thread>, i: nat, th: Thread)
    requires i < |ths|
    ensures AllClaims(ths[i := th]) + Claim(ths[i]) == AllClaims(ths) + Claim(th)
  {
    var n := |ths| - 1;
    if i < n {
      assert ths[i := th][..n] == ths[..n][i := th];
      ClaimsUpdate(ths[..n], i, th);
    } else {
      assert ths[i := th][..n] == ths[..n];
    }
  }

  /** How many references an action moves into the hands of clients. */
  function Handed(act: Act): int {
    if act.Take? then -1 else if act.Give? then |act.ts| else 0
  }

  lemma ClaimStep(s: State, th: Thread, c: Choice)
    requires Busy(th) && ThreadOk(th)
    ensures var m := Code(s, th, c); Claim(m.th) + Handed(m.act) <= Claim(th)
  {
    match th.pc
    case Ready => ClaimBegin(s, th, c);
    case Registering(_, _) => ClaimRegister(s, th);
    case Unregistering(_, _) => ClaimUnregister(s, th);
    case Acquiring(_, _, _) => ClaimAcquire(s, th);
    case Leave(_) => ClaimLeave(s, th, c);
    case _ =>
  }

  lemma ClaimBegin(s: State, th: Thread, c: Choice)
    requires Busy(th) && th.pc == Ready && th.held == []
    ensures var m := Begin(s, th, c); Claim(m.th) + Handed(m.act) <= Claim(th)
  {
  }

  lemma ClaimRegister(s: State, th: Thread)
    requires Busy(th) && th.pc.Registering?
    ensures var m := RegisterCode(s, th); Claim(m.th) + Handed(m.act) <= Claim(th)
  {
  }

  lemma ClaimUnregister(s: State, th: Thread)
    requires Busy(th) && th.pc.Unregistering?
    ensures var m := UnregisterCode(s, th); Claim(m.th) + Handed(m.act) <= Claim(th)
  {
  }

  lemma ClaimAcquire(s: State, th: Thread)
    requires Busy(th) && th.pc.Acquiring? && th.pc.k < |Plan(th.todo[0])|
    ensures var m := AcquireCode(s, th); Claim(m.th) + Handed(m.act) <= Claim(th)
  {
    match th.pc.a
    case ALock =>
    case ADefault =>
    case AScan(_) =>
    case AInc(_) =>
    case AUnlock(_) =>
  }

  lemma ClaimLeave(s: State, th: Thread, c: Choice)
    requires Busy(th) && th.pc.Leave?
    ensures var m := Code(s, th, c); Claim(m.th) + Handed(m.act) <= Claim(th)
  {
  }

  lemma LiveStep(s: State, i: nat, m: Move)
    requires i < |s.threads| && MoveOk(s, s.threads[i], m)
    ensures |Effect(s, i, m).live| == |s.live| + Handed(m.act)
  {
    LiveAfter(s, i, m.act, HeaderType(0, 0));
    assert Effect(s, i, m).live == Apply(s, i, m.act).live;
  }

  /** No step raises the references that are held or may still be taken. */
  lemma TotalStep(s: State, i: nat, c: Choice)
    requires WellFormed(s) && Enabled(s, i)
    ensures Total(Next(s, i, c)) <= Total(s)
  {
    var m := Code(s, s.threads[i], c);
    CodeMoves(s, i, c);
    ClaimStep(s, s.threads[i], c);
    LiveStep(s, i, m);
    ClaimsUpdate(s.threads, i, m.th);
    assert Next(s, i, c).threads == s.threads[i := m.th];
  }

  lemma {:induction false} InFlightFits(ths: seq<Thread>, t: TypeObj)
    ensures InFlight(ths, t) <= AllClaims(ths)
  {
    if ths != [] {
      InFlightFits(ths[..|ths| - 1], t);
      Occurrences(multiset(ths[|ths| - 1].held), t);
    }
  }

  lemma Occurrences(m: multiset<TypeObj>, t: TypeObj)
    ensures m[t] <= |m|
  {
    assert |m[t := 0]| + m[t] == |m|;
  }

  lemma HoldersFit(s: State, t: TypeObj)
    ensures Holders(s, t) <= Total(s)
  {
    InFlightFits(s.threads, t);
    Occurrences(s.live, t);
  }

  lemma {:induction false} StartClaims(ths: seq<Thread>, scripts: seq<seq<Call>>)
    requires |ths| == |scripts|
    requires forall j :: 0 <= j < |ths| ==> ths[j] == Thread(scripts[j], Ready, [], [], [])
    ensures AllClaims(ths) == TotalLookups(scripts)
  {
    if ths != [] {
      StartClaims(ths[..|ths| - 1], scripts[..|ths| - 1]);
    }
  }

  lemma {:induction false} TotalBounded(ss: seq<State>, ps: seq<Pick>, n: nat, scripts: seq<seq<Call>>)
    requires IsRun(ss, ps) && n < |ss| && ss[0] == Start(scripts)
    ensures Total(ss[n]) <= TotalLookups(scripts)
  {
    if n == 0 {
      StartClaims(ss[0].threads, scripts);
    } else {
      TotalBounded(ss, ps, n - 1, scripts);
      RunWellFormed(ss, ps, n - 1);
      assert Enabled(ss[n - 1], ps[n - 1].i);
      TotalStep(ss[n - 1], ps[n - 1].i, ps[n - 1].c);
    }
  }

  /**
   * However its threads interleave, a run of calls with fewer than 2^32 lookups in all has fewer than
   * 2^32 references outstanding, never reads an ambiguous counter and never unlinks a held type.
   */
  lemma FewLookupsSuffice(ss: seq<State>, ps: seq<Pick>, n: nat, scripts: seq<seq<Call>>)
    requires IsRun(ss, ps) && n < |ss| && ss[0] == Start(scripts)
    requires TotalLookups(scripts) < TWO_32
    ensures Bounded(ss[n]) && Guarded(ss, ps, n) && Unsevered(ss, ps, n) && Unreset(ss, ps, n)
  {
    forall k | 0 <= k <= n
      ensures Bounded(ss[k])
    {
      forall t
        ensures Holders(ss[k], t) < TWO_32
      {
        TotalBounded(ss, ps, k, scripts);
        HoldersFit(ss[k], t);
      }
    }
    BoundedIsGuarded(ss, ps, n);
  }
}
