/**
 * Where the check in `unregister` goes wrong, exactly. `cfe_atomic_get` narrows the counter to an
 * `int`, so `unregister` sees the holders of a type modulo 2^32.
 */
module Sharpness {
  import opened Options
  import opened Posix
  import opened Atomic
  import opened Catalog
  import opened Machine
  import opened Invariant
  import opened Preservation

  /**
   * As long as every counter is right, the check in `unregister` passes exactly when the
   * type is known and the number of its holders, however many, is a multiple of 2^32.
   */
  lemma CheckExact(ss: seq<State>, ps: seq<Pick>, n: nat, t: TypeObj)
    requires Unreset(ss, ps, n)
    ensures AsInt(Count(ss[n], t)) == 1 <==> t in ss[n].counts && Holders(ss[n], t) % TWO_32 == 0
  {
    RunCounted(ss, ps, n);
    assert Counted(ss[n], t);
    NarrowedOne(Holders(ss[n], t));
  }

  /** Thread i is about to pass the check of `unregister`. */
  predicate Passes(s: State, i: nat) {
    && i < |s.threads|
    && s.threads[i].pc.Unregistering? && s.threads[i].pc.u.UCount?
    && AsInt(Count(s, s.threads[i].pc.t)) == 1
  }

  /** Reading an ambiguous counter breaks the invariant at once: a held type is about to be unlinked. */
  lemma AmbiguousBreaks(s: State, i: nat, c: Choice)
    requires Inv(s) && Enabled(s, i) && Ambiguous(s, i)
    ensures Passes(s, i) && !Inv(Next(s, i, c))
  {
    var t, s' := s.threads[i].pc.t, Next(s, i, c);
    assert Counted(s, t);
    KnownHeld(s, t);
    CheckPasses(s, t);
    assert SharedOk(s, s.threads[i].pc);
    CodeMoves(s, i, c);
    HoldersStep(s, i, Code(s, s.threads[i], c), t);
    assert s'.threads[i].pc == Unregistering(t, UUnlink) && Holders(s', t) > 0;
    assert !UnlinkOk(s', s'.threads[i].pc);
  }

  lemma KnownHeld(s: State, t: TypeObj)
    requires Inv(s)
    ensures Holders(s, t) > 0 ==> t in s.counts
  {
    assert Known(s, t);
  }

  /** The first step that breaks the guard. */
  lemma {:induction false} FirstAmbiguous(ss: seq<State>, ps: seq<Pick>, n: nat) returns (k: nat)
    requires IsRun(ss, ps) && n < |ss| && !Guarded(ss, ps, n)
    ensures k < n && Guarded(ss, ps, k) && Ambiguous(ss[k], ps[k].i)
  {
    if Guarded(ss, ps, n - 1) {
      k := n - 1;
    } else {
      k := FirstAmbiguous(ss, ps, n - 1);
    }
  }

  /**
   * The exact condition, for every run: the invariant holds throughout if and only if `unregister`
   * never reads the counter of a type held by a positive multiple of 2^32 references; and so does
   * "only unheld types pass the check".
   */
  lemma GuardIsExact(ss: seq<State>, ps: seq<Pick>, n: nat)
    requires IsRun(ss, ps) && n < |ss|
    ensures (forall k :: 0 <= k <= n ==> Inv(ss[k])) <==> Guarded(ss, ps, n)
    ensures (forall k :: 0 <= k < n && Passes(ss[k], ps[k].i) ==> Holders(ss[k], ss[k].threads[ps[k].i].pc.t) == 0)
            <==> Guarded(ss, ps, n)
  {
    if Guarded(ss, ps, n) {
      forall k | 0 <= k <= n
        ensures Inv(ss[k])
        ensures k < n && Passes(ss[k], ps[k].i) ==> Holders(ss[k], ss[k].threads[ps[k].i].pc.t) == 0
      {
        RunOk(ss, ps, k);
        if k < n && Passes(ss[k], ps[k].i) {
          GuardedIsUnsevered(ss, ps, k);
          UnseveredIsUnreset(ss, ps, k);
          CheckExact(ss, ps, k, ss[k].threads[ps[k].i].pc.t);
        }
      }
    } else {
      var k := FirstAmbiguous(ss, ps, n);
      RunOk(ss, ps, k);
      AmbiguousBreaks(ss[k], ps[k].i, ps[k].c);
      assert ss[k + 1] == Next(ss[k], ps[k].i, ps[k].c) && !Inv(ss[k + 1]);
    }
  }

  /**
   * The three conditions differ: reading an ambiguous counter unlinks nothing yet, and unlinking a held
   * type sets no counter yet.
   */
  lemma ConditionsDiffer(ss: seq<State>, ps: seq<Pick>, n: nat)
    requires IsRun(ss, ps) && n < |ps|
    ensures Guarded(ss, ps, n) && Ambiguous(ss[n], ps[n].i) ==> !Guarded(ss, ps, n + 1) && Unsevered(ss, ps, n + 1)
    ensures Unsevered(ss, ps, n) && Severs(ss[n], ps[n].i) ==> !Unsevered(ss, ps, n + 1) && Unreset(ss, ps, n + 1)
  {
    if Guarded(ss, ps, n) {
      GuardedIsUnsevered(ss, ps, n);
    }
    if Unsevered(ss, ps, n) {
      UnseveredIsUnreset(ss, ps, n);
    }
  }

  /** Fewer than 2^32 references outstanding is enough. */
  lemma BoundedIsGuarded(ss: seq<State>, ps: seq<Pick>, n: nat)
    requires IsRun(ss, ps) && n < |ss| && forall k :: 0 <= k < n ==> Bounded(ss[k])
    ensures Guarded(ss, ps, n) && Unsevered(ss, ps, n) && Unreset(ss, ps, n)
  {
    BoundedReads(ss, ps, n);
    GuardedIsUnsevered(ss, ps, n);
    UnseveredIsUnreset(ss, ps, n);
  }

  lemma BoundedReads(ss: seq<State>, ps: seq<Pick>, n: nat)
    requires IsRun(ss, ps) && n < |ss| && forall k :: 0 <= k < n ==> Bounded(ss[k])
    ensures Guarded(ss, ps, n)
  {
    forall k | 0 <= k < n
      ensures !Ambiguous(ss[k], ps[k].i)
    {
      NotAmbiguous(ss[k], ps[k].i);
    }
  }

  lemma NotAmbiguous(s: State, i: nat)
    requires Bounded(s)
    ensures !Ambiguous(s, i)
  {
    if i < |s.threads| && s.threads[i].pc.Unregistering? {
      assert Holders(s, s.threads[i].pc.t) < TWO_32;
    }
  }

  ghost predicate Reached(s: State) {
    exists ss, ps :: IsRun(ss, ps) && ss[|ps|] == s
  }

  lemma ReachNext(s: State, c: Choice)
    requires Reached(s) && Enabled(s, 0)
    ensures Reached(Next(s, 0, c))
  {
    var ss, ps :| IsRun(ss, ps) && ss[|ps|] == s;
    var ss', ps' := ss + [Next(s, 0, c)], ps + [Pick(0, c)];
    forall n | 0 <= n < |ps'|
      ensures Enabled(ss'[n], ps'[n].i) && ss'[n + 1] == Next(ss'[n], ps'[n].i, ps'[n].c)
    {
      if n < |ps| {
        assert ss'[n] == ss[n] && ss'[n + 1] == ss[n + 1] && ps'[n] == ps[n];
      }
    }
    assert ss'[0] == ss[0];
    assert IsRun(ss', ps') && ss'[|ps'|] == Next(s, 0, c);
  }

  const MD: TypeObj := AlgoType(0, Hash, "md", true)
  const HASHES: Reg := AlgoReg(Hash)
  const GO: Choice := Choice(true, None)
  const OPEN: RWLock := RWLock({}, None)
  const WRITE: RWLock := RWLock({}, Some(0))
  const READ: RWLock := RWLock({0}, None)
  const MD_WANT: Want := WantAlgo(Hash, "md")

  ghost predicate Shape(s: State, lock: RWLock, count: int, live: nat, todo: seq<Call>, pc: PC, held: seq<TypeObj>) {
    && At(s, HASHES) == RegState([MD], None, lock)
    && MD in s.counts && s.counts[MD] == count
    && s.live[MD] == live
    && |s.threads| == 1 && s.threads[0].todo == todo && s.threads[0].pc == pc && s.threads[0].held == held
  }

  /** One thread, k live digest contexts, and todo still to be called. */
  ghost predicate Loaded(s: State, k: nat, todo: seq<Call>) {
    Shape(s, OPEN, AsLong(1 + k), k, todo, Ready, [])
  }

  /** Each lemma below takes one step of the only thread. */
  lemma AllocBegin(s: State, k: nat, rest: seq<Call>) returns (s': State)
    requires Reached(s) && Loaded(s, k, [HashAlloc("md")] + rest)
    ensures Reached(s') && Shape(s', OPEN, AsLong(1 + k), k, [HashAlloc("md")] + rest, Acquiring(0, MD_WANT, ALock), [])
  {
    ReachNext(s, GO);
    s' := Next(s, 0, GO);
  }

  lemma AllocLock(s: State, k: nat, todo: seq<Call>) returns (s': State)
    requires Reached(s) && todo != [] && Shape(s, OPEN, AsLong(1 + k), k, todo, Acquiring(0, MD_WANT, ALock), [])
    ensures Reached(s') && Shape(s', READ, AsLong(1 + k), k, todo, Acquiring(0, MD_WANT, AScan(0)), [])
  {
    ReachNext(s, GO);
    s' := Next(s, 0, GO);
    assert At(s', HASHES).lock == RWLock({} + {0}, None);
  }

  lemma AllocScan(s: State, k: nat, todo: seq<Call>) returns (s': State)
    requires Reached(s) && todo != [] && Shape(s, READ, AsLong(1 + k), k, todo, Acquiring(0, MD_WANT, AScan(0)), [])
    ensures Reached(s') && Shape(s', READ, AsLong(1 + k), k, todo, Acquiring(0, MD_WANT, AInc(MD)), [])
  {
    ReachNext(s, GO);
    s' := Next(s, 0, GO);
  }

  lemma AllocInc(s: State, k: nat, todo: seq<Call>) returns (s': State)
    requires Reached(s) && todo != [] && Shape(s, READ, AsLong(1 + k), k, todo, Acquiring(0, MD_WANT, AInc(MD)), [])
    ensures Reached(s') && Shape(s', READ, AsLong(2 + k), k, todo, Acquiring(0, MD_WANT, AUnlock(true)), [MD])
  {
    AddWraps(1 + k, 1);
    ReachNext(s, GO);
    s' := Next(s, 0, GO);
  }

  lemma AllocUnlock(s: State, k: nat, rest: seq<Call>) returns (s': State)
    requires Reached(s)
    requires Shape(s, READ, AsLong(2 + k), k, [HashAlloc("md")] + rest, Acquiring(0, MD_WANT, AUnlock(true)), [MD])
    ensures Reached(s') && Shape(s', OPEN, AsLong(2 + k), k, [HashAlloc("md")] + rest, Use(0), [MD])
  {
    ReachNext(s, GO);
    s' := Next(s, 0, GO);
    assert At(s', HASHES).lock == RWLock({0} - {0}, None);
  }

  lemma AllocUse(s: State, k: nat, rest: seq<Call>) returns (s': State)
    requires Reached(s) && Shape(s, OPEN, AsLong(2 + k), k, [HashAlloc("md")] + rest, Use(0), [MD])
    ensures Reached(s') && Shape(s', OPEN, AsLong(2 + k), k, [HashAlloc("md")] + rest, Leave(Success), [MD])
  {
    ReachNext(s, GO);
    s' := Next(s, 0, GO);
  }

  lemma AllocLeave(s: State, k: nat, rest: seq<Call>) returns (s': State)
    requires Reached(s) && Shape(s, OPEN, AsLong(2 + k), k, [HashAlloc("md")] + rest, Leave(Success), [MD])
    ensures Reached(s') && Loaded(s', k + 1, rest)
  {
    ReachNext(s, GO);
    s' := Next(s, 0, GO);
    assert ([HashAlloc("md")] + rest)[1..] == rest;
    assert s'.live == s.live + multiset([MD]);
  }

  lemma OneAlloc(s: State, k: nat, rest: seq<Call>) returns (s': State)
    requires Reached(s) && Loaded(s, k, [HashAlloc("md")] + rest)
    ensures Reached(s') && Loaded(s', k + 1, rest)
  {
    var todo := [HashAlloc("md")] + rest;
    var s1 := AllocBegin(s, k, rest);
    var s2 := AllocLock(s1, k, todo);
    var s3 := AllocScan(s2, k, todo);
    var s4 := AllocInc(s3, k, todo);
    var s5 := AllocUnlock(s4, k, rest);
    var s6 := AllocUse(s5, k, rest);
    s' := AllocLeave(s6, k, rest);
  }

  function Allocs(n: nat): seq<Call> {
    if n == 0 then [Unregister(MD)] else [HashAlloc("md")] + Allocs(n - 1)
  }

  lemma FirstAlloc(s: State, k: nat, n: nat) returns (s': State)
    requires n > 0 && Reached(s) && Loaded(s, k, Allocs(n))
    ensures Reached(s') && Loaded(s', k + 1, Allocs(n - 1))
  {
    s' := OneAlloc(s, k, Allocs(n - 1));
  }

  /** Every context that is allocated stays alive. */
  lemma {:induction false} Allocate(s: State, k: nat, n: nat) returns (s': State)
    requires Reached(s) && Loaded(s, k, Allocs(n))
    ensures Reached(s') && Loaded(s', k + n, [Unregister(MD)])
    decreases n
  {
    if n == 0 {
      s' := s;
    } else {
      var s1 := FirstAlloc(s, k, n);
      s' := Allocate(s1, k + 1, n - 1);
      assert (k + 1) + (n - 1) == k + n;
    }
  }

  /** Before the type is linked. */
  ghost predicate Blank(s: State, lock: RWLock, todo: seq<Call>, pc: PC) {
    && At(s, HASHES) == RegState([], None, lock) && s.live == multiset{}
    && |s.threads| == 1 && s.threads[0].todo == todo && s.threads[0].pc == pc && s.threads[0].held == []
  }

  lemma RegisterBegin(rest: seq<Call>) returns (s: State)
    ensures Reached(s) && Blank(s, OPEN, [Register(MD)] + rest, Registering(MD, RLock))
  {
    var s0 := Start([[Register(MD)] + rest]);
    var none: seq<Pick> := [];
    assert IsRun([s0], none) && [s0][|none|] == s0;
    ReachNext(s0, GO);
    s := Next(s0, 0, GO);
  }

  lemma RegisterLock(s: State, todo: seq<Call>) returns (s': State)
    requires Reached(s) && todo != [] && Blank(s, OPEN, todo, Registering(MD, RLock))
    ensures Reached(s') && Blank(s', WRITE, todo, Registering(MD, RScan(0)))
  {
    ReachNext(s, GO);
    s' := Next(s, 0, GO);
  }

  lemma RegisterScan(s: State, todo: seq<Call>) returns (s': State)
    requires Reached(s) && todo != [] && Blank(s, WRITE, todo, Registering(MD, RScan(0)))
    ensures Reached(s') && Blank(s', WRITE, todo, Registering(MD, RSet))
  {
    ReachNext(s, GO);
    s' := Next(s, 0, GO);
  }

  lemma RegisterSet(s: State, todo: seq<Call>) returns (s': State)
    requires Reached(s) && todo != [] && Blank(s, WRITE, todo, Registering(MD, RSet))
    ensures Reached(s') && Blank(s', WRITE, todo, Registering(MD, RLink))
    ensures MD in s'.counts && s'.counts[MD] == 1
  {
    ReachNext(s, GO);
    s' := Next(s, 0, GO);
  }

  lemma RegisterLink(s: State, todo: seq<Call>) returns (s': State)
    requires Reached(s) && todo != [] && Blank(s, WRITE, todo, Registering(MD, RLink))
    requires MD in s.counts && s.counts[MD] == 1
    ensures Reached(s') && Shape(s', WRITE, 1, 0, todo, Registering(MD, RUnlock(true)), [])
  {
    ReachNext(s, GO);
    s' := Next(s, 0, GO);
  }

  lemma RegisterUnlock(s: State, todo: seq<Call>) returns (s': State)
    requires Reached(s) && todo != [] && Shape(s, WRITE, 1, 0, todo, Registering(MD, RUnlock(true)), [])
    ensures Reached(s') && Shape(s', OPEN, 1, 0, todo, Leave(Success), [])
  {
    ReachNext(s, GO);
    s' := Next(s, 0, GO);
  }

  lemma RegisterLeave(s: State, rest: seq<Call>) returns (s': State)
    requires Reached(s) && Shape(s, OPEN, 1, 0, [Register(MD)] + rest, Leave(Success), [])
    ensures Reached(s') && Loaded(s', 0, rest)
  {
    ReachNext(s, GO);
    s' := Next(s, 0, GO);
    assert ([Register(MD)] + rest)[1..] == rest;
  }

  lemma Registered(n: nat) returns (s: State)
    ensures Reached(s) && Loaded(s, 0, Allocs(n))
  {
    var rest := Allocs(n);
    var todo := [Register(MD)] + rest;
    var s1 := RegisterBegin(rest);
    var s2 := RegisterLock(s1, todo);
    var s3 := RegisterScan(s2, todo);
    var s4 := RegisterSet(s3, todo);
    var s5 := RegisterLink(s4, todo);
    var s6 := RegisterUnlock(s5, todo);
    s := RegisterLeave(s6, rest);
  }

  lemma UnregisterBegin(s: State, k: nat) returns (s': State)
    requires Reached(s) && Loaded(s, k, [Unregister(MD)])
    ensures Reached(s') && Shape(s', OPEN, AsLong(1 + k), k, [Unregister(MD)], Unregistering(MD, ULock), [])
  {
    ReachNext(s, GO);
    s' := Next(s, 0, GO);
  }

  lemma UnregisterLock(s: State, k: nat) returns (s': State)
    requires Reached(s) && Shape(s, OPEN, AsLong(1 + k), k, [Unregister(MD)], Unregistering(MD, ULock), [])
    ensures Reached(s') && Shape(s', WRITE, AsLong(1 + k), k, [Unregister(MD)], Unregistering(MD, UCount), [])
  {
    ReachNext(s, GO);
    s' := Next(s, 0, GO);
  }

  lemma UnregisterCheck(s: State, k: nat) returns (s': State)
    requires Reached(s) && Shape(s, WRITE, AsLong(1 + k), k, [Unregister(MD)], Unregistering(MD, UCount), [])
    requires k % TWO_32 == 0
    ensures Reached(s') && Shape(s', WRITE, AsLong(1 + k), k, [Unregister(MD)], Unregistering(MD, UUnlink), [])
  {
    NarrowedOne(k);
    ReachNext(s, GO);
    s' := Next(s, 0, GO);
  }

  lemma UnregisterUnlink(s: State, k: nat) returns (s': State)
    requires Reached(s) && Shape(s, WRITE, AsLong(1 + k), k, [Unregister(MD)], Unregistering(MD, UUnlink), [])
    ensures Reached(s') && s'.live[MD] == k && MD !in At(s', HASHES).ring
  {
    ReachNext(s, GO);
    s' := Next(s, 0, GO);
    assert At(s', HASHES).ring == Without([MD], MD);
    WithoutFacts([MD], MD);
  }

  /** With 2^32 contexts alive a run unlinks their type: the guard in the safety theorems is needed. */
  lemma UnlinkedWhileHeld() returns (s: State)
    ensures Reached(s)
    ensures s.live[MD] == TWO_32
    ensures MD !in At(s, RegOf(MD)).ring
  {
    var s0 := Registered(TWO_32);
    var s1 := Allocate(s0, 0, TWO_32);
    var s2 := UnregisterBegin(s1, TWO_32);
    var s3 := UnregisterLock(s2, TWO_32);
    var s4 := UnregisterCheck(s3, TWO_32);
    s := UnregisterUnlink(s4, TWO_32);
  }
}
