/** include/cfe/ref.h: a counted object that is released in the call that drops its last reference. */
module Refs {
  import opened Atomic

  /** The counted object. `released` counts the calls of its release function. */
  class CfeRef {
    const refcount: Counter
    var released: nat

    constructor ()
      ensures refcount.counter == 1 && released == 0 && fresh(refcount)
    {
      refcount := new Counter(1);
      released := 0;
    }

    method Get()
      modifies refcount
      ensures refcount.counter == AsLong(old(refcount.counter) + 1)
    {
      refcount.Add(1);
    }

    method Sub(count: int32) returns (last: bool)
      modifies this, refcount
      ensures refcount.counter == AsLong(old(refcount.counter) - count)
      ensures last <==> (old(refcount.counter) - count) % TWO_64 == 0
      ensures released == old(released) + if last then 1 else 0
    {
      last := refcount.SubAndTest(count);
      if last {
        released := released + 1;
      }
    }

    method Put() returns (last: bool)
      modifies this, refcount
      ensures refcount.counter == AsLong(old(refcount.counter) - 1)
      ensures last <==> (old(refcount.counter) - 1) % TWO_64 == 0
      ensures released == old(released) + if last then 1 else 0
    {
      last := Sub(1);
    }
  }

  // ---------- any number of holders, interleaved ----------

  /** A holder is `releasing` between its atomic decrement to zero and the release call. */
  datatype Holder = Holder(refs: nat, releasing: bool)

  datatype State = State(refcount: int64, holders: seq<Holder>, released: nat)

  datatype Step =
    | Get(i: nat)
    | Sub(i: nat, count: int32)
    | Hand(i: nat, j: nat)      // pass one reference on
    | Release(i: nat)

  /** Holders get and put only while they hold, and put only what they hold. */
  predicate Enabled(s: State, a: Step) {
    match a
    case Get(i) => i < |s.holders| && s.holders[i].refs > 0
    case Sub(i, count) => i < |s.holders| && s.holders[i].refs > 0 && 0 <= count <= s.holders[i].refs
    case Hand(i, j) => i < |s.holders| && j < |s.holders| && i != j && s.holders[i].refs > 0
    case Release(i) => i < |s.holders| && s.holders[i].releasing
  }

  function SetRefs(hs: seq<Holder>, i: nat, refs: nat): seq<Holder>
    requires i < |hs|
  {
    hs[i := hs[i].(refs := refs)]
  }

  function Next(s: State, a: Step): State
    requires Enabled(s, a)
  {
    match a
    case Get(i) => s.(refcount := AsLong(s.refcount + 1), holders := SetRefs(s.holders, i, s.holders[i].refs + 1))
    case Sub(i, count) =>
      var left := AsLong(s.refcount - count);
      s.(refcount := left,
         holders := s.holders[i := Holder(s.holders[i].refs - count, s.holders[i].releasing || left == 0)])
    case Hand(i, j) =>
      var hs := SetRefs(s.holders, i, s.holders[i].refs - 1);
      s.(holders := SetRefs(hs, j, hs[j].refs + 1))
    case Release(i) => s.(holders := s.holders[i := s.holders[i].(releasing := false)], released := s.released + 1)
  }

  function Total(hs: seq<Holder>): nat {
    if hs == [] then 0 else Total(hs[..|hs| - 1]) + hs[|hs| - 1].refs
  }

  function Releasing(hs: seq<Holder>): nat {
    if hs == [] then 0 else Releasing(hs[..|hs| - 1]) + if hs[|hs| - 1].releasing then 1 else 0
  }

  /** cfe_ref_init by the first of n + 1 holders. */
  function Start(n: nat): State {
    State(1, [Holder(1, false)] + seq(n, _ => Holder(0, false)), 0)
  }

  ghost predicate IsRun(ss: seq<State>, steps: seq<Step>) {
    && |ss| == |steps| + 1
    && (exists n :: ss[0] == Start(n))
    && forall k :: 0 <= k < |steps| ==> Enabled(ss[k], steps[k]) && ss[k + 1] == Next(ss[k], steps[k])
  }

  /** The release is due, or done, exactly once when no reference is left, and not before. */
  ghost predicate Inv(s: State) {
    && s.refcount == AsLong(Total(s.holders))
    && s.released + Releasing(s.holders) == if Total(s.holders) == 0 then 1 else 0
  }

  lemma {:induction false} Update(hs: seq<Holder>, i: nat, h: Holder)
    requires i < |hs|
    ensures Total(hs[i := h]) + hs[i].refs == Total(hs) + h.refs
    ensures Releasing(hs[i := h]) + (if hs[i].releasing then 1 else 0) == Releasing(hs) + (if h.releasing then 1 else 0)
    ensures Total(hs) >= hs[i].refs
    ensures hs[i].releasing ==> Releasing(hs) >= 1
  {
    var n := |hs| - 1;
    if i < n {
      assert hs[i := h][..n] == hs[..n][i := h];
      Update(hs[..n], i, h);
    } else {
      assert hs[i := h][..n] == hs[..n];
    }
  }

  /** A `sub` that leaves a positive multiple of 2^64 references, which the counter shows as zero. */
  predicate Wraps(s: State, a: Step) {
    a.Sub? && Total(s.holders) > a.count && (Total(s.holders) - a.count) % TWO_64 == 0
  }

  /** A run without such a step before state n. */
  ghost predicate Unwrapped(ss: seq<State>, steps: seq<Step>, n: nat) {
    IsRun(ss, steps) && n < |ss| && forall k :: 0 <= k < n ==> !Wraps(ss[k], steps[k])
  }

  /** The counter reaches zero exactly when a multiple of 2^64 references is left. */
  lemma SubZero(total: nat, count: nat)
    requires count <= total
    ensures AsLong(AsLong(total) - count) == AsLong(total - count)
    ensures AsLong(total - count) == 0 <==> (total - count) % TWO_64 == 0
  {
    AddWraps(total, 0 - count);
    WrappedZero(total - count);
  }

  lemma SubOk(s: State, i: nat, count: int32)
    requires Inv(s) && Enabled(s, Sub(i, count))
    ensures Inv(Next(s, Sub(i, count))) <==> !Wraps(s, Sub(i, count))
  {
    var left := AsLong(s.refcount - count);
    Update(s.holders, i, Holder(s.holders[i].refs - count, s.holders[i].releasing || left == 0));
    SubZero(Total(s.holders), count);
  }

  lemma GetOk(s: State, i: nat)
    requires Inv(s) && Enabled(s, Get(i))
    ensures Inv(Next(s, Get(i)))
  {
    Update(s.holders, i, s.holders[i].(refs := s.holders[i].refs + 1));
    AddWraps(Total(s.holders), 1);
  }

  lemma HandOk(s: State, i: nat, j: nat)
    requires Inv(s) && Enabled(s, Hand(i, j))
    ensures Inv(Next(s, Hand(i, j)))
  {
    var hs := SetRefs(s.holders, i, s.holders[i].refs - 1);
    Update(s.holders, i, hs[i]);
    Update(hs, j, hs[j].(refs := hs[j].refs + 1));
  }

  lemma ReleaseOk(s: State, i: nat)
    requires Inv(s) && Enabled(s, Release(i))
    ensures Inv(Next(s, Release(i)))
  {
    Update(s.holders, i, s.holders[i].(releasing := false));
  }

  lemma StepOk(s: State, a: Step)
    requires Inv(s) && Enabled(s, a)
    ensures Inv(Next(s, a)) <==> !Wraps(s, a)
  {
    match a
    case Get(i) => GetOk(s, i);
    case Sub(i, count) => SubOk(s, i, count);
    case Hand(i, j) => HandOk(s, i, j);
    case Release(i) => ReleaseOk(s, i);
  }

  lemma {:induction false} Idle(n: nat)
    ensures var hs := [Holder(1, false)] + seq(n, _ => Holder(0, false)); Total(hs) == 1 && Releasing(hs) == 0
  {
    var hs := [Holder(1, false)] + seq(n, _ => Holder(0, false));
    if n == 0 {
      assert hs[..0] == [];
    } else {
      Idle(n - 1);
      assert hs[..n] == [Holder(1, false)] + seq(n - 1, _ => Holder(0, false));
    }
  }

  lemma {:induction false} RunOk(ss: seq<State>, steps: seq<Step>, k: nat)
    requires Unwrapped(ss, steps, k)
    ensures Inv(ss[k])
  {
    if k == 0 {
      var n :| ss[0] == Start(n);
      Idle(n);
    } else {
      RunOk(ss, steps, k - 1);
      StepOk(ss[k - 1], steps[k - 1]);
    }
  }

  lemma {:induction false} FirstWrap(ss: seq<State>, steps: seq<Step>, n: nat) returns (k: nat)
    requires IsRun(ss, steps) && n < |ss| && !Unwrapped(ss, steps, n)
    ensures k < n && Unwrapped(ss, steps, k) && Wraps(ss[k], steps[k])
  {
    if Unwrapped(ss, steps, n - 1) {
      k := n - 1;
    } else {
      k := FirstWrap(ss, steps, n - 1);
    }
  }

  /**
   * The exact condition, for every run: release is due or done exactly when no reference is left, if
   * and only if no `sub` ever leaves a positive multiple of 2^64 references.
   */
  lemma WrapIsExact(ss: seq<State>, steps: seq<Step>, n: nat)
    requires IsRun(ss, steps) && n < |ss|
    ensures (forall k :: 0 <= k <= n ==> Inv(ss[k])) <==> Unwrapped(ss, steps, n)
  {
    if Unwrapped(ss, steps, n) {
      forall k | 0 <= k <= n
        ensures Inv(ss[k])
      {
        RunOk(ss, steps, k);
      }
    } else {
      var k := FirstWrap(ss, steps, n);
      RunOk(ss, steps, k);
      StepOk(ss[k], steps[k]);
      assert !Inv(ss[k + 1]);
    }
  }

  lemma {:induction false} Somebody(hs: seq<Holder>)
    requires Total(hs) > 0 || Releasing(hs) > 0
    ensures exists i :: 0 <= i < |hs| && (hs[i].refs > 0 || hs[i].releasing)
  {
    var n := |hs| - 1;
    if hs[n].refs == 0 && !hs[n].releasing {
      Somebody(hs[..n]);
      var i :| 0 <= i < n && (hs[..n][i].refs > 0 || hs[..n][i].releasing);
      assert hs[i].refs > 0 || hs[i].releasing;
    }
  }

  /**
   * In every interleaving the object is released at most once; it has been, or is about to be,
   * released exactly when no reference is left; and it has been released exactly when no holder
   * can touch it any more.
   */
  lemma ReleasedExactlyOnce(ss: seq<State>, steps: seq<Step>, k: nat)
    requires Unwrapped(ss, steps, k)
    ensures ss[k].released <= 1
    ensures ss[k].released + Releasing(ss[k].holders) == 1 <==> Total(ss[k].holders) == 0
    ensures ss[k].released == 1 <==> forall a :: !Enabled(ss[k], a)
  {
    RunOk(ss, steps, k);
    if ss[k].released == 0 {
      Somebody(ss[k].holders);
      var i :| 0 <= i < |ss[k].holders| && (ss[k].holders[i].refs > 0 || ss[k].holders[i].releasing);
      assert Enabled(ss[k], Get(i)) || Enabled(ss[k], Release(i));
    }
    if ss[k].released == 1 {
      forall a
        ensures !Enabled(ss[k], a)
      {
        if a.i < |ss[k].holders| {
          Update(ss[k].holders, a.i, ss[k].holders[a.i]);
        }
      }
    }
  }

  /**
   * A `sub` sends its caller to the release function exactly when it leaves a multiple of 2^64
   * references; unless it wraps, exactly when it drops the last ones.
   */
  lemma LastSubReleases(ss: seq<State>, steps: seq<Step>, k: nat)
    requires Unwrapped(ss, steps, k) && k < |steps| && steps[k].Sub?
    ensures var total, count := Total(ss[k].holders), steps[k].count;
            && (ss[k + 1].holders[steps[k].i].releasing <==> (total - count) % TWO_64 == 0)
            && (!Wraps(ss[k], steps[k]) ==> (ss[k + 1].holders[steps[k].i].releasing <==> count == total))
  {
    RunOk(ss, steps, k);
    SubResult(ss[k], steps[k].i, steps[k].count);
  }

  lemma SubResult(s: State, i: nat, count: int32)
    requires Inv(s) && Enabled(s, Sub(i, count))
    ensures Next(s, Sub(i, count)).holders[i].releasing <==> (Total(s.holders) - count) % TWO_64 == 0
    ensures !Wraps(s, Sub(i, count)) ==>
              (Next(s, Sub(i, count)).holders[i].releasing <==> count == Total(s.holders))
  {
    var left := AsLong(s.refcount - count);
    Update(s.holders, i, Holder(s.holders[i].refs - count, s.holders[i].releasing || left == 0));
    SubZero(Total(s.holders), count);
  }

  /** Fewer than 2^64 references are enough. */
  lemma BoundedNeverWraps(ss: seq<State>, steps: seq<Step>, n: nat)
    requires IsRun(ss, steps) && n < |ss| && forall k :: 0 <= k < n ==> Total(ss[k].holders) < TWO_64
    ensures Unwrapped(ss, steps, n)
  {
    forall k | 0 <= k < n
      ensures !Wraps(ss[k], steps[k])
    {
      assert Total(ss[k].holders) < TWO_64;
    }
  }

  /** The only holder takes n more references. */
  lemma {:induction false} Taking(n: nat) returns (ss: seq<State>, steps: seq<Step>)
    ensures IsRun(ss, steps) && |ss| > 0
    ensures ss[|ss| - 1] == State(AsLong(n + 1), [Holder(n + 1, false)], 0)
  {
    if n == 0 {
      ss, steps := [Start(0)], [];
      assert Start(0).holders == [Holder(1, false)];
    } else {
      var before, taken := Taking(n - 1);
      var s := before[|before| - 1];
      AddWraps(n, 1);
      assert Enabled(s, Get(0)) && Next(s, Get(0)) == State(AsLong(n + 1), [Holder(n + 1, false)], 0);
      ss, steps := before + [Next(s, Get(0))], taken + [Get(0)];
      Extended(before, taken, Get(0));
    }
  }

  lemma Extended(ss: seq<State>, steps: seq<Step>, a: Step)
    requires IsRun(ss, steps) && Enabled(ss[|ss| - 1], a)
    ensures IsRun(ss + [Next(ss[|ss| - 1], a)], steps + [a])
  {
    var ss', steps' := ss + [Next(ss[|ss| - 1], a)], steps + [a];
    assert ss'[0] == ss[0];
    forall k | 0 <= k < |steps'|
      ensures Enabled(ss'[k], steps'[k]) && ss'[k + 1] == Next(ss'[k], steps'[k])
    {
      if k < |steps| {
        assert ss'[k] == ss[k] && ss'[k + 1] == ss[k + 1] && steps'[k] == steps[k];
      }
    }
  }

  /** With 2^64 references left the object is sent to its release function: the condition is needed. */
  lemma ReleasedWhileHeld() returns (ss: seq<State>, steps: seq<Step>)
    ensures IsRun(ss, steps) && |ss| > 0
    ensures var s := ss[|ss| - 1]; s.holders == [Holder(TWO_64, true)]
  {
    ss, steps := Taking(TWO_64);
    var s := ss[|ss| - 1];
    SubZero(TWO_64 + 1, 1);
    Extended(ss, steps, Sub(0, 1));
    ss, steps := ss + [Next(s, Sub(0, 1))], steps + [Sub(0, 1)];
  }
}
