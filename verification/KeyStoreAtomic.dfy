/**
 * The key store behaves as one atomic map from descriptions to payloads: replacing a key is one
 * step, and a read returns the payload mapped at its lookup whatever happens afterwards.
 */
module KeyStoreAtomic {
  import opened Options
  import opened Posix
  import opened KeyStore

  type Store = map<string, Bytes>

  function Lookup(m: Store, key: string): Option<Bytes> {
    if key in m then Some(m[key]) else None
  }

  /** The map answers e. */
  predicate Legal(m: Store, e: Event) {
    e.ERead? ==> e.found == Lookup(m, e.key)
  }

  function After(m: Store, e: Event): Store {
    match e
    case EAdd(key, bytes) => m[key := bytes]
    case ERemove(key) => m - {key}
    case ERead(_, _) => m
  }

  function AfterAll(es: seq<Event>): Store {
    if es == [] then map[] else After(AfterAll(es[..|es| - 1]), es[|es| - 1])
  }

  predicate LegalHistory(es: seq<Event>) {
    es == [] || (LegalHistory(es[..|es| - 1]) && Legal(AfterAll(es[..|es| - 1]), es[|es| - 1]))
  }

  /** A thread has removed the old value of key and is about to insert d. */
  ghost predicate Inserting(s: State, key: string, d: Data) {
    exists j :: 0 <= j < |s.threads| && s.threads[j].pc == AddInsert(key, d)
  }

  /** What the next holder of the lock will find under key. */
  ghost predicate Shows(s: State, key: string, bytes: Bytes) {
    (key in s.dict && s.dict[key].bytes == bytes) || exists d :: Inserting(s, key, d) && d.bytes == bytes
  }

  ghost predicate Represents(s: State, m: Store) {
    forall key, bytes :: Lookup(m, key) == Some(bytes) <==> Shows(s, key, bytes)
  }

  /** Inside a section nobody but the thread itself can be between removing and inserting. */
  lemma NotInserting(s: State, i: nat, key: string, d: Data)
    requires LockOk(s) && i < |s.threads| && SectionOf(s.threads[i].pc) != Outside
    requires s.threads[i].pc != AddInsert(key, d)
    ensures !Inserting(s, key, d)
  {
    assert SectionAt(s, i) == SectionOf(s.threads[i].pc);
    forall j | 0 <= j < |s.threads|
      ensures s.threads[j].pc != AddInsert(key, d)
    {
      if j != i {
        Exclusion(s, j, i);
        assert SectionAt(s, j) == SectionOf(s.threads[j].pc);
      }
    }
  }

  lemma InsertingAfter(s: State, i: nat, m: Move, key: string, d: Data)
    requires i < |s.threads|
    ensures m.th.pc == AddInsert(key, d) ==> Inserting(Effect(s, i, m), key, d)
    ensures Inserting(s, key, d) && s.threads[i].pc != AddInsert(key, d) ==> Inserting(Effect(s, i, m), key, d)
    ensures Inserting(Effect(s, i, m), key, d) ==> m.th.pc == AddInsert(key, d) || Inserting(s, key, d)
  {
    var s' := Effect(s, i, m);
    assert s'.threads == s.threads[i := m.th];
    assert m.th.pc == AddInsert(key, d) ==> s'.threads[i].pc == AddInsert(key, d);
    if j :| 0 <= j < |s.threads| && j != i && s.threads[j].pc == AddInsert(key, d) {
      assert s'.threads[j].pc == AddInsert(key, d);
    }
    if j :| 0 <= j < |s'.threads| && j != i && s'.threads[j].pc == AddInsert(key, d) {
      assert s.threads[j].pc == AddInsert(key, d);
    }
  }

  lemma DictAfter(s: State, i: nat, m: Move)
    requires i < |s.threads|
    ensures Effect(s, i, m).dict ==
              if m.act.RemoveValue? then s.dict - {m.act.key}
              else if m.act.AddValue? && m.act.key !in s.dict then s.dict[m.act.key := m.act.d]
              else s.dict
  {
  }

  /** Where an insertion begins and ends. */
  lemma InsertCode(s: State, th: Thread, c: Choice)
    ensures var m := Code(s, th, c);
            && (m.th.pc.AddInsert? <==> th.pc.AddRemove?)
            && (th.pc.AddRemove? ==> m.th.pc == AddInsert(th.pc.key, th.pc.d) && m.act == Act.RemoveValue(th.pc.key)
                                     && m.ev == Some(EAdd(th.pc.key, th.pc.d.bytes)))
            && (th.pc.AddInsert? ==> m.act == AddValue(th.pc.key, th.pc.d) && m.ev == None)
            && (th.pc.RemoveValue? ==> m.act == Act.RemoveValue(th.pc.key) && m.ev == Some(ERemove(th.pc.key)))
            && (!th.pc.AddRemove? && !th.pc.AddInsert? && !th.pc.RemoveValue? ==>
                  !m.act.RemoveValue? && !m.act.AddValue? && (m.ev.Some? ==> m.ev.value.ERead?))
  {
  }

  function Changed(m: Store, ev: Option<Event>): Store {
    match ev
    case None => m
    case Some(e) => After(m, e)
  }

  lemma ReadLegal(s: State, m: Store, i: nat, c: Choice)
    requires Inv(s) && Represents(s, m) && Enabled(s, i) && s.threads[i].pc.ReadGet?
    ensures var ev := Code(s, s.threads[i], c).ev; ev.Some? && Legal(m, ev.value)
  {
    var key := s.threads[i].pc.key;
    forall d
      ensures !Inserting(s, key, d)
    {
      NotInserting(s, i, key, d);
    }
    assert key in s.dict ==> Shows(s, key, s.dict[key].bytes);
    assert Lookup(m, key).Some? ==> Shows(s, key, Lookup(m, key).value);
  }

  lemma ShowsAfter(s: State, i: nat, c: Choice, m: Store, key: string, bytes: Bytes)
    requires Inv(s) && Enabled(s, i) && Represents(s, m)
    ensures Shows(Next(s, i, c), key, bytes) <==> Lookup(Changed(m, Code(s, s.threads[i], c).ev), key) == Some(bytes)
  {
    var th, mv, s' := s.threads[i], Code(s, s.threads[i], c), Next(s, i, c);
    InsertCode(s, th, c);
    DictAfter(s, i, mv);
    assert Lookup(m, key) == Some(bytes) <==> Shows(s, key, bytes);
    assert SharedOk(s, th.pc);
    forall d
      ensures Inserting(s', key, d) <==>
                mv.th.pc == AddInsert(key, d) || (Inserting(s, key, d) && th.pc != AddInsert(key, d))
    {
      InsertingAfter(s, i, mv, key, d);
      if th.pc == AddInsert(key, d) {
        NotTwice(s, i, mv, key, d);
      }
    }
    forall d | th.pc.AddRemove? || th.pc.RemoveValue? || (th.pc.AddInsert? && th.pc != AddInsert(key, d))
      ensures !Inserting(s, key, d)
    {
      NotInserting(s, i, key, d);
    }
    if th.pc.AddInsert? && th.pc.key == key {
      assert Inserting(s, key, th.pc.d);
    }
    if th.pc.AddRemove? && th.pc.key == key {
      assert Inserting(s', key, th.pc.d);
    }
  }

  lemma NotTwice(s: State, i: nat, m: Move, key: string, d: Data)
    requires LockOk(s) && i < |s.threads| && s.threads[i].pc == AddInsert(key, d) && !m.th.pc.AddInsert?
    ensures !Inserting(Effect(s, i, m), key, d)
  {
    assert SectionAt(s, i) == Writing;
    forall j | 0 <= j < |s.threads|
      ensures Effect(s, i, m).threads[j].pc != AddInsert(key, d)
    {
      if j != i {
        Exclusion(s, i, j);
        assert SectionAt(s, j) == SectionOf(s.threads[j].pc);
      }
    }
  }

  /** Every step performs on the atomic map the operation it is labelled with, or none. */
  lemma Simulates(s: State, m: Store, i: nat, c: Choice)
    requires Inv(s) && Represents(s, m) && Enabled(s, i)
    ensures var ev := Code(s, s.threads[i], c).ev;
            (ev.Some? ==> Legal(m, ev.value)) && Represents(Next(s, i, c), Changed(m, ev))
  {
    InsertCode(s, s.threads[i], c);
    if s.threads[i].pc.ReadGet? {
      ReadLegal(s, m, i, c);
    } else {
      ReadCode(s, s.threads[i], c);
    }
    forall key, bytes
      ensures Lookup(Changed(m, Code(s, s.threads[i], c).ev), key) == Some(bytes) <==> Shows(Next(s, i, c), key, bytes)
    {
      ShowsAfter(s, i, c, m, key, bytes);
    }
  }

  lemma ReadCode(s: State, th: Thread, c: Choice)
    requires !th.pc.ReadGet?
    ensures var ev := Code(s, th, c).ev; ev.Some? ==> !ev.value.ERead?
  {
  }

  function EventOf(s: State, p: Pick): Option<Event>
    requires Enabled(s, p.i)
  {
    Code(s, s.threads[p.i], p.c).ev
  }

  function Trace(ss: seq<State>, ps: seq<Pick>, n: nat): seq<Event>
    requires n <= |ps| < |ss|
    requires forall k :: 0 <= k < n ==> Enabled(ss[k], ps[k].i)
  {
    if n == 0 then [] else
      assert Enabled(ss[n - 1], ps[n - 1].i);
      var ev := EventOf(ss[n - 1], ps[n - 1]);
      Trace(ss, ps, n - 1) + if ev.Some? then [ev.value] else []
  }

  lemma AfterAllAppend(es: seq<Event>, e: Event)
    ensures AfterAll(es + [e]) == After(AfterAll(es), e)
    ensures LegalHistory(es + [e]) <==> LegalHistory(es) && Legal(AfterAll(es), e)
  {
    assert (es + [e])[..|es|] == es;
  }

  /** Every run of the key store is simulated by a legal sequential history of the atomic map. */
  lemma {:induction false} Linearizable(ss: seq<State>, ps: seq<Pick>, n: nat)
    requires IsRun(ss, ps) && n <= |ps|
    ensures LegalHistory(Trace(ss, ps, n))
    ensures Represents(ss[n], AfterAll(Trace(ss, ps, n)))
  {
    if n == 0 {
      var k :| ss[0] == Start(k);
      assert forall key, d :: !Inserting(ss[0], key, d);
    } else {
      Linearizable(ss, ps, n - 1);
      RunOk(ss, ps, n - 1);
      var m, ev := AfterAll(Trace(ss, ps, n - 1)), EventOf(ss[n - 1], ps[n - 1]);
      Simulates(ss[n - 1], m, ps[n - 1].i, ps[n - 1].c);
      if ev.Some? {
        AfterAllAppend(Trace(ss, ps, n - 1), ev.value);
      } else {
        assert Trace(ss, ps, n - 1) + [] == Trace(ss, ps, n - 1);
      }
    }
  }
}
