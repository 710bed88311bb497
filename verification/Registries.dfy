/**
 * The registry code as one thread runs it: the intrusive list, the default and the counters are
 * updated in place. Every method is proved against the atomic map of Catalog, the same map that every
 * interleaved run is proved against in Simulation, and keeps the list threaded through the types equal
 * to the sequence that the step machine calls the ring.
 */
module Registries {
  import opened Options
  import opened Ring
  import opened TypeLists
  import opened Posix
  import opened Atomic
  import opened Catalog
  import opened Machine
  import opened Invariant
  import opened Preservation

  // ---------- how the operations change the map ----------

  lemma RegisterFacts(b: Book, t: TypeObj)
    requires Sound(b) && IdentOf(t) !in b.entries
    ensures var b' := After(b, ERegister(t, true));
            && Sound(b')
            && (forall u :: Linked(b', u) <==> u == t || Linked(b, u))
            && (forall u :: Linked(b, u) ==> b'.entries[IdentOf(u)] == b.entries[IdentOf(u)])
  {
  }

  /** The comparison in `register` picks the newest type. */
  lemma RegisterNewest(b: Book, t: TypeObj, newest: Option<TypeObj>)
    requires Sound(b) && IdentOf(t) !in b.entries && Versioned(RegOf(t))
    requires if newest.None? then !HasReg(b, RegOf(t)) else Newest(b, newest.value) && RegOf(newest.value) == RegOf(t)
    ensures var u := if newest.None? || VersionOf(newest.value) < VersionOf(t) then t else newest.value;
            Newest(After(b, ERegister(t, true)), u)
  {
    var b' := After(b, ERegister(t, true));
    RegisterFacts(b, t);
    assert Linked(b', t);
    if newest.Some? {
      assert IdentOf(t) != IdentOf(newest.value) && Linked(b', newest.value);
    }
  }

  lemma UnregisterFacts(b: Book, t: TypeObj)
    requires Sound(b)
    ensures var b' := After(b, EUnregister(t, true));
            && Sound(b')
            && (forall u :: Linked(b', u) <==> u != t && Linked(b, u))
            && (forall u :: Linked(b', u) ==> b'.entries[IdentOf(u)] == b.entries[IdentOf(u)])
            && (forall u :: u != t && Newest(b, u) ==> Newest(b', u))
  {
  }

  lemma BumpFacts(b: Book, t: TypeObj, delta: int)
    requires Sound(b) && Linked(b, t) && b.entries[IdentOf(t)].refs + delta >= 1
    ensures var b' := Bump(b, t, delta);
            && Sound(b')
            && (forall u :: Linked(b', u) <==> Linked(b, u))
            && (forall u :: Linked(b, u) ==>
                  b'.entries[IdentOf(u)].refs == b.entries[IdentOf(u)].refs + if u == t then delta else 0)
            && (forall u :: Newest(b, u) ==> Newest(b', u))
  {
  }

  /** Giving a reference back undoes taking it. */
  lemma BumpBack(b: Book, w: Want, t: TypeObj)
    requires Sound(b) && Linked(b, t)
    ensures var b' := After(b, EFind(w, Some(t))); Legal(b', EDrop(t)) && After(b', EDrop(t)) == b
  {
    var b' := After(b, EFind(w, Some(t)));
    assert After(b', EDrop(t)).entries == b.entries;
  }

  // ---------- the fields of a registry agree with the map ----------

  ghost predicate RingFits(ring: seq<TypeObj>, reg: Reg, b: Book) {
    && (forall t :: t in ring <==> Linked(b, t))
    && (forall j :: 0 <= j < |ring| ==> RegOf(ring[j]) == reg)
    && Distinct(ring)
  }

  ghost predicate CountsFit(counts: map<TypeObj, int64>, b: Book) {
    && b.known == counts.Keys
    && (forall t :: Linked(b, t) ==> t in counts && counts[t] == AsLong(b.entries[IdentOf(t)].refs))
    && (forall t :: t in counts && !Linked(b, t) ==> counts[t] == 1)
  }

  ghost predicate DefaultFits(newest: Option<TypeObj>, reg: Reg, b: Book) {
    Versioned(reg) ==>
      if newest.None? then !HasReg(b, reg) else Newest(b, newest.value) && RegOf(newest.value) == reg
  }

  ghost predicate Fits(ring: seq<TypeObj>, reg: Reg, newest: Option<TypeObj>, counts: map<TypeObj, int64>, b: Book) {
    Sound(b) && RingFits(ring, reg, b) && CountsFit(counts, b) && DefaultFits(newest, reg, b)
  }

  /** The default after t has been linked. */
  function Newer(newest: Option<TypeObj>, t: TypeObj): Option<TypeObj> {
    if Versioned(RegOf(t)) && (newest.None? || VersionOf(newest.value) < VersionOf(t)) then Some(t) else newest
  }

  lemma RegisterFits(ring: seq<TypeObj>, newest: Option<TypeObj>, counts: map<TypeObj, int64>, b: Book, t: TypeObj)
    requires Fits(ring, RegOf(t), newest, counts, b) && IdentOf(t) !in b.entries
    ensures Fits(ring + [t], RegOf(t), Newer(newest, t), counts[t := 1], After(b, ERegister(t, true)))
  {
    RegisterRing(ring, b, t);
    RegisterCounts(counts, b, t);
    if Versioned(RegOf(t)) {
      RegisterNewest(b, t, newest);
    }
  }

  lemma RegisterRing(ring: seq<TypeObj>, b: Book, t: TypeObj)
    requires Sound(b) && RingFits(ring, RegOf(t), b) && IdentOf(t) !in b.entries
    ensures Sound(After(b, ERegister(t, true))) && RingFits(ring + [t], RegOf(t), After(b, ERegister(t, true)))
  {
    RegisterFacts(b, t);
    forall j | 0 <= j < |ring|
      ensures LabelOf(ring[j]) != LabelOf(t)
    {
      assert ring[j] in ring && Linked(b, ring[j]);
    }
  }

  lemma RegisterCounts(counts: map<TypeObj, int64>, b: Book, t: TypeObj)
    requires Sound(b) && CountsFit(counts, b) && IdentOf(t) !in b.entries
    ensures CountsFit(counts[t := 1], After(b, ERegister(t, true)))
  {
    RegisterFacts(b, t);
    var b' := After(b, ERegister(t, true));
    assert b'.known == counts[t := 1].Keys;
    assert b'.entries[IdentOf(t)].refs == 1;
  }

  lemma UnlinkRing(ring: seq<TypeObj>, reg: Reg, b: Book, t: TypeObj)
    requires Sound(b) && RingFits(ring, reg, b)
    ensures RingFits(Without(ring, t), reg, After(b, EUnregister(t, true)))
  {
    UnregisterFacts(b, t);
    WithoutFacts(ring, t);
    WithoutDistinct(ring, t);
    var ring' := Without(ring, t);
    forall j | 0 <= j < |ring'|
      ensures RegOf(ring'[j]) == reg
    {
      assert ring'[j] in ring;
    }
  }

  lemma UnregisterFits(ring: seq<TypeObj>, reg: Reg, newest: Option<TypeObj>, counts: map<TypeObj, int64>, b: Book,
                       t: TypeObj)
    requires Fits(ring, reg, newest, counts, b)
    requires t in counts && counts[t] == 1 && (Versioned(reg) ==> newest != Some(t))
    ensures Fits(Without(ring, t), reg, newest, counts, After(b, EUnregister(t, true)))
  {
    UnregisterFacts(b, t);
    UnlinkRing(ring, reg, b, t);
  }

  /** The newest type stays; any other goes when its references, modulo 2^32, are down to the registration. */
  ghost predicate Unlinkable(b: Book, t: TypeObj) {
    && !Newest(b, t)
    && if Linked(b, t) then b.entries[IdentOf(t)].refs % TWO_32 == 1 else t in b.known
  }

  /**
   * The decision of `unregister`. The counter is read as an `int`, so it is the map's decision
   * for up to 2^32 references.
   */
  lemma UnregisterDecides(ring: seq<TypeObj>, reg: Reg, newest: Option<TypeObj>, counts: map<TypeObj, int64>,
                          b: Book, t: TypeObj)
    requires Fits(ring, reg, newest, counts, b) && RegOf(t) == reg
    ensures var ok := !(Versioned(reg) && newest == Some(t)) && AsInt(if t in counts then counts[t] else 0) == 1;
            && (ok <==> Unlinkable(b, t))
            && (Narrow(b, t) ==> Legal(b, EUnregister(t, ok)))
            && (Narrow(b, t) && ok ==> t in counts && counts[t] == 1)
  {
    CountReads(counts, b, t);
    NewestIsDefault(newest, reg, b, t);
  }

  /** At most 2^32 references to t, the registration included. */
  predicate Narrow(b: Book, t: TypeObj) {
    Linked(b, t) ==> b.entries[IdentOf(t)].refs <= TWO_32
  }

  /** What `unregister` reads in the counter. */
  lemma CountReads(counts: map<TypeObj, int64>, b: Book, t: TypeObj)
    requires Sound(b) && CountsFit(counts, b)
    ensures var count := if t in counts then counts[t] else 0;
            && (AsInt(count) == 1 <==>
                  if Linked(b, t) then b.entries[IdentOf(t)].refs % TWO_32 == 1 else t in b.known)
            && (Narrow(b, t) && AsInt(count) == 1 ==> count == 1)
  {
    if Linked(b, t) {
      LinkedReads(b.entries[IdentOf(t)].refs);
    }
  }

  lemma LinkedReads(refs: nat)
    requires refs >= 1
    ensures AsInt(AsLong(refs)) == 1 <==> refs % TWO_32 == 1
    ensures refs <= TWO_32 && AsInt(AsLong(refs)) == 1 ==> AsLong(refs) == 1
  {
    NarrowedOne(refs - 1);
    OnlyOne(refs);
  }

  lemma OnlyOne(refs: nat)
    requires refs >= 1
    ensures (refs - 1) % TWO_32 == 0 <==> refs % TWO_32 == 1
    ensures refs <= TWO_32 && refs % TWO_32 == 1 ==> refs == 1
  {
  }

  lemma EntryLinked(b: Book, id: Ident)
    requires Sound(b)
    ensures id in b.entries ==> Linked(b, b.entries[id].ty)
  {
  }

  lemma BumpFits(ring: seq<TypeObj>, reg: Reg, newest: Option<TypeObj>, counts: map<TypeObj, int64>, b: Book,
                 t: TypeObj, delta: int)
    requires Fits(ring, reg, newest, counts, b)
    requires Linked(b, t) && b.entries[IdentOf(t)].refs + delta >= 1
    ensures t in counts
    ensures Fits(ring, reg, newest, counts[t := AsLong((counts[t] as int) + delta)], Bump(b, t, delta))
  {
    BumpFacts(b, t, delta);
    AddWraps(b.entries[IdentOf(t)].refs, delta);
  }

  lemma NewestIsDefault(newest: Option<TypeObj>, reg: Reg, b: Book, t: TypeObj)
    requires DefaultFits(newest, reg, b) && RegOf(t) == reg
    ensures Newest(b, t) <==> Versioned(reg) && newest == Some(t)
  {
    assert Linked(b, t) ==> HasReg(b, reg);
  }

  lemma AnswerLegal(ring: seq<TypeObj>, newest: Option<TypeObj>, reg: Reg, counts: map<TypeObj, int64>, b: Book,
                    w: Want, found: Option<TypeObj>)
    requires Fits(ring, reg, newest, counts, b) && Registry(w) == reg
    requires if ByDefault(w) then found == newest
             else
               && (found.Some? <==> WantedIdent(w) in b.entries)
               && (found.Some? ==> found.value == b.entries[WantedIdent(w)].ty)
    ensures found == Answer(b, w)
    ensures found.Some? ==> Linked(b, found.value) && b.entries[IdentOf(found.value)].refs >= 1
  {
    assert Legal(b, EFind(w, found));
    OnlyAnswer(b, w, found);
  }

  // ---------- one registry ----------

  /** The map after a lookup. */
  ghost function Taken(b: Book, w: Want): Book
    requires Sound(b)
  {
    After(b, EFind(w, Answer(b, w)))
  }

  /** What a call returns that looks a type up and runs its code. */
  ghost function OpenOutcome(b: Book, w: Want, allocOk: bool): Outcome
    requires Sound(b)
  {
    if Answer(b, w).None? then Refused(ENOSYS) else if allocOk then Success else Failed
  }

  lemma TakenIs(b: Book, w: Want)
    requires Sound(b)
    ensures match Answer(b, w)
            case None => Taken(b, w) == b
            case Some(t) => Linked(b, t) && b.entries[IdentOf(t)].refs >= 1 && Taken(b, w) == Bump(b, t, 1)
  {
  }

  class TypeRegistry {
    const reg: Reg
    const types: TypeList               // alg_list, header_list, writer_list
    var newest: Option<TypeObj>
    var counts: map<TypeObj, int64>
    ghost var book: Book

    /** The fields agree with the map. That the list is well linked is `types.Threaded()`. */
    ghost predicate Valid()
      reads this, types
    {
      && types.nodes.Keys == counts.Keys
      && Fits(types.ring, reg, newest, counts, book)
    }

    constructor (r: Reg)
      ensures Valid() && types.Threaded() && reg == r && book == EMPTY
      ensures fresh(types) && fresh(types.Repr)
    {
      var list := new TypeList();
      reg, types := r, list;
      newest, counts := None, map[];
      book := EMPTY;
    }

    /** find_alg, cfe_header_find, cfe_filewriter_find */
    method Find(key: Label) returns (found: Option<TypeObj>)
      requires Valid() && types.Threaded()
      ensures found.Some? <==> Ident(reg, key) in book.entries
      ensures found.Some? ==> found.value == book.entries[Ident(reg, key)].ty
    {
      EntryLinked(book, Ident(reg, key));
      found := types.Search(key);
      if found.Some? {
        assert Linked(book, found.value);
      }
    }

    /** `node` is the list node embedded in t, which t keeps for good. */
    method Register(t: TypeObj, node: Node) returns (out: Outcome)
      requires Valid() && types.Threaded() && RegOf(t) == reg && types.Embeds(t, node)
      modifies this, types, types.Repr, node
      ensures Valid() && types.Threaded()
      ensures out == if !Complete(t) then Refused(EINVAL)
                     else if IdentOf(t) in old(book).entries then Refused(EBUSY)
                     else Success
      ensures book == if out == Success then After(old(book), ERegister(t, true)) else old(book)
      ensures types.ring == if out == Success then old(types.ring) + [t] else old(types.ring)
    {
      if !Complete(t) {
        return Refused(EINVAL);
      }
      var tmp := Find(LabelOf(t));
      if tmp.Some? {
        return Refused(EBUSY);
      }
      Accept(t, node);
      return Success;
    }

    /** Registration of a type whose key is free. */
    method Accept(t: TypeObj, node: Node)
      requires Valid() && types.Threaded() && RegOf(t) == reg && types.Embeds(t, node)
      requires IdentOf(t) !in book.entries
      modifies this, types, types.Repr, node
      ensures Valid() && types.Threaded()
      ensures book == After(old(book), ERegister(t, true)) && types.ring == old(types.ring) + [t]
    {
      RegisterFits(types.ring, newest, counts, book, t);
      Enter(t, node);
      assert types.nodes.Keys == counts.Keys;
    }

    /** Counter, list and default, in the source's order. */
    method Enter(t: TypeObj, node: Node)
      requires types.Threaded() && t !in types.ring && types.Embeds(t, node)
      modifies this, types, types.Repr, node
      ensures types.Threaded() && types.ring == old(types.ring) + [t] && types.nodes == old(types.nodes)[t := node]
      ensures counts == old(counts)[t := 1] && newest == Newer(old(newest), t)
      ensures book == After(old(book), ERegister(t, true))
    {
      counts := counts[t := 1];
      types.LinkTail(t, node);
      newest := Newer(newest, t);
      book := After(book, ERegister(t, true));
    }

    /** The checks of `unregister` under the write lock. */
    method MayUnlink(t: TypeObj) returns (ok: bool)
      requires Valid() && RegOf(t) == reg
      ensures ok <==> Unlinkable(book, t)
      ensures Narrow(book, t) ==> Legal(book, EUnregister(t, ok))
      ensures ok ==> t in types.nodes
      ensures ok && Narrow(book, t) ==>
                Fits(Without(types.ring, t), reg, newest, counts, After(book, EUnregister(t, true)))
    {
      UnregisterDecides(types.ring, reg, newest, counts, book, t);
      if Versioned(reg) && newest == Some(t) {
        return false;
      }
      var count: int64 := if t in counts then counts[t] else 0;
      if AsInt(count) != 1 {
        return false;
      }
      if Narrow(book, t) {
        UnregisterFits(types.ring, reg, newest, counts, book, t);
      }
      return true;
    }

    /** A type that is not linked any more is accepted again, and no link changes. */
    method Unregister(t: TypeObj) returns (out: Outcome)
      requires Valid() && types.Threaded() && RegOf(t) == reg
      modifies this`book, types`ring, types.Repr
      ensures out == Success || out == Refused(EBUSY)
      ensures out == Success <==> Unlinkable(old(book), t)
      ensures book == After(old(book), EUnregister(t, out == Success))
      ensures Narrow(old(book), t) ==> Valid() && Legal(old(book), EUnregister(t, out == Success))
      ensures types.Threaded()
      ensures types.ring == if out == Success then Without(old(types.ring), t) else old(types.ring)
      ensures !Linked(old(book), t) ==>
                forall x: Node :: x in types.Repr ==> x.next == old(x.next) && x.prev == old(x.prev)
    {
      var ok := MayUnlink(t);
      if !ok {
        return Refused(EBUSY);
      }
      Withdraw(t);
      return Success;
    }

    /** Unlinking a type that has passed the checks. */
    method Withdraw(t: TypeObj)
      requires types.Threaded() && Distinct(types.ring) && t in types.nodes && types.nodes.Keys == counts.Keys
      requires Narrow(book, t) ==> Fits(Without(types.ring, t), reg, newest, counts, After(book, EUnregister(t, true)))
      modifies this`book, types`ring, types.Repr
      ensures book == After(old(book), EUnregister(t, true))
      ensures Narrow(old(book), t) ==> Valid()
      ensures types.Threaded() && types.ring == Without(old(types.ring), t)
      ensures t !in old(types.ring) ==>
                forall x: Node :: x in types.Repr ==> x.next == old(x.next) && x.prev == old(x.prev)
    {
      types.Unlink(t);
      book := After(book, EUnregister(t, true));
      assert unchanged(this`newest, this`counts, types`nodes);
    }

    /** The search, or the default. */
    method Look(w: Want) returns (found: Option<TypeObj>)
      requires Valid() && types.Threaded() && Registry(w) == reg
      ensures found == Answer(book, w) && AnsweredBy(book, w, found)
    {
      if ByDefault(w) {
        found := newest;
      } else {
        found := Find(WantedLabel(w));
      }
      AnswerLegal(types.ring, newest, reg, counts, book, w, found);
      AnswerIsRight(book, w);
    }

    /** The lookup under the read lock: search or take the default, and count the reference. */
    method Ref(w: Want) returns (found: Option<TypeObj>)
      requires Valid() && types.Threaded() && Registry(w) == reg
      modifies this
      ensures Valid()
      ensures found == Answer(old(book), w) && book == Taken(old(book), w)
      ensures found.None? ==> book == old(book)
    {
      found := Look(w);
      TakenIs(book, w);
      if found.Some? {
        Count(found.value, 1);
      }
    }

    /** cfe_atomic_add */
    method Count(t: TypeObj, delta: int32)
      requires Valid() && Linked(book, t) && book.entries[IdentOf(t)].refs + delta >= 1
      modifies this
      ensures Valid() && book == Bump(old(book), t, delta)
    {
      BumpFits(types.ring, reg, newest, counts, book, t, delta);
      counts := counts[t := AsLong((counts[t] as int) + delta)];
      book := Bump(book, t, delta);
      assert unchanged(types, this`newest);
    }

    /** cfe_atomic_dec on a reference that the caller owns. */
    method Drop(t: TypeObj)
      requires Valid() && Legal(book, EDrop(t))
      modifies this
      ensures Valid()
      ensures book == After(old(book), EDrop(t))
    {
      Count(t, -1);
    }

    /** The same decrement on a reference taken when the map was b. */
    method GiveBack(t: TypeObj, ghost w: Want, ghost b: Book)
      requires Valid() && Sound(b) && Answer(b, w) == Some(t) && book == Taken(b, w)
      modifies this
      ensures Valid() && book == b
    {
      BumpBack(b, w, t);
      Drop(t);
    }

    /** cfe_cipher_alloc_ctx, cfe_hash_alloc_ctx, cfe_header_create: keep the reference if alloc succeeds. */
    method Open(w: Want, allocOk: bool) returns (out: Outcome, owned: Option<TypeObj>)
      requires Valid() && types.Threaded() && Registry(w) == reg
      modifies this
      ensures Valid()
      ensures out == OpenOutcome(old(book), w, allocOk)
      ensures owned == if out == Success then Answer(old(book), w) else None
      ensures book == if out == Success then Taken(old(book), w) else old(book)
    {
      var t := Ref(w);
      if t.None? {
        return Refused(ENOSYS), None;
      }
      if !allocOk {
        GiveBack(t.value, w, old(book));
        return Failed, None;
      }
      return Success, t;
    }

    /** cfe_pbkdf_derive and cfe_rand_get hold their type only while its code runs. */
    method Borrow(w: Want, argsOk: bool, useOk: bool) returns (out: Outcome)
      requires Valid() && types.Threaded() && Registry(w) == reg
      modifies this
      ensures Valid() && book == old(book)
      ensures out == if !argsOk then Refused(EINVAL) else OpenOutcome(old(book), w, useOk)
    {
      if !argsOk {
        return Refused(EINVAL);
      }
      var t := Ref(w);
      if t.None? {
        return Refused(ENOSYS);
      }
      GiveBack(t.value, w, old(book));
      return if useOk then Success else Failed;
    }
  }
}
