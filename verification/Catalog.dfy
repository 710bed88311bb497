/**
 * The six type registries as their callers see them: one atomic map from identity
 * (registry and key) to the registered type and its reference count.
 * The registry code is proved against this map, both run by one thread (Registries.dfy)
 * and run by any number of threads one memory access at a time (Simulation.dfy).
 */
module Catalog {
  import opened Options
  import opened Atomic

  datatype Algo = Cipher | Hash | Pbkdf | Rand

  datatype Reg = AlgoReg(algo: Algo) | HeaderReg | WriterReg

  /**
   * A type object. `id` stands for its address, so that two objects with one key stay distinct.
   * `complete` says that the fields `register` insists on are filled in.
   */
  datatype TypeObj =
    | AlgoType(id: nat, algo: Algo, name: string, complete: bool)
    | HeaderType(id: nat, v16: uint16)
    | WriterType(id: nat, v32: uint32)

  datatype Label = Name(name: string) | Version(version: nat)

  datatype Ident = Ident(reg: Reg, key: Label)

  function RegOf(t: TypeObj): Reg {
    match t
    case AlgoType(_, algo, _, _) => AlgoReg(algo)
    case HeaderType(_, _) => HeaderReg
    case WriterType(_, _) => WriterReg
  }

  function LabelOf(t: TypeObj): Label {
    match t
    case AlgoType(_, _, name, _) => Name(name)
    case HeaderType(_, v) => Version(v)
    case WriterType(_, v) => Version(v)
  }

  function IdentOf(t: TypeObj): Ident {
    Ident(RegOf(t), LabelOf(t))
  }

  function VersionOf(t: TypeObj): nat {
    match t
    case AlgoType(_, _, _, _) => 0
    case HeaderType(_, v) => v
    case WriterType(_, v) => v
  }

  /** The version field of u is smaller than that of t, in one registry. */
  predicate Older(u: TypeObj, t: TypeObj) {
    || (u.HeaderType? && t.HeaderType? && u.v16 < t.v16)
    || (u.WriterType? && t.WriterType? && u.v32 < t.v32)
  }

  predicate Complete(t: TypeObj) {
    t.AlgoType? ==> t.complete
  }

  /** Header and writer registries keep a default type. */
  predicate Versioned(reg: Reg) {
    !reg.AlgoReg?
  }

  /** What a lookup asks for. Versions arrive as a C `int`. */
  datatype Want =
    | WantAlgo(algo: Algo, name: string)
    | WantHeader(version: int32)
    | WantWriter(version: int32)

  function Registry(w: Want): Reg {
    match w
    case WantAlgo(algo, _) => AlgoReg(algo)
    case WantHeader(_) => HeaderReg
    case WantWriter(_) => WriterReg
  }

  /** The key searched for: an `int` is narrowed to `uint16_t` or converted to `unsigned`. */
  function WantedLabel(w: Want): Label {
    match w
    case WantAlgo(_, name) => Name(name)
    case WantHeader(v) => Version(v % TWO_16)
    case WantWriter(v) => Version(v % TWO_32)
  }

  function WantedIdent(w: Want): Ident {
    Ident(Registry(w), WantedLabel(w))
  }

  /** CFE_HEADER_VERSION_DEFAULT and CFE_FILEWRITER_VERSION_DEFAULT. */
  predicate ByDefault(w: Want) {
    !w.WantAlgo? && w.version == -1
  }

  /** t is what w asks for by its fields: the name itself, or the version up to the conversion of an `int`. */
  predicate Asked(w: Want, t: TypeObj) {
    match w
    case WantAlgo(algo, name) => t.AlgoType? && t.algo == algo && t.name == name
    case WantHeader(v) => t.HeaderType? && (t.v16 - v) % TWO_16 == 0
    case WantWriter(v) => t.WriterType? && (t.v32 - v) % TWO_32 == 0
  }

  /**
   * found is the right answer to w among the types that are there. Version -1 asks for the largest one,
   * every other version and every name for itself.
   */
  ghost predicate Answered(there: TypeObj -> bool, w: Want, found: Option<TypeObj>) {
    match found
    case Some(t) =>
      && there(t)
      && (w == WantHeader(-1) ==> t.HeaderType? && forall u :: there(u) && u.HeaderType? && u != t ==> u.v16 < t.v16)
      && (w == WantWriter(-1) ==> t.WriterType? && forall u :: there(u) && u.WriterType? && u != t ==> u.v32 < t.v32)
      && (w != WantHeader(-1) && w != WantWriter(-1) ==> Asked(w, t))
      && forall u :: there(u) && Asked(w, u) ==> u == t
    case None =>
      forall u :: there(u) ==>
        && (w == WantHeader(-1) ==> !u.HeaderType?)
        && (w == WantWriter(-1) ==> !u.WriterType?)
        && !Asked(w, u)
  }

  // ---------- the atomic map ----------

  datatype Entry = Entry(ty: TypeObj, refs: int)

  /** `known` holds the types that were ever registered: their counters read 1 once unlinked. */
  datatype Book = Book(entries: map<Ident, Entry>, known: set<TypeObj>)

  const EMPTY := Book(map[], {})

  predicate Linked(b: Book, t: TypeObj) {
    IdentOf(t) in b.entries && b.entries[IdentOf(t)].ty == t
  }

  ghost predicate Newest(b: Book, t: TypeObj) {
    && Versioned(RegOf(t))
    && Linked(b, t)
    && forall u :: Linked(b, u) && RegOf(u) == RegOf(t) && u != t ==> Older(u, t)
  }

  /** One atomic operation, with the answer it gave. */
  datatype Event =
    | ERegister(t: TypeObj, ok: bool)
    | EUnregister(t: TypeObj, ok: bool)
    | EFind(want: Want, found: Option<TypeObj>)
    | EDrop(t: TypeObj)

  /** The book answers e. */
  ghost predicate Legal(b: Book, e: Event) {
    match e
    case ERegister(t, ok) => ok <==> IdentOf(t) !in b.entries
    case EUnregister(t, ok) =>
      ok <==> if Linked(b, t) then b.entries[IdentOf(t)].refs == 1 && !Newest(b, t) else t in b.known
    case EFind(w, None) =>
      if ByDefault(w) then forall t :: Linked(b, t) ==> RegOf(t) != Registry(w)
      else WantedIdent(w) !in b.entries
    case EFind(w, Some(t)) =>
      && Linked(b, t)
      && RegOf(t) == Registry(w)
      && if ByDefault(w) then Newest(b, t) else LabelOf(t) == WantedLabel(w)
    case EDrop(t) => Linked(b, t) && b.entries[IdentOf(t)].refs > 1
  }

  function Bump(b: Book, t: TypeObj, delta: int): Book
    requires Linked(b, t)
  {
    b.(entries := b.entries[IdentOf(t) := Entry(t, b.entries[IdentOf(t)].refs + delta)])
  }

  /** The book after e. */
  function After(b: Book, e: Event): Book {
    match e
    case ERegister(t, true) => Book(b.entries[IdentOf(t) := Entry(t, 1)], b.known + {t})
    case EUnregister(t, true) => if Linked(b, t) then b.(entries := b.entries - {IdentOf(t)}) else b
    case EFind(_, Some(t)) => if Linked(b, t) then Bump(b, t, 1) else b
    case EDrop(t) => if Linked(b, t) then Bump(b, t, -1) else b
    case _ => b
  }

  function AfterAll(b: Book, es: seq<Event>): Book {
    if es == [] then b else After(AfterAll(b, es[..|es| - 1]), es[|es| - 1])
  }

  ghost predicate LegalHistory(b: Book, es: seq<Event>) {
    es == [] || (LegalHistory(b, es[..|es| - 1]) && Legal(AfterAll(b, es[..|es| - 1]), es[|es| - 1]))
  }

  lemma AfterAllAppend(b: Book, es: seq<Event>, e: Event)
    ensures AfterAll(b, es + [e]) == After(AfterAll(b, es), e)
    ensures LegalHistory(b, es + [e]) <==> LegalHistory(b, es) && Legal(AfterAll(b, es), e)
  {
    assert (es + [e])[..|es|] == es;
  }

  // ---------- properties of the atomic map over every legal history ----------

  /** Entries are filed under their own identity, are known, and count at least the registration. */
  ghost predicate Sound(b: Book) {
    forall id :: id in b.entries ==>
      IdentOf(b.entries[id].ty) == id && b.entries[id].refs >= 1 && b.entries[id].ty in b.known
  }

  ghost predicate HasReg(b: Book, reg: Reg) {
    exists t :: Linked(b, t) && RegOf(t) == reg
  }

  lemma {:induction false} HistorySound(b: Book, es: seq<Event>)
    requires Sound(b) && LegalHistory(b, es)
    ensures Sound(AfterAll(b, es))
  {
    if es != [] {
      HistorySound(b, es[..|es| - 1]);
    }
  }

  /** A search by key has at most one answer, and so has a search for the default. */
  lemma FindIsUnique(b: Book, w: Want, x: Option<TypeObj>, y: Option<TypeObj>)
    requires Sound(b) && Legal(b, EFind(w, x)) && Legal(b, EFind(w, y))
    ensures x == y
  {
    if x.Some? && y.Some? {
      assert Linked(b, x.value) && Linked(b, y.value);
    }
  }

  /**
   * What is asked for is the registered type it selects, default included: -1 converts to the largest
   * unsigned version, and a type with that version is the newest.
   */
  lemma SentinelCoherent(b: Book, w: Want, t: TypeObj, found: Option<TypeObj>)
    requires Sound(b) && Linked(b, t) && Asked(w, t)
    requires Legal(b, EFind(w, found))
    ensures found == Some(t)
  {
    KeyIsAsked(w, t);
    if ByDefault(w) {
      // no unsigned version is larger than the one -1 converts to
      assert if w.WantHeader? then t.v16 == TWO_16 - 1 else t.v32 == TWO_32 - 1;
      assert found.Some? ==> Newest(b, found.value);
    }
  }

  /** The keys that are compared agree exactly on the types asked for. */
  lemma KeyIsAsked(w: Want, t: TypeObj)
    ensures IdentOf(t) == WantedIdent(w) <==> Asked(w, t)
  {
  }

  /**
   * Header types are selected by version modulo 2^16, so that versions 2^16 apart select one type;
   * writer types are selected exactly.
   */
  lemma VersionAliases(v: int32, u: int32, t: TypeObj)
    requires v != -1 && u != -1
    ensures IdentOf(t) == WantedIdent(WantHeader(v)) <==> t.HeaderType? && (t.v16 - v) % TWO_16 == 0
    ensures IdentOf(t) == WantedIdent(WantWriter(v)) <==> t.WriterType? && (t.v32 - v) % TWO_32 == 0
    ensures WantedIdent(WantHeader(v)) == WantedIdent(WantHeader(u)) <==> (v - u) % TWO_16 == 0
    ensures WantedIdent(WantWriter(v)) == WantedIdent(WantWriter(u)) <==> v == u
  {
    KeyIsAsked(WantHeader(v), t);
    KeyIsAsked(WantWriter(v), t);
    Congruent(v, u);
  }

  lemma Congruent(v: int32, u: int32)
    ensures v % TWO_16 == u % TWO_16 <==> (v - u) % TWO_16 == 0
    ensures v % TWO_32 == u % TWO_32 <==> v == u
  {
  }

  ghost predicate AnsweredBy(b: Book, w: Want, found: Option<TypeObj>) {
    Answered(t => Linked(b, t), w, found)
  }

  /** The map's answer is the right one among the linked types. */
  lemma AnswerMeans(b: Book, w: Want, found: Option<TypeObj>)
    requires Sound(b) && Legal(b, EFind(w, found))
    ensures AnsweredBy(b, w, found)
  {
    forall u | Linked(b, u) && Asked(w, u)
      ensures found == Some(u)
    {
      SentinelCoherent(b, w, u, found);
    }
    if found.Some? {
      KeyIsAsked(w, found.value);
    }
  }

  /** In a versioned registry that is not empty some type is the newest. */
  lemma {:induction false} NewestExists(b: Book, ids: set<Ident>, reg: Reg)
    requires Sound(b) && Versioned(reg) && ids <= b.entries.Keys
    requires forall id :: id in ids ==> id.reg == reg
    requires ids != {}
    ensures exists id :: id in ids && forall o :: o in ids && o != id ==> Older(b.entries[o].ty, b.entries[id].ty)
    decreases ids
  {
    var id :| id in ids;
    var rest := ids - {id};
    if rest == {} {
      assert forall o :: o in ids && o != id ==> o in rest;
    } else {
      NewestExists(b, rest, reg);
      var m :| m in rest && forall o :: o in rest && o != m ==> Older(b.entries[o].ty, b.entries[m].ty);
      DistinctVersions(b, id, m);
      if Older(b.entries[id].ty, b.entries[m].ty) {
        assert forall o :: o in ids && o != m ==> Older(b.entries[o].ty, b.entries[m].ty);
      } else {
        assert forall o :: o in ids && o != id ==> Older(b.entries[o].ty, b.entries[id].ty);
      }
    }
  }

  /** A lookup always has an answer. */
  lemma FindHasAnswer(b: Book, w: Want)
    requires Sound(b)
    ensures exists found :: Legal(b, EFind(w, found))
  {
    var found: Option<TypeObj>;
    if !ByDefault(w) {
      found := if WantedIdent(w) in b.entries then Some(b.entries[WantedIdent(w)].ty) else None;
    } else {
      var ids := set id | id in b.entries && id.reg == Registry(w);
      if ids == {} {
        found := None;
        assert forall t :: Linked(b, t) && RegOf(t) == Registry(w) ==> IdentOf(t) in ids;
      } else {
        NewestExists(b, ids, Registry(w));
        var id :| id in ids && forall o :: o in ids && o != id ==> Older(b.entries[o].ty, b.entries[id].ty);
        found := Some(b.entries[id].ty);
        assert forall u :: Linked(b, u) && RegOf(u) == Registry(w) ==> IdentOf(u) in ids;
      }
    }
    assert Legal(b, EFind(w, found));
  }

  /** The answer to a lookup, the only legal one. */
  ghost function Answer(b: Book, w: Want): (found: Option<TypeObj>)
    requires Sound(b)
    ensures Legal(b, EFind(w, found))
  {
    FindHasAnswer(b, w);
    var found :| Legal(b, EFind(w, found));
    found
  }

  lemma AnswerIsRight(b: Book, w: Want)
    requires Sound(b)
    ensures AnsweredBy(b, w, Answer(b, w))
  {
    AnswerMeans(b, w, Answer(b, w));
  }

  lemma OnlyAnswer(b: Book, w: Want, found: Option<TypeObj>)
    requires Sound(b)
    ensures Legal(b, EFind(w, found)) <==> found == Answer(b, w)
  {
    if Legal(b, EFind(w, found)) {
      FindIsUnique(b, w, found, Answer(b, w));
    }
  }

  lemma DistinctVersions(b: Book, x: Ident, y: Ident)
    requires Sound(b) && x in b.entries && y in b.entries && x != y
    requires x.reg == y.reg && Versioned(x.reg)
    ensures Older(b.entries[x].ty, b.entries[y].ty) || Older(b.entries[y].ty, b.entries[x].ty)
  {
    var t, u := b.entries[x].ty, b.entries[y].ty;
    assert IdentOf(t) == x && IdentOf(u) == y;
  }

  /** A legal default lookup misses exactly when the registry is empty. */
  lemma DefaultFoundIffAny(b: Book, w: Want, found: Option<TypeObj>)
    requires Sound(b) && ByDefault(w) && Legal(b, EFind(w, found))
    ensures found.Some? <==> HasReg(b, Registry(w))
  {
    if found.Some? {
      assert Linked(b, found.value);
    }
  }

  /** A non-empty versioned registry never becomes empty, and its newest version never decreases. */
  lemma {:induction false} DefaultNeverDecreases(b: Book, es: seq<Event>, t: TypeObj)
    requires Sound(b) && LegalHistory(b, es) && Newest(b, t)
    ensures exists u :: Newest(AfterAll(b, es), u) && (u == t || Older(t, u))
    decreases |es|
  {
    if es == [] {
      assert Newest(AfterAll(b, es), t);
    } else {
      var init := es[..|es| - 1];
      DefaultNeverDecreases(b, init, t);
      HistorySound(b, init);
      var u :| Newest(AfterAll(b, init), u) && (u == t || Older(t, u));
      var v := DefaultStep(AfterAll(b, init), es[|es| - 1], u);
      assert Newest(AfterAll(b, es), v) && (v == t || Older(t, v));
    }
  }

  lemma DefaultStep(b: Book, e: Event, t: TypeObj) returns (u: TypeObj)
    requires Sound(b) && Legal(b, e) && Newest(b, t)
    ensures Newest(After(b, e), u) && (u == t || Older(t, u))
  {
    var b' := After(b, e);
    u := t;
    if e.ERegister? && e.ok && RegOf(e.t) == RegOf(t) {
      assert IdentOf(e.t) != IdentOf(t);
      assert Older(t, e.t) || Older(e.t, t);
      assert forall x :: Linked(b', x) ==> x == e.t || Linked(b, x);
      assert Linked(b', t) && Linked(b', e.t);
      if Older(t, e.t) {
        u := e.t;
      }
    } else {
      assert forall x :: Linked(b', x) && RegOf(x) == RegOf(t) ==> Linked(b, x);
      assert Linked(b', t);
    }
  }

  /** The first type registered is the newest of its registry. */
  lemma FirstIsNewest(b: Book, t: TypeObj)
    requires Sound(b) && Versioned(RegOf(t)) && !HasReg(b, RegOf(t))
    ensures Legal(b, ERegister(t, true))
    ensures Newest(After(b, ERegister(t, true)), t)
  {
    if IdentOf(t) in b.entries {
      assert Linked(b, b.entries[IdentOf(t)].ty);
    }
    var b' := After(b, ERegister(t, true));
    assert forall x :: Linked(b', x) ==> x == t || Linked(b, x);
  }
}
