/**
 * src/keystore-darwin.c: a dictionary behind a lock, whose payloads are used after the lock is
 * dropped. Any number of threads add, read and remove keys, one lock or retain operation at a time.
 */
module KeyStore {
  import opened Options
  import opened Posix

  type Bytes = seq<bv8>

  /** A CFData object; `id` stands for its address. */
  datatype Data = Data(id: nat, bytes: Bytes)

  /** `Read` carries what is stored through `len` and, if a buffer was passed, `buffer`. */
  datatype Result = Ok | Read(len: nat, buffer: Option<Bytes>) | Error(errno: Errno)

  /** NULL arguments are None; `room` is *len on entry. */
  datatype Call =
    | AddKey(desc: Option<string>, payload: Option<Bytes>)
    | ReadKey(desc: Option<string>, room: Option<nat>, buffer: bool)
    | RemoveKey(desc: Option<string>)

  datatype PC =
    | Ready
    | MakeData(key: string, bytes: Bytes)
    | AddLock(key: string, d: Data) | AddRemove(key: string, d: Data) | AddInsert(key: string, d: Data)
    | AddUnlock(d: Data)
    | ReadLock(key: string, room: nat, buffer: bool) | ReadGet(key: string, room: nat, buffer: bool)
    | ReadRetain(d: Data, room: nat, buffer: bool) | ReadUnlock(found: Option<Data>, room: nat, buffer: bool)
    | ReadCopy(d: Data, room: nat, buffer: bool)
    | RemoveLock(key: string) | RemoveValue(key: string) | RemoveUnlock
    | Drop(d: Data, out: Result)
    | Leave(out: Result)

  /** An operation on the atomic map from descriptions to payloads, with its answer. */
  datatype Event = EAdd(key: string, bytes: Bytes) | ERemove(key: string) | ERead(key: string, found: Option<Bytes>)

  datatype Return = Return(call: Call, out: Result, log: seq<Event>)

  /** `log` and `past` are history: the code never reads them. */
  datatype Thread = Thread(call: Option<Call>, pc: PC, log: seq<Event>, past: seq<Return>)

  datatype State = State(dict: map<string, Data>, retains: map<Data, int>, made: nat, lock: RWLock,
                         threads: seq<Thread>)

  /** Whether Core Foundation can allocate, and the call a thread starts next. */
  datatype Choice = Choice(success: bool, call: Call)

  datatype Act =
    | Tau
    | LockRead | UnlockRead | LockWrite | UnlockWrite
    | Make(d: Data)
    | RemoveValue(key: string)            // CFDictionaryRemoveValue
    | AddValue(key: string, d: Data)      // CFDictionaryAddValue: an existing key is kept
    | Retain(d: Data) | Release(d: Data)

  datatype Move = Move(th: Thread, act: Act, ev: Option<Event>)

  function Go(th: Thread, pc: PC, act: Act): Move {
    Move(th.(pc := pc), act, None)
  }

  function Emit(th: Thread, pc: PC, act: Act, e: Event): Move {
    Move(th.(pc := pc, log := th.log + [e]), act, Some(e))
  }

  /** The argument checks, and the creation of the CFString. */
  function Begin(call: Call, success: bool): PC {
    match call
    case AddKey(desc, payload) =>
      if desc.None? || payload.None? || payload.value == [] then Leave(Error(EINVAL))
      else if !success then Leave(Error(ENOMEM))
      else MakeData(desc.value, payload.value)
    case ReadKey(desc, room, buffer) =>
      if desc.None? || room.None? then Leave(Error(EINVAL))
      else if !success then Leave(Error(ENOMEM))
      else ReadLock(desc.value, room.value, buffer)
    case RemoveKey(desc) => if desc.None? then Leave(Ok) else RemoveLock(desc.value)
  }

  function Code(s: State, th: Thread, c: Choice): Move {
    match th.pc
    case Ready => Move(Thread(Some(c.call), Begin(c.call, c.success), [], th.past), Tau, None)

    case MakeData(key, bytes) =>
      var d := Data(s.made, bytes);
      if c.success then Go(th, AddLock(key, d), Make(d)) else Go(th, Leave(Error(ENOMEM)), Tau)
    case AddLock(key, d) => Go(th, AddRemove(key, d), LockWrite)
    case AddRemove(key, d) => Emit(th, AddInsert(key, d), Act.RemoveValue(key), EAdd(key, d.bytes))
    case AddInsert(key, d) => Go(th, AddUnlock(d), AddValue(key, d))
    case AddUnlock(d) => Go(th, Drop(d, Ok), UnlockWrite)

    case ReadLock(key, room, buffer) => Go(th, ReadGet(key, room, buffer), LockRead)
    case ReadGet(key, room, buffer) =>
      if key in s.dict then Emit(th, ReadRetain(s.dict[key], room, buffer), Tau, ERead(key, Some(s.dict[key].bytes)))
      else Emit(th, ReadUnlock(None, room, buffer), Tau, ERead(key, None))
    case ReadRetain(d, room, buffer) => Go(th, ReadUnlock(Some(d), room, buffer), Retain(d))
    case ReadUnlock(found, room, buffer) =>
      Go(th, if found.Some? then ReadCopy(found.value, room, buffer) else Leave(Error(ENOENT)), UnlockRead)
    case ReadCopy(d, room, buffer) =>
      var out := if room < |d.bytes| then Error(ENOSPC)
                 else Read(|d.bytes|, if buffer then Some(d.bytes) else None);
      Go(th, Drop(d, out), Tau)

    case RemoveLock(key) => Go(th, PC.RemoveValue(key), LockWrite)
    case RemoveValue(key) => Emit(th, RemoveUnlock, Act.RemoveValue(key), ERemove(key))
    case RemoveUnlock => Go(th, Leave(Ok), UnlockWrite)

    case Drop(d, out) => Go(th, Leave(out), Release(d))
    case Leave(out) =>
      Move(Thread(None, Ready, [], th.past + if th.call.Some? then [Return(th.call.value, out, th.log)] else []),
           Tau, None)
  }

  predicate Enabled(s: State, i: nat) {
    && i < |s.threads|
    && match s.threads[i].pc
       case AddLock(_, _) => s.lock == RWLock({}, None)
       case RemoveLock(_) => s.lock == RWLock({}, None)
       case ReadLock(_, _, _) => s.lock.writer.None?
       case _ => true
  }

  function Retained(s: State, d: Data): int {
    if d in s.retains then s.retains[d] else 0
  }

  function Apply(s: State, i: nat, act: Act): State {
    match act
    case Tau => s
    case LockRead => s.(lock := s.lock.(readers := s.lock.readers + {i}))
    case UnlockRead => s.(lock := s.lock.(readers := s.lock.readers - {i}))
    case LockWrite => s.(lock := s.lock.(writer := Some(i)))
    case UnlockWrite => s.(lock := s.lock.(writer := None))
    case Make(d) => s.(made := s.made + 1, retains := s.retains[d := 1])
    case RemoveValue(key) =>
      if key in s.dict then
        s.(dict := s.dict - {key}, retains := s.retains[s.dict[key] := Retained(s, s.dict[key]) - 1])
      else s
    case AddValue(key, d) =>
      if key in s.dict then s
      else s.(dict := s.dict[key := d], retains := s.retains[d := Retained(s, d) + 1])
    case Retain(d) => s.(retains := s.retains[d := Retained(s, d) + 1])
    case Release(d) => s.(retains := s.retains[d := Retained(s, d) - 1])
  }

  function Effect(s: State, i: nat, m: Move): State
    requires i < |s.threads|
  {
    Apply(s, i, m.act).(threads := s.threads[i := m.th])
  }

  function Next(s: State, i: nat, c: Choice): State
    requires Enabled(s, i)
  {
    Effect(s, i, Code(s, s.threads[i], c))
  }

  function Start(n: nat): State {
    State(map[], map[], 0, RWLock({}, None), seq(n, _ => Thread(None, Ready, [], [])))
  }

  datatype Pick = Pick(i: nat, c: Choice)

  ghost predicate IsRun(ss: seq<State>, ps: seq<Pick>) {
    && |ss| == |ps| + 1
    && (exists n :: ss[0] == Start(n))
    && forall k :: 0 <= k < |ps| ==> Enabled(ss[k], ps[k].i) && ss[k + 1] == Next(ss[k], ps[k].i, ps[k].c)
  }

  // ---------- the invariant ----------

  datatype Section = Outside | Reading | Writing

  function SectionOf(pc: PC): Section {
    match pc
    case AddRemove(_, _) => Writing
    case AddInsert(_, _) => Writing
    case AddUnlock(_) => Writing
    case RemoveValue(_) => Writing
    case RemoveUnlock => Writing
    case ReadGet(_, _, _) => Reading
    case ReadRetain(_, _, _) => Reading
    case ReadUnlock(_, _, _) => Reading
    case _ => Outside
  }

  /** The payload a thread owns a reference to. */
  function Owned(pc: PC): Option<Data> {
    match pc
    case AddLock(_, d) => Some(d)
    case AddRemove(_, d) => Some(d)
    case AddInsert(_, d) => Some(d)
    case AddUnlock(d) => Some(d)
    case ReadUnlock(found, _, _) => found
    case ReadCopy(d, _, _) => Some(d)
    case Drop(d, _) => Some(d)
    case _ => None
  }

  /** A payload that is not in the dictionary yet. */
  predicate Unshared(pc: PC) {
    pc.AddLock? || pc.AddRemove? || pc.AddInsert?
  }

  function SectionAt(s: State, j: nat): Section {
    if j < |s.threads| then SectionOf(s.threads[j].pc) else Outside
  }

  ghost predicate LockOk(s: State) {
    && (forall j: nat :: j in s.lock.readers <==> SectionAt(s, j) == Reading)
    && (forall j: nat :: s.lock.writer == Some(j) <==> SectionAt(s, j) == Writing)
    && (s.lock.writer.Some? ==> s.lock.readers == {})
  }

  function Owners(ths: seq<Thread>, d: Data): nat {
    if ths == [] then 0 else Owners(ths[..|ths| - 1], d) + if Owned(ths[|ths| - 1].pc) == Some(d) then 1 else 0
  }

  /** The retain count is one for the dictionary entry plus one for each thread that owns it. */
  ghost predicate CountOk(s: State, d: Data) {
    && Retained(s, d) == (if d in s.dict.Values then 1 else 0) + Owners(s.threads, d)
    && (d.id >= s.made ==> Retained(s, d) == 0)
  }

  ghost predicate OneKeyEach(dict: map<string, Data>) {
    forall k, l :: k in dict && l in dict && dict[k] == dict[l] ==> k == l
  }

  /** What a thread knows about the shared state. */
  ghost predicate SharedOk(s: State, pc: PC) {
    && (Unshared(pc) ==> pc.d !in s.dict.Values && Owners(s.threads, pc.d) == 1)
    && (pc.AddInsert? ==> pc.key !in s.dict)
    && (pc.ReadRetain? ==> pc.d in s.dict.Values)
  }

  ghost predicate Inv(s: State) {
    && LockOk(s)
    && OneKeyEach(s.dict)
    && (forall d :: CountOk(s, d))
    && (forall j :: 0 <= j < |s.threads| ==> SharedOk(s, s.threads[j].pc))
    && (forall j :: 0 <= j < |s.threads| ==> ThreadOk(s.threads[j]))
  }

  /** What a read returns for the payload that was mapped when it held the lock. */
  function Answer(found: Option<Bytes>, room: nat, buffer: bool): Result {
    if found.None? then Error(ENOENT)
    else if room < |found.value| then Error(ENOSPC)
    else Read(|found.value|, if buffer then Some(found.value) else None)
  }

  /** The outcome of a finished call and the operation it performed explain each other. */
  ghost predicate Explained(call: Call, out: Result, log: seq<Event>) {
    match call
    case AddKey(desc, payload) =>
      if desc.None? || payload.None? || payload.value == [] then out == Error(EINVAL) && log == []
      else (out == Error(ENOMEM) && log == []) || (out == Ok && log == [EAdd(desc.value, payload.value)])
    case ReadKey(desc, room, buffer) =>
      if desc.None? || room.None? then out == Error(EINVAL) && log == []
      else
        || (out == Error(ENOMEM) && log == [])
        || exists found :: log == [ERead(desc.value, found)] && out == Answer(found, room.value, buffer)
    case RemoveKey(desc) =>
      out == Ok && log == if desc.None? then [] else [ERemove(desc.value)]
  }

  predicate Adding(th: Thread, key: string, bytes: Bytes) {
    th.call == Some(AddKey(Some(key), Some(bytes))) && bytes != []
  }

  predicate IsReading(th: Thread, key: string, room: nat, buffer: bool) {
    th.call == Some(ReadKey(Some(key), Some(room), buffer))
  }

  ghost predicate Snapshot(th: Thread, found: Option<Bytes>, room: nat, buffer: bool) {
    exists key :: IsReading(th, key, room, buffer) && th.log == [ERead(key, found)]
  }

  ghost predicate ThreadOk(th: Thread) {
    && (forall r :: r in th.past ==> Explained(r.call, r.out, r.log))
    && match th.pc
       case Ready => th.log == []
       case MakeData(key, bytes) => Adding(th, key, bytes) && th.log == []
       case AddLock(key, d) => Adding(th, key, d.bytes) && th.log == []
       case AddRemove(key, d) => Adding(th, key, d.bytes) && th.log == []
       case AddInsert(key, d) => Adding(th, key, d.bytes) && th.log == [EAdd(key, d.bytes)]
       case AddUnlock(d) => exists key :: Adding(th, key, d.bytes) && th.log == [EAdd(key, d.bytes)]
       case ReadLock(key, room, buffer) => IsReading(th, key, room, buffer) && th.log == []
       case ReadGet(key, room, buffer) => IsReading(th, key, room, buffer) && th.log == []
       case ReadRetain(d, room, buffer) => Snapshot(th, Some(d.bytes), room, buffer)
       case ReadUnlock(found, room, buffer) =>
         Snapshot(th, if found.Some? then Some(found.value.bytes) else None, room, buffer)
       case ReadCopy(d, room, buffer) => Snapshot(th, Some(d.bytes), room, buffer)
       case RemoveLock(key) => th.call == Some(RemoveKey(Some(key))) && th.log == []
       case RemoveValue(key) => th.call == Some(RemoveKey(Some(key))) && th.log == []
       case RemoveUnlock => th.call.Some? && Explained(th.call.value, Ok, th.log)
       case Drop(_, out) => th.call.Some? && Explained(th.call.value, out, th.log)
       case Leave(out) => th.call.Some? && Explained(th.call.value, out, th.log)
  }

  // ---------- every step keeps it ----------

  lemma ThreadStep(s: State, th: Thread, c: Choice)
    requires ThreadOk(th)
    ensures ThreadOk(Code(s, th, c).th)
  {
    if th.pc.Ready? || th.pc.Leave? || th.pc.Drop? {
      OutsideStep(s, th, c);
    } else if th.pc.ReadGet? || th.pc.ReadRetain? || th.pc.ReadUnlock? || th.pc.ReadCopy? {
      ReadStep(s, th, c);
    }
  }

  lemma OutsideStep(s: State, th: Thread, c: Choice)
    requires ThreadOk(th) && (th.pc.Ready? || th.pc.Leave? || th.pc.Drop?)
    ensures ThreadOk(Code(s, th, c).th)
  {
  }

  lemma ReadStep(s: State, th: Thread, c: Choice)
    requires ThreadOk(th) && (th.pc.ReadGet? || th.pc.ReadRetain? || th.pc.ReadUnlock? || th.pc.ReadCopy?)
    ensures ThreadOk(Code(s, th, c).th)
  {
  }

  predicate SectionsFit(from: Section, to: Section, act: Act) {
    match act
    case LockRead => from == Outside && to == Reading
    case UnlockRead => from == Reading && to == Outside
    case LockWrite => from == Outside && to == Writing
    case UnlockWrite => from == Writing && to == Outside
    case _ => from == to
  }

  predicate OwnedFits(from: Option<Data>, to: Option<Data>, act: Act) {
    match act
    case Make(d) => from == None && to == Some(d)
    case Retain(d) => from == None && to == Some(d)
    case Release(d) => from == Some(d) && to == None
    case _ => from == to
  }

  /** Where in the code an action on shared memory comes from, and the lock it waits for. */
  predicate OriginFits(s: State, pc: PC, act: Act) {
    match act
    case LockRead => s.lock.writer.None?
    case LockWrite => s.lock == RWLock({}, None)
    case Make(d) => d.id == s.made
    case RemoveValue(_) => SectionOf(pc) == Writing
    case AddValue(key, d) => pc == AddInsert(key, d)
    case Retain(d) => pc.ReadRetain? && pc.d == d
    case _ => true
  }

  predicate MoveOk(s: State, th: Thread, m: Move) {
    && SectionsFit(SectionOf(th.pc), SectionOf(m.th.pc), m.act)
    && OwnedFits(Owned(th.pc), Owned(m.th.pc), m.act)
    && OriginFits(s, th.pc, m.act)
  }

  lemma CodeMoves(s: State, i: nat, c: Choice)
    requires Enabled(s, i)
    ensures MoveOk(s, s.threads[i], Code(s, s.threads[i], c))
  {
  }

  lemma LockStep(s: State, i: nat, m: Move)
    requires i < |s.threads| && LockOk(s) && MoveOk(s, s.threads[i], m)
    ensures LockOk(Effect(s, i, m))
  {
    var s' := Effect(s, i, m);
    assert SectionAt(s, i) == SectionOf(s.threads[i].pc);
    forall j: nat
      ensures SectionAt(s', j) == if j == i then SectionOf(m.th.pc) else SectionAt(s, j)
    {
    }
    LockAfter(s, i, m.act);
    assert s'.lock == Apply(s, i, m.act).lock;
  }

  lemma LockAfter(s: State, i: nat, act: Act)
    ensures var l := s.lock;
            Apply(s, i, act).lock ==
              match act
              case LockRead => RWLock(l.readers + {i}, l.writer)
              case UnlockRead => RWLock(l.readers - {i}, l.writer)
              case LockWrite => RWLock(l.readers, Some(i))
              case UnlockWrite => RWLock(l.readers, None)
              case _ => l
  {
  }

  /** While i is in the write section, everybody else is outside. */
  lemma Exclusion(s: State, i: nat, j: nat)
    requires LockOk(s) && i != j
    ensures SectionAt(s, i) == Writing ==> SectionAt(s, j) == Outside
  {
  }

  function Owns(th: Thread, d: Data): nat {
    if Owned(th.pc) == Some(d) then 1 else 0
  }

  lemma {:induction false} OwnersUpdate(ths: seq<Thread>, i: nat, th: Thread, d: Data)
    requires i < |ths|
    ensures Owners(ths[i := th], d) + Owns(ths[i], d) == Owners(ths, d) + Owns(th, d)
    ensures Owners(ths, d) >= Owns(ths[i], d)
  {
    var n := |ths| - 1;
    if i < n {
      assert ths[i := th][..n] == ths[..n][i := th];
      OwnersUpdate(ths[..n], i, th, d);
    } else {
      assert ths[i := th][..n] == ths[..n];
    }
  }

  lemma TwoOwners(ths: seq<Thread>, i: nat, j: nat, d: Data)
    requires i < |ths| && j < |ths| && i != j
    ensures Owners(ths, d) >= Owns(ths[i], d) + Owns(ths[j], d)
  {
    var none := Thread(None, Ready, [], []);
    OwnersUpdate(ths, i, none, d);
    OwnersUpdate(ths[i := none], j, none, d);
  }

  // ---------- retain counts ----------

  /** How an action changes the retain count of d. */
  function RetainDelta(s: State, act: Act, d: Data): int {
    match act
    case RemoveValue(key) => if key in s.dict && s.dict[key] == d then -1 else 0
    case AddValue(key, e) => if key !in s.dict && e == d then 1 else 0
    case Retain(e) => if e == d then 1 else 0
    case Release(e) => if e == d then -1 else 0
    case _ => 0
  }

  lemma RetainsAfter(s: State, i: nat, act: Act, d: Data)
    ensures Retained(Apply(s, i, act), d) == if act == Make(d) then 1 else Retained(s, d) + RetainDelta(s, act, d)
  {
  }

  lemma ValuesAfter(s: State, i: nat, act: Act, d: Data)
    requires OneKeyEach(s.dict)
    ensures var dict' := Apply(s, i, act).dict;
            d in dict'.Values <==>
              if act.RemoveValue? && act.key in s.dict && s.dict[act.key] == d then false
              else if act.AddValue? && act.key !in s.dict && act.d == d then true
              else d in s.dict.Values
  {
    var dict' := Apply(s, i, act).dict;
    if act.RemoveValue? {
      if k :| k in s.dict && s.dict[k] == d && k != act.key {
        assert k in dict' && dict'[k] == d;
      }
    } else if act.AddValue? && act.key !in s.dict {
      assert act.key in dict' && dict'[act.key] == act.d;
      if k :| k in s.dict && s.dict[k] == d {
        assert k in dict' && dict'[k] == d;
      }
    }
  }

  lemma CountStep(s: State, i: nat, m: Move, d: Data)
    requires i < |s.threads| && Inv(s) && MoveOk(s, s.threads[i], m)
    ensures CountOk(Effect(s, i, m), d)
  {
    var s' := Effect(s, i, m);
    assert CountOk(s, d) && SharedOk(s, s.threads[i].pc);
    RetainsAfter(s, i, m.act, d);
    ValuesAfter(s, i, m.act, d);
    OwnersUpdate(s.threads, i, m.th, d);
    assert s'.threads == s.threads[i := m.th];
    assert s'.dict == Apply(s, i, m.act).dict && Retained(s', d) == Retained(Apply(s, i, m.act), d);
    MadeAfter(s, i, m.act);
  }

  lemma MadeAfter(s: State, i: nat, act: Act)
    ensures Apply(s, i, act).made == s.made + if act.Make? then 1 else 0
  {
  }

  lemma OneKeyStep(s: State, i: nat, m: Move)
    requires i < |s.threads| && OneKeyEach(s.dict) && MoveOk(s, s.threads[i], m) && SharedOk(s, s.threads[i].pc)
    ensures OneKeyEach(Effect(s, i, m).dict)
  {
  }

  // ---------- what threads know ----------

  lemma SharedSelf(s: State, i: nat, c: Choice)
    requires Enabled(s, i) && Inv(s)
    ensures SharedOk(Next(s, i, c), Code(s, s.threads[i], c).th.pc)
  {
    var th, m := s.threads[i], Code(s, s.threads[i], c);
    assert SharedOk(s, th.pc);
    if Unshared(m.th.pc) {
      var d := m.th.pc.d;
      assert CountOk(s, d);
      CodeMoves(s, i, c);
      OwnersUpdate(s.threads, i, m.th, d);
      ValuesAfter(s, i, m.act, d);
      UnsharedCode(s, th, c);
    }
  }

  lemma UnsharedCode(s: State, th: Thread, c: Choice)
    requires Unshared(Code(s, th, c).th.pc)
    ensures var m := Code(s, th, c);
            if m.act.Make? then m.act.d == m.th.pc.d && m.act.d.id == s.made
            else Unshared(th.pc) && th.pc.d == m.th.pc.d && !m.act.AddValue? && !m.act.Retain? && !m.act.Release?
  {
  }

  /** A step of another thread does not disturb what thread j knows. */
  lemma SharedOther(s: State, i: nat, m: Move, j: nat)
    requires i < |s.threads| && j < |s.threads| && i != j && Inv(s) && MoveOk(s, s.threads[i], m)
    ensures SharedOk(Effect(s, i, m), s.threads[j].pc)
  {
    var pc, s' := s.threads[j].pc, Effect(s, i, m);
    assert SharedOk(s, pc) && SharedOk(s, s.threads[i].pc);
    assert SectionAt(s, j) == SectionOf(pc) && SectionAt(s, i) == SectionOf(s.threads[i].pc);
    Exclusion(s, i, j);
    Exclusion(s, j, i);
    if Unshared(pc) {
      assert CountOk(s, pc.d);
      OwnersUpdate(s.threads, i, m.th, pc.d);
      ValuesAfter(s, i, m.act, pc.d);
      TwoOwners(s.threads, i, j, pc.d);
    } else if pc.ReadRetain? {
      ValuesAfter(s, i, m.act, pc.d);
    }
  }

  lemma Step(s: State, i: nat, c: Choice)
    requires Inv(s) && Enabled(s, i)
    ensures Inv(Next(s, i, c))
  {
    var s', m := Next(s, i, c), Code(s, s.threads[i], c);
    CodeMoves(s, i, c);
    LockStep(s, i, m);
    assert SharedOk(s, s.threads[i].pc);
    OneKeyStep(s, i, m);
    ThreadStep(s, s.threads[i], c);
    forall d
      ensures CountOk(s', d)
    {
      CountStep(s, i, m, d);
    }
    forall j | 0 <= j < |s'.threads|
      ensures SharedOk(s', s'.threads[j].pc) && ThreadOk(s'.threads[j])
    {
      if j == i {
        SharedSelf(s, i, c);
      } else {
        SharedOther(s, i, m, j);
      }
    }
  }

  lemma {:induction false} NobodyOwns(ths: seq<Thread>, d: Data)
    requires forall j :: 0 <= j < |ths| ==> ths[j].pc == Ready
    ensures Owners(ths, d) == 0
  {
    if ths != [] {
      NobodyOwns(ths[..|ths| - 1], d);
    }
  }

  lemma StartOk(n: nat)
    ensures Inv(Start(n))
  {
    forall d
      ensures CountOk(Start(n), d)
    {
      NobodyOwns(Start(n).threads, d);
    }
  }

  lemma {:induction false} RunOk(ss: seq<State>, ps: seq<Pick>, n: nat)
    requires IsRun(ss, ps) && n < |ss|
    ensures Inv(ss[n])
  {
    if n == 0 {
      var k :| ss[0] == Start(k);
      StartOk(k);
    } else {
      RunOk(ss, ps, n - 1);
      Step(ss[n - 1], ps[n - 1].i, ps[n - 1].c);
    }
  }

  /** A thread waits exactly while others are inside the lock it wants. */
  lemma WaitsForHolders(s: State, j: nat)
    requires LockOk(s) && j < |s.threads|
    ensures Enabled(s, j) <==>
              if s.threads[j].pc.AddLock? || s.threads[j].pc.RemoveLock?
              then forall h: nat :: SectionAt(s, h) == Outside
              else s.threads[j].pc.ReadLock? ==> forall h: nat :: SectionAt(s, h) != Writing
  {
    if s.lock.writer.Some? {
      assert SectionAt(s, s.lock.writer.value) == Writing;
    }
    if h :| h in s.lock.readers {
      assert SectionAt(s, h) == Reading;
    }
    assert (forall h: nat :: SectionAt(s, h) == Outside) ==> s.lock.readers == {};
  }

  /** The payload that a thread's next step reads, retains or stores. */
  function Touches(pc: PC): Option<Data> {
    match pc
    case AddInsert(_, d) => Some(d)
    case ReadRetain(d, _, _) => Some(d)
    case ReadCopy(d, _, _) => Some(d)
    case Drop(d, _) => Some(d)
    case _ => None
  }

  /**
   * In every run a payload's retain count is its dictionary entry plus its in-flight owners, and
   * no thread ever touches a payload that has been freed.
   */
  lemma PayloadsOwned(ss: seq<State>, ps: seq<Pick>, n: nat)
    requires IsRun(ss, ps) && n < |ss|
    ensures forall d :: Retained(ss[n], d) == (if d in ss[n].dict.Values then 1 else 0) + Owners(ss[n].threads, d)
    ensures forall j :: 0 <= j < |ss[n].threads| && Touches(ss[n].threads[j].pc).Some? ==>
              Retained(ss[n], Touches(ss[n].threads[j].pc).value) > 0
  {
    RunOk(ss, ps, n);
    var s := ss[n];
    forall d
      ensures Retained(s, d) == (if d in s.dict.Values then 1 else 0) + Owners(s.threads, d)
    {
      assert CountOk(s, d);
    }
    forall j | 0 <= j < |s.threads| && Touches(s.threads[j].pc).Some?
      ensures Retained(s, Touches(s.threads[j].pc).value) > 0
    {
      var d := Touches(s.threads[j].pc).value;
      assert CountOk(s, d) && SharedOk(s, s.threads[j].pc);
      OwnersUpdate(s.threads, j, s.threads[j], d);
    }
  }
}
