/**
 * Any number of threads calling the registries, one memory access or lock operation at a time.
 *
 * A thread's program counter names its position in the source function it is executing.
 * `Code` says what its next step does: the thread's new private state, one action on shared memory,
 * and the operation on the atomic map (if any) that takes effect at that step.
 */
module Machine {
  import opened Options
  import opened Sequences
  import opened Posix
  import opened Atomic
  import opened Catalog

  /** A zero or non-NULL return, a failure with errno set by this code, or any other failure. */
  datatype Outcome = Success | Refused(errno: Errno) | Failed

  datatype Call =
    | Register(t: TypeObj)
    | Unregister(t: TypeObj)
    | CipherRef(name: string)
    | CipherAlloc(name: string)
    | HashAlloc(name: string)
    | PbkdfDerive(argsOk: bool, name: string)
    | RandGet(argsOk: bool)
    | HeaderCreate(version: int32)
    | WriterCreate(version: int32, cipher: string)
    | FileCreate(cipher: string)
    | Release  // cfe_cipher_put, cfe_*_destroy_ctx, cfe_header_close on some live object or NULL

  /** The lookups of a call, in order. */
  function Plan(call: Call): seq<Want> {
    match call
    case Register(_) => []
    case Unregister(_) => []
    case CipherRef(name) => [WantAlgo(Cipher, name)]
    case CipherAlloc(name) => [WantAlgo(Cipher, name)]
    case HashAlloc(name) => [WantAlgo(Hash, name)]
    case PbkdfDerive(_, name) => [WantAlgo(Pbkdf, name)]
    case RandGet(_) => [WantAlgo(Rand, "rand")]
    case HeaderCreate(version) => [WantHeader(version)]
    case WriterCreate(version, cipher) => [WantWriter(version), WantAlgo(Cipher, cipher)]
    case FileCreate(cipher) => [WantHeader(-1), WantWriter(-1), WantAlgo(Cipher, cipher)]
    case Release => []
  }

  predicate Acquires(call: Call) {
    Plan(call) != []
  }

  /** After lookup k the call runs type code outside the lock: alloc, alloc_ctx, derive or get. */
  predicate UsesAfter(call: Call, k: nat) {
    match call
    case CipherRef(_) => false
    case WriterCreate(_, _) => k == 1
    case FileCreate(_) => k != 1
    case _ => true
  }

  /** The reference is dropped again before the call returns. */
  predicate Transient(call: Call) {
    call.PbkdfDerive? || call.RandGet?
  }

  predicate ArgsOk(call: Call) {
    match call
    case PbkdfDerive(ok, _) => ok
    case RandGet(ok) => ok
    case _ => true
  }

  /** What the call returns when lookup k finds nothing. `cfe_cipher_ref` leaves errno alone. */
  function MissOutcome(call: Call, k: nat): Outcome {
    match call
    case CipherRef(_) => Failed
    case WriterCreate(_, _) => if k == 0 then Refused(ENOSYS) else Failed
    case FileCreate(_) => if k < 2 then Refused(ENOSYS) else Failed
    case _ => Refused(ENOSYS)
  }

  datatype RStep = RLock | RScan(i: nat) | RSet | RLink | RDefault | RUnlock(ok: bool)
  datatype UStep = ULock | UDefault | UCount | UUnlink | UUnlock(ok: bool)
  datatype AStep = ALock | ADefault | AScan(i: nat) | AInc(t: TypeObj) | AUnlock(found: bool)

  datatype PC =
    | Ready
    | FileNew                                        // calloc of the file object
    | Registering(t: TypeObj, r: RStep)
    | Unregistering(t: TypeObj, u: UStep)
    | Acquiring(k: nat, w: Want, a: AStep)           // lookup k of the call
    | Use(k: nat)                                    // type code called outside the lock
    | Unwind(k: nat, out: Outcome)                   // drop what is held; k == 0: no header object is left
    | Destroy(t: TypeObj)                            // ops->destroy or ops->free outside the lock
    | Leave(out: Outcome)

  /** A finished call with the atomic operations it performed. */
  datatype Return = Return(call: Call, out: Outcome, log: seq<Event>)

  /**
   * `todo[0]` is the call being executed unless pc is Ready. `held` are the references taken by it.
   * `log` and `past` are history: the code never reads them.
   */
  datatype Thread = Thread(todo: seq<Call>, pc: PC, held: seq<TypeObj>, log: seq<Event>, past: seq<Return>)

  datatype RegState = RegState(ring: seq<TypeObj>, newest: Option<TypeObj>, lock: RWLock)

  const EMPTY_REG := RegState([], None, RWLock({}, None))

  /** `live` are the references owned by objects that calls have returned to clients. */
  datatype State = State(regs: map<Reg, RegState>, counts: map<TypeObj, int64>, live: multiset<TypeObj>,
                         threads: seq<Thread>)

  /** The outcome of type code, and the object a client chooses to release. */
  datatype Choice = Choice(success: bool, pick: Option<TypeObj>)

  datatype Act =
    | Tau
    | LockRead(reg: Reg) | UnlockRead(reg: Reg)
    | LockWrite(reg: Reg) | UnlockWrite(reg: Reg)
    | SetOne(t: TypeObj) | Inc(t: TypeObj) | Dec(t: TypeObj)
    | Link(t: TypeObj) | Unlink(t: TypeObj) | SetNewest(t: TypeObj)
    | Take(t: TypeObj) | Give(ts: seq<TypeObj>)

  datatype Move = Move(th: Thread, act: Act, ev: Option<Event>)

  function At(s: State, reg: Reg): RegState {
    if reg in s.regs then s.regs[reg] else EMPTY_REG
  }

  /** Counters of types never registered are zero: type objects have static storage. */
  function Count(s: State, t: TypeObj): int64 {
    if t in s.counts then s.counts[t] else 0
  }

  predicate Busy(th: Thread) {
    th.todo != []
  }

  function Go(th: Thread, pc: PC): Move {
    Move(th.(pc := pc), Tau, None)
  }

  function Emit(th: Thread, act: Act, e: Event): Move {
    Move(th.(log := th.log + [e]), act, Some(e))
  }

  /** Rollback drops the writer, then the cipher, then the header. */
  function NextDrop(held: seq<TypeObj>): nat
    requires held != []
    ensures NextDrop(held) < |held|
  {
    if |held| >= 2 && held[0].HeaderType? then 1 else 0
  }

  /** The position after lookup k and its use succeeded. */
  function Onward(call: Call, k: nat): PC {
    if k + 1 < |Plan(call)| then Acquiring(k + 1, Plan(call)[k + 1], ALock) else Leave(Success)
  }

  function FirstLookup(call: Call): PC {
    if Plan(call) != [] then Acquiring(0, Plan(call)[0], ALock) else Leave(Failed)
  }

  /** A call's first step. */
  function Begin(s: State, th: Thread, c: Choice): Move
    requires Busy(th)
  {
    var call := th.todo[0];
    match call
    case Register(t) => Go(th, if Complete(t) then Registering(t, RLock) else Leave(Refused(EINVAL)))
    case Unregister(t) => Go(th, Unregistering(t, ULock))
    case FileCreate(_) => Go(th, FileNew)
    case Release =>
      if c.pick.Some? && c.pick.value in s.live then
        Move(th.(pc := Destroy(c.pick.value), held := [c.pick.value]), Take(c.pick.value), None)
      else
        Go(th, Leave(Success))
    case _ => Go(th, if ArgsOk(call) then FirstLookup(call) else Leave(Refused(EINVAL)))
  }

  function AtR(th: Thread, r: RStep): Thread
    requires th.pc.Registering?
  {
    th.(pc := th.pc.(r := r))
  }

  /** cfe_*_register. */
  function RegisterCode(s: State, th: Thread): Move
    requires th.pc.Registering?
  {
    var t := th.pc.t;
    var rs := At(s, RegOf(t));
    match th.pc.r
    case RLock => Move(AtR(th, RScan(0)), LockWrite(RegOf(t)), None)
    case RScan(i) =>
      if i >= |rs.ring| then Move(AtR(th, RSet), Tau, None)
      else if LabelOf(rs.ring[i]) == LabelOf(t) then Emit(AtR(th, RUnlock(false)), Tau, ERegister(t, false))
      else Move(AtR(th, RScan(i + 1)), Tau, None)
    case RSet => Emit(AtR(th, RLink), SetOne(t), ERegister(t, true))
    case RLink => Move(AtR(th, if Versioned(RegOf(t)) then RDefault else RUnlock(true)), Link(t), None)
    case RDefault =>
      Move(AtR(th, RUnlock(true)),
           if rs.newest.None? || VersionOf(rs.newest.value) < VersionOf(t) then SetNewest(t) else Tau,
           None)
    case RUnlock(ok) =>
      Move(th.(pc := Leave(if ok then Success else Refused(EBUSY))), UnlockWrite(RegOf(t)), None)
  }

  function AtU(th: Thread, u: UStep): Thread
    requires th.pc.Unregistering?
  {
    th.(pc := th.pc.(u := u))
  }

  /** cfe_*_unregister. Header and writer types are first compared with the default. */
  function UnregisterCode(s: State, th: Thread): Move
    requires th.pc.Unregistering?
  {
    var t := th.pc.t;
    var rs := At(s, RegOf(t));
    match th.pc.u
    case ULock => Move(AtU(th, if Versioned(RegOf(t)) then UDefault else UCount), LockWrite(RegOf(t)), None)
    case UDefault =>
      if rs.newest == Some(t) then Emit(AtU(th, UUnlock(false)), Tau, EUnregister(t, false))
      else Move(AtU(th, UCount), Tau, None)
    case UCount =>
      if AsInt(Count(s, t)) != 1 then Emit(AtU(th, UUnlock(false)), Tau, EUnregister(t, false))
      else Move(AtU(th, UUnlink), Tau, None)
    case UUnlink => Emit(AtU(th, UUnlock(true)), Unlink(t), EUnregister(t, true))
    case UUnlock(ok) =>
      Move(th.(pc := Leave(if ok then Success else Refused(EBUSY))), UnlockWrite(RegOf(t)), None)
  }

  function AtA(th: Thread, a: AStep): Thread
    requires th.pc.Acquiring?
  {
    th.(pc := th.pc.(a := a))
  }

  /** The read-locked search and increment of cfe_cipher_ref and its five siblings. */
  function AcquireCode(s: State, th: Thread): Move
    requires Busy(th) && th.pc.Acquiring?
  {
    var k, w := th.pc.k, th.pc.w;
    var rs := At(s, Registry(w));
    match th.pc.a
    case ALock => Move(AtA(th, if ByDefault(w) then ADefault else AScan(0)), LockRead(Registry(w)), None)
    case ADefault =>
      if rs.newest.Some? then Move(AtA(th, AInc(rs.newest.value)), Tau, None)
      else Emit(AtA(th, AUnlock(false)), Tau, EFind(w, None))
    case AScan(i) =>
      if i >= |rs.ring| then Emit(AtA(th, AUnlock(false)), Tau, EFind(w, None))
      else if LabelOf(rs.ring[i]) == WantedLabel(w) then Move(AtA(th, AInc(rs.ring[i])), Tau, None)
      else Move(AtA(th, AScan(i + 1)), Tau, None)
    case AInc(t) => Emit(AtA(th, AUnlock(true)).(held := th.held + [t]), Inc(t), EFind(w, Some(t)))
    case AUnlock(found) =>
      Move(th.(pc := if !found then Unwind(k, MissOutcome(th.todo[0], k))
                     else if UsesAfter(th.todo[0], k) then Use(k)
                     else Onward(th.todo[0], k)),
           UnlockRead(Registry(w)), None)
  }

  /** Giving references back after a failure, after transient use, or on release. */
  function UnwindCode(th: Thread): Move
    requires Busy(th) && th.pc.Unwind?
  {
    if th.held == [] then Go(th, Leave(th.pc.out))
    else if th.todo[0].FileCreate? && th.pc.k > 0 && |th.held| == 1 then
      Go(th, Unwind(0, th.pc.out))  // header->ops->free
    else
      var d := NextDrop(th.held);
      Emit(th.(held := Cut(th.held, d)), Dec(th.held[d]), EDrop(th.held[d]))
  }

  /** The position after type code has run. */
  function AfterUse(call: Call, k: nat, success: bool): PC {
    if Transient(call) then Unwind(k, if success then Success else Failed)
    else if success then Onward(call, k)
    else Unwind(k, Failed)
  }

  /** The next step of a thread in a call. */
  function Code(s: State, th: Thread, c: Choice): Move
    requires Busy(th)
  {
    match th.pc
    case Ready => Begin(s, th, c)
    case FileNew => Go(th, if c.success then FirstLookup(th.todo[0]) else Leave(Failed))
    case Registering(_, _) => RegisterCode(s, th)
    case Unregistering(_, _) => UnregisterCode(s, th)
    case Acquiring(_, _, _) => AcquireCode(s, th)
    case Use(k) => Go(th, AfterUse(th.todo[0], k, c.success))
    case Unwind(_, _) => UnwindCode(th)
    case Destroy(_) => Go(th, Unwind(0, Success))
    case Leave(out) =>
      Move(Thread(th.todo[1..], Ready, [], [], th.past + [Return(th.todo[0], out, th.log)]), Give(th.held), None)
  }

  predicate Free(l: RWLock) {
    l.writer.None? && l.readers == {}
  }

  /** The thread has a call to make or finish, and is not waiting for a lock. */
  predicate Enabled(s: State, i: nat) {
    && i < |s.threads|
    && Busy(s.threads[i])
    && match s.threads[i].pc
       case Registering(t, r) => r.RLock? ==> Free(At(s, RegOf(t)).lock)
       case Unregistering(t, u) => u.ULock? ==> Free(At(s, RegOf(t)).lock)
       case Acquiring(_, w, a) => a.ALock? ==> At(s, Registry(w)).lock.writer.None?
       case _ => true
  }

  function Without(ts: seq<TypeObj>, t: TypeObj): seq<TypeObj> {
    if ts == [] then []
    else if ts[0] == t then Without(ts[1..], t)
    else [ts[0]] + Without(ts[1..], t)
  }

  function Put(s: State, reg: Reg, rs: RegState): State {
    s.(regs := s.regs[reg := rs])
  }

  function SetLock(s: State, reg: Reg, l: RWLock): State {
    Put(s, reg, At(s, reg).(lock := l))
  }

  /** One action on shared memory by thread i. Unlinking a node that links to itself changes no ring. */
  function Apply(s: State, i: nat, act: Act): State {
    match act
    case Tau => s
    case LockRead(r) => SetLock(s, r, At(s, r).lock.(readers := At(s, r).lock.readers + {i}))
    case UnlockRead(r) => SetLock(s, r, At(s, r).lock.(readers := At(s, r).lock.readers - {i}))
    case LockWrite(r) => SetLock(s, r, At(s, r).lock.(writer := Some(i)))
    case UnlockWrite(r) => SetLock(s, r, At(s, r).lock.(writer := None))
    case SetOne(t) => s.(counts := s.counts[t := 1])
    case Inc(t) => s.(counts := s.counts[t := AsLong(Count(s, t) + 1)])
    case Dec(t) => s.(counts := s.counts[t := AsLong(Count(s, t) - 1)])
    case Link(t) => Put(s, RegOf(t), At(s, RegOf(t)).(ring := At(s, RegOf(t)).ring + [t]))
    case Unlink(t) => Put(s, RegOf(t), At(s, RegOf(t)).(ring := Without(At(s, RegOf(t)).ring, t)))
    case SetNewest(t) => Put(s, RegOf(t), At(s, RegOf(t)).(newest := Some(t)))
    case Take(t) => s.(live := s.live - multiset{t})
    case Give(ts) => s.(live := s.live + multiset(ts))
  }

  /** Thread i makes move m. */
  function Effect(s: State, i: nat, m: Move): State
    requires i < |s.threads|
  {
    Apply(s, i, m.act).(threads := s.threads[i := m.th])
  }

  function Next(s: State, i: nat, c: Choice): State
    requires Enabled(s, i)
  {
    Effect(s, i, Code(s, s.threads[i], c))
  }

  // ---------- runs ----------

  function Start(scripts: seq<seq<Call>>): State {
    State(map[], map[], multiset{},
          seq(|scripts|, i requires 0 <= i < |scripts| => Thread(scripts[i], Ready, [], [], [])))
  }

  datatype Pick = Pick(i: nat, c: Choice)

  /** ss are the states a run passes through and ps the steps taken between them. */
  ghost predicate IsRun(ss: seq<State>, ps: seq<Pick>) {
    && |ss| == |ps| + 1
    && (exists scripts :: ss[0] == Start(scripts))
    && forall n :: 0 <= n < |ps| ==> Enabled(ss[n], ps[n].i) && ss[n + 1] == Next(ss[n], ps[n].i, ps[n].c)
  }

  // ---------- outstanding references ----------

  function InFlight(ths: seq<Thread>, t: TypeObj): nat {
    if ths == [] then 0 else InFlight(ths[..|ths| - 1], t) + multiset(ths[|ths| - 1].held)[t]
  }

  /** Live objects and references in flight. */
  function Holders(s: State, t: TypeObj): nat {
    s.live[t] + InFlight(s.threads, t)
  }

  /**
   * Thread i is about to check the counter of a type that is held by a positive multiple of 2^32
   * references, which the `int` that `cfe_atomic_get` returns cannot tell from none.
   */
  predicate Ambiguous(s: State, i: nat) {
    && i < |s.threads|
    && s.threads[i].pc.Unregistering? && s.threads[i].pc.u.UCount?
    && var held := Holders(s, s.threads[i].pc.t); held > 0 && held % TWO_32 == 0
  }

  /** A run in which `unregister` never reads an ambiguous counter before state n. */
  ghost predicate Guarded(ss: seq<State>, ps: seq<Pick>, n: nat) {
    && IsRun(ss, ps)
    && n < |ss|
    && forall k :: 0 <= k < n ==> !Ambiguous(ss[k], ps[k].i)
  }

  /** Thread i is about to unlink a linked type that somebody holds. */
  predicate Severs(s: State, i: nat) {
    && i < |s.threads|
    && s.threads[i].pc.Unregistering? && s.threads[i].pc.u.UUnlink?
    && var t := s.threads[i].pc.t; Holders(s, t) > 0 && t in At(s, RegOf(t)).ring
  }

  /** A run in which no held type is unlinked before state n. */
  ghost predicate Unsevered(ss: seq<State>, ps: seq<Pick>, n: nat) {
    && IsRun(ss, ps)
    && n < |ss|
    && forall k :: 0 <= k < n ==> !Severs(ss[k], ps[k].i)
  }

  /** Thread i is about to set the counter of a type to 1 that stands for other references too. */
  predicate Resets(s: State, i: nat) {
    && i < |s.threads|
    && s.threads[i].pc.Registering? && s.threads[i].pc.r.RSet?
    && Holders(s, s.threads[i].pc.t) % TWO_64 != 0
  }

  /** A run in which no such counter is set before state n. */
  ghost predicate Unreset(ss: seq<State>, ps: seq<Pick>, n: nat) {
    && IsRun(ss, ps)
    && n < |ss|
    && forall k :: 0 <= k < n ==> !Resets(ss[k], ps[k].i)
  }

  /** Fewer than 2^32 references outstanding. */
  ghost predicate Bounded(s: State) {
    forall t :: Holders(s, t) < TWO_32
  }

  // ---------- lock sections ----------

  datatype Section = Outside | Reading(reg: Reg) | Writing(reg: Reg)

  function SectionOf(pc: PC): Section {
    match pc
    case Registering(t, r) => if r.RLock? then Outside else Writing(RegOf(t))
    case Unregistering(t, u) => if u.ULock? then Outside else Writing(RegOf(t))
    case Acquiring(_, w, a) => if a.ALock? then Outside else Reading(Registry(w))
    case _ => Outside
  }

  function SectionAt(s: State, j: nat): Section {
    if j < |s.threads| then SectionOf(s.threads[j].pc) else Outside
  }
}
