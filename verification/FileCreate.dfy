/**
 * src/open.c and the create functions of the two file registries: references are taken in up to
 * three registries in turn, and whatever was taken is given back when a later step fails.
 */
module FileCreate {
  import opened Options
  import opened Posix
  import opened Atomic
  import opened Catalog
  import opened Machine
  import opened Registries

  /** What a live writer owns. */
  datatype WriterObj = WriterObj(writer: TypeObj, cipher: TypeObj)

  /** What creating a writer returns once its own type has been found. */
  ghost function CipherOutcome(ciphers: Book, c: Want, allocOk: bool): Outcome
    requires Sound(ciphers)
  {
    if Answer(ciphers, c).None? || !allocOk then Failed else Success
  }

  /** What creating a writer returns, given the two registries it searches. */
  ghost function WriterOutcome(writers: Book, ciphers: Book, w: Want, c: Want, allocOk: bool): Outcome
    requires Sound(writers) && Sound(ciphers)
  {
    if Answer(writers, w).None? then Refused(ENOSYS) else CipherOutcome(ciphers, c, allocOk)
  }

  /** The writer owns what the two lookups answer. */
  ghost predicate Owns(o: WriterObj, writers: Book, ciphers: Book, w: Want, c: Want)
    requires Sound(writers) && Sound(ciphers)
  {
    Answer(writers, w) == Some(o.writer) && Answer(ciphers, c) == Some(o.cipher)
  }

  /** Creating a writer has this outcome and result, and leaves the two maps as wb2 and cb2. */
  ghost predicate WriterDone(wb: Book, cb: Book, version: int32, cipher: string, allocOk: bool,
                             out: Outcome, owned: Option<WriterObj>, wb2: Book, cb2: Book)
    requires Sound(wb) && Sound(cb)
  {
    var w, c := WantWriter(version), WantAlgo(Cipher, cipher);
    && out == WriterOutcome(wb, cb, w, c, allocOk)
    && (owned.Some? <==> out == Success)
    && (owned.Some? ==> Owns(owned.value, wb, cb, w, c))
    && wb2 == (if out == Success then Taken(wb, w) else wb)
    && cb2 == (if out == Success then Taken(cb, c) else cb)
  }

  lemma WriterMissing(wb: Book, cb: Book, version: int32, cipher: string, allocOk: bool)
    requires Sound(wb) && Sound(cb) && Answer(wb, WantWriter(version)).None?
    ensures WriterDone(wb, cb, version, cipher, allocOk, Refused(ENOSYS), None, wb, cb)
  {
  }

  /** cfe_filewriter_create */
  method WriterCreate(writers: TypeRegistry, ciphers: TypeRegistry, version: int32, cipher: string, allocOk: bool)
    returns (out: Outcome, owned: Option<WriterObj>)
    requires writers.Valid() && ciphers.Valid() && writers.types.Threaded() && ciphers.types.Threaded()
    requires writers.reg == WriterReg && ciphers.reg == AlgoReg(Cipher)
    modifies writers, ciphers
    ensures writers.Valid() && ciphers.Valid()
    ensures WriterDone(old(writers.book), old(ciphers.book), version, cipher, allocOk,
                       out, owned, writers.book, ciphers.book)
  {
    var w, c := WantWriter(version), WantAlgo(Cipher, cipher);
    assert writers != ciphers;
    var t := RefBeside(writers, w, ciphers);
    if t.None? {
      WriterMissing(old(writers.book), old(ciphers.book), version, cipher, allocOk);
      return Refused(ENOSYS), None;
    }
    out, owned := AddCipher(writers, ciphers, t.value, w, c, allocOk, old(writers.book));
  }

  /** A lookup in one registry leaves the other one alone. */
  method RefBeside(r: TypeRegistry, w: Want, other: TypeRegistry) returns (found: Option<TypeObj>)
    requires r.Valid() && r.types.Threaded() && Registry(w) == r.reg
    requires r != other && other.Valid() && other.types.Threaded()
    modifies r
    ensures r.Valid() && other.Valid() && other.types.Threaded()
    ensures found == Answer(old(r.book), w) && r.book == Taken(old(r.book), w)
    ensures found.None? ==> r.book == old(r.book)
  {
    found := r.Ref(w);
    assert unchanged(other, other.types, other.types.Repr);
  }

  /** The rest of it, once a reference to the writer type has been taken from the map b. */
  method AddCipher(writers: TypeRegistry, ciphers: TypeRegistry, t: TypeObj, ghost w: Want, c: Want, allocOk: bool,
                   ghost b: Book)
    returns (out: Outcome, owned: Option<WriterObj>)
    requires writers.Valid() && ciphers.Valid() && ciphers.types.Threaded()
    requires writers != ciphers && Registry(c) == ciphers.reg
    requires Sound(b) && Answer(b, w) == Some(t) && writers.book == Taken(b, w)
    modifies writers, ciphers
    ensures writers.Valid() && ciphers.Valid()
    ensures out == CipherOutcome(old(ciphers.book), c, allocOk)
    ensures owned.Some? <==> out == Success
    ensures owned.Some? ==> owned.value.writer == t && Answer(old(ciphers.book), c) == Some(owned.value.cipher)
    ensures writers.book == if out == Success then Taken(b, w) else b
    ensures ciphers.book == if out == Success then Taken(old(ciphers.book), c) else old(ciphers.book)
  {
    var ctype := ciphers.Ref(c);
    assert unchanged(writers, writers.types);
    if ctype.None? {
      label Miss:
      writers.GiveBack(t, w, b);
      assert unchanged@Miss(ciphers, ciphers.types);
      return Failed, None;
    }
    if !allocOk {
      GiveBoth(writers, ciphers, t, ctype.value, w, c, b, old(ciphers.book));
      return Failed, None;
    }
    return Success, Some(WriterObj(t, ctype.value));
  }

  /** The cleanup when the writer type's alloc fails. */
  method GiveBoth(writers: TypeRegistry, ciphers: TypeRegistry, t: TypeObj, ctype: TypeObj, ghost w: Want,
                  ghost c: Want, ghost wb: Book, ghost cb: Book)
    requires writers.Valid() && ciphers.Valid() && writers != ciphers
    requires Sound(wb) && Answer(wb, w) == Some(t) && writers.book == Taken(wb, w)
    requires Sound(cb) && Answer(cb, c) == Some(ctype) && ciphers.book == Taken(cb, c)
    modifies writers, ciphers
    ensures writers.Valid() && ciphers.Valid() && writers.book == wb && ciphers.book == cb
  {
    writers.GiveBack(t, w, wb);
    assert unchanged(ciphers, ciphers.types);
    label Half:
    ciphers.GiveBack(ctype, c, cb);
    assert unchanged@Half(writers, writers.types);
  }

  class File {
    var header: Option<TypeObj>
    var writer: Option<WriterObj>

    constructor ()
      ensures header == None && writer == None
    {
      header, writer := None, None;
    }
  }

  /** cfe_file_free: the header object, if there is one, is closed. */
  method Free(file: File, headers: TypeRegistry, ghost b: Book)
    requires headers.Valid() && Sound(b)
    requires file.header.Some? ==> file.header == Answer(b, WantHeader(-1)) && headers.book == Taken(b, WantHeader(-1))
    modifies headers
    ensures headers.Valid()
    ensures headers.book == if file.header.Some? then b else old(headers.book)
  {
    if file.header.Some? {
      headers.GiveBack(file.header.value, WantHeader(-1), b);
    }
  }

  /** do_create */
  method Create(headers: TypeRegistry, writers: TypeRegistry, ciphers: TypeRegistry, cipher: string,
                newOk: bool, headerOk: bool, writerOk: bool)
    returns (out: Outcome, file: File?)
    requires headers.Valid() && writers.Valid() && ciphers.Valid()
    requires headers.types.Threaded() && writers.types.Threaded() && ciphers.types.Threaded()
    requires headers.reg == HeaderReg && writers.reg == WriterReg && ciphers.reg == AlgoReg(Cipher)
    modifies headers, writers, ciphers
    ensures headers.Valid() && writers.Valid() && ciphers.Valid()
    ensures var first := if newOk then OpenOutcome(old(headers.book), WantHeader(-1), headerOk) else Failed;
            if first != Success then
              && out == first && file == null && headers.book == old(headers.book)
              && writers.book == old(writers.book) && ciphers.book == old(ciphers.book)
            else
              && (file != null <==> out == Success)
              && WriterDone(old(writers.book), old(ciphers.book), -1, cipher, writerOk,
                            out, if file != null then file.writer else None, writers.book, ciphers.book)
              && (file != null ==> file.header == Answer(old(headers.book), WantHeader(-1)))
              && headers.book == if out == Success then Taken(old(headers.book), WantHeader(-1)) else old(headers.book)
  {
    ghost var b := headers.book;
    assert headers != writers && headers != ciphers && writers != ciphers;
    out, file := NewBeside(headers, newOk, headerOk, writers, ciphers);
    if file == null {
      return;
    }
    out := FinishFile(file, headers, writers, ciphers, cipher, writerOk, b);
    if out != Success {
      file := null;
    }
  }

  /** The second half, which closes the header again if there is no writer. */
  method FinishFile(file: File, headers: TypeRegistry, writers: TypeRegistry, ciphers: TypeRegistry, cipher: string,
                    writerOk: bool, ghost b: Book)
    returns (out: Outcome)
    requires headers.Valid() && writers.Valid() && ciphers.Valid()
    requires writers.types.Threaded() && ciphers.types.Threaded()
    requires headers.reg == HeaderReg && writers.reg == WriterReg && ciphers.reg == AlgoReg(Cipher)
    requires Sound(b) && file.header.Some?
    requires file.header == Answer(b, WantHeader(-1)) && headers.book == Taken(b, WantHeader(-1))
    modifies file, headers, writers, ciphers
    ensures headers.Valid() && writers.Valid() && ciphers.Valid()
    ensures file.header == old(file.header)
    ensures WriterDone(old(writers.book), old(ciphers.book), -1, cipher, writerOk,
                       out, file.writer, writers.book, ciphers.book)
    ensures headers.book == if out == Success then Taken(b, WantHeader(-1)) else b
  {
    assert headers != writers && headers != ciphers;
    out := AddWriter(file, writers, ciphers, cipher, writerOk);
    assert unchanged(headers, headers.types);
    if out != Success {
      label Undo:
      Free(file, headers, b);
      assert unchanged@Undo(writers, writers.types, ciphers, ciphers.types);
    }
  }

  /** The first half leaves the other two registries alone. */
  method NewBeside(headers: TypeRegistry, newOk: bool, headerOk: bool, writers: TypeRegistry, ciphers: TypeRegistry)
    returns (out: Outcome, file: File?)
    requires headers.Valid() && headers.types.Threaded() && headers.reg == HeaderReg
    requires headers != writers && writers.Valid() && writers.types.Threaded()
    requires headers != ciphers && ciphers.Valid() && ciphers.types.Threaded()
    modifies headers
    ensures headers.Valid()
    ensures writers.Valid() && writers.types.Threaded() && ciphers.Valid() && ciphers.types.Threaded()
    ensures out == if newOk then OpenOutcome(old(headers.book), WantHeader(-1), headerOk) else Failed
    ensures file != null <==> out == Success
    ensures file != null ==>
              fresh(file) && file.header == Answer(old(headers.book), WantHeader(-1)) && file.writer == None
    ensures headers.book == if out == Success then Taken(old(headers.book), WantHeader(-1)) else old(headers.book)
  {
    out, file := NewBesideOne(headers, newOk, headerOk, writers);
    assert unchanged(ciphers, ciphers.types, ciphers.types.Repr);
  }

  method NewBesideOne(headers: TypeRegistry, newOk: bool, headerOk: bool, other: TypeRegistry)
    returns (out: Outcome, file: File?)
    requires headers.Valid() && headers.types.Threaded() && headers.reg == HeaderReg
    requires headers != other && other.Valid() && other.types.Threaded()
    modifies headers
    ensures headers.Valid() && other.Valid() && other.types.Threaded()
    ensures out == if newOk then OpenOutcome(old(headers.book), WantHeader(-1), headerOk) else Failed
    ensures file != null <==> out == Success
    ensures file != null ==>
              fresh(file) && file.header == Answer(old(headers.book), WantHeader(-1)) && file.writer == None
    ensures headers.book == if out == Success then Taken(old(headers.book), WantHeader(-1)) else old(headers.book)
  {
    out, file := NewFile(headers, newOk, headerOk);
    assert unchanged(other, other.types, other.types.Repr);
  }

  /** The first half of do_create: a file object with its header. */
  method NewFile(headers: TypeRegistry, newOk: bool, headerOk: bool) returns (out: Outcome, file: File?)
    requires headers.Valid() && headers.types.Threaded() && headers.reg == HeaderReg
    modifies headers
    ensures headers.Valid()
    ensures out == if !newOk then Failed else OpenOutcome(old(headers.book), WantHeader(-1), headerOk)
    ensures file != null <==> out == Success
    ensures file != null ==>
              fresh(file) && file.header == Answer(old(headers.book), WantHeader(-1)) && file.writer == None
    ensures headers.book == if out == Success then Taken(old(headers.book), WantHeader(-1)) else old(headers.book)
  {
    if !newOk {
      return Failed, null;
    }
    file := new File();
    var h;
    out, h := headers.Open(WantHeader(-1), headerOk);
    file.header := h;
    assert headers.Valid();
    if h.None? {
      Free(file, headers, headers.book);
      file := null;
    }
  }

  /** The second half of do_create, for a file that has its header. */
  method AddWriter(file: File, writers: TypeRegistry, ciphers: TypeRegistry, cipher: string, writerOk: bool)
    returns (out: Outcome)
    requires writers.Valid() && ciphers.Valid() && writers.types.Threaded() && ciphers.types.Threaded()
    requires writers.reg == WriterReg && ciphers.reg == AlgoReg(Cipher)
    modifies file, writers, ciphers
    ensures writers.Valid() && ciphers.Valid()
    ensures file.header == old(file.header)
    ensures WriterDone(old(writers.book), old(ciphers.book), -1, cipher, writerOk,
                       out, file.writer, writers.book, ciphers.book)
  {
    var w;
    out, w := WriterCreate(writers, ciphers, -1, cipher, writerOk);
    file.writer := w;
  }

  // ---------- cfe_create ----------

  const PREFIX: string := "cfe:"

  /** strncmp(ident, "cfe:", 4) == 0 */
  predicate Admitted(ident: string) {
    |ident| >= 4 && ident[..4] == PREFIX
  }

  /** The characters that are compared. */
  predicate StartsCfe(ident: string) {
    |ident| >= 4 && ident[0] == 'c' && ident[1] == 'f' && ident[2] == 'e' && ident[3] == ':'
  }

  lemma AdmittedCfe(ident: string)
    ensures Admitted(ident) <==> StartsCfe(ident)
  {
    assert |ident| >= 4 ==> ident[..4] == [ident[0], ident[1], ident[2], ident[3]];
    assert PREFIX == ['c', 'f', 'e', ':'];
  }

  class OpenParams {
    var keyIdent: Option<string>

    constructor (ident: Option<string>)
      ensures keyIdent == ident
    {
      keyIdent := ident;
    }
  }

  /**
   * The checks of cfe_create before do_create. `statOk` and `emptyRegular` are the answers of fstat.
   * The identifier is advanced past its prefix for good, even if the call then fails.
   */
  method Admit(fd: int, params: OpenParams?, statOk: bool, emptyRegular: bool) returns (out: Outcome)
    modifies params
    ensures out == if fd < 0 || params == null || old(params.keyIdent).None? || !StartsCfe(old(params.keyIdent).value)
                   then Refused(EINVAL)
                   else if !statOk then Failed
                   else if !emptyRegular then Refused(EINVAL)
                   else Success
    ensures params != null ==>
              params.keyIdent == if fd >= 0 && old(params.keyIdent).Some? && StartsCfe(old(params.keyIdent).value)
                                 then Some(old(params.keyIdent).value[4..])
                                 else old(params.keyIdent)
  {
    if fd < 0 || params == null || params.keyIdent.None? {
      return Refused(EINVAL);
    }
    AdmittedCfe(params.keyIdent.value);
    if !Admitted(params.keyIdent.value) {
      return Refused(EINVAL);
    }
    params.keyIdent := Some(params.keyIdent.value[4..]);
    if !statOk {
      return Failed;
    }
    if !emptyRegular {
      return Refused(EINVAL);
    }
    return Success;
  }

  /** The identifier that n calls with one parameter block leave behind. */
  function Advanced(ident: string, n: nat): string {
    if n == 0 then ident
    else var before := Advanced(ident, n - 1); if Admitted(before) then before[4..] else before
  }

  function Prefixes(n: nat): string {
    if n == 0 then "" else Prefixes(n - 1) + PREFIX
  }

  /** Calls 0 to n with one parameter block all pass the prefix check. */
  ghost predicate AllAdmitted(ident: string, n: nat) {
    forall k :: 0 <= k <= n ==> Admitted(Advanced(ident, k))
  }

  /**
   * Retrying with the same parameter block is not idempotent: calls 0 to n all pass exactly when the
   * identifier starts with n + 1 prefixes.
   */
  lemma {:induction false} RetriesAdmitted(ident: string, n: nat)
    ensures AllAdmitted(ident, n) <==> Prefixes(n + 1) <= ident
    ensures Prefixes(n + 1) <= ident ==> |ident| >= 4 * (n + 1) && Advanced(ident, n + 1) == ident[4 * (n + 1)..]
  {
    PrefixStep(ident, n);
    if n == 0 {
      assert AllAdmitted(ident, 0) <==> Admitted(Advanced(ident, 0));
    } else {
      RetriesAdmitted(ident, n - 1);
      assert AllAdmitted(ident, n) <==> AllAdmitted(ident, n - 1) && Admitted(Advanced(ident, n));
    }
  }

  /** One more prefix. */
  lemma PrefixStep(ident: string, n: nat)
    ensures Prefixes(n + 1) <= ident ==> Prefixes(n) <= ident
    ensures Prefixes(n) <= ident ==> |ident| >= 4 * n && (Admitted(ident[4 * n..]) <==> Prefixes(n + 1) <= ident)
  {
    PrefixesLength(n);
    assert Prefixes(n + 1) == Prefixes(n) + PREFIX;
  }

  lemma {:induction false} PrefixesLength(n: nat)
    ensures |Prefixes(n)| == 4 * n
  {
    if n > 0 {
      PrefixesLength(n - 1);
    }
  }
}
