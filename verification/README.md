# libcfe: registries, lists and reference counts

A Dafny model of the parts of libcfe that concurrency and raw pointers make hard, with proofs about
every run and every input. `dafny verify dfyconfig.toml` checks the whole project.

libcfe keeps six registries (ciphers, digests, key derivation functions, random sources, file header
types and file writer types). Each is an intrusive ring behind a POSIX rwlock. A caller finds a type
under the read lock, increments its counter, and uses and drops it outside the lock; `unregister`
unlinks a type when, under the write lock, it reads the counter as 1. Creating a file takes references
in three registries in turn and gives them back when a later step fails.

## How the model is built

| file | what it holds |
|---|---|
| `Ring.dfy`, `HList.dfy` | the lists of `include/cfe/list.h` as objects with `next`/`prev`/`first`/`pprev` fields; each operation is the source's pointer writes, its contract the sequence operation on the whole list, its frame the nodes touched |
| `Atomic.dfy` | the counter: a C `long` with wrap-around, read back as an `int` |
| `Catalog.dfy` | the reference definition: all six registries as one atomic map from (registry, key) to (type, reference count); the default is *defined* as the newest version |
| `TypeList.dfy` | a registry's ring in that form: a list head and a node embedded in every type; searching, linking and unlinking it by `next` and `prev` is exactly scanning a sequence, appending to it and filtering it |
| `Machine.dfy` | the step machine: any number of threads with any scripts of calls; every lock operation, cursor move of a search, counter access and link is a step of its own; rings are the sequences of `TypeList.dfy` |
| `Invariant.dfy`, `Preservation.dfy` | the invariant in three parts, and that every step of every thread keeps it: `WellFormed` (locks, keys, defaults, each thread's history) in every run, `Balanced` (counters and links agree with the references) until a held type is unlinked, `Tally` (nothing held is even about to be unlinked) until an ambiguous counter is read |
| `Safety.dfy` | what the invariant means for callers |
| `Simulation.dfy`, `History.dfy` | linearizability against `Catalog`, and program order |
| `Reports.dfy` | what every finished call did, written out call by call as the source does it, without the tables that drive the step machine |
| `Progress.dfy` | no deadlock, and a measure that every step decreases |
| `Sharpness.dfy`, `Demand.dfy` | the exact condition for `Tally`, a run that breaks it, and a condition on the calls alone that ensures all of it |
| `Registries.dfy`, `FileCreate.dfy` | the same code as one thread runs it, updating the linked list, default and counters in place, proved against the same map; the checks of `cfe_create` |
| `Refs.dfy` | `cfe_ref`, in place and with any number of interleaved holders |
| `KeyStore.dfy`, `KeyStoreAtomic.dfy`, `KeyStoreHistory.dfy`, `DarwinStore.dfy` | the Darwin key store: step machine with retain counts, linearizability, what finished calls returned, and the in-place code |
| `Common.dfy` | option type, sequence helpers, errno values and the rwlock |
| `Sizes.dfy` | page rounding and next power of two, from bits and C widths |

A type object carries an `id` that stands for its address, so two objects with one name are different
types. The machine keeps history (`log`, `past`) in each thread that the code never reads. Type code
(`alloc`, `alloc_ctx`, `derive`, `get`, `destroy`, `free`) succeeds or fails nondeterministically and
leaves the registries alone. Clients release only what they hold. Type objects have static storage,
so the counter of a type never registered is 0. All atomics are sequentially consistent in the source,
so steps interleave.

## Findings

- `cfe_atomic_get` narrows the counter to an `int`, so `unregister` cannot tell a type held by a positive
  multiple of 2^32 references from one held by nobody. Each property that this can break has its exact
  condition, proved in both directions for every run. Only unheld types pass the check of `unregister` if
  and only if no ambiguous counter is read (`GuardIsExact`). References stay safe, and the history of the
  atomic map stays legal, if and only if no step unlinks a type that is linked and held (`SafeExactly`,
  `LinearizableExactly`). All counters stay right if and only if no registration sets the counter of a
  type that is still held (`CountsExactly`; a multiple of 2^64 references would not show). Each condition
  implies the next without being necessary for it (`ConditionsDiffer`): the holders may let go between the
  check and the unlinking. Calls with fewer than 2^32 lookups in all meet all three
  (`FewLookupsSuffice`); `UnlinkedWhileHeld` is a run with 2^32 lookups that unlinks a type with 2^32 live
  contexts. Everything else (keys, defaults, answers of searches, program order, explained results,
  rollback, completion) holds in every run.
- `cfe_ref_sub` sees the references left modulo 2^64: release runs exactly once, when none is left, if and
  only if no `sub` leaves a positive multiple of 2^64 (`WrapIsExact`, `ReleasedWhileHeld`).
- Unregistering a type that was registered once and is no longer linked succeeds again and changes
  nothing; unregistering one that was never registered is refused.
- `cfe_header_create` narrows an explicit version to 16 bits: versions that differ by 2^16 are one
  (`VersionAliases`). Writer versions are exact. The default sentinel -1 is harmless in both
  (`SentinelCoherent`).
- `cfe_header_create` narrows its `size_t` to 32 bits: the rounded size covers the requested one exactly
  up to 2^32 minus one page (`HeaderCovers`).
- `cfe_create` advances `params->key_ident` even when it fails later, so a retry with the same
  parameters needs another prefix (`RetriesAdmitted`).
- `next_pow2_16` counts leading zeros in 32 bits and is right for 1 and 2 only
  (`NextPow2ShortOnlyTiny`); `next_pow2_32/64` shift by the full width, which C leaves undefined, for
  arguments above 2^31 and 2^63.

## Model

| member | source | states |
|---|---|---|
| Preservation.RunWellFormed | src/crypto/cipher.c:12-127 | every state of every run, under any interleaving of any number of threads and calls and whatever the counters say: lock exclusion, unique keys, right default, each call consistent with its history, only registered types held |
| Preservation.RunBalanced | src/crypto/cipher.c:12-127 | and, until a held type is unlinked: counters equal to one plus holders, holders only of linked types |
| Preservation.RunOk | src/crypto/cipher.c:54-73 | and, as long as unregister has read no ambiguous counter, what is about to be unlinked is unheld |
| Preservation.GuardedIsUnsevered | src/crypto/cipher.c:54-73 | if no ambiguous counter is read no held type is unlinked |
| Preservation.StepWellFormed | src/crypto/cipher.c:12-127 | each single step of each thread keeps the first part, with no condition |
| Preservation.StepBalanced | src/crypto/cipher.c:12-127 | each step but the unlinking of a held type keeps the second part |
| Preservation.StepTally | src/crypto/cipher.c:54-94 | each step but the check of an ambiguous counter keeps the third part |
| Preservation.LockStep | src/crypto/cipher.c:37-51 | the rwlock's readers and writer are exactly the threads inside the matching sections |
| Preservation.NewDefault | src/fs/header.c:46-49 | comparing the newcomer with the default restores "every other version field is smaller" |
| Preservation.CheckPasses | src/crypto/cipher.c:59-65 | the check in unregister passes exactly when the type is known and the number of its holders is a multiple of 2^32; below 2^32, when nobody holds it |
| Invariant.ThreadStep | src/open.c:69-95 | whatever a call has done so far and what its rollback will still do always add up to one of its possible complete histories |
| Safety.ReferencesSafe | src/crypto/cipher.c:55-127 | in every run, until a held type is unlinked, every type that a live object or a call in progress refers to is linked, so type code outside the lock runs on linked types |
| Safety.CountsConserved | include/cfe/atomic.h:15-38 | in every run, until a counter that stands for other references is set to 1, each counter is one plus live objects plus references in flight, as a wrapped `long` |
| Safety.CountsExactly | src/crypto/cipher.c:46 | for every run: all counters are right throughout if and only if no such counter is set |
| Preservation.UnseveredIsUnreset | src/crypto/cipher.c:46 | if no held type is unlinked no such counter is set |
| Safety.DefaultIsNewest | src/fs/filewriter.c:43-49 | in every run the default is NULL exactly for the empty ring and otherwise linked, and every other linked type has a smaller `version` field |
| Safety.DefaultMonotone | src/fs/header.c:31-81 | between any two states of a run the `version` field of the default never decreases |
| Safety.NeverEmptyAgain | src/fs/header.c:57-81 | in every run a header or writer registry that has a type never becomes empty again |
| Safety.KeysUnique | src/crypto/cipher.c:39-44 | in every run two linked types with one key are one type, so a search returns the only match |
| Safety.SearchAnswers | src/fs/header.c:16-29 | in every run a search answers rightly on the fields of the linked types: for -1 the largest version, NULL only if there is none; otherwise the version congruent to the one asked for, or the name, NULL only if none has it |
| Safety.SearchSelects | src/fs/filewriter.c:91-94 | a linked type with the converted version is the answer, -1 and the default included |
| Safety.RegisterAnswers | src/crypto/cipher.c:39-44 | in every run a registration is accepted exactly when no linked type has its name or version |
| Safety.NoDoubleLink | src/crypto/cipher.c:39-47 | in every run a registration reaches its counter and its node only if the type is unlinked; nobody holds it if no held type has been unlinked |
| Safety.UnlinkSafe | src/fs/filewriter.c:62-74 | in every run what is about to be unlinked is not the default; nobody holds it if no ambiguous counter has been read |
| Sharpness.GuardIsExact | src/crypto/cipher.c:54-73 | for every run: the invariant holds throughout if and only if unregister never reads the counter of a type held by a positive multiple of 2^32 references, and so does "only unheld types pass the check" |
| Sharpness.AmbiguousBreaks | src/crypto/cipher.c:59-65 | such a read passes the check at once, for a type that is held |
| Sharpness.ConditionsDiffer | src/crypto/cipher.c:54-73 | in every run, an ambiguous read alone unlinks nothing and unlinking a held type alone sets no counter |
| Sharpness.CheckExact | include/cfe/atomic.h:15-18 | while the counters are right, the check passes exactly when the number of holders, however many, is a multiple of 2^32 |
| Sharpness.BoundedIsGuarded | include/cfe/atomic.h:15-18 | with fewer than 2^32 references to each type no ambiguous counter is read and no held type is unlinked |
| Demand.FewLookupsSuffice | src/crypto/cipher.c:75-111 | calls with fewer than 2^32 lookups in all keep fewer than 2^32 references outstanding and meet all of these conditions in every interleaving |
| Demand.TotalStep | src/crypto/cipher.c:75-127 | no step raises the references that are held or may still be taken |
| Sharpness.UnlinkedWhileHeld | src/crypto/hash.c:55-101 | a reachable state in which a type with 2^32 live contexts is unlinked |
| Sharpness.Allocate | src/crypto/hash.c:75-101 | each allocation in a run adds one live context and one count |
| Atomic.NarrowedOne | include/cfe/atomic.h:15-18 | a wrapped `long` of 1 + h reads as `int` 1 exactly when h is a multiple of 2^32 |
| Atomic.Counter.Get | include/cfe/atomic.h:15-18 | the narrowed value, equal to the counter when it fits an `int` |
| Atomic.Counter.SubAndTest | include/cfe/atomic.h:40-43 | zero exactly when the difference is a multiple of 2^64 |
| Simulation.Simulates | src/crypto/cipher.c:27-127 | each step but the unlinking of a held type performs on the atomic map the one operation it is labelled with, with the map's answer, or leaves the map alone |
| Simulation.Linearizable | src/crypto/cipher.c:27-127 | every run, until a held type is unlinked, is a legal sequential history of the atomic map, and its state represents the resulting map |
| Simulation.LinearizableExactly | src/crypto/cipher.c:27-127 | for every run: its history is legal if and only if it unlinks no held type |
| Simulation.SafeExactly | src/crypto/cipher.c:54-73 | for every run: what is held stays linked throughout if and only if no held type is unlinked by a step |
| Simulation.SeverBreaks | src/crypto/cipher.c:67 | unlinking a held type is a success the map refuses, and leaves a held type unlinked |
| Simulation.EffectPoint | src/crypto/cipher.c:37-94 | operations take effect inside the lock section of their registry, drops at the atomic decrement |
| Simulation.FreshUnheld | src/crypto/cipher.c:46 | a counter is set to 1 only while nobody holds the type |
| Simulation.UnregisterLegal | src/fs/filewriter.c:56-80 | unregister answers as the map does in the linked, default, held and unknown cases, if and only if it is not unlinking a held type |
| Simulation.AcquireLegal | src/fs/filewriter.c:89-99 | the cursor search and the default lookup answer as the map does |
| Simulation.RegisterLegal | src/crypto/cipher.c:37-49 | register answers as the map does |
| History.ProgramOrder | src/crypto/cipher.c:96-127 | in every run each thread's operations occur in the history in its program order, and its finished and remaining calls are its script |
| Reports.CallReported | src/open.c:69-95 | every finished call of every run did what the source spells out for it: the registries it searched and in which order, the type code it ran and with what result, the references it gave back in order, and its return value and errno; a release gives back what it was given, if it is live |
| Reports.RunsStep | src/fs/filewriter.c:101-121 | each step of each thread keeps what it has run consistent with what it has found |
| History.FinishedExplained | src/crypto/cipher.c:75-127 | every operation of a finished call took effect at a step of that very call, and explains what it returned |
| History.TraceFits | src/fs/header.c:89-98 | in every run what a search found belongs to the registry it searched |
| Reports.CallBalance | src/fs/filewriter.c:82-121 | in every run, call by call: `cfe_pbkdf_derive`, `cfe_rand_get` and failed calls keep no reference, `cfe_cipher_ref`, contexts and headers keep one, writers two and files three, each of the name or version asked for; a release gives back one |
| History.CreateAllOrNothing | src/open.c:69-95 | in any run, a NULL from do_create changes no count; a file owns exactly one header, one writer and one cipher reference |
| History.NetFail | src/open.c:91-94 | every rollback undoes exactly the references taken |
| Catalog.FindIsUnique | src/crypto/cipher.c:12-25 | a lookup has at most one answer |
| Catalog.FindHasAnswer | src/fs/header.c:89-98 | a lookup, by key or for the default, always has an answer |
| Catalog.SentinelCoherent | src/fs/filewriter.c:91-94 | a registered type whose name or `version` field is what an argument converts to is the one selected, -1 included |
| Catalog.KeyIsAsked | src/fs/header.c:16-29 | the keys that are compared agree exactly for the types asked for by name, or by version modulo 2^16 and 2^32 |
| Catalog.AnswerMeans | src/fs/header.c:89-98 | the map's answer is the right one on the fields of the linked types |
| Catalog.VersionAliases | src/fs/header.c:16-29 | header types are selected by version modulo 2^16, so versions alias exactly there; writer types are selected exactly |
| Catalog.DefaultFoundIffAny | src/fs/header.c:91-92 | asking for the default misses exactly when the registry is empty |
| Catalog.DefaultNeverDecreases | src/fs/header.c:31-81 | over every legal history the type with the largest `version` field is replaced only by one with a larger field, and never disappears |
| Catalog.FirstIsNewest | src/fs/header.c:48-50 | the first type registered becomes the default |
| Catalog.HistorySound | src/crypto/cipher.c:27-94 | legal histories keep entries under their own key with at least the registration counted |
| Progress.NotStuck | src/open.c:69-95 | no unfinished well-formed state is stuck, and every run reaches well-formed states only |
| Progress.OneLock | src/fs/filewriter.c:89-106 | a thread holds at most one registry lock, also while it composes three registries |
| Progress.WaitsForHolders | src/crypto/cipher.c:79-85 | a thread waits exactly while others are inside the lock it wants; readers do not wait for readers |
| Progress.StepsDecrease | src/crypto/cipher.c:16-22 | a global measure strictly decreases at every step, ring growth being bounded by pending registrations |
| Progress.RunsAreBounded | src/crypto/cipher.c:16-22 | every run has no more steps than the measure of its first state |
| Progress.Completion | src/open.c:69-95 | every run is finite, and one that cannot be continued has finished every call of every thread |
| TypeLists.TypeList.Search | src/crypto/cipher.c:12-25 | the walk along `next`, mapped back to types, finds an entry with the key if the ring has one |
| TypeLists.TypeList.LinkTail | src/crypto/cipher.c:47 | list_add_tail on the type's node appends the type to the ring, and every other unlinked node still points at itself |
| TypeLists.TypeList.Unlink | src/crypto/cipher.c:67 | list_del_init on the type's node filters it out of the ring and leaves it pointing at itself; for a type not linked no pointer changes |
| TypeLists.UnlinkNodes | include/cfe/list.h:116-120 | cutting the node out of the list is filtering the type out of the ring, as keys are distinct |
| Registries.TypeRegistry.Find | src/crypto/cipher.c:12-25 | the search of the linked list finds the map's entry with the key, if there is one |
| Registries.TypeRegistry.Register | src/fs/header.c:31-55 | EINVAL, EBUSY or the map with the new entry and count 1, the type's node linked at the tail |
| Registries.TypeRegistry.Unregister | src/fs/header.c:57-81 | exactly when it succeeds, that it agrees with the map up to 2^32 references, that the list stays well linked, and that a repeated unregister changes no link |
| Registries.TypeRegistry.Look | src/fs/header.c:89-94 | the search or the default, right on the fields of the linked types |
| Registries.TypeRegistry.Ref | src/crypto/cipher.c:75-88 | the map's answer, counted |
| Registries.TypeRegistry.Drop | src/crypto/cipher.c:90-94 | the map with one reference less |
| Registries.TypeRegistry.Open | src/crypto/hash.c:75-101 | keeps the reference on success, leaves the map unchanged otherwise |
| Registries.TypeRegistry.Borrow | src/crypto/rand.c:75-102 | a transient use leaves the map unchanged on every path |
| Registries.UnregisterDecides | src/fs/header.c:63-73 | the decision of unregister in terms of the map, with the narrowing |
| Registries.RegisterNewest | src/fs/filewriter.c:46-48 | the comparison in register picks the type with the largest `version` field |
| Registries.BumpBack | src/crypto/hash.c:93-97 | dropping a reference that was just taken restores the map |
| FileCreate.WriterCreate | src/fs/filewriter.c:82-121 | outcome and both maps for every success or failure of each step |
| FileCreate.AddCipher | src/fs/filewriter.c:106-121 | the cipher half with its two cleanups |
| FileCreate.Create | src/open.c:69-95 | outcome and all three maps for every success or failure of each step |
| FileCreate.FinishFile | src/open.c:84-94 | the writer half with its cleanup |
| FileCreate.Free | src/open.c:23-36 | closing the header of a failed file restores the header map |
| FileCreate.Admit | src/open.c:104-131 | which arguments pass, by the characters compared, and that the identifier is advanced for good |
| FileCreate.RetriesAdmitted | src/open.c:114-119 | n + 1 calls with one parameter block all pass exactly when the identifier starts with n + 1 prefixes |
| Ring.Init | include/cfe/list.h:38-42 | a head alone is an empty list |
| Ring.AddBetween | include/cfe/list.h:50-57 | the new node is adjacent to both neighbours |
| Ring.Add | include/cfe/list.h:67-70 | the list becomes [n] + xs; besides n's links only the head's `next` and its old follower's `prev` are written |
| Ring.AddTail | include/cfe/list.h:80-83 | the list becomes xs + [n] |
| Ring.Unlink | include/cfe/list.h:92-96 | the ring loses exactly the node at its position, wherever it is |
| Ring.Del | include/cfe/list.h:103-111 | that, and the entry's pointers are NULL; NULL is accepted |
| Ring.DelInit | include/cfe/list.h:116-120 | that, and the entry is alone in its ring; repeating it changes nothing |
| Ring.Move | include/cfe/list.h:127-131 | moves to the front, within one ring (also next to the head) or across rings |
| Ring.MoveTail | include/cfe/list.h:138-143 | moves to the back, within one ring or across rings |
| Ring.Splice | include/cfe/list.h:154-176 | the target list becomes xs + ys |
| Ring.SpliceInit | include/cfe/list.h:185-192 | that, and the source list is empty |
| Ring.IsEmpty | include/cfe/list.h:149-152 | whether the list has no entries |
| Ring.Rotate | include/cfe/list.h:9-12 | a ring may be entered at any node |
| Ring.Neighbours | include/cfe/list.h:9-12 | each node's next has it as prev and the other way round |
| Ring.RingUnique | include/cfe/list.h:220-222 | the entries of a ring are determined by its head |
| Ring.ForEach | include/cfe/list.h:220-222 | visits the entries in order |
| Ring.ForEachPrev | include/cfe/list.h:228-230 | visits them in reverse order |
| Ring.ForEachSafe | include/cfe/list.h:238-240 | with a body that removes entries, each by list_del or list_del_init: visits each original entry once and in order, and the others remain |
| HList.HListUnique | include/cfe/list.h:367-368 | the nodes of a hash list are determined by its head |
| HList.Unlink | include/cfe/list.h:293-300 | the list loses exactly the node, through whichever slot holds it |
| HList.DelInit | include/cfe/list.h:307-313 | the same with reset pointers; nothing happens to an unhashed node |
| HList.AddHead | include/cfe/list.h:315-323 | the list becomes [n] + ns, slots agreeing |
| HList.AddBefore | include/cfe/list.h:326-333 | inserts before a node, slots agreeing |
| HList.AddAfter | include/cfe/list.h:335-344 | inserts behind a node, slots agreeing |
| HList.DelFake | include/cfe/list.h:347-350 | a node with a fake slot can be deleted, whatever its next is |
| HList.MoveList | include/cfe/list.h:356-363 | the nodes change heads and the old head is empty |
| HList.ForEach | include/cfe/list.h:367-368 | visits the nodes in order |
| Refs.CfeRef.Sub | include/cfe/ref.h:23-32 | release runs in the call that reaches zero |
| Refs.WrapIsExact | include/cfe/ref.h:23-32 | for every run: release is due or done exactly when no reference is left, if and only if no sub leaves a positive multiple of 2^64 |
| Refs.ReleasedExactlyOnce | include/cfe/ref.h:13-38 | in every interleaving, unless a sub has wrapped, release is due or done exactly once when no reference is left, and done exactly when nobody can touch the object |
| Refs.LastSubReleases | include/cfe/ref.h:23-32 | a sub, of any count, leads to release exactly when it leaves a multiple of 2^64 references; unless it wraps, when it drops all that is left |
| Refs.ReleasedWhileHeld | include/cfe/ref.h:23-32 | a run that sends an object with 2^64 references to its release function |
| KeyStore.RunOk | src/keystore-darwin.c:11-114 | every state of every run satisfies the key store's invariant |
| KeyStore.PayloadsOwned | src/keystore-darwin.c:35-114 | retain counts are dictionary entry plus in-flight owners, and no freed payload is touched |
| KeyStoreAtomic.Linearizable | src/keystore-darwin.c:11-114 | every run is a legal history of one atomic map, remove-then-add being one step |
| KeyStoreHistory.ProgramOrder | src/keystore-darwin.c:11-114 | each thread's operations occur in the run's history in its program order |
| KeyStoreHistory.FinishedExplained | src/keystore-darwin.c:11-114 | every result of every call is explained by its operations, each of which took effect at a step of that very call |
| KeyStoreHistory.MemoryReported | src/keystore-darwin.c:41-56 | every finished call with good arguments has failed for want of memory exactly when one of its allocations failed |
| KeyStore.WaitsForHolders | src/keystore-darwin.c:87-95 | a thread waits exactly while others are inside the lock it wants |
| KeyStoreHistory.ReadsSnapshot | src/keystore-darwin.c:87-113 | a read returns the whole payload that the dictionary and the atomic map held for its key at a step inside its own read lock, or ENOSPC or ENOENT |
| DarwinStore.CFStore.AddKey | src/keystore-darwin.c:35-68 | the map with the key replaced, or EINVAL or ENOMEM and no change; nothing leaks |
| DarwinStore.CFStore.ReadKey | src/keystore-darwin.c:70-114 | the answer, and contents and retain counts unchanged |
| DarwinStore.CFStore.RemoveKey | src/keystore-darwin.c:11-33 | the map without the key |
| Sizes.AndBits | src/fs/header-internal.h:14 | the model of `&` works bit by bit |
| Sizes.MaskRoundsDown | src/fs/header-internal.h:14 | masking off the low k bits rounds down to a multiple of 2^k |
| Sizes.RoundsToPages | src/fs/header-internal.h:9-15 | the least multiple of the page not below the size up to 2^32 minus one page, 0 above, one page for 0 |
| Sizes.HeaderCovers | src/fs/header.c:83-106 | for every size_t, the result covers the size exactly up to 2^32 minus one page |
| Sizes.RoundingIsClosure | src/fs/header-internal.h:9-15 | rounding is monotone and idempotent on the sizes it covers |
| Sizes.BitLengthBounds | include/cfe/utils.h:13-21 | what counting leading zeros says about the magnitude |
| Sizes.NextPow2Correct | include/cfe/utils.h:13-21 | for every width: the least power of two not below n up to 2^(w-1), undefined above |
| Sizes.NextPow2Widths | include/cfe/utils.h:13-21 | the 32-bit and 64-bit instances |
| Sizes.NextPow2IsClosure | include/cfe/utils.h:13-21 | monotone and idempotent |
| Sizes.NextPow2ShortOnlyTiny | include/cfe/utils.h:8-11 | the 16-bit variant is right exactly for 1 and 2 |

## Left out

- The OpenSSL back ends, thin dispatch (`cfe_cipher_ctx_update` and the like), `mmap`, `posix_fallocate`, logging, the Linux key store and the unimplemented `cfe_open`: foreign calls or one-branch facts.
- `cfe_cipher_ref` with a NULL name and names longer than their array: the source leaves both to `strcmp`.
- Files do not give back their writer and cipher references: the source has no path that does, so the model has none either; releases in the machine act on single references.
- Writer preference or fairness of the rwlock: a waiting writer does not block readers in the model.
- FileCreate.Admit: `fstat` is two parameters, and which errno it leaves is not modelled.
- Safety.ReferencesSafe: holds until a step unlinks a held type, which the source's counter check cannot exclude; Simulation.SafeExactly shows the condition to be exact.
- Simulation.Linearizable: under the same condition, exact by Simulation.LinearizableExactly.
- Safety.CountsConserved: holds until a registration sets the counter of a type that is still held, exact by Safety.CountsExactly.
- Registries.TypeRegistry.Register: `list_entry` is a map from nodes to types instead of pointer arithmetic, and the caller passes the type's embedded node.
- The step machine keeps each ring as a sequence and a search cursor as an index into it; that these are the walk along `next` is proved for the one-thread code (TypeLists).
- Refs.ReleasedExactlyOnce: holds until a sub leaves a positive multiple of 2^64 references; Refs.WrapIsExact shows the condition to be exact.
- Sizes.RoundsToPages: page sizes are powers of two below 2^32.
- Key store strings: Core Foundation string equality is taken to be string equality, and `ks_darwin_remove_key` is modelled with string creation succeeding.
- `hlist_for_each_safe` and the typed `list_for_each_entry` macros: the same walks with another cursor type.
