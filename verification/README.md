# A verified model of landlockd

landlockd turns a policy document into Landlock rulesets and seccomp filters,
starts a program under them, and then brokers the system calls that the filters
hand back to it. This project models that pipeline in Dafny and proves what it
promises, for every policy, every request sequence and every answer of the
kernel.

`dafny verify dfyconfig.toml` checks the whole project.

| files | what they model |
|---|---|
| `Paths`, `Attach` | canonical paths, the prefix tests on them, and re-attachment of rules to a new mount |
| `Fifo`, `BrokerLog`, `BrokerTables`, `BrokerEnv`, `BrokerScope`, `BrokerSpec`, `BrokerReplies`, `Broker` | the broker: two mutable lease tables, fifteen request handlers and the loop, with a ghost log of what reaches the kernel and of every reply; the specification of each request by the history of the run |
| `BrokerInit`, `BrokerMeaning`, `BrokerDenial`, `BrokerReach` | the allowlist from the policy; what each request means, told from its own arguments: its effects, its answer, why it is refused, and that the filters hand it over |
| `Codec`, `Wire`, `WireSteps`, `WireTheorems`, `WireItems`, `WireBounds`, `WireRead`, `WireWrite` | the binary policy format: combinators with laws, the format built from them, its theorems, which blobs are canonical, and the imperative decoder and encoder proved against it |
| `Bpf`, `Seccomp`, `SeccompPlans`, `SeccompMeaning` | an interpreter for the filter programs, the two program layouts, the plans, the two filters together, and which calls they let run, fail or hand over |
| `Toml`, `LandlockBits`, `PolicyDoc`, `PolicyLoad`, `PolicyDocTheorems`, `PolicyLimits`, `AccessMeaning`, `RustHelper`, `RustWrite`, `RustWire`, `RustTheorems`, `RustExact` | loading a document in process and in the Rust helper, each with its own tables, what access names grant, the helper's own writer, and that both routes agree |
| `Order`, `DryRun`, `TextLines`, `DryRunText`, `DryRunReport`, `DryRunGroups`, `DryRunVisible`, `DryRunOrder`, `DryRunReading` | the dry-run comparison functions, sorting and printing, the order of the lines, a reader for the escapes, and exactly what the printed text says about a policy |
| `Cache`, `CacheHistory`, `CacheNodes`, `CacheList` | the daemon's policy cache: specification, hits and loads told from the requests, and linked list |
| `Framing`, `FramingLoops`, `FramingExact` | the client's request encoder against the daemon's decoder, and exactly which requests are run |
| `Descriptors`, `Compile`, `CompileMeaning`, `Answers` | valid policies, rulesets from policies, and the descriptors they leave open |
| `Json`, `JsonTheorems`, `Audit`, `Numerals` | JSON audit lines, a reader for them, and the growing buffer |
| `Utf8`, `BasicString`, `BasicStringTheorems` | the UTF-8 codec and the basic-string decoder of the TOML parser |
| `PolicyBuild`, `PolicyHistory`, `PolicyBuilt` | the operations that build a policy, and what every sequence of them makes |
| `CMemory`, `CHeap`, `CShapes`, `CArrays`, `PolicyFields`, `PolicyMembers`, `PolicyRelease`, `PolicyCopy`, `PolicyCopyRules`, `PolicyStruct` | deep copy and release of a policy over explicit memory blocks, with the counts that bound every loop |
| `PolicyIr`, `Bytes`, `BitFacts` | the policy itself and shared small things |

Where the original updates something in place, a class or a method with a loop
does so here, and its contract ties the new state to a specification function;
the theorems are about those functions and about whole runs.

The broker's safety is stated on a log. Every event that a handler may cause has
a law (`BrokerLog.Fits`) that speaks of the allowlist and of the log before it.
`Broker.Server.Loop` proves that the log of every run obeys the laws. The
theorems in `BrokerLog` then derive the histories behind mounts and the
confinement of scratch operations from the laws alone. The laws bound what the
broker may do; `BrokerMeaning` states what it must do, for every request from the
request's own arguments, and `BrokerReach` that the filters hand over every call
that it would serve.

## Findings

Places where a property one would expect fails, with the exact condition under
which it holds, a concrete input that breaks it, or both:

- A file-system rule for `/` grants nothing inside a new mount, and a mount at `/`
  loses all other rules (`Attach.RootRuleCounterexample`,
  `Attach.RootRulesLostInMount`). The prefix test takes `/` for an ancestor of
  itself only (`Paths.UnderMeansBeneath`).
- String lengths are cut to 32 bits before the request limits are checked, so a
  4 GiB path passes them and another path is served (`Framing.LongPathIsCut`,
  `Framing.FramingAgrees`).
- The policy decoder accepts blobs that are not canonical
  (`WireItems.IdleNetIsAccepted`, `WireItems.IdleNetIsNotCanonical`,
  `WireItems.CanonicalIff`), and the octet decoder accepts overlong forms
  (`Utf8.LongSpellingIsRead`, `Utf8.ReadIsCanonicalIff`).
- The in-process loader ignores a section that is not a table and takes an empty
  path list of the broker section for none; the Rust helper refuses both
  (`RustTheorems.MistypedSection`, `RustExact.EmptyList`). Apart from such typing
  and such lists the two accept the same documents (`RustExact.HelperAcceptsIff`).
- The Rust writer checks the length of every string but the two runtime paths, so
  that a root of 4 GiB is sent under the length 0 (`RustWire.LongRootIsWritten`,
  `RustWire.LongRuntimePath`, `RustWire.WrittenIsEncoded`).
- The dry-run text does not determine the policy (`DryRun.BindLinesCollide`).
  Which lines belong to one rule is `DryRunText.BindLineDeterminesIff` and
  `DryRunText.ObjectLineDeterminesIff`; which policies share a text is
  `DryRunVisible.ReportDeterminesIff`. The switch of the net section and the addfd
  rules are never printed.
- The emptiness check of the deep copy overlooks `net_handled_access`
  (`PolicyBuilt.StaleAccessShows`, `PolicyFields.CopyIsExactIff`). No
  operation of `src/landlock_policy_ir.c` leaves a destination that shows it: the
  builder operations never do (`PolicyBuilt.BuiltDestinationsAreNotStale`), a
  release clears everything (`PolicyStruct.Reset`), and a copy into a cleared
  destination is exact (`PolicyBuilt.BuiltPoliciesAreCopied`).

## Model

| member | source | states |
|---|---|---|
| `Paths.UnderMeansBeneath` | src/landlockd_exec.c:1514-1520 | On canonical paths the string prefix test is component-wise ancestry, in both directions, except that the root `/` accepts only `/` |
| `Paths.SplitBase` | src/landlockd_exec.c:2292-2324 | A successful split never yields an empty, `.`, `..` or slashed base name, and the name fits its buffer |
| `Paths.SplitOfJoin` | src/landlockd_exec.c:107-126 | Splitting the join of a canonical parent and a valid name gives exactly that parent and that name |
| `Attach.AttachOne` | src/landlockd_exec.c:1556-1569 | One rule and one attach point: the ruleset grows by exactly the attach point of the rule or stays as it was, an errno is that of the failing call, and no path descriptor stays open |
| `Attach.AttachLayer` | src/landlockd_exec.c:1543-1570 | The ruleset of the layer grows by a prefix of the attachments of its rules, by all of them exactly when every call succeeds; no path descriptor stays open |
| `Attach.AttachMountRules` | src/landlockd_exec.c:1530-1578 | When every call succeeds each layer's ruleset gains exactly its attachments, in order, and the result is EACCES exactly when there are none; otherwise the errno of the failing call, and no layer gains anything else |
| `Attach.AttachedRights` | src/landlockd_exec.c:1530-1578 | For every path at or below the mount, the union of rights over attached points above it equals the union over the visible rules above it |
| `Attach.ReattachmentPreservesMeaning` | src/landlockd_exec.c:1530-1578 | Away from `/`, every path at or below the mount keeps exactly the rights of the policy text, whatever the rules |
| `Attach.RootRulesLostInMount` | src/landlockd_exec.c:1514-1528 | With `/` rules allowed and for every canonical mount: the meaning survives at every path below the mount if and only if the other rules already give the mount point all rights of the `/` rules; for a mount at `/`, if and only if no other rule adds a right to those of the `/` rules |
| `Attach.RootRuleCounterexample` | src/landlockd_exec.c:1514-1520 | A concrete policy with one rule for `/` that grants nothing inside a mount |
| `Attach.AttachedIffComparable` | src/landlockd_exec.c:1573-1576 | Something is attached if and only if some rule path is an ancestor or descendant of the mount path (with `/` comparable only to `/`): the exact condition of EACCES |
| `Fifo.Conservation` | src/landlockd_exec.c:621-757 | First-match removal over a table with repeated keys: what was added under a key is what was taken, in order, followed by what is pending |
| `Fifo.SourcesDiffer` | src/landlockd_exec.c:653-757 | No addition is taken twice, even when descriptor numbers repeat |
| `Fifo.StaysPending` | src/landlockd_exec.c:713-757 | An item added to an empty queue stays first until the removal that takes it, so find and take see the same lease |
| `BrokerLog.CreatedAfterOpened` | src/landlockd_exec.c:2915-2949 | The create grant that an fsmount consumes was made on the very lease it takes: its fsopen grant came first |
| `BrokerLog.FsmountHistory` | src/landlockd_exec.c:2951-3045 | Every fsmount of every run consumes one earlier create grant on one earlier fsopen grant for the same descriptor and object; the object's rule covers its attributes and its attach list is governed for fsopen and fsmount |
| `BrokerLog.FsmountsShareNothing` | src/landlockd_exec.c:2951-3045 | Different fsmounts of a run consume different fsopen and different create grants |
| `BrokerLog.ObjectMoveHistory` | src/landlockd_exec.c:3427-3489 | Every move through an object lease has behind it, in order, fsopen, create, fsmount and lease for one object name, with attributes inside the allowed set and the target in the attach list |
| `BrokerLog.ObjectMovesShareNothing` | src/landlockd_exec.c:653-757 | The histories of two moves share no grant at any stage |
| `BrokerLog.SourceMoveHistory` | src/landlockd_exec.c:3427-3489 | Every move through a source lease has its own earlier open_tree of the leased source, governed by an addfd rule, and a bind rule for (source, target) that fixes read-only |
| `BrokerLog.SourceMovesShareNothing` | src/landlockd_exec.c:653-682 | No open_tree grant serves two moves |
| `BrokerLog.ScratchConfinement` | src/landlockd_exec.c:3568-4098 | Over a whole run and without further conditions: every mkdir, unlink, symlink, scratch open, rename and link acts on a valid name in a canonical directory, and the path the two make lies strictly below a scratch root (destinations of rename and link: a scratch or export root) |
| `BrokerEnv.ResolvedParent` | src/landlockd_exec.c:2326-2352 | Whatever the tracee asks for, a resolved parent is canonical and the name with it is a valid one |
| `BrokerEnv.AddfdAllowedGoverns` | src/landlockd_exec.c:947-973 | What the scan allows, some addfd rule governs: it names the action, accepts the mode and is a component-wise ancestor of the target, for every canonical rule target |
| `BrokerScope.AddfdAllowedIff` | src/landlockd_exec.c:947-973 | The scan allows a request if and only if such a rule exists, where a rule for `/` governs only `/` |
| `BrokerScope.UnderSomeIff` | src/landlockd_exec.c:2217-2231 | A path passes the list test if and only if it is component-wise below a root, where `/` is a root of `/` only |
| `BrokerScope.FirstObjectIff` | src/landlockd_exec.c:2158-2169 | The search for a name finds a rule if and only if the rule has the name and no earlier rule has it |
| `BrokerScope.FirstObjectForIff` | src/landlockd_exec.c:2172-2186 | The search for a target finds a rule if and only if the rule lists the target and no earlier rule does |
| `BrokerScope.FirstBindIff` | src/landlockd_exec.c:2143-2155 | The search finds a bind rule if and only if the rule has source and target and no earlier rule has both |
| `BrokerScope.ResolvedIff` | src/landlockd_exec.c:2011-2053 | A path argument resolves to a file if and only if realpath says so of the full path: itself if absolute, else below what the descriptor's link names and shorter than 4096 bytes |
| `BrokerScope.EntryIff` | src/landlockd_exec.c:2326-2352 | A path argument names an entry if and only if its full path is the directory, a slash and the name, the name is none of empty, `.` and `..` and fits, and realpath resolves the directory |
| `BrokerInit.AllowlistInit` | src/landlockd_exec.c:999-1068 | The allowlist is the broker section of the policy, list by list and path by path resolved; otherwise the errno of the first path, in the order of the lists, that does not resolve |
| `BrokerInit.CanonicalizeObjects` | src/landlockd_exec.c:839-896 | The nested loops resolve every attach path and keep name, type and attributes, or stop at the first path that does not resolve |
| `BrokerInit.BuiltIsCanonical` | src/landlockd_exec.c:999-1068 | Every allowlist so built is one that the broker's theorems assume: roots, attach paths and addfd targets are canonical |
| `BrokerEnv.AddfdCoversGoverns` | src/landlockd_exec.c:975-990 | A covered object has a nonempty attach list, every path of which is governed for the action |
| `BrokerEnv.UnderSomeConfined` | src/landlockd_exec.c:2217-2231 | A path that passes the list test is component-wise below one of the roots |
| `BrokerTables.LeaseConservation` | src/landlockd_exec.c:621-757 | In every reachable state, for every descriptor number: leases granted are leases taken followed by leases live, in order, for both tables; no lease behind the oldest is created, and the oldest is exactly when a create grant is pending |
| `Broker.ScanAddfd` | src/landlockd_exec.c:947-973 | The loop computes the specification of the scan over all rules |
| `Broker.ScanCovers` | src/landlockd_exec.c:975-990 | True exactly when the attach list is nonempty and every attach path is allowed |
| `Broker.ScanList` | src/landlockd_exec.c:2130-2140 | True exactly for members of the list |
| `Broker.ScanUnder` | src/landlockd_exec.c:2217-2231 | True exactly when some root passes the prefix test |
| `Broker.ScanBind` | src/landlockd_exec.c:2143-2155 | The first rule with this source and target, or none |
| `Broker.ScanObject` | src/landlockd_exec.c:2158-2169 | The first rule with this name, or none |
| `Broker.ScanObjectFor` | src/landlockd_exec.c:2172-2186 | The first rule whose attach list holds the target, or none |
| `Broker.ScanBindTarget` | src/landlockd_exec.c:2204-2215 | True exactly when some bind rule has the target |
| `Broker.Server.AddFsLease` | src/landlockd_exec.c:684-710 | Appends the lease and logs the grant; without memory nothing changes; the tables still follow the log |
| `Broker.Server.FindFsLease` | src/landlockd_exec.c:713-728 | The index of the first lease of the descriptor, or -1 exactly when it has none |
| `Broker.Server.MarkCreated` | src/landlockd_exec.c:2938-2944 | Only the found lease becomes created, and the create grant is logged |
| `Broker.Server.TakeFsLease` | src/landlockd_exec.c:730-757 | Shifts out the first lease of the descriptor, logs the take and returns the lease; the other leases keep their order; none there: nothing changes |
| `Broker.Server.AddMountLease` | src/landlockd_exec.c:621-651 | Appends the lease and logs it; an empty value or no memory changes nothing |
| `Broker.Server.TakeMountLease` | src/landlockd_exec.c:653-682 | Shifts out the first lease of the descriptor, logs the take and returns it; the other leases keep their order; none there: nothing changes |
| `Broker.Server.SendErrno` | src/landlockd_exec.c:2055-2072 | Exactly one delivery, of this error number, unless the kernel lost the request or the send failed |
| `Broker.Server.SendSuccess` | src/landlockd_exec.c:2354-2369 | Exactly one delivery, of success, unless the kernel lost the request or the send failed |
| `Broker.Server.ReplyAddfd` | src/landlockd_exec.c:2074-2128 | Atomic or two-phase: exactly one delivery; a descriptor is reported to the caller exactly when one was injected, and the reply carries that number |
| `Broker.Server.HandleFsopen` | src/landlockd_exec.c:2834-2913 | For every request and every kernel answer: one reply is delivered, and it and the logged effects are exactly those of the outcome that the history specifies; the effects, lawful after that history, are the fsopen grant of an allowed object name or nothing (what exactly, and when, is `BrokerMeaning.EffectsAreDue`) |
| `Broker.Server.HandleFsconfig` | src/landlockd_exec.c:2915-2949 | For every request and every kernel answer: one reply is delivered, and it and the logged effects are exactly those of the outcome that the history specifies; the effects, lawful after that history, are the create grant on the oldest lease of the descriptor, at most once or nothing (what exactly, and when, is `BrokerMeaning.EffectsAreDue`) |
| `Broker.Server.HandleFsmount` | src/landlockd_exec.c:2951-3045 | For every request and every kernel answer: one reply is delivered, and it and the logged effects are exactly those of the outcome that the history specifies; the effects, lawful after that history, are the take, the mount within the rule and its lease or nothing (what exactly, and when, is `BrokerMeaning.EffectsAreDue`) |
| `Broker.Server.HandleSetattr` | src/landlockd_exec.c:3047-3116 | For every request and every kernel answer: one reply is delivered, and it and the logged effects are exactly those of the outcome that the history specifies; the effects, lawful after that history, are attributes within the rule for the target or nothing (what exactly, and when, is `BrokerMeaning.EffectsAreDue`) |
| `Broker.Server.HandleOpenTree` | src/landlockd_exec.c:3118-3218 | For every request and every kernel answer: one reply is delivered, and it and the logged effects are exactly those of the outcome that the history specifies; the effects, lawful after that history, are the clone of a bind source and its lease or nothing (what exactly, and when, is `BrokerMeaning.EffectsAreDue`) |
| `Broker.Server.HandleMount` | src/landlockd_exec.c:3245-3367 | For every request and every kernel answer: one reply is delivered, and it and the logged effects are exactly those of the outcome that the history specifies; the effects, lawful after that history, are a listed bind or tmpfs mount, read-only when the rule or the request says so or nothing (what exactly, and when, is `BrokerMeaning.EffectsAreDue`) |
| `Broker.Server.HandleMoveMount` | src/landlockd_exec.c:3369-3519 | For every request and every kernel answer: one reply is delivered, and it and the logged effects are exactly those of the outcome that the history specifies; the effects, lawful after that history, are the take of a lease and the move it allows, or the move between a listed pair of paths or nothing (what exactly, and when, is `BrokerMeaning.EffectsAreDue`) |
| `Broker.Server.HandleUmount` | src/landlockd_exec.c:3521-3566 | For every request and every kernel answer: one reply is delivered, and it and the logged effects are exactly those of the outcome that the history specifies; the effects, lawful after that history, are the unmount of a listed target or nothing (what exactly, and when, is `BrokerMeaning.EffectsAreDue`) |
| `Broker.Server.HandleScratchOpen` | src/landlockd_exec.c:3568-3672 | For every request and every kernel answer: one reply is delivered, and it and the logged effects are exactly those of the outcome that the history specifies; the effects, lawful after that history, are an open below a scratch root with an addfd rule for it or nothing (what exactly, and when, is `BrokerMeaning.EffectsAreDue`) |
| `Broker.Server.HandleMkdir` | src/landlockd_exec.c:3674-3736 | For every request and every kernel answer: one reply is delivered, and it and the logged effects are exactly those of the outcome that the history specifies; the effects, lawful after that history, are a directory below a scratch root or nothing (what exactly, and when, is `BrokerMeaning.EffectsAreDue`) |
| `Broker.Server.HandleUnlink` | src/landlockd_exec.c:3738-3819 | For every request and every kernel answer: one reply is delivered, and it and the logged effects are exactly those of the outcome that the history specifies; the effects, lawful after that history, are a removal below a scratch root or nothing (what exactly, and when, is `BrokerMeaning.EffectsAreDue`) |
| `Broker.Server.HandleRename` | src/landlockd_exec.c:3821-3924 | For every request and every kernel answer: one reply is delivered, and it and the logged effects are exactly those of the outcome that the history specifies; the effects, lawful after that history, are a rename out of scratch into scratch or export or nothing (what exactly, and when, is `BrokerMeaning.EffectsAreDue`) |
| `Broker.Server.HandleSymlink` | src/landlockd_exec.c:3926-3993 | For every request and every kernel answer: one reply is delivered, and it and the logged effects are exactly those of the outcome that the history specifies; the effects, lawful after that history, are a symbolic link below a scratch root or nothing (what exactly, and when, is `BrokerMeaning.EffectsAreDue`) |
| `Broker.Server.HandleLink` | src/landlockd_exec.c:3995-4098 | For every request and every kernel answer: one reply is delivered, and it and the logged effects are exactly those of the outcome that the history specifies; the effects, lawful after that history, are a hard link out of scratch into scratch or export or nothing (what exactly, and when, is `BrokerMeaning.EffectsAreDue`) |
| `Broker.Server.HandleOpen` | src/landlockd_exec.c:4100-4234 | For every request and every kernel answer: one reply is delivered, and it and the logged effects are exactly those of the outcome that the history specifies; the effects, lawful after that history, are a listed open, or the scratch path for creating opens and unlisted paths or nothing (what exactly, and when, is `BrokerMeaning.EffectsAreDue`) |
| `Broker.Server.Dispatch` | src/landlockd_exec.c:4277-4433 | Exactly one handler runs, or the ENOSYS fallback refuses; effects and reply are those that the history of the run specifies for the request, read from the log instead of the tables |
| `Broker.Server.Loop` | src/landlockd_exec.c:4236-4446 | For every finite run from empty tables: effects and replies are, in order, those of the history-based specification, one reply for every request up to the end; the log is lawful, the tables end empty, and a nonzero result means that receiving or replying failed |
| `Broker.TablesAnswer` | src/landlockd_exec.c:621-757 | In every reachable state the lease that the tables give for a descriptor is the one that the log of the run gives: the tables refine the history |
| `BrokerReplies.SuccessHasEffect` | src/landlockd_exec.c:4277-4433 | A reply other than a refusal comes with at least one logged effect, except for the fsopen descriptor that was handed over when no lease could be stored |
| `BrokerMeaning.EffectsAreDue` | src/landlockd_exec.c:2834-4234 | For every request, history, allowlist and kernel: an effect happens if and only if the request asks for it, with its own resolved arguments, flags and modes, and the allowlist grants it; unlinkat removes the entry that it names and nothing else, renameat2 renames and linkat links the two entries that they name, and so on for all fifteen calls |
| `BrokerMeaning.EffectsAreRanked` | src/landlockd_exec.c:2951-3045 | Each effect happens at most once, in order: a lease is taken, the work is done, a lease is added |
| `BrokerMeaning.RankedAreEqual` | src/landlockd_exec.c:2951-3045 | Effects in that order are fixed by which effects there are, so that `EffectsAreDue` leaves no choice |
| `BrokerMeaning.AnswerIsService` | src/landlockd_exec.c:2834-4234 | The reply is no refusal if and only if the work of the request is granted, the kernel does it and a descriptor, if one was asked for, is injected; it is then that descriptor, close-on-exec as asked, or success; a failure of the kernel is passed on with its errno |
| `BrokerMeaning.RunServes` | src/landlockd_exec.c:4236-4446 | In every run each received request adds to the history exactly what it is due by the history before it, in order, and adds one reply, a success exactly when it is served |
| `BrokerMeaning.EveryEffectHasItsRequest` | src/landlockd_exec.c:4236-4446 | In every run every effect was done for a request that was received before it and was due it |
| `BrokerDenial.RefusalIsDenial` | src/landlockd_exec.c:2834-4234 | When the arguments can be read and resolved and no kernel call fails, a request that is not served is refused with EACCES, and an unknown call with ENOSYS |
| `WireTheorems.RoundTrip` | src/landlock_policy_loader.c:206-420 | Decoding the encoding of any well-formed policy gives exactly that policy, for the program's decoder and for the strict one |
| `WireTheorems.EncodedDecodes` | src/landlock_policy_loader.c:489-1060 | The same for every header that a writer may choose where the decoder does not look, such as an error number with seccomp off |
| `WireTheorems.DecodedIsWellFormed` | src/landlock_policy_loader.c:489-1060 | Every accepted blob gives a well-formed policy; a strictly accepted blob is the encoding of its policy |
| `WireTheorems.CanonicalBlobs` | src/landlock_policy_loader.c:489-1060 | An accepted blob re-encodes to itself if and only if the strict decoder accepts it |
| `WireItems.CanonicalIff` | src/landlock_policy_loader.c:489-1060 | An accepted blob re-encodes to itself if and only if the header at its start switches sections by 0 or 1 with nothing behind a 0, no string that is read from it holds a NUL, and no port word that is read exceeds 65535 |
| `WireItems.IdleNetIsAccepted` | src/landlock_policy_loader.c:526-600 | A concrete blob, networking off and access bits 1 nevertheless, that the decoder accepts as the empty policy |
| `WireItems.IdleNetIsNotCanonical` | src/landlock_policy_loader.c:206-236 | That blob is not what the encoder writes for the empty policy |
| `WireTheorems.PrefixFree` | src/landlock_policy_loader.c:1054-1059 | No proper prefix and no proper extension of an accepted blob is accepted |
| `WireTheorems.EncodeIsInjective` | src/landlock_policy_loader.c:206-420 | Different well-formed policies have different encodings |
| `WireBounds.CountsAreBounded` | src/landlock_policy_loader.c:556-1052 | 92 header bytes apart, every element of every nested list takes at least four bytes of an accepted blob |
| `WireRead.Reader.ReadWord` | src/landlock_policy_loader.c:449-458 | Succeeds exactly when four bytes are left, gives the little-endian number and moves the offset by four, never past the end |
| `WireRead.Reader.ReadLong` | src/landlock_policy_loader.c:460-469 | The same for eight bytes |
| `WireRead.Reader.ReadPaths` | src/landlock_policy_loader.c:602-621 | The counted loop reads what the codec of that many paths reads from the same offset |
| `WireRead.Reader.ReadLayers` | src/landlock_policy_loader.c:556-588 | The nested loops read what the codec of the layers reads |
| `WireRead.Reader.ReadNetRules` | src/landlock_policy_loader.c:589-600 | The loop reads what the codec of the rules reads |
| `WireRead.Reader.ReadBinds` | src/landlock_policy_loader.c:707-749 | The loop reads what the codec of the bind rules reads |
| `WireRead.Reader.ReadObjects` | src/landlock_policy_loader.c:751-839 | The nested loops read what the codec of the objects reads; an object without attach paths is refused |
| `WireRead.Reader.ReadAddfds` | src/landlock_policy_loader.c:841-908 | The loop reads what the codec of the addfd rules reads; only the closed action set passes, an empty mode is absent |
| `WireRead.Reader.ReadDenies` | src/landlock_policy_loader.c:1043-1052 | The loop reads what the codec of the numbers reads; none above 0x7fffffff passes |
| `WireRead.Reader.ReadHeader` | src/landlock_policy_loader.c:526-555 | The 23 words are the header that the header codec reads |
| `WireRead.Reader.ReadTail` | src/landlock_policy_loader.c:996-1035 | A string whose length stood in the header, absent when that is zero |
| `WireRead.Reader.Load` | src/landlock_policy_loader.c:489-1060 | For every buffer the imperative decoder returns exactly what the specification decodes, and consumes the whole buffer when it accepts |
| `WireWrite.Writer.WriteText` | src/landlock_policy_loader.c:243-251 | Appends the low 32 bits of the length and then that many bytes |
| `WireWrite.Writer.WriteLayers` | src/landlock_policy_loader.c:238-252 | Appends exactly what the codec prints for the layers |
| `WireWrite.Writer.WriteObjects` | src/landlock_policy_loader.c:315-347 | Appends exactly what the codec prints for the objects, attach paths included |
| `WireWrite.Writer.WriteAddfds` | src/landlock_policy_loader.c:348-369 | Appends exactly what the codec prints for the addfd rules, the optional mode included |
| `WireWrite.Writer.WriteHeader` | src/landlock_policy_loader.c:211-236 | Appends exactly what the header codec prints |
| `WireWrite.Writer.WriteIr` | src/landlock_policy_loader.c:206-420 | The stream gains exactly the encoding of the policy, for every policy whose counts fit the 32-bit loop counters |
| `Bpf.NotifyCorrect` | src/landlockd_seccomp.c:333-368 | For every plan of 1 to 32 numbers and every system call, running the filter gives USER_NOTIF if and only if the number is planned, else ALLOW; every jump lands in the program and fits a byte |
| `Bpf.DenyCorrect` | src/landlockd_seccomp.c:370-404 | The same for the other layout with ERRNO and the given error number |
| `Bpf.TwoFilters` | src/landlockd_exec.c:4448-4511 | Both filters together under the kernel's precedence: ERRNO exactly for denied calls, otherwise USER_NOTIF exactly for notified ones |
| `Seccomp.Plan.constructor` | src/landlockd_seccomp.c:131-144 | An empty valid plan |
| `Seccomp.Plan.Add` | src/landlockd_seccomp.c:146-158 | EINVAL for a negative number, ENOSPC for the thirty-third, otherwise the number goes to the end; a failure changes nothing |
| `Seccomp.Plan.Install` | src/landlockd_seccomp.c:333-368 | The filter array that the loop fills is the notify program of the plan, installed exactly on success; never empty, never out of bounds |
| `Seccomp.Plan.InstallDenylist` | src/landlockd_seccomp.c:370-404 | The filter array that the loop fills is the deny program of the plan, installed exactly on success |
| `SeccompPlans.CompileExceptions` | src/policy_compiler.c:205-242 | A valid policy gives the in-order concatenation of all its excepted calls, or an emptied plan and ENOSPC when there are more than 32; an invalid one EINVAL and an untouched plan |
| `SeccompPlans.BuildPlans` | src/landlockd_exec.c:4614-4845 | Succeeds exactly when the denied calls fit, and then both plans hold exactly the specified numbers: no policy rule is dropped (which calls these are, told without the lists, is `SeccompMeaning.FiltersDecide`) |
| `SeccompPlans.ApplyInChild` | src/landlockd_exec.c:4448-4511 | On success exactly the filters for the two plans were installed, deny first; an empty notify plan with a broker fails |
| `SeccompPlans.ChildSees` | src/landlockd_exec.c:4614-4845 | For every policy: the notify plan has at most 16 entries, the child sees ERRNO exactly for denied calls, otherwise USER_NOTIF exactly for notified ones; every policy deny rule is denied, and with a mount namespace no mount call is allowed through |
| `SeccompMeaning.FiltersDecide` | src/landlockd_exec.c:4614-4845 | For every policy, allowlist and call number, told from the policy alone: denied rules give ERRNO; openat and openat2 are notified if and only if some list of the allowlist is nonempty; mkdirat, unlinkat, renameat2, symlinkat and linkat if and only if it has a scratch or export root; the nine mount calls, with a mount namespace, are notified when the allowlist grants mounts and fail when it grants none; everything else runs |
| `SeccompMeaning.Confine` | src/landlockd_exec.c:4614-4845 | Plan building and installation together: ENOSPC and no filter exactly when more than 32 calls must be denied, and after a success the installed filters decide every call number in that way |
| `BrokerReach.SucceedingCallsAreNotified` | src/landlockd_exec.c:4614-4845 | Whatever request would succeed after a lawful history, the filters of its policy hand its call to the broker, unless the policy denies that call outright |
| `PolicyDoc.AccessBits` | src/landlock_policy_loader_in_process.c:128-164 | Bit by bit: the mask of an access list has exactly the bits that its names stand for |
| `AccessMeaning.FsRuleGrants` | src/landlock_policy_loader_in_process.c:22-39 | Right by right, without the table: bit 0 of the mask of a file-system rule is set if and only if the rule lists execute, bit 1 write_file, bit 2 read_file and so on up to bit 15 ioctl_dev, no other bit is set, and every name listed is one of the sixteen |
| `AccessMeaning.FsRuleAcceptedIff` | src/landlock_policy_loader_in_process.c:166-213 | A file-system rule is accepted if and only if it has no unknown key, a nonempty path, and a nonempty list of these sixteen names |
| `AccessMeaning.LayerGrants` | src/landlock_policy_loader_in_process.c:215-267 | The same for the rights that a layer handles |
| `AccessMeaning.NetRuleGrants` | src/landlock_policy_loader_in_process.c:41-44 | The same for a network rule: bit 0 bind_tcp and bit 1 connect_tcp |
| `AccessMeaning.NetGrants` | src/landlock_policy_loader_in_process.c:316-363 | The same for the network rights that the policy handles |
| `AccessMeaning.ObjectGrants` | src/landlock_policy_loader_in_process.c:46-59 | The same for mount attributes: readonly, nosuid, nodev and noexec from bit 0 to bit 3, and none without a list |
| `AccessMeaning.HelperFsRuleGrants` | tools/landlockd-policy-helper-rs/src/main.rs:413-459 | The same for a file-system rule in the Rust helper, which has tables of its own |
| `AccessMeaning.HelperLayerGrants` | tools/landlockd-policy-helper-rs/src/main.rs:444-449 | The same for a layer in the Rust helper |
| `AccessMeaning.HelperNetRuleGrants` | tools/landlockd-policy-helper-rs/src/main.rs:468-488 | The same for a network rule in the Rust helper |
| `AccessMeaning.HelperNetGrants` | tools/landlockd-policy-helper-rs/src/main.rs:468-471 | The same for the network section in the Rust helper |
| `AccessMeaning.HelperObjectGrants` | tools/landlockd-policy-helper-rs/src/main.rs:328-370 | The same for mount attributes in the Rust helper |
| `PolicyLoad.LoadAccess` | src/landlock_policy_loader_in_process.c:128-164 | The loop ORs to the mask of the specification; one unknown name or one non-string refuses the list |
| `PolicyLoad.LoadPaths` | src/landlock_policy_loader_in_process.c:480-519 | The loop gives all paths in order, or nothing when one is missing or empty |
| `PolicyLoad.LoadFsRule` | src/landlock_policy_loader_in_process.c:166-213 | One rule, or nothing for an unknown key, a missing path or an empty mask |
| `PolicyLoad.LoadFsLayer` | src/landlock_policy_loader_in_process.c:215-267 | One layer with its rules in order, or nothing |
| `PolicyLoad.LoadNetRule` | src/landlock_policy_loader_in_process.c:269-314 | One rule, or nothing when the port is out of range or the mask empty |
| `PolicyLoad.LoadBinds` | src/landlock_policy_loader_in_process.c:521-614 | All bind rules in order, or nothing |
| `PolicyLoad.LoadBind` | src/landlock_policy_loader_in_process.c:521-614 | One bind rule with two absolute paths and its read-only flag, true by default, or nothing for an unknown key, a path missing or relative, or a flag that is no boolean |
| `PolicyLoad.LoadObject` | src/landlock_policy_loader_in_process.c:616-775 | One object: attach paths in order and the union of its attributes, or nothing |
| `PolicyLoad.LoadAddfds` | src/landlock_policy_loader_in_process.c:365-478 | All addfd rules in order, or nothing |
| `PolicyLoad.FindAction` | src/landlock_policy_loader_in_process.c:89-100 | The loop over the table of names finds exactly the five actions |
| `PolicyLoad.LoadAddfd` | src/landlock_policy_loader_in_process.c:365-478 | One addfd rule with an action of the closed set, an absolute target and a mode read, write or none, or nothing |
| `PolicyLoad.Loader.LoadNet` | src/landlock_policy_loader_in_process.c:316-363 | The section's effect on the policy, or a refusal |
| `PolicyLoad.Loader.LoadBroker` | src/landlock_policy_loader_in_process.c:777-852 | The eight lists of the section on the policy, or a refusal |
| `PolicyLoad.Loader.LoadMount` | src/landlock_policy_loader_in_process.c:854-958 | The three mount lists on the policy, or a refusal |
| `PolicyLoad.Loader.LoadRuntime` | src/landlock_policy_loader_in_process.c:960-1026 | Root and working directory, absolute or refused |
| `PolicyLoad.Loader.LoadSeccomp` | src/landlock_policy_loader_in_process.c:1028-1102 | The error number in 1..4095, 1 by default, and the named system calls, or a refusal |
| `PolicyLoad.Loader.LoadRoot` | src/landlock_policy_loader_in_process.c:1104-1187 | Accepts exactly the documents of the specification, with exactly its policy |
| `PolicyLoad.Loader.LoadDocument` | src/landlock_policy_loader_in_process.c:1189-1257 | All or nothing: the policy of the document, or an empty policy |
| `PolicyDocTheorems.LoadedIsWellFormed` | src/landlock_policy_loader_in_process.c:1104-1187 | Every document that the loader accepts gives a policy that is well formed for the wire |
| `PolicyLimits.LoadedIsLimited` | src/landlock_policy_loader_in_process.c:1104-1187 | Whatever document is loaded: every bind source and target, attach path, addfd target, mount target, root and working directory is absolute; objects have a name without slash and type tmpfs or proc; actions, modes and error numbers are from the closed sets |
| `PolicyDocTheorems.HelperRefinesLoading` | src/landlock_policy_loader.c:1226-1250 | Encoding and decoding whatever the loader accepts gives the same policy: the helper route refines in-process loading |
| `RustTheorems.AccessAgrees` | tools/landlockd-policy-helper-rs/src/main.rs:222-239 | The two builders, each with its own table, compute the same mask from the same list when the tables give every name the same bit |
| `RustTheorems.ObjectAgrees` | tools/landlockd-policy-helper-rs/src/main.rs:328-370 | An object that the helper accepts is loaded identically in process |
| `RustTheorems.SeccompAgrees` | tools/landlockd-policy-helper-rs/src/main.rs:527-551 | A seccomp section that the helper accepts has the same effect in process: the same denied calls and the same error number, 1 by default |
| `RustTheorems.HelperAgrees` | tools/landlockd-policy-helper-rs/src/main.rs:412-554 | Every NUL-free document that the Rust helper accepts is accepted in process, with the same policy up to the error number that nothing uses |
| `RustTheorems.RustRouteRefinesLoading` | tools/landlockd-policy-helper-rs/src/main.rs:571-681 | For every such document, if its lists and strings are below 4 GiB, the writer of the helper succeeds and decoding its bytes gives exactly the in-process policy |
| `RustWrite.HelperWriter.WriteString` | tools/landlockd-policy-helper-rs/src/main.rs:564-569 | Refuses exactly the strings of 4 GiB or more, otherwise writes the length and the whole string |
| `RustWrite.HelperWriter.WriteLayers` | tools/landlockd-policy-helper-rs/src/main.rs:607-614 | The nested loops write all layers, or stop exactly when a path does not fit; counts are cut to 32 bits |
| `RustWrite.HelperWriter.WriteObjects` | tools/landlockd-policy-helper-rs/src/main.rs:641-650 | The nested loops write all objects, attributes in two halves, or stop exactly when a string does not fit |
| `RustWrite.HelperWriter.WriteHeader` | tools/landlockd-policy-helper-rs/src/main.rs:571-605 | The numbers of the header in order, the lengths of the runtime paths cut to 32 bits |
| `RustWrite.HelperWriter.WriteIr` | tools/landlockd-policy-helper-rs/src/main.rs:571-681 | Fails exactly when a string that is written with its length is 4 GiB or longer, and otherwise writes exactly the specified bytes |
| `RustWire.WrittenIsEncoded` | tools/landlockd-policy-helper-rs/src/main.rs:571-681 | When also the runtime paths are shorter than 4 GiB, these bytes are the wire encoding of the C writer |
| `RustWire.LongRootIsWritten` | tools/landlockd-policy-helper-rs/src/main.rs:589-602 | A concrete policy of that kind: a root of 4 GiB, which the writer does not refuse and announces with the length 0 |
| `RustWire.LongRuntimePath` | tools/landlockd-policy-helper-rs/src/main.rs:589-602 | Otherwise they are not: the path is written whole under its length modulo 2^32 |
| `RustExact.HelperAcceptsIff` | tools/landlockd-policy-helper-rs/src/main.rs:412-554 | The helper accepts a NUL-free document if and only if the in-process loader accepts it, every value has its declared type, and no path list of the broker section is empty |
| `RustExact.EmptyList` | tools/landlockd-policy-helper-rs/src/main.rs:241-257 | A concrete well-typed document that only the C loader accepts: it takes an empty list for none |
| `RustTheorems.MistypedSection` | src/landlock_policy_loader_in_process.c:1104-1187 | A concrete document that only the C loader accepts: it ignores a section that is not a table |
| `Order.SortedIsUnique` | src/landlockd_cli.c:472-516 | Under a total order two sorted lists with the same elements are equal |
| `Order.SortIsCanonical` | src/landlockd_cli.c:472-516 | Sorting forgets the order of its input |
| `Order.MapThroughKey` | src/landlockd_cli.c:498-506 | Lists with the same collection of keys give the same collection of anything that the key determines: the step that crosses the two nested levels |
| `DryRun.FsRuleOrderTotal` | src/landlockd_cli.c:332-342 | The comparison is a total order: antisymmetric, transitive, and zero exactly for equal records |
| `DryRun.NetRuleOrderTotal` | src/landlockd_cli.c:344-354 | The comparison is a total order: antisymmetric, transitive, and zero exactly for equal records |
| `DryRun.DenyOrderTotal` | src/landlockd_cli.c:424-430 | The comparison is a total order: antisymmetric, transitive, and zero exactly for equal records |
| `DryRun.BindOrderTotal` | src/landlockd_cli.c:370-384 | The comparison is a total order: antisymmetric, transitive, and zero exactly for equal records |
| `DryRun.ObjectOrderTotal` | src/landlockd_cli.c:386-415 | The comparison is a total order: antisymmetric, transitive, and zero exactly for equal records |
| `DryRun.CompareAttach` | src/landlockd_cli.c:406-414 | The loop compares attach lists lexicographically, the shorter first |
| `DryRun.QSort` | src/landlockd_cli.c:472-516 | What qsort(3) promises under a total preorder: a sorted permutation |
| `DryRun.SortList` | src/landlockd_cli.c:472-516 | Under the total orders of the comparison functions whatever qsort(3) returns is the one canonical list |
| `DryRun.Printer.SortAll` | src/landlockd_cli.c:476-516 | After the qsort calls every list of the policy, and every attach list inside an object, is in canonical order |
| `DryRun.Printer.Run` | src/landlockd_cli.c:472-598 | The text is the report of the sorted policy, line for line |
| `DryRun.ReportIsCanonical` | src/landlockd_cli.c:472-598 | Permuting any rule list, or the attach paths inside objects, leaves the text identical |
| `DryRun.BindLinesCollide` | src/landlockd_cli.c:457-470 | The converse fails: different bind rules can print the same line, because nothing delimits source and target |
| `DryRunText.EscapedInjective` | src/landlockd_cli.c:292-313 | Different byte strings have different escaped spellings |
| `DryRunText.BindLineDeterminesIff` | src/landlockd_cli.c:457-470 | A bind line belongs to one rule if and only if the delimiter occurs in source, delimiter and target run together at one place only |
| `DryRunText.ObjectLineDeterminesIff` | src/landlockd_cli.c:553-566 | A mount-object line belongs to one name, type, attach path and attribute set if and only if its two delimiters can be found in one way only |
| `DryRunText.LoadedObjectsAreDetermined` | src/landlockd_cli.c:553-566 | That is the case between any two objects with a name without slash, a type tmpfs or proc and an absolute attach path, which is what the loaders accept |
| `DryRunVisible.SameLayers` | src/landlockd_cli.c:517-526 | The lines of the layers determine the layers: how many, in which order, and which rule belongs to which |
| `DryRunVisible.ReportDeterminesIff` | src/landlockd_cli.c:472-598 | Two policies print the same text if and only if they agree in layers, net access bits and rules, every path list, seccomp switch, error number and calls, in binds and objects with their delimiters run together, and in the runtime paths with unset printed as <unset>; neither the net switch nor the addfd rules are printed |
| `DryRunVisible.LegibleReportDetermines` | src/landlockd_cli.c:472-598 | Between loaded policies whose bind paths hold no delimiter the text determines everything but the net switch, the addfd rules and the grouping of attach paths into equal objects |
| `DryRunOrder.CanonicalAscends` | src/landlockd_cli.c:315-516 | The printed lists are the lists of the policy in ascending order, told by the fields themselves: byte order of strings with the proper prefix first; path then access; port then access; source, target, then writable before read-only; name, type, attributes, then attach paths |
| `DryRunOrder.ObjectIff` | src/landlockd_cli.c:386-415 | The comparison is negative if and only if the first object comes before the second in that order |
| `DryRunOrder.BindIff` | src/landlockd_cli.c:370-384 | The same for bind rules |
| `DryRunOrder.FsIff` | src/landlockd_cli.c:332-342 | The same for file-system rules |
| `DryRunReading.EscapedIsRead` | src/landlockd_cli.c:292-313 | A reader of the escapes, with its own table of letters and byte values, recovers every byte string from its escaped text |
| `DryRunReading.HexIsRead` | src/landlockd_cli.c:518-535 | A mask is printed as 0x and lower-case hexadecimal digits that spell its value |
| `Cache.GetIsSound` | src/landlockd_daemon.c:313-368 | If loading depends only on path and stamp, a lookup keeps the cache sound and returns what a fresh load would |
| `Cache.RunIsSound` | src/landlockd_daemon.c:313-368 | In every run from the empty cache: at most 16 entries, distinct names, and every successful lookup equals a fresh load, despite failed refreshes that leave nameless entries |
| `Cache.OldestIsLast` | src/landlockd_daemon.c:287-311 | In every run the slots stand in order of insertion, the newest first; each was inserted by a request that found nothing and loaded, carries that request's name or none, and holds what that request loaded unless the file was asked for under another stamp |
| `Cache.HoldsLatestInsertions` | src/landlockd_daemon.c:313-368 | In every run the cache holds the entries of the latest insertions, the latest first, and each is what its own insertion and the later requests of its name alone have made of it |
| `Cache.EvictionDropsOldest` | src/landlockd_daemon.c:287-311 | A lookup that finds nothing in a full cache drops the entry whose insertion is the earliest, and no other birth |
| `Cache.EvictionKeepsOthers` | src/landlockd_daemon.c:287-311 | It leaves the fifteen other slots as they were and in order, whether the load then succeeds or not |
| `CacheHistory.AnswersFromRequests` | src/landlockd_daemon.c:313-368 | From the requests alone: a lookup is a hit if and only if its file has a held entry, was found under the same stamp last time, and could be loaded whenever it had changed since its insertion; otherwise it succeeds if and only if the file loads, into its entry or with memory for a new one; the result is what loading would give |
| `CacheHistory.SlotsMirrorBook` | src/landlockd_daemon.c:313-368 | The entries are those of a book of insertions that is kept from the requests alone: newest first, at most 16, the oldest dropped by every lookup of an unknown file, and each is what loading its file under its last stamp gives, or nameless once a reload failed |
| `CacheHistory.BookIsBirths` | src/landlockd_daemon.c:313-368 | That book is the list of the latest insertions of the run |
| `CacheList.State.FindEntry` | src/landlockd_daemon.c:327-330 | The walk over the links finds the first entry with the name, or none |
| `CacheList.State.EvictTail` | src/landlockd_daemon.c:287-311 | Below 16 entries nothing; otherwise exactly the last node is unlinked and counted off |
| `CacheList.State.Refresh` | src/landlockd_daemon.c:331-347 | The stale entry is reloaded in place; a failed load leaves it nameless and in the list |
| `CacheList.State.Insert` | src/landlockd_daemon.c:350-367 | Evict, load, and link in front; without memory or on a failed load only the eviction shows |
| `CacheList.State.GetPolicy` | src/landlockd_daemon.c:313-368 | After every lookup of every run: the list holds the slots of the specification, and the counters are exactly the hits and the loads of all requests so far, as `CacheHistory` tells them from the requests alone |
| `Framing.HeaderIsRead` | src/landlockd_daemon.c:724-804 | The daemon reads back the five header words of the client |
| `Framing.ServedAsSent` | src/landlockd_daemon.c:395-483 | Every request that the client sends passes every check of the daemon, whose limits are written independently |
| `Framing.FramingAgrees` | src/landlockd_daemon.c:395-483 | The daemon runs exactly the client's values if and only if no string is 4 GiB or longer, because lengths are cut to 32 bits before they are checked |
| `Framing.LongPathIsCut` | src/landlockd_daemon.c:724-787 | Such a request exists: it is accepted and served with another path |
| `FramingExact.RunsIff` | src/landlockd_daemon.c:395-483 | The daemon runs a request if and only if its bytes spell 1 to 128 arguments of 1 to 65535 bytes after a policy path of 1 to 16384 bytes, with at most a mebibyte in all; what it runs is the strings spelled |
| `FramingExact.ClientSendsIff` | src/landlockd_daemon.c:724-804 | Of strings shorter than 4 GiB the client sends exactly the requests that the daemon runs |
| `FramingLoops.MeasureArgs` | src/landlockd_daemon.c:734-752 | The measuring loop accepts exactly the argument lists in range, and its 32-bit total never wraps |
| `FramingLoops.EncodeRun` | src/landlockd_daemon.c:724-804 | A request is sent exactly when the limits allow it, and it is header and body as specified |
| `FramingLoops.ReadArg` | src/landlockd_daemon.c:433-453 | One turn of the argument loop from any offset: limits, wrap-free total, and the argument as a C string |
| `FramingLoops.ReadAllArgs` | src/landlockd_daemon.c:430-455 | The loop reads exactly the specified arguments or refuses |
| `FramingLoops.HandleRun` | src/landlockd_daemon.c:395-483 | For every header and body the daemon decides as specified |
| `Descriptors.HoldsMeans` | src/policy_compiler.c:29-50 | What conservation says: distinct new descriptors, one per layer and in layer order, the old ones untouched, nothing else open |
| `Compile.CleanUp` | src/policy_compiler.c:29-50 | Exactly the open slots are closed: the descriptor table is as it was |
| `Compile.AddFsRules` | src/landlockd_exec.c:439-462 | Every path descriptor is closed again; on success the ruleset has all rules of the layer in order |
| `Compile.ExecCompileFs` | src/landlockd_exec.c:400-468 | For every policy and every failure point: one descriptor per layer, each with its layer's rules, or the descriptor table as it was and the errno of the failing call; success exactly when no call fails |
| `Compile.ExecCompileNet` | src/landlockd_exec.c:470-500 | At most one descriptor, with all rules, or the table as it was; success exactly when no call fails |
| `Compile.CompileKind` | src/policy_compiler.c:78-131 | The same for the layers of one kind among others |
| `Compile.PolicyCompileFs` | src/policy_compiler.c:52-132 | A valid policy gives one descriptor per file-system layer in layer order or leaves the table as it was; an invalid one EINVAL |
| `Compile.PolicyCompileNet` | src/policy_compiler.c:134-203 | A valid policy gives one descriptor per network layer in layer order or leaves the table as it was; an invalid one EINVAL |
| `CompileMeaning.ValidatesIff` | src/policy_ir.c:6-106 | A policy is valid if and only if it has a name and its layers, each in its place, describe one or more sound sections: rulesets whose rights are not empty, or calls whose numbers are not negative |
| `CompileMeaning.RulesetsOfSections` | src/policy_compiler.c:52-203 | The rulesets compiled from a policy are those of the sections of the kind, in order, with the paths, ports and rights the layers list |
| `CompileMeaning.ExceptionsOfSections` | src/policy_compiler.c:205-242 | And the excepted calls are those of all call sections, in order |
| `JsonTheorems.EscapedIsRead` | src/landlockd_audit.c:53-99 | Un-escaping after section 7 of RFC 8259 inverts the escaper for every byte string, whatever follows the closing quote |
| `JsonTheorems.LineIsRead` | src/landlockd_audit.c:101-196 | The line of any list of fields reads back as those fields in order: null, strings and signed numbers |
| `JsonTheorems.LineEndsOnce` | src/landlockd_audit.c:186-196 | The only newline of a line is its last byte |
| `JsonTheorems.JournalIsInjective` | src/landlockd_audit.c:122-221 | Two logs are equal only if they record the same events with the same fields |
| `Audit.Log.Append` | src/landlockd_audit.c:17-47 | Contents are the concatenation of all appends through doubling growth; fails exactly when the doubled capacity is not granted, and then changes nothing; the terminator stays in bounds |
| `Audit.Log.EmitEscaped` | src/landlockd_audit.c:53-99 | The loop appends the quoted text, or null |
| `Audit.Log.FieldString` | src/landlockd_audit.c:147-156 | The buffer spells the fields so far and the new one; a null key adds nothing |
| `Audit.Log.FieldNumber` | src/landlockd_audit.c:158-170 | The same for signed and unsigned 64-bit numbers |
| `Audit.NumbersFit` | src/landlockd_audit.c:160-169 | No 64-bit number is cut off by the 32-byte buffer |
| `Audit.Log.Begin` | src/landlockd_audit.c:122-145 | Forgets what was there and opens an event with component, event, timestamp and an optional job_id |
| `Audit.Log.WriteOut` | src/landlockd_audit.c:200-213 | However write(2) cuts the line up or is interrupted, no byte is lost, repeated or reordered; all go out unless it fails |
| `Audit.Log.End` | src/landlockd_audit.c:186-221 | The stream gains the line of all fields of the event, then the buffer is empty again |
| `Utf8.RoundTrip` | subprojects/tomlc99/toml.c:71-250 | For every code up to 0x7FFFFFFF, decoding the encoding gives the code and its octet count, whatever follows |
| `Utf8.PrefixFree` | subprojects/tomlc99/toml.c:172-250 | No code's octets start another code's octets |
| `Utf8.ReadIsCanonicalIff` | subprojects/tomlc99/toml.c:71-165 | What is read re-encodes to the octets that were read if and only if they were the shortest form; the decoder takes longer forms too |
| `Utf8.LongSpellingIsRead` | subprojects/tomlc99/toml.c:71-165 | A concrete overlong form that the decoder accepts |
| `Utf8.UcsToUtf8` | subprojects/tomlc99/toml.c:172-250 | Writes exactly the octets of an encodable code inside six bytes and nothing else; -1 and no write for surrogates, U+FFFE, U+FFFF, negative and too large codes |
| `Utf8.Utf8ToUcs` | subprojects/tomlc99/toml.c:71-165 | The loops accept exactly well-formed leading and continuing octets and gather their bits |
| `BasicString.ReadHex` | subprojects/tomlc99/toml.c:535-554 | The digit loop gives the number of four or eight capital hexadecimal digits, or refuses |
| `BasicString.Turn` | subprojects/tomlc99/toml.c:494-591 | One turn writes exactly the bytes of its step at the offset and leaves every other byte alone; ten free bytes always suffice |
| `BasicString.NormBasicStr` | subprojects/tomlc99/toml.c:467-597 | For every source, in one line or many: the C string is exactly the decoded text, refused exactly when malformed given source length plus 60 bytes of memory; every write is in bounds |
| `BasicStringTheorems.SpellingIsRead` | subprojects/tomlc99/toml.c:467-597 | Any mixture of raw bytes, the seven letter escapes, four- and eight-digit code escapes and, in many lines, folded line ends decodes to what it stands for: the bytes 8, 9, 10, 12, 13, 34 and 92 for the letters, UTF-8 octets for the codes, nothing for a folded line end with all white space after it |
| `BasicStringTheorems.SourceIsSpelled` | subprojects/tomlc99/toml.c:467-597 | The converse: every source that is read is such a mixture, and its value is what the mixture stands for |
| `BasicStringTheorems.AcceptedIff` | subprojects/tomlc99/toml.c:467-597 | A source is accepted if and only if it is such a mixture |
| `BasicStringTheorems.EveryTextCanBeSpelled` | subprojects/tomlc99/toml.c:467-597 | Every byte string is the value of a basic string: the decoder has a right inverse |
| `BasicStringTheorems.ValuesAreNoLonger` | subprojects/tomlc99/toml.c:467-597 | A value is never longer than its source |
| `PolicyBuild.Builder.AddFsLayer` | src/landlock_policy_ir.c:93-116 | Appends an empty layer; EINVAL without access bits, ENOMEM without memory, and then nothing changes |
| `PolicyBuild.Builder.AddFsRule` | src/landlock_policy_ir.c:118-145 | Appends the rule to that layer and no other; EINVAL for no access bits or no such layer |
| `PolicyBuild.Builder.EnableNet` | src/landlock_policy_ir.c:147-156 | Sets switch and access bits together; EINVAL without access bits |
| `PolicyBuild.Builder.AddNetRule` | src/landlock_policy_ir.c:158-175 | Appends the rule; EINVAL without access bits or with the section off |
| `PolicyBuild.Builder.AddOpenRead` | src/landlock_policy_ir.c:177-203 | Appends the path to the readable paths and changes nothing else; EINVAL for an empty path |
| `PolicyBuild.Builder.AddOpenWrite` | src/landlock_policy_ir.c:205-231 | The same for the writable paths |
| `PolicyBuild.Builder.AddScratch` | src/landlock_policy_ir.c:233-259 | The same for the scratch roots |
| `PolicyBuild.Builder.AddExport` | src/landlock_policy_ir.c:261-287 | The same for the export roots |
| `PolicyBuild.Builder.AddBrokerTmpfs` | src/landlock_policy_ir.c:289-315 | The same for the tmpfs targets of the broker |
| `PolicyBuild.Builder.AddMountTmpfs` | src/landlock_policy_ir.c:474-500 | The same for the tmpfs targets of the mount section |
| `PolicyBuild.Builder.AddMountProc` | src/landlock_policy_ir.c:542-568 | The same for the proc targets |
| `PolicyBuild.Builder.AddMountBind` | src/landlock_policy_ir.c:502-540 | Appends a bind rule to the mount section; EINVAL for an empty path |
| `PolicyBuild.Builder.SetCwd` | src/landlock_policy_ir.c:588-604 | Sets the working directory once; EINVAL the second time |
| `PolicyBuild.Builder.AddBrokerBind` | src/landlock_policy_ir.c:317-354 | Appends source, target and whether the flag is nonzero; EINVAL for an empty path |
| `PolicyBuild.Builder.AddObject` | src/landlock_policy_ir.c:356-422 | The loop copies every attach path, stops at an empty one with EINVAL, and the object is appended whole or not at all |
| `PolicyBuild.Builder.AddAddfd` | src/landlock_policy_ir.c:424-472 | Appends the rule, an empty mode as none |
| `PolicyBuild.Builder.SetRoot` | src/landlock_policy_ir.c:570-586 | Sets the root once; EINVAL the second time |
| `PolicyBuild.Builder.EnableSeccomp` | src/landlock_policy_ir.c:606-616 | Sets switch and error number together; EINVAL for error number 0 |
| `PolicyBuild.Builder.AddDeny` | src/landlock_policy_ir.c:618-637 | Appends the number; EINVAL for a negative one or with the section off |
| `PolicyBuild.BuiltIsWellBuilt` | src/landlock_policy_ir.c:93-637 | After any sequence of operations, failed ones included: no layer or rule without access bits, no empty path, nothing behind a switch that is off, an error number exactly when seccomp is on |
| `PolicyHistory.BuiltIsHistory` | src/landlock_policy_ir.c:93-637 | After any sequence of operations, failed ones included, every list holds exactly the arguments of the operations of its kind that succeeded, in order, every layer the rules added to it, and the switches, root and working directory what was set |
| `PolicyRelease.FreeLayers` | src/landlock_policy_ir.c:25-31 | The nested loops run to the counts beside the arrays and release every path, every array of rules and the array of layers, each once and nothing else |
| `PolicyRelease.FreeObjects` | src/landlock_policy_ir.c:58-66 | The nested loops over mount objects and their attach paths, the same |
| `PolicyRelease.FreePaths` | src/landlock_policy_ir.c:33-52 | One loop over plain paths, to its count: every path and the array, each once |
| `PolicyRelease.FreeBinds` | src/landlock_policy_ir.c:53-57 | The same for source and target of every bind rule |
| `PolicyRelease.FreeAddfds` | src/landlock_policy_ir.c:67-72 | The same for action, target and mode of every addfd rule |
| `PolicyStruct.Reset` | src/landlock_policy_ir.c:16-91 | Member by member: exactly the blocks that the structure owns are released, each once, and the structure is cleared |
| `PolicyCopy.CopyLayers` | src/landlock_policy_ir.c:678-706 | The nested loops, count after pointer: at every allocation failure count and array still fit each other, so that the release loops are safe; contents equal exactly when every allocation succeeds; the storage is new and nothing else changes |
| `PolicyCopyRules.CopyObjects` | src/landlock_policy_ir.c:825-862 | The same for the mount objects and their attach paths |
| `PolicyCopyRules.CopyBinds` | src/landlock_policy_ir.c:802-824 | The same for bind rules, source before target before flag |
| `PolicyCopyRules.CopyAddfds` | src/landlock_policy_ir.c:864-890 | The same for addfd rules with their optional mode |
| `PolicyCopyRules.CopyPaths` | src/landlock_policy_ir.c:722-737 | The same for the plain paths of one section |
| `PolicyStruct.CopyNet` | src/landlock_policy_ir.c:708-720 | With the section off nothing is touched; otherwise switch, access bits and rules are those of the source |
| `PolicyStruct.CopySeccomp` | src/landlock_policy_ir.c:955-971 | With the section off nothing is touched; error number 0 is refused before anything is set; otherwise switch, error number and calls are those of the source |
| `PolicyStruct.Copy` | src/landlock_policy_ir.c:639-979 | Section by section, all or nothing at every allocation failure: success gives the copy in storage of its own and touches nothing else, failure leaves memory as it was and the destination as it was or cleared, an occupied destination is left alone; ENOMEM exactly when an allocation failed, EINVAL exactly for an occupied destination or error number 0 with seccomp on |
| `PolicyFields.CopyIsExactIff` | src/landlock_policy_ir.c:650-719 | The copy of a policy equals it if and only if nothing hides in a section that is switched off and the destination's net_handled_access, which the emptiness check overlooks, does not show through |
| `PolicyBuilt.BuiltIsGiven` | src/landlock_policy_ir.c:93-637 | Whatever memory holds a built policy, in blocks of its own, is a source that the copy accepts: counts fit their arrays and no string that it duplicates is missing |
| `PolicyBuilt.BuiltPoliciesAreCopied` | src/landlock_policy_ir.c:93-979 | Whatever sequence of operations built it, a policy is copied exactly into a cleared destination |
| `PolicyBuilt.BuiltPoliciesAreNotRefused` | src/landlock_policy_ir.c:955-958 | And its copy is never refused for its error number |
| `PolicyBuilt.StaleAccessShows` | src/landlock_policy_ir.c:649-675 | A concrete destination that the emptiness check lets pass and whose copy of the empty policy is not the empty policy |
| `PolicyBuilt.BuiltDestinationsAreNotStale` | src/landlock_policy_ir.c:147-156 | No sequence of operations makes such a destination: what the check lets pass has no access bits left over |

## Left out

- Kernel and operating system: Landlock enforcement, namespaces, pivot_root, mount calls, reading tracee memory, fork, exec and wait are answers that the model quantifies over.
- realpath and /proc links: a canonical absolute path or an errno; symbolic links and changes between check and use are not modelled.
- Sockets, systemd activation, peer credentials, signals, diagnostics, audit events of the broker, usage text and policy lookup by name.
- The TOML grammar: loading starts from an abstract document of tables, arrays, strings, integers and booleans; only the string escapes are modelled.
- The system call names: an abstract map from names to non-negative numbers.
- Preflight probes, ABI masks, no_new_privs, and the hardening filters of the broker and the daemon.
- The loaders build policies as values and not through the calls of `PolicyBuild`; allocation failures while a document is loaded are not modelled.
- PolicyBuild.Builder: policies are values there; that a failed operation leaks no memory is not modelled, and memory runs out at an operation's first allocation or not at all.
- Writing requests and policies to a stream never fails in `WireWrite`, `RustWrite` and `FramingLoops`; only `Audit.Log.WriteOut` models short, interrupted and failing writes.
- Allocation failure in the decoder, in the daemon's request handling and in the plan building; it is modelled for leases, cache entries, compiled rulesets, the audit buffer, string decoding and the deep copy.
- BrokerInit.AllowlistInit: failing calloc and strdup are not modelled, and what a failed initialisation releases is not either.
- SeccompMeaning.Confine: the socket pair and the fork of the broker, between plan building and installation, and a build without one of the mount calls.
- Machine widths of counters such as `cache_hits` and of `int off, max` in the string decoder: unbounded numbers here.
- The errno that the policy decoder reports: acceptance only.
- System call arguments reach the handlers already cast to the C types that the handlers cast them to.
- Byte order: numbers on the wire are little-endian, as on the supported machines.
- Monotonicity in the allow lists: not claimed, because adding a read path moves an open from the scratch branch to a branch that needs another addfd rule.
- WireRead.Reader.Load: the supported magic, version and flags are tested right after the header is read, with the same outcome as the single condition in the original.
- DryRun.QSort: the body is insertion sort; only what qsort(3) promises is used of it.
- PolicyCopyRules.CopyPaths: the seven loops over plain paths, in the copy and in the release, differ only in the names of the members and are one method here, called for each; a record of an array is assembled first and stored whole.
- Utf8.LongToUtf8: the longer half of `toml_ucs_to_utf8`, split off to keep the proof short.
- RustHelper: the serde types and `build_ir` are functions; unknown keys, types and defaults follow the derive attributes in `tools/landlockd-policy-helper-rs/src/main.rs`. Its writer fails only for lengths; what it wrote before it failed is not stated.
- Cache: the pointer to the policy inside an entry that a lookup hands out is modelled as the policy's value, so a later refresh under the caller's feet is not captured.
- Attach.ReattachmentPreservesMeaning: stated for canonical rules and mounts other than `/`; the cases with `/` are `Attach.RootRulesLostInMount`. A rule path that ends in a slash, which the loaders accept, is not canonical in this sense.
