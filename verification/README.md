# Verification of protovalidate's rule cache, codec, views and paths

This project models the parts of the Python protovalidate engine where one piece of
code relies on what another keeps, and proves that it may. There are four models.

**Rules** (`Descriptors`, `Elements`, `Closure`, `RuleBuild`, `RuleBuildLaws`,
`CompiledRules`, `BuildClosure`, `Panics`, `RuleCache`, `PanicRuns`). A validator compiles the rules of a message type, and of
every type reachable from it, against a snapshot of a shared cache. The worklist, the
resolution of types, the build of one message, the pass that tells each field whose
message type did not compile, and the merge are modelled step for step. The main result
is about any number of threads: in every interleaving the cache is closed under nested
types, only grows, and holds for each type what a build from nothing would give
(`RuleCache.EveryInterleaving`). It rests on three results that need each other: pruning
the worklist at what is cached is exact because the cache is closed, a build that does not
panic is the same whatever else is resolved, and linking depends on the errors of nested
types alone. What an entry is, `CompiledRules` says of the descriptors and their options
alone, without the build: which fields have one, in what order, with which rules and paths,
and when a field or a message is an error. Every entry of the cache, in any run, is that
(`RuleCache.CacheIsDeclared`). A call whose build panics leaves the cache as it was, and the locks that it
poisons go on being used, so the result needs no condition on the pool but that it links.

**Codec** (`Wire`, `Codec`, `WireForm`, `WireMerge`, `CodecLaws`, `Encoder`, `Decoder`, `ValidateSchema`). Every
generated message type is one template filled from its field list. The template is
modelled once, over tables of message types, and `ValidateSchema` holds the tables of the
violation family, of `FieldRules`, `RepeatedRules` and `MapRules`, of `Int32Rules` and of
`Rule`. `Codec` is the specification, a functional encoder and decoder over the wire format
of the Protocol Buffers Encoding specification (sections "Base 128 Varints", "Message
Structure", "Length-Delimited Records" and "Last One Wins"). `Encoder` and `Decoder` are the
generated code's imperative form, with the queue of sizes and the buffer, proved equal to it.
`WireForm` and `WireMerge` say in literal numbers which bytes a message is, and exactly which
bytes decode and to what; the encoder and the decoder are proved to be just that.

**Views** (`Views`, `ViewRuns`, `ViewReads`). The pooled buffers of message and list views, as classes over
arrays, and as a machine. Both are run through any sequence of creations, reads and drops,
and both are proved to give the outputs of views that each have a buffer of their own, and
so what the ops before a read say it gives.

**Registration and paths** (`Registration`, `Locks`, `FieldPaths`, `RulePaths`, `PathText`).
Files are registered by a walk over imports that keeps four stores in step whatever fails,
though CEL's pool starts with files that the descriptor pool lacks; `Locks` runs any number
of threads over the walk under the engine's locks and the Python interpreter. Field paths and
rule paths are walked back to what they address, and printed paths are read back.
`Violations` joins the paths to the codec (with `Utf8`): what a violation's paths led to
when it was found they still lead to after it was encoded for Python and decoded there.

Foreign code enters as parameters: CEL compilation, the native checks and the runtime's
type lookup are deterministic functions (`RuleCache.World`); a read of a Python object
is given what it would return now (`Views.Op`); every call of the registration walk that
may fail draws from a stream of outcomes (`Registration.Outcomes`).

Four things that one would expect of the code are false of it. Each has a concrete input,
and a result that says for all inputs when it holds.

- A build should never ask for a type that was not resolved. It does, and panics, when the
  rules of a message read through a type that has the name of a well-known wrapper, is
  cached already, and holds in field 1 a message that nothing to be built refers to
  (`Panics.WrappersMatter`). `Panics.PanicsExactly` says this for all that `resolve` can
  return, `Panics.SafeExactly` and `PanicRuns.SafeNeverUnwinds` which pools never allow it,
  for a closed cache and in a run, and `Panics.NoPanicFromNothing` that the first build
  never panics.
- A registered file should be in the pools as it is, with its imports. A file is skipped when
  another of its name is there: one registered before, so that its imports are never
  registered (`Registration.NamesakeHidesImports`), or one the pools started with, so that
  the types it declares are not found (`Registration.BaseNamesakeMisses`).
  `Registration.RegistersExactly`, `HoldsTreeExactly` and `LookupExactly` say what is
  registered, held and found for all states of the stores. The files registered under one
  engine are otherwise taken to have one name each (`Registration.Coherent`).
- The two pools should hold the same files. CEL's pool comes with the well-known types, so
  another `google/protobuf/wrappers.proto` is taken by the descriptor pool and skipped by
  CEL's (`Registration.PoolsDisagree`); that is also how a pool like that of
  `Panics.WrappersMatter` comes about. `Registration.SameFileExactly` and `Locks.PoolsAgree`
  say when they agree, after a registration and in any run.
- A printed path should determine its elements. It does, but for the kind of an integer key,
  exactly when no extension named `true` or `false` follows an element without a subscript
  (`PathText.PathRead`, `PathText.BareTrueIsAmbiguous`).

## Model

| member | source | states |
|---|---|---|
| Closure.FindClosure | crates/protovalidate/src/rules/build.rs:57-76 | the worklist terminates and returns exactly the types reachable from the root without entering `known` |
| Closure.PruningIsExact | crates/protovalidate/src/rules/build.rs:57-76 | when `known` is closed under nested types, the types found by pruning at it are all the reachable ones less `known`, and conversely |
| BuildClosure.Resolve | crates/protovalidate/src/rules/build.rs:85-111 | in any order of the closure, resolves exactly the types its rules refer to, each from the cache if compiled there and else from the reader; an error is one of those types' own |
| RuleBuildLaws.MoreTypesSame | crates/protovalidate/src/rules/build.rs:473-561 | a message's build that does not panic gives the same, errors included, when more types are resolved |
| RuleBuildLaws.NeededSuffices | crates/protovalidate/src/rules/build.rs:473-561 | with the types it asks for resolved a message's build does not panic, and no other type makes a difference; it asks for its own type, those its fields hold, and those that wrapper-named types its rules read through hold |
| Panics.CanPanicExactly | crates/protovalidate/src/rules/build.rs:473-561 | with the types its fields hold resolved, some CEL runtime and native checks make a message's build panic if and only if its rules read through a type whose field 1 holds a type that is not resolved |
| Panics.PanicsExactly | crates/protovalidate/src/rules/build.rs:85-111 | with what `resolve` returns against any cache, the build of a type of the closure can panic if and only if one has no bad oneof rule and has a field, item or map-value rule, not ignored or refused, over a wrapper-named type in the cache whose field 1 holds a type that was not resolved |
| Panics.NoPanicFromNothing | crates/protovalidate/src/rules/build.rs:85-111 | so against an empty cache no build panics, whatever the pool |
| Panics.SafeExactly | crates/protovalidate/src/rules/build.rs:85-111 | no build against any closed cache can panic if and only if, whatever a message asks for through a wrapper-named type, some message that reaches it and is reached from it refers to |
| Panics.WrappersMatter | crates/protovalidate/src/rules/build.rs:792-817 | a concrete pool in which a namesake of a wrapper holds a message: a call for it caches the two, and then the types resolved for a message ruled like the wrapped scalar make its build panic |
| RuleBuildLaws.NestedTypeExact | crates/protovalidate/src/rules/build.rs:308-318 | the nested type of a compiled field is its descriptor's message type, singular, list item or map value, or none if its items are ignored; an ignored field has no validator |
| RuleBuildLaws.NestedRefers | crates/protovalidate/src/rules/build.rs:607-761 | the nested types of a compiled message's fields are types that its fields refer to |
| RuleBuildLaws.FieldOrigin | crates/protovalidate/src/rules/build.rs:492-541 | every compiled field of a message comes from one of its own field descriptors |
| RuleBuild.CollectOneofs | crates/protovalidate/src/rules/build.rs:564-603 | the nested loops over oneof rules compute the recursive specification, first error included |
| RuleBuildLaws.OneofsFail | crates/protovalidate/src/rules/build.rs:564-603 | a message's oneof rules are refused exactly when one is empty, repeats a field or names an unknown one |
| RuleBuildLaws.OneofsMatch | crates/protovalidate/src/rules/build.rs:564-603 | otherwise each compiled oneof names the fields of its rule, in order |
| RuleBuildLaws.OneofsMembers | crates/protovalidate/src/rules/build.rs:564-603 | and the fields that count as members are exactly those the rules name |
| RuleBuildLaws.MembersFail | crates/protovalidate/src/rules/build.rs:564-603 | one oneof rule's fields are refused exactly when one is repeated or unknown |
| CompiledRules.FieldExactly | crates/protovalidate/src/rules/build.rs:607-629 | a field's build gives the descriptor's number, name, kind, presence and path element, its declared `required` and rules, and the `ignoreEmpty` that its `ignore`, presence and oneof membership give; or an error exactly where its rules, or those of its items, keys or values, are refused |
| CompiledRules.FieldsExactly | crates/protovalidate/src/rules/build.rs:516-532 | a message has one entry, in declaration order, for each field that has rules or holds a message and is not always ignored, and no other |
| CompiledRules.ValueExactly | crates/protovalidate/src/rules/build.rs:730-824 | the rules of one value: its custom rules in order with their literal rule paths, the standard rules only when they are those for its kind, the wrapper read through, and the type it holds |
| CompiledRules.ShapeExactly | crates/protovalidate/src/rules/build.rs:635-725 | a list has the rules that `repeated.items` declares, a map those of `map.keys` and `map.values`, with those paths, none where they are always ignored |
| CompiledRules.RequiredExactly | crates/protovalidate/src/rules/build.rs:543-561 | the required oneofs are those declared so, in order, each with its own fields |
| CompiledRules.MessageExactly | crates/protovalidate/src/rules/build.rs:492-603 | the build of a message, unless it panics, gives its own rules by id, message, expression and order, its oneof rules, its required oneofs and its compiled fields as the descriptor and options declare them, or is an error exactly when a oneof rule is bad or its own rules do not compile |
| CompiledRules.NestedExactly | crates/protovalidate/src/rules/build.rs:308-318 | a compiled field leads to the type its descriptor holds, unless its items are always ignored |
| BuildClosure.BuildAll | crates/protovalidate/src/rules/build.rs:410-469 | whatever the order of the maps, panics if and only if the build of some type reachable outside `known` does; else all of those are built, each linked to the messages that did not compile in `known` or, failing that, in this build, and nothing else is added; each entry is what the descriptors and options declare, a field being an error exactly where its rules are refused or its type's are |
| BuildClosure.FieldFails | crates/protovalidate/src/rules/build.rs:426-464 | in what the pass returns, a field of a compiled message is an error if and only if it was one or its nested type's entry is one, and then its text names that type and carries its error |
| BuildClosure.AllFailures | crates/protovalidate/src/rules/build.rs:427-459 | the collected failures are, in any order, those of exactly the compiled fields whose nested type failed |
| BuildClosure.Overwrite | crates/protovalidate/src/rules/build.rs:460-464 | overwriting the failed fields in place, in any order, changes nothing else |
| RuleCache.LinkStatus | crates/protovalidate/src/rules/build.rs:426-464 | linking changes neither whether a message compiled, nor its error, nor its type |
| RuleCache.LookupNeverMisses | crates/protovalidate/src/rules/build.rs:440-445 | a nested type is in `known` or among the types being built |
| RuleCache.SnapshotTypes | crates/protovalidate/src/rules/build.rs:85-111 | resolved through a sound snapshot, every message of the closure whose build does not panic builds as it would from nothing |
| RuleCache.LinkedIsScratch | crates/protovalidate/src/rules/build.rs:426-464 | linked against a sound snapshot, an entry is the from-scratch one |
| RuleCache.BuildIsScratch | crates/protovalidate/src/validator.rs:187-199 | what a thread builds against a sound snapshot, if it does not panic, is what would be built from nothing, for exactly the types that the snapshot lacks |
| RuleCache.MergeIsSound | crates/protovalidate/src/validator.rs:200-203 | merging a build into whatever the cache has since become keeps it closed and right, changes no entry and adds the root |
| RuleCache.NextInv | crates/protovalidate/src/validator.rs:178-208 | every step of every thread keeps the invariant of the cache and of all snapshots |
| RuleCache.EveryInterleaving | crates/protovalidate/src/validator.rs:178-208 | at every step of every interleaving the cache is closed, extends all earlier ones, and agrees with the from-scratch build on every key |
| RuleCache.CacheIsDeclared | crates/protovalidate/src/validator.rs:178-208 | at every step of every interleaving each cache entry is what its descriptor and options declare |
| RuleCache.PanicsAreUnsafe | crates/protovalidate/src/validator.rs:187-202 | in every interleaving, a call unwinds only against a snapshot for which some build of its root can panic, so never in a safe pool and never with an empty snapshot |
| PanicRuns.SafeNeverUnwinds | crates/protovalidate/src/validator.rs:178-204 | a pool is safe if and only if no call unwinds in any run, for any number of threads, any CEL runtime, native checks and types that the runtime knows |
| RuleCache.ServedIsComplete | crates/protovalidate/src/rules/eval.rs:243-258 | the rules a call is served include those of every type reachable from its root, as built from nothing, so the walk's lookup cannot miss |
| RuleCache.Validator.Validators | crates/protovalidate/src/validator.rs:178-204 | a hit returns the snapshot; a miss adds what the root needs to whatever others made of the cache meanwhile; a read error, which is that of a type the rules refer to, and a panic change nothing; all that is served is what the descriptors and options declare |
| RuleCache.Validator.BuildMissing | crates/protovalidate/src/validator.rs:187-199 | resolving and building outside the cache lock yields the from-scratch entries of exactly what is missing, an error of a type that the rules refer to, or a panic where one is possible |
| Wire.RecRoundTrip | crates/protovalidate/src/gen/buf.validate.validate.rs:10908-10977 | a record, groups of unknown fields included, parses back to itself and leaves the bytes after it |
| Wire.RecPrefix | crates/protovalidate/src/gen/buf.validate.validate.rs:10908-10977 | bytes after a record do not change how it parses |
| WireForm.VarintForm | crates/protovalidate/src/gen/buf.validate.validate.rs:11282-11432 | a varint is written as groups of seven bits, low first, all but the last marked, and no group more than needed |
| WireForm.VarintReads | crates/protovalidate/src/gen/buf.validate.validate.rs:10908-10977 | a varint is read exactly from one to ten such groups that hold at most 64 bits |
| WireForm.MessageWritten | crates/protovalidate/src/gen/buf.validate.validate.rs:10875-10908 | for every message: the key of each record is the varint of 8 times the number, plus 0 for integers, booleans and enums and 2 for text and submessages, which carry their length; unknown fields add 0, 1, 2, 3 with 4, or 5; fields come in slot order, unknown ones last |
| WireForm.RecReads | crates/protovalidate/src/gen/buf.validate.validate.rs:10908-10977 | bytes parse to a record if and only if they are that key and that payload, groups up to their own end key |
| WireMerge.ScalarReads | crates/protovalidate/src/gen/buf.validate.validate.rs:11282-11432 | a scalar is read exactly from a payload of its form: the low 32 bits signed, 64-bit two's complement, any varint but 0 for true, well-formed UTF-8 |
| WireMerge.RecMerges | crates/protovalidate/src/gen/buf.validate.validate.rs:1433-1941 | merging a record succeeds if and only if its payload is of the field's form, packed runs of numbers included: values are added to a repeated field, the last stays in any other, submessages go onto the one held under the same number, an unknown number or enum value is kept |
| WireMerge.DecodesExactly | crates/protovalidate/src/gen/buf.validate.validate.rs:1433-1941 | bytes decode to a message if and only if their records, merged one by one into an empty one, make it |
| CodecLaws.RecordTouches | crates/protovalidate/src/gen/buf.validate.validate.rs:1433-1941 | merging a record changes the slot of its field alone, to which a repeated field only appends, or adds one unknown field |
| CodecLaws.RoundTrip | crates/protovalidate/src/gen/buf.validate.validate.rs:1227-1941 | decoding the encoding of any well-formed message, unknown fields and nested rules included, gives the message back |
| CodecLaws.DecodedReencodes | crates/protovalidate/src/gen/buf.validate.validate.rs:1227-1941 | whatever bytes decode, canonical or not, re-encoding the result and decoding again loses nothing |
| CodecLaws.MergeInto | crates/protovalidate/src/gen/buf.validate.validate.rs:1433-1941 | decoding an encoding into a message is `Merge`: repeated fields append, scalars take the last, submessages and equal oneof cases merge, other cases are replaced |
| CodecLaws.MergeBytesAppend | crates/protovalidate/src/gen/buf.validate.validate.rs:1433-1941 | decoding one byte string and then another is decoding their concatenation, for all bytes |
| CodecLaws.ConcatenationMerges | crates/protovalidate/src/gen/buf.validate.validate.rs:1433-1941 | after any bytes that decode, an encoding merges its message into what they decoded to |
| CodecLaws.MixedRunsAppend | crates/protovalidate/src/gen/buf.validate.validate.rs:3161-3280 | packed runs, single values and any mix of them append the same values in order |
| CodecLaws.PackedAndUnpackedAgree | crates/protovalidate/src/gen/buf.validate.validate.rs:3086-3280 | on the wire, the bytes of any such mix decode to the repeated field holding the values |
| CodecLaws.ReencodesUnpacked | crates/protovalidate/src/gen/buf.validate.validate.rs:3086-3280 | and what they decode to encodes, however the values came, as one record for each |
| CodecLaws.ScalarRoundTrip | crates/protovalidate/src/gen/buf.validate.validate.rs:11282-11432 | every scalar kind survives its payload, negative 32-bit values as sign-extended varints |
| ValidateSchema.ValidateSchemaOk | crates/protovalidate/src/gen/buf.validate.validate.rs:1023-1941 | the tables of the modelled types are ones to which all of the codec's results apply |
| Encoder.ComputeSize | crates/protovalidate/src/gen/buf.validate.validate.rs:10843-10874 | the size, saturated, is that of the encoding, and the sizes appended to the queue are those of the submessages in pre-order |
| Encoder.SubmessageSize | crates/protovalidate/src/gen/buf.validate.validate.rs:1030-1035 | the slot reserved before descending ends up holding the submessage's size, ahead of those of its own submessages |
| Encoder.WriteTo | crates/protovalidate/src/gen/buf.validate.validate.rs:10875-10908 | given the queue that the first pass leaves, the bytes written are the encoding, and exactly this message's sizes are used up |
| Encoder.WriteSubmessage | crates/protovalidate/src/gen/buf.validate.validate.rs:1227-1244 | the length prefix taken from the queue is exactly the length of the body that follows |
| Encoder.EncodeToVec | crates/protovalidate/src/error.rs:101-107 | both passes together yield the literal bytes of the message, or refuse it exactly when they are more than 0x7FFFFFFF |
| Decoder.Buf.ReadVarint | crates/protovalidate/src/gen/buf.validate.validate.rs:3161-3165 | the loop over groups reads the varint the specification reads |
| Decoder.Buf.ReadUnknown | crates/protovalidate/src/gen/buf.validate.validate.rs:10972-10975 | an unknown field's payload, groups and their nested fields included, is read as the specification reads it |
| Decoder.MergeField | crates/protovalidate/src/gen/buf.validate.validate.rs:1433-1941 | after a key is read, the method consumes and merges what the specification does, or fails where it does |
| Decoder.ReadPacked | crates/protovalidate/src/gen/buf.validate.validate.rs:3161-3180 | a packed run is read to its end into the values it holds |
| Decoder.DecodeFromSlice | crates/protovalidate/src/gen/buf.validate.validate.rs:10908-10977 | the imperative decoder gives a message exactly when the bytes say it, record by record, and equals the functional one on all bytes |
| Views.Ctx.TakeValues | src/view.rs:120-129 | yields a blank buffer of at least the length asked for, the last pooled one that fits, taken out by a swap with the last, or else a new one |
| Views.MessageView.constructor | src/view.rs:175-182 | a view's buffer is blank, its own, and long enough for every slot of its type |
| Views.MessageView.Value | src/view.rs:186-201 | a read returns the first successful fetch of its slot; a failed one leaves the cell empty |
| Views.MessageView.Drop | src/view.rs:204-214 | dropping a view returns its buffer blank, unless it has no cells |
| Views.ListView.Items | src/view.rs:371-381 | the elements are the first successful read, in a pooled buffer if there is one, which a failed read loses |
| Views.ListView.Get | src/view.rs:405-418 | the element at the index, or none past the end, of the elements read first |
| Views.ListView.Len | src/view.rs:397-403 | the object is asked only while its elements have not been read |
| Views.ListView.Drop | src/view.rs:384-394 | dropping a list returns its buffer emptied, if it has capacity |
| Views.StepRefines | src/view.rs:120-214 | each step of the pooled views keeps the pools clean and is the same step of views with their own buffers, with the same output |
| Views.PoolingIsInvisible | src/view.rs:120-418 | over any run of creations, reads, failed reads and drops, pooling is indistinguishable and never out of bounds |
| ViewReads.Validation | src/view.rs:120-418 | the live objects, run through any sequence of creations, reads, failed reads and drops, give the outputs of views that each have a buffer of their own, and every read gives what the ops before it say |
| ViewRuns.StepMessages | src/view.rs:120-214 | creating, reading or dropping a message view leaves every live view with a buffer that no other has and that is not pooled, and leaves list views alone |
| ViewReads.FirstFetchWins | src/view.rs:186-201 | a read of a message gives the first fetch of its slot that succeeded since the view was created, and the current one while none has |
| ViewReads.FirstListingWins | src/view.rs:371-418 | a get at `i` gives item `i` of the first listing of the view that succeeded since it was created, none exactly beyond its end, nothing of an absent list, and the error of its own listing while none has |
| ViewReads.FirstLengthWins | src/view.rs:397-403 | a length is that of the first listing that succeeded, what counting gives while none has, and 0 for an absent list |
| ViewReads.PooledReads | src/view.rs:120-418 | so it all is with pooling, whatever other views are created, read and dropped before or meanwhile |
| Registration.CollectKeeps | src/runtime.rs:235-261 | from any start of the two pools, wherever the walk stops, what is registered is in every store and in import order, only files of the tree are added, the CEL pool takes nothing that the descriptor pool lacks, and the walk succeeds exactly when nothing outside failed |
| Registration.AddKeeps | crates/protovalidate/src/validator.rs:95-115 | however far adding a file got, it is in the registry only if it is in both pools, and the CEL pool took it only if the descriptor pool has it |
| Registration.AddExactly | crates/protovalidate/src/validator.rs:95-115 | a store that lacked the file has it after adding exactly when its own calls and those of the stores before it succeeded, and is unchanged otherwise |
| Registration.RegisterCompletes | src/lib.rs:318-354 | from any state a run can reach, a registration in which nothing fails, first try or retry, registers the file and all its imports |
| Registration.ImportClosed | src/runtime.rs:235-261 | a registered file's imports, direct or not, are registered |
| Registration.EveryRun | src/lib.rs:294-354 | after any run of registrations, failures included, files come after their imports, never twice, and with their trees; what is registered is in both pools and in the registry, and what the CEL pool took since the start the descriptor pool has |
| Registration.RegistersExactly | src/runtime.rs:235-261 | whatever files were registered before, a registration that succeeds adds exactly the names of the files it gets to without passing below a registered name, so the file's tree is registered if and only if those and the registered names cover it |
| Registration.RegistersInOrder | src/runtime.rs:235-261 | imports are registered in order: a later one comes before an earlier one only if it was registered already or is in the tree of one up to that |
| Registration.NamesakeHidesImports | crates/protovalidate/src/validator.rs:90-106 | a concrete run in which registering a file succeeds without its import, because another file has its name |
| Registration.PoolsExactly | crates/protovalidate/src/validator.rs:95-115 | whatever the pools held before, a registration that succeeds leaves each with what it held and, under the other names that the walk gets to, the files of this tree |
| Registration.HoldsTreeExactly | crates/protovalidate/src/validator.rs:95-115 | so it leaves a pool holding the file's tree as it is if and only if the pool held nothing else under a name of the tree and each name it did not hold is got to |
| Registration.LookupExactly | crates/protovalidate/src/validator.rs:169-175 | and the lookup of a type then finds it if and only if the pool declared it before, or a file that is got to declares it under a name the pool did not have |
| Registration.BaseNamesakeMisses | crates/protovalidate/src/descriptors.rs:52 | a concrete run in which registering a newer copy of an embedded file succeeds, changes neither pool, and the lookup of its new type misses |
| Registration.SameFileExactly | crates/protovalidate/src/validator.rs:95-115 | after a registration that succeeds both pools hold the same file under a name of the tree if and only if both had the name or it is got to, and what one had under it is what the other had or took |
| Registration.PoolsDisagree | crates/protovalidate-deps/shim/cel_shim.cc:329-352 | from a CEL pool with the well-known wrappers and a descriptor pool without, registering another file of that name succeeds and leaves different files under it |
| Registration.LookupCannotMiss | crates/protovalidate/src/validator.rs:155-175 | a pool that holds a file's tree as it is has every type it declares and every type reachable through fields from one |
| Registration.Engine.AddFileDescriptorBytes | crates/protovalidate/src/validator.rs:95-115 | the two pools in turn, a known name being a no-op in each, equal the specification |
| Registration.Engine.CollectFiles | src/runtime.rs:235-261 | the recursive walk with its inserts equals the specification, whatever fails |
| Registration.Engine.Register | src/lib.rs:318-354 | looking the name up and then collecting equals the specification |
| Locks.RankRises | src/lib.rs:254-354 | a thread asks only for a lock, or for the interpreter, above all that it holds: `registered`, `core`, the interpreter, then `env` or `cache` |
| Locks.StepKeeps | src/lib.rs:200-354 | every step of a check keeps mutual exclusion, the stores in step, and what each thread has seen |
| Locks.AddedOnce | src/lib.rs:318-354 | under any number of threads no file is added twice, dropped, or added before an import, and what the CEL pool took since the start the descriptor pool has |
| Locks.StaysRegistered | src/lib.rs:264-354 | once a check is past registration its file and imports stay registered, and from then on each pool holds them as they are if and only if it started with nothing else under one of their names |
| Locks.PoolsAgree | src/lib.rs:264-354 | and from then on both pools hold the same files of its tree if and only if what they started with under its names, or the tree's own file where one started without, is the same |
| Locks.LookupsHit | crates/protovalidate/src/validator.rs:155-175 | where the pool started so, no later lookup, of the message's type or of any its fields reach, misses |
| Locks.LookupOutcome | crates/protovalidate/src/validator.rs:169-175 | a check that looks up a type that no other file declares finds it if and only if the pool did not start with a file of that name or started with one that declares the type |
| Locks.CollectsAlone | src/lib.rs:331-354 | while one thread collects files no other looks a file up, collects or validates, from the lookup of the type to the end of the walk |
| Locks.CompilesAlone | crates/protovalidate/src/validator.rs:187-199 | while one thread compiles rules no other compiles or binds a message to compiled rules |
| Locks.MergesAlone | crates/protovalidate/src/validator.rs:178-204 | while one thread merges into the cache no other merges or takes a snapshot |
| Locks.ValidatesKnown | src/lib.rs:264-354 | a check that is past the lookup has its file registered and its type found, then and at any later time |
| Locks.KnownSkips | src/lib.rs:264-330 | a check of a file that was registered when it began never waits for a lock exclusively to register it, and is not refused |
| Locks.ValidateTogether | src/lib.rs:264-316 | for any two messages of registered files with known types, a reachable state in which both are being validated |
| Locks.NoDeadlock | src/lib.rs:254-354 | in every run, with the interpreter given up in waits for `registered` and `core` and kept in waits for `env` and `cache`: of any set of waiting checks, one is blocked by none of the rest, neither by a lock or the interpreter it holds nor by a writer queued ahead of a reader |
| Locks.SomeoneSteps | src/lib.rs:254-354 | so while checks are under way one of them can take a step, unless a thread outside any check has the interpreter |
| Locks.KeptWaitsAreShort | crates/protovalidate/src/validator.rs:51-55 | where one thread at a time has the interpreter, `env` and `cache` are free whenever they are asked for, as neither is held while Python runs |
| Locks.KeepingItWouldDeadlock | src/lib.rs:254-278 | for any registered file and any other, a reachable state in which a check asks for `core` and the thread that collects under it needs the interpreter: a wait that kept the interpreter would block both, and one that gives it up does not |
| FieldPaths.WalkFieldPath | src/violation.rs:223-264 | the loop over path elements computes the recursive walk |
| FieldPaths.FieldPathRoundTrip | src/violation.rs:197-264 | walking the path of any location gives the value there and its leaf field, in both runtimes and through oneof members |
| FieldPaths.KeyPathRoundTrip | src/violation.rs:253-257 | for a violation about a map key the walk gives the key itself and the map's field |
| FieldPaths.WalkIsSound | src/violation.rs:223-264 | whatever a walk returns is what the message holds at some location |
| FieldPaths.FieldFound | src/runtime.rs:96-154 | an element leads to the first field with its number or, when it has none or no field has it, the first with its name, and to none exactly when there is neither |
| FieldPaths.ByNumberUnique | src/runtime.rs:96-154 | with unique numbers, the search by number finds the field it was given the number of |
| RulePaths.ResolveRuleValue | src/violation.rs:272-322 | the loop over a rule path computes the recursive walk, or nothing without a path or rules |
| RulePaths.EntryReached | crates/protovalidate/src/rules/build.rs:246-285 | from a field's rules, the path of a rule of the field, its items, keys or values leads to that rule's entry |
| RulePaths.RulePathRoundTrip | crates/protovalidate/src/rules/build.rs:635-761 | in a compiled field, every custom rule of the field, its items, keys and values carries a path that leads from the field's rules to the entry it was compiled from |
| RulePaths.PathPresents | src/violation.rs:223-264 | the steps of a path are its elements' numbers, 0 where absent, names and subscripts, each as the same integer, bit or text |
| Utf8.ValidExactly | crates/protovalidate/src/gen/buf.validate.validate.rs:10909-10977 | bytes are well formed as the decoder checks them if and only if they are the UTF-8 of some string |
| Utf8.TextWritten | crates/protovalidate/src/gen/buf.validate.validate.rs:10909-10977 | the UTF-8 of a string is, for each character in order, the one to four bytes that carry its code point |
| Utf8.Utf8RoundTrip | crates/protovalidate/src/gen/buf.validate.validate.rs:10909-10977 | every string is well-formed UTF-8 as the decoder checks it, and is recovered from it |
| Violations.Delivered | crates/protovalidate/src/error.rs:101-107 | decoding the bytes of encoded violations gives the violations, all of them, in order, with their paths and subscripts |
| Violations.ViolationsWritten | crates/protovalidate/src/gen/buf.validate.validate.rs:10875-11280 | the records of a violation are rule id in field 2, message 3, `for_key` 4, field path 5 and rule path 6; of an element, number 1, name 2, types 3 to 5, and its subscript as index 6, boolean 7, signed 8, unsigned 9 or string key 10, each with that member's value, elements and violations in order |
| Violations.RuleIdBytes | crates/protovalidate/src/gen/buf.validate.validate.rs:10875-10908 | a violation of rule "a" alone is the bytes 0A 03 12 01 61 |
| Violations.EncodeViolations | crates/protovalidate/src/error.rs:101-107 | the bytes are those records and deliver the violations, or are refused exactly when they are over the size limit |
| Violations.RuleDelivered | src/violation.rs:173-322 | the rule path of a custom rule, encoded and decoded, still leads from the field's rules to the entry that was compiled |
| Violations.FieldDelivered | src/violation.rs:173-264 | a field path that names a location, encoded and decoded, still gives the value there and its leaf field |
| RulePaths.MessageRulePaths | crates/protovalidate/src/rules/build.rs:492-541 | every compiled field of a message is one whose custom rules, also when a message oneof changed its `ignore`, are reached from the rules that field declares |
| PathText.WriteFieldPath | crates/protovalidate/src/error.rs:150-179 | the printing loop appends, for each element, a dot unless it is first or bracketed, its name, and its subscript in brackets: decimal without leading zeros, `true` or `false`, or text in quotes with `\\`, `"`, `\r` and `\n` escaped |
| PathText.WriteViolation | crates/protovalidate/src/error.rs:135-148 | the path unless empty, then the message, or the rule id in place of an empty one |
| PathText.PathRead | crates/protovalidate/src/error.rs:150-179 | a reader recovers each element's name and its subscript's own value from a printed path of identifiers and extensions, if and only if no extension named `true` or `false` follows an element without a subscript; quotes, backslashes and line breaks in keys included |
| PathText.PathsDiffer | crates/protovalidate/src/error.rs:150-179 | so two such paths print alike exactly when their names agree and their subscripts are absent together or the same integer, bit or text |
| PathText.BareTrueIsAmbiguous | crates/protovalidate/src/error.rs:150-179 | two different paths that print alike, one of them naming an extension `true` |

## Left out

- The walk over messages, the native checks, the well-known string predicates and cel-cpp: `rules/standard` and the evaluation of programs are parameters or absent.
- The reflection over a rules message that finds its predefined rules: part of the parameter that stands for the native checks, so the paths of predefined rules are not modelled.
- The fields of the nineteen rules messages other than `Int32Rules`, `RepeatedRules` and `MapRules`: they have the same template, and are kept here as the records they were read from. `MessageRules`, `OneofRules` and `PredefinedRules` have it too and have no table here.
- Which decode error is reported: the codec model has one failure value.
- The library's primitives are modelled from the wire format: a varint over 64 bits is refused and an overlong one accepted, as the library is not part of this model. Its memory and recursion limits are left out.
- `merge_field` updates its message in place; the methods here take the message and return it.
- Floats are not modelled; the tabulated types have none.
- TypeInfo's sort and binary search, `is_set`, map views and the conversion of scalars: each is a single library call or match.
- Python's `dict` and `list` are immutable trees; a subscript compares keys exactly, so that `1`, `1.0` and `True` are different keys. Python code that calls back into the validator is left out, and so are the once-initialised engines and `collect_registry`.
- Rules that change meaning because a file with extensions is registered after a type was compiled: the rules model has a fixed pool.
- The machine of `Locks` does not carry what the cache holds or a panic, nor that of `RuleCache` the locks; each step of the latter is one that a thread takes between two steps of the former.
- The descriptor pool and the CEL pool take a file whole or not at all.
- The pauses that a free-threaded interpreter imposes on all threads: there every thread has the interpreter it asks for. The files a pool starts with are any files at all, rather than those the embedded schema and the CEL runtime come with.
- Upper-casing in the name of a map's entry type is for ASCII letters.
- Codec.MergeRec: its contract says only that the result is well-formed; what it computes is stated by `WireMerge.RecMerges`.
- The wording of errors, but for the one that a field is given when its type did not compile (`BuildClosure.FieldFails`): which inputs are errors is stated, and that an error of CEL, the native checks or the reader is passed on.
