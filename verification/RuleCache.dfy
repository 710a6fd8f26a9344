/**
 The shared cache of compiled rules under any number of threads. Each call takes
 a snapshot, resolves and compiles outside the cache lock what the snapshot
 lacks, and merges the result; of two threads that race, the later one wins.
 */
module RuleCache {
  import opened Wrappers
  import opened Descriptors
  import opened Closure
  import opened RuleBuild
  import opened RuleBuildLaws
  import opened BuildClosure
  import opened CompiledRules
  import opened Panics
  import Elements

  /** The fixed inputs: the pool, CEL, the native checks and the reader. */
  datatype World = World(
    pool: Pool,
    compile: (Option<Bound>, seq<Expression>) -> Result<Program, string>,
    native: (RulesType, seq<Elements.Element>, Option<nat>) -> Result<Native, string>,
    reader: Reader)

  // ------------------------------------------------------ the from-scratch build

  /** Every type that the runtime knows. */
  ghost function ReadTypes(w: World): map<MessageIndex, TypeInfo> {
    map i: MessageIndex | i in Universe(|w.pool|) && w.reader(w.pool[i].fullName).Ok? ::
      w.reader(w.pool[i].fullName).value
  }

  ghost function ScratchBuilder(w: World): Builder {
    Builder(w.pool, w.compile, w.native, ReadTypes(w))
  }

  /** One message on its own. */
  ghost function Alone(w: World, idx: MessageIndex): Built
    requires idx < |w.pool|
  {
    Outcome(ScratchBuilder(w), idx)
  }

  /** With every type that the runtime knows at hand, the message's build completes. */
  ghost predicate Buildable(w: World, idx: MessageIndex)
    requires Linked(w.pool) && idx < |w.pool|
  {
    Needed(w.pool, idx) <= ReadTypes(w).Keys && !BuildMessage(ScratchBuilder(w), idx).Panicked?
  }

  ghost function AllAlone(w: World): Cache
    requires Linked(w.pool)
  {
    map i: MessageIndex | i in Universe(|w.pool|) :: Alone(w, i)
  }

  /** The build of one type with nothing cached and every type at hand. */
  ghost function Scratch(w: World, idx: MessageIndex): Built
    requires Linked(w.pool) && idx < |w.pool|
  {
    LinkEntry(w.pool, idx, map[], AllAlone(w), Alone(w, idx))
  }

  /** Linking never changes whether a message compiled, its error or its type. */
  lemma {:induction false} LinkStatus(pool: Pool, idx: MessageIndex, known: Cache, built: Cache, entry: Built)
    ensures var linked := LinkEntry(pool, idx, known, built, entry);
            && (linked.Err? <==> entry.Err?)
            && (linked.Err? ==> linked.error == entry.error)
            && (linked.Ok? ==> linked.value.messageType == entry.value.messageType)
  {
  }

  lemma {:induction false} AloneType(w: World, idx: MessageIndex)
    requires Linked(w.pool) && idx < |w.pool| && Alone(w, idx).Ok?
    ensures w.reader(w.pool[idx].fullName) == Ok(Alone(w, idx).value.messageType)
  {
  }

  lemma {:induction false} ScratchStatus(w: World, idx: MessageIndex)
    requires Linked(w.pool) && idx < |w.pool|
    ensures Scratch(w, idx).Err? <==> Alone(w, idx).Err?
    ensures Scratch(w, idx).Err? ==> Scratch(w, idx).error == Alone(w, idx).error
  {
    LinkStatus(w.pool, idx, map[], AllAlone(w), Alone(w, idx));
  }

  lemma {:induction false} ScratchType(w: World, idx: MessageIndex)
    requires Linked(w.pool) && idx < |w.pool| && Scratch(w, idx).Ok?
    ensures w.reader(w.pool[idx].fullName) == Ok(Scratch(w, idx).value.messageType)
  {
    LinkStatus(w.pool, idx, map[], AllAlone(w), Alone(w, idx));
    AloneType(w, idx);
  }

  /** The from-scratch builds of all the types that can be built. */
  ghost function FromScratch(w: World): Cache
    requires Linked(w.pool)
  {
    map t: MessageIndex | t in Universe(|w.pool|) && Buildable(w, t) :: Scratch(w, t)
  }

  ghost predicate Extends(a: Cache, b: Cache) {
    forall t :: t in a ==> t in b && b[t] == a[t]
  }

  /** Closed under nested types, each entry the `spec` of its type. */
  ghost predicate Sound(pool: Pool, spec: Cache, cache: Cache) {
    Closed(pool, cache.Keys) && Extends(cache, spec)
  }

  // -------------------------------------------------------------- resolving

  /** What `Resolve` returns when it succeeds. */
  ghost predicate TypesFor(w: World, root: MessageIndex, known: Cache, types: map<MessageIndex, TypeInfo>)
    requires Linked(w.pool)
  {
    && TypesOf(w.pool, Reachable(w.pool, root, known.Keys), types)
    && forall i: MessageIndex :: i in types ==> i < |w.pool| && LookUp(w.pool, known, w.reader, i) == Ok(types[i])
  }

  lemma {:induction false} ResolveGivesTypes(w: World, root: MessageIndex, known: Cache, closure: set<MessageIndex>,
                          types: map<MessageIndex, TypeInfo>)
    requires Linked(w.pool) && IsClosure(w.pool, root, known.Keys, closure)
    requires forall c :: c in closure ==> c < |w.pool|
    requires forall i: MessageIndex :: i in types <==> Wanted(w.pool, closure, i)
    requires forall i: MessageIndex :: i in types ==> i < |w.pool| && LookUp(w.pool, known, w.reader, i) == Ok(types[i])
    ensures TypesFor(w, root, known, types)
  {
    assert closure == Reachable(w.pool, root, known.Keys);
  }

  // --------------------------------------------------------------- building

  ghost function BuilderWith(w: World, types: map<MessageIndex, TypeInfo>): Builder {
    Builder(w.pool, w.compile, w.native, types)
  }

  /** Resolving through the snapshot gives the types the reader gives. */
  lemma {:induction false} SnapshotReads(w: World, root: MessageIndex, known: Cache, types: map<MessageIndex, TypeInfo>)
    requires Linked(w.pool) && Sound(w.pool, FromScratch(w), known) && TypesFor(w, root, known, types)
    ensures MoreTypes(BuilderWith(w, types), ScratchBuilder(w))
  {
    forall i | i in types ensures i in ReadTypes(w) && ReadTypes(w)[i] == types[i] {
      if i in known && known[i].Ok? {
        assert FromScratch(w)[i] == Scratch(w, i);
        ScratchType(w, i);
      }
    }
  }

  /** A message whose build completes with the types resolved through the snapshot builds as it would from nothing. */
  lemma {:induction false} SnapshotTypes(w: World, root: MessageIndex, known: Cache,
                                         types: map<MessageIndex, TypeInfo>, t: MessageIndex)
    requires Linked(w.pool) && Sound(w.pool, FromScratch(w), known) && TypesFor(w, root, known, types)
    requires t in Reachable(w.pool, root, known.Keys) && !BuildMessage(BuilderWith(w, types), t).Panicked?
    ensures Buildable(w, t) && Outcome(BuilderWith(w, types), t) == Alone(w, t)
  {
    SnapshotReads(w, root, known, types);
    MoreTypesSame(BuilderWith(w, types), ScratchBuilder(w), t);
    MemberTypes(w.pool, Reachable(w.pool, root, known.Keys), types, t);
  }

  /** The error of a nested type is the same from the snapshot and from scratch. */
  lemma {:induction false} SameNestedError(w: World, known: Cache, built: Cache, t: MessageIndex, n: MessageIndex)
    requires Linked(w.pool) && Sound(w.pool, FromScratch(w), known) && Refers(w.pool, t, n)
    requires n in known || n in built
    requires forall i :: i in built ==> i < |w.pool| && built[i] == Alone(w, i)
    ensures NestedError(known, built, n) == NestedError(map[], AllAlone(w), n)
  {
    assert n in AllAlone(w) && AllAlone(w)[n] == Alone(w, n);
    if n in known {
      ScratchStatus(w, n);
    }
  }

  /** The lookup of a nested type finds it in the snapshot or in this build. */
  lemma {:induction false} LookupNeverMisses(pool: Pool, root: MessageIndex, known: set<MessageIndex>,
                                             closure: set<MessageIndex>, t: MessageIndex, n: MessageIndex)
    requires IsClosure(pool, root, known, closure) && t in closure && Refers(pool, t, n)
    ensures n in known || n in closure
  {
    if n !in known {
      ReachesNext(pool, root, t, n, known);
    }
  }

  /** Linking depends only on the errors of the nested types. */
  lemma {:induction false} LinkSame(pool: Pool, t: MessageIndex, v: MessageValidator, known: Cache, built: Cache,
                                    known': Cache, built': Cache)
    requires forall p :: 0 <= p < |v.fields| && v.fields[p].Ok? && NestedType(v.fields[p].value).Some? ==>
               NestedError(known, built, NestedType(v.fields[p].value).value)
               == NestedError(known', built', NestedType(v.fields[p].value).value)
    ensures LinkEntry(pool, t, known, built, Ok(v)) == LinkEntry(pool, t, known', built', Ok(v))
  {
    forall p | 0 <= p < |v.fields|
      ensures LinkField(pool, t, known, built, v.fields[p]) == LinkField(pool, t, known', built', v.fields[p])
    {
    }
    assert LinkEntry(pool, t, known, built, Ok(v)).value.fields
           == LinkEntry(pool, t, known', built', Ok(v)).value.fields;
  }

  lemma {:induction false} AloneRefers(w: World, t: MessageIndex, p: nat)
    requires Linked(w.pool) && t < |w.pool| && Alone(w, t).Ok?
    requires p < |Alone(w, t).value.fields| && Alone(w, t).value.fields[p].Ok?
    requires NestedType(Alone(w, t).value.fields[p].value).Some?
    ensures Refers(w.pool, t, NestedType(Alone(w, t).value.fields[p].value).value)
  {
    NestedRefers(ScratchBuilder(w), t, p);
  }

  lemma {:induction false} LinkedIsScratch(w: World, root: MessageIndex, known: Cache, built: Cache, t: MessageIndex)
    requires Linked(w.pool) && Sound(w.pool, FromScratch(w), known)
    requires IsClosure(w.pool, root, known.Keys, built.Keys) && t in built
    requires forall i :: i in built ==> i < |w.pool| && built[i] == Alone(w, i)
    ensures LinkEntry(w.pool, t, known, built, built[t]) == Scratch(w, t)
  {
    if built[t].Ok? {
      var v := built[t].value;
      forall p | 0 <= p < |v.fields| && v.fields[p].Ok? && NestedType(v.fields[p].value).Some?
        ensures NestedError(known, built, NestedType(v.fields[p].value).value)
             == NestedError(map[], AllAlone(w), NestedType(v.fields[p].value).value)
      {
        var n := NestedType(v.fields[p].value).value;
        AloneRefers(w, t, p);
        LookupNeverMisses(w.pool, root, known.Keys, built.Keys, t, n);
        SameNestedError(w, known, built, t, n);
      }
      LinkSame(w.pool, t, v, known, built, map[], AllAlone(w));
    }
  }

  ghost function BuiltHere(w: World, root: MessageIndex, known: Cache, types: map<MessageIndex, TypeInfo>): Cache {
    Outcomes(BuilderWith(w, types), Reachable(w.pool, root, known.Keys))
  }

  /** What `BuildAll` returns from an empty map, if no build panics. */
  ghost predicate BuildOf(w: World, root: MessageIndex, known: Cache, types: map<MessageIndex, TypeInfo>,
                          result: Cache) {
    && !SomePanics(BuilderWith(w, types), Reachable(w.pool, root, known.Keys))
    && result == LinkedCache(w.pool, known, BuiltHere(w, root, known, types))
  }

  lemma {:induction false} BuiltAlone(w: World, root: MessageIndex, known: Cache, types: map<MessageIndex, TypeInfo>)
    requires Linked(w.pool) && Sound(w.pool, FromScratch(w), known) && TypesFor(w, root, known, types)
    requires !SomePanics(BuilderWith(w, types), Reachable(w.pool, root, known.Keys))
    ensures forall i :: i in BuiltHere(w, root, known, types) ==>
              i < |w.pool| && BuiltHere(w, root, known, types)[i] == Alone(w, i) && Buildable(w, i)
  {
    forall i | i in BuiltHere(w, root, known, types)
      ensures i < |w.pool| && BuiltHere(w, root, known, types)[i] == Alone(w, i) && Buildable(w, i)
    {
      SnapshotTypes(w, root, known, types, i);
    }
  }

  /**
   What a thread builds against a sound snapshot, unless it panics, is what would be built from
   scratch, and adds to the snapshot exactly what it needs to stay closed.
   */
  lemma {:induction false} BuildIsScratch(w: World, root: MessageIndex, known: Cache,
                                          types: map<MessageIndex, TypeInfo>, result: Cache)
    requires Linked(w.pool) && Sound(w.pool, FromScratch(w), known) && TypesFor(w, root, known, types)
    requires root < |w.pool| && BuildOf(w, root, known, types, result)
    ensures IsClosure(w.pool, root, known.Keys, result.Keys) && Extends(result, FromScratch(w))
  {
    BuiltAlone(w, root, known, types);
    ReachableIsClosure(w.pool, root, known.Keys);
    var built := BuiltHere(w, root, known, types);
    forall t | t in built
      ensures t in FromScratch(w) && LinkEntry(w.pool, t, known, built, built[t]) == FromScratch(w)[t]
    {
      EntryIsScratch(w, root, known, built, t);
    }
    AllLinked(w.pool, FromScratch(w), known, built);
  }

  lemma {:induction false} EntryIsScratch(w: World, root: MessageIndex, known: Cache, built: Cache, t: MessageIndex)
    requires Linked(w.pool) && Sound(w.pool, FromScratch(w), known)
    requires IsClosure(w.pool, root, known.Keys, built.Keys) && t in built && t < |w.pool| && Buildable(w, t)
    requires forall i :: i in built ==> i < |w.pool| && built[i] == Alone(w, i)
    ensures t in FromScratch(w) && LinkEntry(w.pool, t, known, built, built[t]) == FromScratch(w)[t]
  {
    LinkedIsScratch(w, root, known, built, t);
  }

  lemma {:induction false} AllLinked(pool: Pool, spec: Cache, known: Cache, built: Cache)
    requires forall t :: t in built ==> t in spec && LinkEntry(pool, t, known, built, built[t]) == spec[t]
    ensures LinkedCache(pool, known, built).Keys == built.Keys
    ensures Extends(LinkedCache(pool, known, built), spec)
  {
  }

  /** A type whose rules are to be built refers to one that the reader refuses with `error`. */
  ghost predicate CannotRead(w: World, root: MessageIndex, known: Cache, error: ReadError)
    requires Linked(w.pool)
  {
    exists i: MessageIndex :: i < |w.pool| && Wanted(w.pool, Reachable(w.pool, root, known.Keys), i)
      && !(i in known && known[i].Ok?) && w.reader(w.pool[i].fullName) == Err(error)
  }

  lemma {:induction false} EmptyPlus(cache: Cache)
    ensures map[] + cache == cache
  {
  }

  /** Merging a thread's result into whatever the cache has become. */
  lemma {:induction false} MergeIsSound(pool: Pool, spec: Cache, root: MessageIndex, known: Cache, cache: Cache,
                                        result: Cache)
    requires Sound(pool, spec, cache) && Extends(known, cache) && root !in known
    requires IsClosure(pool, root, known.Keys, result.Keys) && Extends(result, spec)
    ensures Sound(pool, spec, cache + result) && Extends(cache, cache + result) && root in cache + result
  {
    var merged := cache + result;
    forall a: MessageIndex, b: MessageIndex | a in merged && Refers(pool, a, b) ensures b in merged {
      if a !in cache {
        LookupNeverMisses(pool, root, known.Keys, result.Keys, a, b);
      }
    }
    ReachesSelf(pool, root, known.Keys);
  }

  // ------------------------------------------------------------ the state machine

  type Tid = nat

  /** Where a thread is in a call. */
  datatype Thread =
    | Idle
    | Snapshotted(root: MessageIndex, known: Cache)
    | Resolved(root: MessageIndex, known: Cache, types: map<MessageIndex, TypeInfo>)
    | Compiled(root: MessageIndex, known: Cache, result: Cache)
    | Served(root: MessageIndex, validators: Cache)
    | ReadFailed(root: MessageIndex)
    | Unwound(root: MessageIndex, known: Cache)

  datatype State = State(cache: Cache, threads: map<Tid, Thread>)

  ghost predicate Init(s: State) {
    s.cache == map[] && forall i :: i in s.threads ==> s.threads[i] == Idle
  }

  /** One thread's next step. */
  ghost predicate ThreadStep(w: World, cache: Cache, t: Thread, cache': Cache, t': Thread)
    requires Linked(w.pool)
  {
    match t
    case Idle =>
      // a hit is served from the snapshot, a miss starts a build
      && cache' == cache
      && (|| (t'.Served? && t'.root in cache && t'.validators == cache)
          || (t'.Snapshotted? && t'.root < |w.pool| && t'.root !in cache && t'.known == cache))
    case Snapshotted(root, known) =>
      && cache' == cache
      && (|| (t'.Resolved? && t'.root == root && t'.known == known && TypesFor(w, root, known, t'.types))
          || t' == ReadFailed(root))
    case Resolved(root, known, types) =>
      // a panic leaves the cache alone, and the locks it poisons are used all the same
      && cache' == cache
      && (|| (t'.Compiled? && t'.root == root && t'.known == known && BuildOf(w, root, known, types, t'.result))
          || (SomePanics(BuilderWith(w, types), Reachable(w.pool, root, known.Keys)) && t' == Unwound(root, known)))
    case Compiled(root, known, result) =>
      && cache' == cache + result
      && t' == Served(root, cache')
    case Served(_, _) => cache' == cache && t' == Idle
    case ReadFailed(_) => cache' == cache && t' == Idle
    case Unwound(_, _) => cache' == cache && t' == Idle
  }

  ghost predicate Next(w: World, s: State, s': State)
    requires Linked(w.pool)
  {
    exists i :: i in s.threads && i in s'.threads
      && ThreadStep(w, s.cache, s.threads[i], s'.cache, s'.threads[i])
      && s'.threads == s.threads[i := s'.threads[i]]
  }

  ghost predicate ThreadOk(pool: Pool, spec: Cache, cache: Cache, t: Thread) {
    match t
    case Idle => true
    case ReadFailed(_) => true
    case Served(root, validators) => Sound(pool, spec, validators) && Extends(validators, cache) && root in validators
    case Snapshotted(root, known) =>
      root < |pool| && root !in known && Sound(pool, spec, known) && Extends(known, cache)
    case Resolved(root, known, _) =>
      root < |pool| && root !in known && Sound(pool, spec, known) && Extends(known, cache)
    case Unwound(root, known) => root < |pool| && root !in known && Sound(pool, spec, known) && Extends(known, cache)
    case Compiled(root, known, result) =>
      && root !in known && Sound(pool, spec, known) && Extends(known, cache)
      && IsClosure(pool, root, known.Keys, result.Keys) && Extends(result, spec)
  }

  /** The resolved types are those the rules refer to, and a call unwinds only where a build can panic. */
  ghost predicate TypesOk(w: World, t: Thread)
    requires Linked(w.pool)
  {
    && (t.Resolved? ==> TypesFor(w, t.root, t.known, t.types))
    && (t.Unwound? ==> BuildCanPanic(w.pool, t.root, t.known.Keys))
  }

  ghost predicate Inv(w: World, s: State)
    requires Linked(w.pool)
  {
    && Sound(w.pool, FromScratch(w), s.cache)
    && forall i :: i in s.threads ==>
         ThreadOk(w.pool, FromScratch(w), s.cache, s.threads[i]) && TypesOk(w, s.threads[i])
  }

  lemma {:induction false} InitInv(w: World, s: State)
    requires Linked(w.pool) && Init(s)
    ensures Inv(w, s)
  {
  }

  lemma {:induction false} PanicIsPossible(w: World, root: MessageIndex, known: Cache,
                                           types: map<MessageIndex, TypeInfo>)
    requires Linked(w.pool) && TypesFor(w, root, known, types)
    requires SomePanics(BuilderWith(w, types), Reachable(w.pool, root, known.Keys))
    ensures BuildCanPanic(w.pool, root, known.Keys)
  {
    var b := BuilderWith(w, types);
    var t :| t in Reachable(w.pool, root, known.Keys) && BuildMessage(b, t).Panicked?;
    assert CanPanic(w.pool, types, t);
  }

  lemma {:induction false} StepKeeps(w: World, spec: Cache, cache: Cache, t: Thread, cache': Cache, t': Thread)
    requires Linked(w.pool) && spec == FromScratch(w)
    requires Sound(w.pool, spec, cache) && ThreadOk(w.pool, spec, cache, t) && TypesOk(w, t)
    requires ThreadStep(w, cache, t, cache', t')
    ensures Sound(w.pool, spec, cache') && Extends(cache, cache')
    ensures ThreadOk(w.pool, spec, cache', t') && TypesOk(w, t')
  {
    match t
    case Resolved(root, known, types) =>
      if t'.Compiled? {
        BuildIsScratch(w, root, known, types, t'.result);
      } else {
        PanicIsPossible(w, root, known, types);
      }
    case Compiled(root, known, result) => MergeIsSound(w.pool, spec, root, known, cache, result);
    case _ =>
  }

  /** A thread's own facts survive what others do to the cache. */
  lemma {:induction false} OthersKeep(pool: Pool, spec: Cache, cache: Cache, cache': Cache, t: Thread)
    requires ThreadOk(pool, spec, cache, t) && Extends(cache, cache')
    ensures ThreadOk(pool, spec, cache', t)
  {
  }

  lemma {:induction false} NextInv(w: World, s: State, s': State)
    requires Linked(w.pool) && Inv(w, s) && Next(w, s, s')
    ensures Inv(w, s') && Extends(s.cache, s'.cache)
  {
    var i :| i in s.threads && i in s'.threads
      && ThreadStep(w, s.cache, s.threads[i], s'.cache, s'.threads[i])
      && s'.threads == s.threads[i := s'.threads[i]];
    var spec := FromScratch(w);
    StepKeeps(w, spec, s.cache, s.threads[i], s'.cache, s'.threads[i]);
    forall k | k in s'.threads
      ensures ThreadOk(w.pool, spec, s'.cache, s'.threads[k]) && TypesOk(w, s'.threads[k])
    {
      if k != i {
        OthersKeep(w.pool, spec, s.cache, s'.cache, s.threads[k]);
      }
    }
  }

  ghost predicate Run(w: World, run: seq<State>)
    requires Linked(w.pool)
  {
    run != [] && Init(run[0]) && forall i :: 0 <= i < |run| - 1 ==> Next(w, run[i], run[i + 1])
  }

  lemma {:induction false} RunKeeps(w: World, run: seq<State>, i: nat)
    requires Linked(w.pool) && Run(w, run) && i < |run|
    ensures Inv(w, run[i])
    ensures forall k :: 0 <= k <= i ==> Extends(run[k].cache, run[i].cache)
  {
    if i == 0 {
      InitInv(w, run[0]);
    } else {
      RunKeeps(w, run, i - 1);
      NextInv(w, run[i - 1], run[i]);
    }
  }

  /**
   In every interleaving, at every step: the cache is closed under nested types,
   entries are never dropped or changed, and each is the from-scratch build of
   its type, so which of two racing threads merges last makes no difference.
   */
  lemma {:induction false} EveryInterleaving(w: World, run: seq<State>, i: nat, k: nat)
    requires Linked(w.pool) && Run(w, run) && i <= k < |run|
    ensures Closed(w.pool, run[k].cache.Keys)
    ensures Extends(run[i].cache, run[k].cache)
    ensures Extends(run[k].cache, FromScratch(w))
  {
    RunKeeps(w, run, k);
  }

  /**
   What a call is served is complete: it holds all that its root reaches, each entry
   as built from nothing, so the walk never meets a type without an entry.
   */
  lemma {:induction false} ServedIsComplete(w: World, run: seq<State>, k: nat, j: Tid, t: MessageIndex)
    requires Linked(w.pool) && Run(w, run) && k < |run|
    requires j in run[k].threads && run[k].threads[j].Served?
    requires Reaches(w.pool, run[k].threads[j].root, t, {})
    ensures t in run[k].threads[j].validators && t in FromScratch(w)
    ensures run[k].threads[j].validators[t] == FromScratch(w)[t]
  {
    RunKeeps(w, run, k);
    var validators := run[k].threads[j].validators;
    assert ThreadOk(w.pool, FromScratch(w), run[k].cache, run[k].threads[j]);
    ReachesStays(w.pool, run[k].threads[j].root, t, {}, validators.Keys);
  }

  /** In a closed set of types that can be built, the from-scratch entry is what the options say. */
  lemma {:induction false} ScratchIsDeclared(w: World, closed: set<MessageIndex>, t: MessageIndex)
    requires Linked(w.pool) && Closed(w.pool, closed) && t in closed
    requires forall i :: i in closed ==> i < |w.pool| && Buildable(w, i)
    ensures EntryIs(ScratchBuilder(w), map[], t, Scratch(w, t))
  {
    var b := ScratchBuilder(w);
    EntryExactly(b, map[], closed, t);
    if Alone(w, t).Ok? {
      var v := Alone(w, t).value;
      forall p | 0 <= p < |v.fields| && v.fields[p].Ok? && NestedType(v.fields[p].value).Some?
        ensures NestedError(map[], Outcomes(b, closed), NestedType(v.fields[p].value).value)
             == NestedError(map[], AllAlone(w), NestedType(v.fields[p].value).value)
      {
        AloneRefers(w, t, p);
        SameAlone(w, closed, NestedType(v.fields[p].value).value);
      }
      LinkSame(w.pool, t, v, map[], Outcomes(b, closed), map[], AllAlone(w));
    }
  }

  lemma {:induction false} SameAlone(w: World, closed: set<MessageIndex>, n: MessageIndex)
    requires Linked(w.pool) && n in closed && forall i :: i in closed ==> i < |w.pool|
    ensures NestedError(map[], Outcomes(ScratchBuilder(w), closed), n) == NestedError(map[], AllAlone(w), n)
  {
    assert AllAlone(w)[n] == Alone(w, n) && Outcomes(ScratchBuilder(w), closed)[n] == Alone(w, n);
  }

  /**
   So in every interleaving each entry of the cache is what the descriptors and options
   of its type say, whichever threads built it and in whatever order.
   */
  lemma {:induction false} CacheIsDeclared(w: World, run: seq<State>, k: nat, t: MessageIndex)
    requires Linked(w.pool) && Run(w, run) && k < |run| && t in run[k].cache
    ensures t < |w.pool| && EntryIs(ScratchBuilder(w), map[], t, run[k].cache[t])
  {
    RunKeeps(w, run, k);
    SoundIsDeclared(w, run[k].cache, t);
  }

  lemma {:induction false} SoundIsDeclared(w: World, cache: Cache, t: MessageIndex)
    requires Linked(w.pool) && Sound(w.pool, FromScratch(w), cache) && t in cache
    ensures t < |w.pool| && EntryIs(ScratchBuilder(w), map[], t, cache[t])
  {
    forall i | i in cache.Keys ensures i < |w.pool| && Buildable(w, i) {
      assert i in FromScratch(w);
    }
    ScratchIsDeclared(w, cache.Keys, t);
  }

  lemma {:induction false} AllDeclared(w: World, cache: Cache)
    requires Linked(w.pool) && Sound(w.pool, FromScratch(w), cache)
    ensures forall t :: t in cache ==> t < |w.pool| && EntryIs(ScratchBuilder(w), map[], t, cache[t])
  {
    forall t | t in cache ensures t < |w.pool| && EntryIs(ScratchBuilder(w), map[], t, cache[t]) {
      SoundIsDeclared(w, cache, t);
    }
  }

  /** A call unwinds only against a snapshot that lets a build panic: never in a safe pool, nor an empty cache. */
  lemma {:induction false} PanicsAreUnsafe(w: World, run: seq<State>, k: nat, j: Tid)
    requires Linked(w.pool) && Run(w, run) && k < |run| && j in run[k].threads && run[k].threads[j].Unwound?
    ensures BuildCanPanic(w.pool, run[k].threads[j].root, run[k].threads[j].known.Keys)
    ensures !Safe(w.pool) && run[k].threads[j].known.Keys != {}
  {
    RunKeeps(w, run, k);
    UnwoundFrom(w, run[k], j);
    NeedsUnsafe(w.pool, run[k].threads[j].root, run[k].threads[j].known.Keys);
  }

  lemma {:induction false} UnwoundFrom(w: World, s: State, j: Tid)
    requires Linked(w.pool) && Inv(w, s) && j in s.threads && s.threads[j].Unwound?
    ensures s.threads[j].root < |w.pool| && Closed(w.pool, s.threads[j].known.Keys)
    ensures BuildCanPanic(w.pool, s.threads[j].root, s.threads[j].known.Keys)
  {
    assert ThreadOk(w.pool, FromScratch(w), s.cache, s.threads[j]) && TypesOk(w, s.threads[j]);
  }

  lemma {:induction false} NeedsUnsafe(pool: Pool, root: MessageIndex, known: set<MessageIndex>)
    requires Linked(pool) && Closed(pool, known) && root < |pool| && BuildCanPanic(pool, root, known)
    ensures !Safe(pool) && known != {}
  {
    if Safe(pool) {
      SafeNeverPanics(pool, root, known);
    }
    FirstNeverPanics(pool, root);
  }

  // --------------------------------------------------------------- the validator

  /** How a call for a type's rules ends. */
  datatype Reply = Found(validators: Cache) | Unread(error: ReadError) | Aborted(missing: MessageIndex)

  /** The validator's shared state, as one thread sees it. */
  class Validator {
    const w: World
    var cache: Cache

    ghost predicate Valid()
      reads this
    {
      Linked(w.pool) && Sound(w.pool, FromScratch(w), cache)
    }

    constructor (world: World)
      requires Linked(world.pool)
      ensures Valid() && w == world && cache == map[]
    {
      w := world;
      cache := map[];
    }

    /**
     Serves a call for `root`. `others` is what
     other threads have made of the cache by the time the write lock is taken;
     `EveryInterleaving` is why it can be relied on to extend the snapshot.
     */
    method Validators(root: MessageIndex, others: Cache) returns (r: Reply)
      requires Valid() && root < |w.pool|
      requires Sound(w.pool, FromScratch(w), others) && Extends(cache, others)
      modifies this
      ensures Valid()
      ensures root in old(cache) ==> r == Found(old(cache)) && cache == old(cache)
      ensures root !in old(cache) ==>
                match r
                case Unread(error) => cache == old(cache) && CannotRead(w, root, old(cache), error)
                case Aborted(_) => cache == old(cache) && BuildCanPanic(w.pool, root, old(cache).Keys)
                case Found(validators) =>
                  && cache == validators && Extends(others, validators) && root in validators
                  && forall t :: t in validators ==> t in others || Reaches(w.pool, root, t, old(cache).Keys)
      ensures r.Found? ==>
                forall t :: t in r.validators ==> t < |w.pool| && EntryIs(ScratchBuilder(w), map[], t, r.validators[t])
    {
      var known := cache;
      AllDeclared(w, known);
      if root in known {
        return Found(known);
      }
      r := BuildMissing(root, known);
      if r.Found? {
        MergeIsSound(w.pool, FromScratch(w), root, known, others, r.validators);
        cache := others + r.validators;
        r := Found(cache);
        AllDeclared(w, cache);
      }
    }

    /** Resolves and compiles what the snapshot lacks, outside the cache lock. */
    method BuildMissing(root: MessageIndex, known: Cache) returns (r: Reply)
      requires Linked(w.pool) && root < |w.pool| && Sound(w.pool, FromScratch(w), known)
      ensures match r
              case Unread(error) => CannotRead(w, root, known, error)
              case Aborted(_) => BuildCanPanic(w.pool, root, known.Keys)
              case Found(built) => IsClosure(w.pool, root, known.Keys, built.Keys) && Extends(built, FromScratch(w))
    {
      var resolved;
      ghost var closure;
      resolved, closure := Resolve(w.pool, root, known, w.reader);
      assert closure == Reachable(w.pool, root, known.Keys);
      if resolved.Err? {
        return Unread(resolved.error);
      }
      ResolveGivesTypes(w, root, known, closure, resolved.value);
      r := CompileMissing(root, known, resolved.value);
      if r.Found? {
        BuildIsScratch(w, root, known, resolved.value, r.validators);
      } else {
        PanicIsPossible(w, root, known, resolved.value);
      }
    }

    method CompileMissing(root: MessageIndex, known: Cache, types: map<MessageIndex, TypeInfo>) returns (r: Reply)
      requires Linked(w.pool) && root < |w.pool|
      ensures match r
              case Unread(_) => false
              case Aborted(_) =>
                SomePanics(Builder(w.pool, w.compile, w.native, types), Reachable(w.pool, root, known.Keys))
              case Found(built) => BuildOf(w, root, known, types, built)
    {
      var b := Builder(w.pool, w.compile, w.native, types);
      var built := BuildAll(b, root, known, map[]);
      if built.Panicked? {
        return Aborted(built.missing);
      }
      EmptyPlus(LinkedCache(w.pool, known, BuiltHere(w, root, known, types)));
      r := Found(built.value);
    }
  }
}
