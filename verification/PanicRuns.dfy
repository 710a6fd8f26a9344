/**
 Which pools let a call panic: exactly the unsafe ones. Where a pool is not safe,
 calls for what does not lead to some type fill the cache, and then a call for that
 type panics, unless one of the others did before.
 */
module PanicRuns {
  import opened Wrappers
  import opened Descriptors
  import opened Closure
  import opened RuleBuild
  import opened RuleBuildLaws
  import opened BuildClosure
  import opened Panics
  import opened RuleCache

  /** A run in which some call unwinds. */
  ghost predicate Unwinds(w: World)
    requires Linked(w.pool)
  {
    exists run: seq<State>, k: nat, j: Tid ::
      Run(w, run) && k < |run| && j in run[k].threads && run[k].threads[j].Unwound?
  }

  /** A run of one thread that ends in `s`. */
  ghost predicate Reached(w: World, s: State)
    requires Linked(w.pool)
  {
    exists run: seq<State> :: Run(w, run) && run[|run| - 1] == s
  }

  ghost function Single(cache: Cache, t: Thread): State {
    State(cache, map[0 := t])
  }

  /** The reader knows every type. */
  ghost predicate KnowsAll(w: World) {
    forall name: string :: w.reader(name).Ok?
  }

  lemma {:induction false} ReachedNext(w: World, cache: Cache, t: Thread, cache': Cache, t': Thread)
    requires Linked(w.pool) && Reached(w, Single(cache, t)) && ThreadStep(w, cache, t, cache', t')
    ensures Reached(w, Single(cache', t'))
  {
    var s, s' := Single(cache, t), Single(cache', t');
    assert s'.threads == s.threads[0 := t'];
    assert Next(w, s, s') by {
      assert ThreadStep(w, s.cache, s.threads[0], s'.cache, s'.threads[0]);
    }
    var run: seq<State> :| Run(w, run) && run[|run| - 1] == s;
    RunNext(w, run, s');
  }

  lemma {:induction false} RunNext(w: World, run: seq<State>, s': State)
    requires Linked(w.pool) && Run(w, run) && Next(w, run[|run| - 1], s')
    ensures Reached(w, s')
  {
    var longer := run + [s'];
    forall k | 0 <= k < |longer| - 1 ensures Next(w, longer[k], longer[k + 1]) {
      assert longer[k] == run[k];
    }
    assert longer[0] == run[0] && longer[|longer| - 1] == s';
    assert Run(w, longer);
  }

  lemma {:induction false} SomeTypesFor(w: World, root: MessageIndex, known: Cache)
    returns (types: map<MessageIndex, TypeInfo>)
    requires Linked(w.pool) && KnowsAll(w)
    ensures TypesFor(w, root, known, types)
  {
    var closure := Reachable(w.pool, root, known.Keys);
    types := map i: MessageIndex | i in Universe(|w.pool|) && Wanted(w.pool, closure, i) ::
      LookUp(w.pool, known, w.reader, i).value;
  }

  /** A call that misses gets as far as its types. */
  lemma {:induction false} Resolves(w: World, cache: Cache, root: MessageIndex)
    returns (types: map<MessageIndex, TypeInfo>)
    requires Linked(w.pool) && KnowsAll(w) && Reached(w, Single(cache, Idle)) && root < |w.pool| && root !in cache
    ensures TypesFor(w, root, cache, types) && Reached(w, Single(cache, Resolved(root, cache, types)))
  {
    types := SomeTypesFor(w, root, cache);
    ReachedNext(w, cache, Idle, cache, Snapshotted(root, cache));
    ReachedNext(w, cache, Snapshotted(root, cache), cache, Resolved(root, cache, types));
  }

  lemma {:induction false} Panicking(w: World, cache: Cache, root: MessageIndex, types: map<MessageIndex, TypeInfo>)
    requires Linked(w.pool) && Reached(w, Single(cache, Resolved(root, cache, types)))
    requires SomePanics(BuilderWith(w, types), Reachable(w.pool, root, cache.Keys))
    ensures Unwinds(w)
  {
    ReachedNext(w, cache, Resolved(root, cache, types), cache, Unwound(root, cache));
    var run: seq<State> :| Run(w, run) && run[|run| - 1] == Single(cache, Unwound(root, cache));
    assert run[|run| - 1].threads[0].Unwound?;
  }

  /** A call for one more type. */
  lemma {:induction false} CallOne(w: World, cache: Cache, root: MessageIndex) returns (more: Cache)
    requires Linked(w.pool) && KnowsAll(w) && Reached(w, Single(cache, Idle)) && root < |w.pool| && root !in cache
    ensures Unwinds(w)
            || (Reached(w, Single(more, Idle)) && more.Keys == cache.Keys + Reachable(w.pool, root, cache.Keys))
  {
    var types := Resolves(w, cache, root);
    more := cache;
    if SomePanics(BuilderWith(w, types), Reachable(w.pool, root, cache.Keys)) {
      Panicking(w, cache, root, types);
    } else {
      var result := LinkedCache(w.pool, cache, BuiltHere(w, root, cache, types));
      more := cache + result;
      ReachedNext(w, cache, Resolved(root, cache, types), cache, Compiled(root, cache, result));
      ReachedNext(w, cache, Compiled(root, cache, result), more, Served(root, more));
      ReachedNext(w, more, Served(root, more), more, Idle);
    }
  }

  /** Calls for the types of a closed set leave just those in the cache. */
  lemma {:induction false} CallAll(w: World, cache: Cache, target: set<MessageIndex>) returns (full: Cache)
    requires Linked(w.pool) && KnowsAll(w) && Reached(w, Single(cache, Idle))
    requires Closed(w.pool, target) && cache.Keys <= target && forall i :: i in target ==> i < |w.pool|
    ensures Unwinds(w) || (Reached(w, Single(full, Idle)) && full.Keys == target)
    decreases target - cache.Keys
  {
    full := cache;
    if cache.Keys != target {
      var root :| root in target && root !in cache;
      var more := CallOne(w, cache, root);
      if !Unwinds(w) {
        ReachesSelf(w.pool, root, cache.Keys);
        forall t | t in Reachable(w.pool, root, cache.Keys) ensures t in target {
          ReachesStays(w.pool, root, t, cache.Keys, target);
        }
        full := CallAll(w, more, target);
      }
    }
  }

  /** A world over the pool whose CEL and native checks accept all rules, and which knows all types. */
  lemma {:induction false} SomeWorld(pool: Pool) returns (w: World)
    ensures w.pool == pool && KnowsAll(w) && forall types :: Accepts(BuilderWith(w, types))
  {
    var b := SomeAccepts(pool, map[]);
    var info: TypeInfo := *;
    w := World(pool, b.compile, b.native, (name: string) => Result<TypeInfo, ReadError>.Ok(info));
  }

  lemma {:induction false} UnsafeType(pool: Pool) returns (t: MessageIndex, x: MessageIndex)
    requires Linked(pool) && !Safe(pool)
    ensures t < |pool| && MessageReadsThrough(pool, t, x) && Wrapped(pool, x).Some?
    ensures !BuiltAlong(pool, t, Wrapped(pool, x).value)
  {
    t, x :| t < |pool| && MessageReadsThrough(pool, t, x) && Wrapped(pool, x).Some?
            && !BuiltAlong(pool, t, Wrapped(pool, x).value);
  }

  /** Against the cache of all that does not lead to `t`, the build of `t` panics in such a world. */
  lemma {:induction false} PanicsThere(w: World, types: map<MessageIndex, TypeInfo>, t: MessageIndex, x: MessageIndex)
    requires Linked(w.pool) && Accepts(BuilderWith(w, types)) && t < |w.pool|
    requires MessageReadsThrough(w.pool, t, x) && Wrapped(w.pool, x).Some?
    requires !BuiltAlong(w.pool, t, Wrapped(w.pool, x).value)
    requires TypesOf(w.pool, Reachable(w.pool, t, Apart(w.pool, t)), types)
    ensures SomePanics(BuilderWith(w, types), Reachable(w.pool, t, Apart(w.pool, t)))
  {
    var closure := Reachable(w.pool, t, Apart(w.pool, t));
    ReachesSelf(w.pool, t, {});
    ReachesSelf(w.pool, t, Apart(w.pool, t));
    OnlyAlong(w.pool, t, Wrapped(w.pool, x).value);
    MemberTypes(w.pool, closure, types, t);
    MessagePanics(BuilderWith(w, types), t, x);
  }

  lemma {:induction false} UnsafeUnwinds(pool: Pool) returns (w: World)
    requires Linked(pool) && !Safe(pool)
    ensures w.pool == pool && Unwinds(w)
  {
    var t, x := UnsafeType(pool);
    w := SomeWorld(pool);
    assert Run(w, [Single(map[], Idle)]) && [Single(map[], Idle)][|[Single(map[], Idle)]| - 1] == Single(map[], Idle);
    ApartClosed(pool, t);
    var cache := CallAll(w, map[], Apart(pool, t));
    if !Unwinds(w) {
      ReachesSelf(pool, t, {});
      var types := Resolves(w, cache, t);
      PanicsThere(w, types, t, x);
      Panicking(w, cache, t, types);
    }
  }

  /** A pool is safe if and only if no call unwinds in any run of any world over it. */
  lemma {:induction false} SafeNeverUnwinds(pool: Pool)
    requires Linked(pool)
    ensures Safe(pool) <==> forall w: World :: w.pool == pool ==> !Unwinds(w)
  {
    if Safe(pool) {
      forall w: World | w.pool == pool ensures !Unwinds(w) {
        if Unwinds(w) {
          var run: seq<State>, k: nat, j: Tid :|
            Run(w, run) && k < |run| && j in run[k].threads && run[k].threads[j].Unwound?;
          PanicsAreUnsafe(w, run, k, j);
        }
      }
    } else {
      var w := UnsafeUnwinds(pool);
    }
  }
}
