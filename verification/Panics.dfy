/**
 When the builder asks for a type that was not resolved, and panics: exactly when a
 message's rules read through a wrapper-named type that is compiled already, and whose
 `value` holds a message that nothing to be built refers to.
 */
module Panics {
  import opened Wrappers
  import opened Descriptors
  import opened Elements
  import opened Closure
  import opened RuleBuild
  import opened RuleBuildLaws
  import opened BuildClosure

  /** Some CEL runtime and native checks make the build of a message panic. */
  ghost predicate CanPanic(pool: Pool, types: map<MessageIndex, TypeInfo>, idx: MessageIndex)
    requires idx < |pool|
  {
    exists b: Builder :: b.pool == pool && b.types == types && BuildMessage(b, idx).Panicked?
  }

  /** The message's rules read through a type whose value's type is not resolved. */
  ghost predicate AsksInVain(pool: Pool, types: map<MessageIndex, TypeInfo>, idx: MessageIndex, w: MessageIndex)
    requires idx < |pool|
  {
    MessageReadsThrough(pool, idx, w) && Wrapped(pool, w).Some? && Wrapped(pool, w).value !in types
  }

  // ----------------------------------------------- a builder that accepts all rules

  ghost predicate Accepts(b: Builder) {
    && (forall bound: Option<Bound>, es: seq<Expression> :: b.compile(bound, es).Ok?)
    && (forall rules: RulesType, path: seq<Element>, enum: Option<nat> :: b.native(rules, path, enum).Ok?)
  }

  lemma {:induction false} ValueAccepted(b: Builder, target: Target, rules: FieldRules, prefix: seq<Element>)
    requires Accepts(b) && !Refused(b.pool, target, rules)
    ensures !BuildValue(b, target, rules, prefix).Failed?
  {
  }

  lemma {:induction false} ValuePanics(b: Builder, target: Target, rules: FieldRules, prefix: seq<Element>)
    requires Accepts(b) && ReadsThrough(b.pool, target, rules).Some?
    requires Wrapped(b.pool, ReadsThrough(b.pool, target, rules).value).value !in b.types
    ensures BuildValue(b, target, rules, prefix).Panicked?
  {
    var w := ReadsThrough(b.pool, target, rules).value;
    assert FullName(b.pool, w) == b.pool[w].fullName;
  }

  lemma {:induction false} ItemPanics(b: Builder, target: Target, rules: Option<FieldRules>, prefix: seq<Element>)
    requires Accepts(b) && ItemReadsThrough(b.pool, target, rules).Some?
    requires Wrapped(b.pool, ItemReadsThrough(b.pool, target, rules).value).value !in b.types
    ensures BuildItem(b, target, rules, prefix).Panicked?
  {
    ValuePanics(b, target, rules.value, prefix);
  }

  lemma {:induction false} ItemAccepted(b: Builder, target: Target, rules: Option<FieldRules>, prefix: seq<Element>)
    requires Accepts(b) && !ItemRefused(b.pool, target, rules)
    ensures !BuildItem(b, target, rules, prefix).Failed?
  {
    if rules.Some? && rules.value.ignore != Some(Always) {
      ValueAccepted(b, target, rules.value, prefix);
    }
  }

  lemma {:induction false} ShapePanics(b: Builder, message: MessageDescriptor, field: FieldDescriptor,
                                       rules: FieldRules,
                                       remaining: Option<RulesType>)
    requires Accepts(b) && ShapeReadsThrough(b.pool, message, field, rules).Some?
    requires Wrapped(b.pool, ShapeReadsThrough(b.pool, message, field, rules).value).Some?
    requires Wrapped(b.pool, ShapeReadsThrough(b.pool, message, field, rules).value).value !in b.types
    requires remaining == (if rules.standard.None? then None else Some(Remaining(rules.standard.value)))
    ensures BuildShape(b, message, field, remaining).Panicked?
  {
    match field.kind
    case ListOf(element) =>
      ItemPanics(b, ItemTarget(element, FieldTarget(message, field).name), ItemsOf(rules), [REPEATED, REPEATED_ITEMS]);
    case MapOf(key, value) =>
      ItemAccepted(b, ItemTarget(ScalarOf(key), EntryName(message, field, "key")), KeysOf(rules), [MAP, MAP_KEYS]);
      ItemPanics(b, ItemTarget(value, EntryName(message, field, "value")), ValuesOf(rules), [MAP, MAP_VALUES]);
  }

  lemma {:induction false} FieldPanics(b: Builder, message: MessageDescriptor, field: FieldDescriptor,
                                       rules: FieldRules,
                                       w: MessageIndex)
    requires Accepts(b) && FieldReadsThrough(b.pool, message, field, rules, w)
    requires Wrapped(b.pool, w).Some? && Wrapped(b.pool, w).value !in b.types
    ensures BuildField(b, message, field, rules).Panicked?
  {
    var target := FieldTarget(message, field);
    if ReadsThrough(b.pool, target, rules) == Some(w) {
      ValuePanics(b, target, rules, []);
    } else {
      ValueAccepted(b, target, rules, []);
      if BuildValue(b, target, rules, []).Done? {
        ValueRemains(b, target, rules, []);
        ShapePanics(b, message, field, rules, BuildValue(b, target, rules, []).value.1);
      }
    }
  }

  lemma {:induction false} FieldsPanic(b: Builder, message: MessageDescriptor, fields: seq<FieldDescriptor>,
                                       members: set<string>, f: FieldDescriptor, w: MessageIndex)
    requires Accepts(b) && f in fields && FieldReadsThrough(b.pool, message, f, EffectiveRules(f, members), w)
    requires Wrapped(b.pool, w).Some? && Wrapped(b.pool, w).value !in b.types
    ensures BuildFields(b, message, fields, members).Panicked?
  {
    FieldReadsWrapper(b.pool, message, f, EffectiveRules(f, members), w);
    if fields[0] == f {
      FieldPanics(b, message, f, EffectiveRules(f, members), w);
    } else {
      FieldsPanic(b, message, fields[1..], members, f, w);
    }
  }

  lemma {:induction false} MessagePanics(b: Builder, idx: MessageIndex, w: MessageIndex)
    requires Accepts(b) && Linked(b.pool) && idx < |b.pool| && Needed(b.pool, idx) <= b.types.Keys
    requires AsksInVain(b.pool, b.types, idx, w)
    ensures BuildMessage(b, idx).Panicked?
  {
    var message := b.pool[idx];
    NeededCovers(b.pool, idx, b.types.Keys);
    OneofsResolved(b, message, OneofRules(message));
    OneofsFail(b, message, OneofRules(message));
    MembersAreNames(b, message, OneofRules(message));
    var names := OneofNames(OneofRules(message));
    var f :| f in message.fields && FieldReadsThrough(b.pool, message, f, EffectiveRules(f, names), w);
    FieldsPanic(b, message, message.fields, names, f, w);
  }

  // ------------------------------------------------------------ the exact condition

  lemma {:induction false} SomeAccepts(pool: Pool, types: map<MessageIndex, TypeInfo>) returns (b: Builder)
    ensures b.pool == pool && b.types == types && Accepts(b)
  {
    var program: Program := *;
    var checks: Checks := *;
    b := Builder(pool, (bound: Option<Bound>, es: seq<Expression>) => Result<Program, string>.Ok(program),
                 (rules: RulesType, path: seq<Element>, enum: Option<nat>) =>
                   Result<Native, string>.Ok(Native(checks, [], Bound("", []))),
                 types);
  }

  lemma {:induction false} AskingPanics(pool: Pool, types: map<MessageIndex, TypeInfo>, idx: MessageIndex,
                                        w: MessageIndex)
    requires Linked(pool) && idx < |pool| && Needed(pool, idx) <= types.Keys && AsksInVain(pool, types, idx, w)
    ensures CanPanic(pool, types, idx)
  {
    var b := SomeAccepts(pool, types);
    MessagePanics(b, idx, w);
  }

  lemma {:induction false} AskedNeverPanics(pool: Pool, types: map<MessageIndex, TypeInfo>, idx: MessageIndex)
    requires Linked(pool) && idx < |pool| && Asked(pool, idx) <= types.Keys
    ensures !CanPanic(pool, types, idx)
  {
    forall b: Builder | b.pool == pool && b.types == types ensures !BuildMessage(b, idx).Panicked? {
      AskedSuffices(b, idx);
    }
  }

  /** With the types it refers to at hand, a message's build can panic exactly when it asks for another in vain. */
  lemma {:induction false} CanPanicExactly(pool: Pool, types: map<MessageIndex, TypeInfo>, idx: MessageIndex)
    requires Linked(pool) && idx < |pool| && Needed(pool, idx) <= types.Keys
    ensures CanPanic(pool, types, idx) <==> exists w: MessageIndex :: AsksInVain(pool, types, idx, w)
  {
    if w: MessageIndex :| AsksInVain(pool, types, idx, w) {
      AskingPanics(pool, types, idx, w);
    } else {
      AllAsked(pool, types, idx);
      AskedNeverPanics(pool, types, idx);
    }
  }

  lemma {:induction false} AllAsked(pool: Pool, types: map<MessageIndex, TypeInfo>, idx: MessageIndex)
    requires Linked(pool) && idx < |pool| && Needed(pool, idx) <= types.Keys
    requires forall w: MessageIndex :: !AsksInVain(pool, types, idx, w)
    ensures Asked(pool, idx) <= types.Keys
  {
    forall x | x in Asked(pool, idx) ensures x in types {
      if x !in Needed(pool, idx) {
        var w: MessageIndex :| MessageReadsThrough(pool, idx, w) && Wrapped(pool, w) == Some(x);
        assert !AsksInVain(pool, types, idx, w);
      }
    }
  }

  /** The types resolved for a closure are those its members refer to. */
  ghost predicate TypesOf(pool: Pool, closure: set<MessageIndex>, types: map<MessageIndex, TypeInfo>)
    requires Linked(pool) && forall c :: c in closure ==> c < |pool|
  {
    forall i: MessageIndex :: i in types <==> Wanted(pool, closure, i)
  }

  lemma {:induction false} MemberTypes(pool: Pool, closure: set<MessageIndex>, types: map<MessageIndex, TypeInfo>,
                                       t: MessageIndex)
    requires Linked(pool) && (forall c :: c in closure ==> c < |pool|) && TypesOf(pool, closure, types) && t in closure
    ensures Needed(pool, t) <= types.Keys
  {
    forall i | i in Needed(pool, t) ensures i in types {
      assert Wanted(pool, closure, i);
    }
  }

  /** A type asked for in vain is one that a cached wrapper namesake holds. */
  lemma {:induction false} OnlyThroughKnown(pool: Pool, root: MessageIndex, known: set<MessageIndex>,
                                            closure: set<MessageIndex>, types: map<MessageIndex, TypeInfo>,
                                            t: MessageIndex, w: MessageIndex)
    requires Linked(pool) && IsClosure(pool, root, known, closure) && forall c :: c in closure ==> c < |pool|
    requires TypesOf(pool, closure, types) && t in closure && AsksInVain(pool, types, t, w)
    ensures w in known && w < |pool| && WrapperRules(pool[w].fullName).Some?
  {
    MessageReadsWrapper(pool, t, w);
    if w !in known {
      ReachesNext(pool, root, t, w, known);
      WrappedInPool(pool, w);
      MemberTypes(pool, closure, types, w);
    }
  }

  /**
   What `resolve` returns against `known`: the build of some type of the closure can
   panic if and only if one of them has no bad oneof rule and has rules, of a field or of
   its items or map values, neither ignored nor refused, that read through a type in
   `known`, named like a wrapper, whose value is of a type that was not resolved.
   */
  lemma {:induction false} PanicsExactly(pool: Pool, root: MessageIndex, known: set<MessageIndex>,
                                         closure: set<MessageIndex>, types: map<MessageIndex, TypeInfo>)
    requires Linked(pool) && IsClosure(pool, root, known, closure) && forall c :: c in closure ==> c < |pool|
    requires TypesOf(pool, closure, types)
    ensures (exists t: MessageIndex :: t in closure && CanPanic(pool, types, t))
            <==> exists t: MessageIndex, w: MessageIndex :: t in closure && w in known && AsksInVain(pool, types, t, w)
  {
    forall t: MessageIndex | t in closure
      ensures CanPanic(pool, types, t) <==> exists w: MessageIndex :: w in known && AsksInVain(pool, types, t, w)
    {
      MemberTypes(pool, closure, types, t);
      CanPanicExactly(pool, types, t);
      forall w: MessageIndex | AsksInVain(pool, types, t, w) ensures w in known {
        OnlyThroughKnown(pool, root, known, closure, types, t, w);
      }
    }
  }

  /** So with nothing compiled yet no build panics, whatever the pool. */
  lemma {:induction false} NoPanicFromNothing(pool: Pool, root: MessageIndex, closure: set<MessageIndex>,
                                              types: map<MessageIndex, TypeInfo>, t: MessageIndex)
    requires Linked(pool) && IsClosure(pool, root, {}, closure) && forall c :: c in closure ==> c < |pool|
    requires TypesOf(pool, closure, types) && t in closure
    ensures !CanPanic(pool, types, t)
  {
    PanicsExactly(pool, root, {}, closure, types);
  }

  // --------------------------------------------------------------- over all caches

  /** Each reaches the other. */
  ghost predicate Mutual(pool: Pool, a: MessageIndex, b: MessageIndex) {
    Reaches(pool, a, b, {}) && Reaches(pool, b, a, {})
  }

  /** Whatever a message asks for is referred to by some message that can only be built along with it. */
  ghost predicate Safe(pool: Pool)
    requires Linked(pool)
  {
    forall t: MessageIndex, w: MessageIndex ::
      t < |pool| && MessageReadsThrough(pool, t, w) && Wrapped(pool, w).Some? ==>
        BuiltAlong(pool, t, Wrapped(pool, w).value)
  }

  ghost predicate BuiltAlong(pool: Pool, t: MessageIndex, x: MessageIndex)
    requires Linked(pool)
  {
    exists c: MessageIndex :: c < |pool| && Mutual(pool, t, c) && x in Needed(pool, c)
  }

  lemma {:induction false} ClosureClosed(pool: Pool, root: MessageIndex, known: set<MessageIndex>,
                                         closure: set<MessageIndex>)
    requires IsClosure(pool, root, known, closure)
    ensures forall a: MessageIndex, b: MessageIndex ::
              a in closure && Refers(pool, a, b) && b !in known ==> b in closure
  {
    forall a: MessageIndex, b: MessageIndex | a in closure && Refers(pool, a, b) && b !in known ensures b in closure {
      ReachesNext(pool, root, a, b, known);
    }
  }

  /** What is built along with `t` is in every closure that has `t`. */
  lemma {:induction false} AlongInClosure(pool: Pool, root: MessageIndex, known: set<MessageIndex>,
                                          closure: set<MessageIndex>, t: MessageIndex, c: MessageIndex)
    requires Closed(pool, known) && IsClosure(pool, root, known, closure) && t in closure && Mutual(pool, t, c)
    ensures c in closure
  {
    ReachesAvoids(pool, root, t, known);
    if c in known {
      ReachesStays(pool, c, t, {}, known);
    }
    PruningIsExact(pool, t, c, known);
    ClosureClosed(pool, root, known, closure);
    ReachesStays(pool, t, c, known, closure);
  }

  /** Against a closed cache, everything asked for is resolved. */
  lemma {:induction false} AskedResolved(pool: Pool, root: MessageIndex, known: set<MessageIndex>,
                                         closure: set<MessageIndex>, t: MessageIndex, x: MessageIndex)
    requires Linked(pool) && Safe(pool) && Closed(pool, known) && IsClosure(pool, root, known, closure)
    requires (forall c :: c in closure ==> c < |pool|) && t in closure && x in Asked(pool, t)
    ensures Wanted(pool, closure, x)
  {
    if x in Needed(pool, t) {
      assert Wanted(pool, closure, x);
    } else {
      var w: MessageIndex :| MessageReadsThrough(pool, t, w) && Wrapped(pool, w) == Some(x);
      var c: MessageIndex :| c < |pool| && Mutual(pool, t, c) && x in Needed(pool, c);
      AlongInClosure(pool, root, known, closure, t, c);
    }
  }

  /** A build of `root` against the cache of `known` can panic. */
  ghost predicate BuildCanPanic(pool: Pool, root: MessageIndex, known: set<MessageIndex>)
    requires Linked(pool)
  {
    exists types: map<MessageIndex, TypeInfo>, t: MessageIndex ::
      && t in Reachable(pool, root, known) && TypesOf(pool, Reachable(pool, root, known), types)
      && CanPanic(pool, types, t)
  }

  lemma {:induction false} ReachableIsClosure(pool: Pool, root: MessageIndex, known: set<MessageIndex>)
    requires Linked(pool) && root < |pool|
    ensures IsClosure(pool, root, known, Reachable(pool, root, known))
  {
    forall t: MessageIndex | Reaches(pool, root, t, known) ensures t < |pool| {
      ReachesAvoids(pool, root, t, known);
      ReachesStays(pool, root, t, known, Universe(|pool|));
    }
  }

  lemma {:induction false} SafeNeverPanics(pool: Pool, root: MessageIndex, known: set<MessageIndex>)
    requires Linked(pool) && Safe(pool) && Closed(pool, known) && root < |pool|
    ensures !BuildCanPanic(pool, root, known)
  {
    var closure := Reachable(pool, root, known);
    ReachableIsClosure(pool, root, known);
    forall types: map<MessageIndex, TypeInfo>, t: MessageIndex | t in closure && TypesOf(pool, closure, types)
      ensures !CanPanic(pool, types, t)
    {
      MemberTypes(pool, closure, types, t);
      CanPanicExactly(pool, types, t);
      forall w: MessageIndex ensures !AsksInVain(pool, types, t, w) {
        if AsksInVain(pool, types, t, w) {
          AskedResolved(pool, root, known, closure, t, Wrapped(pool, w).value);
        }
      }
    }
  }

  lemma {:induction false} FirstNeverPanics(pool: Pool, root: MessageIndex)
    requires Linked(pool) && root < |pool|
    ensures !BuildCanPanic(pool, root, {})
  {
    var closure := Reachable(pool, root, {});
    ReachableIsClosure(pool, root, {});
    forall types: map<MessageIndex, TypeInfo>, t: MessageIndex | t in closure && TypesOf(pool, closure, types)
      ensures !CanPanic(pool, types, t)
    {
      NoPanicFromNothing(pool, root, closure, types, t);
    }
  }

  /** Everything that does not lead to `t`. */
  ghost function Apart(pool: Pool, t: MessageIndex): set<MessageIndex> {
    set s: MessageIndex | s in Universe(|pool|) && !Reaches(pool, s, t, {})
  }

  lemma {:induction false} ReachesFrom(pool: Pool, a: MessageIndex, b: MessageIndex, t: MessageIndex)
    requires Refers(pool, a, b) && Reaches(pool, b, t, {})
    ensures Reaches(pool, a, t, {})
  {
    var path :| Walk(pool, path, {}) && path[0] == b && path[|path| - 1] == t;
    var longer := [a] + path;
    forall i | 0 <= i < |longer| - 1 ensures Refers(pool, longer[i], longer[i + 1]) {
      assert i > 0 ==> longer[i] == path[i - 1];
      assert longer[i + 1] == path[i];
    }
    assert Walk(pool, longer, {});
  }

  lemma {:induction false} ApartClosed(pool: Pool, t: MessageIndex)
    requires Linked(pool)
    ensures Closed(pool, Apart(pool, t))
  {
    forall a: MessageIndex, b: MessageIndex | a in Apart(pool, t) && Refers(pool, a, b) ensures b in Apart(pool, t) {
      if Reaches(pool, b, t, {}) {
        ReachesFrom(pool, a, b, t);
      }
    }
  }

  /** Against the cache of all that does not lead to `t`, only what leads back to `t` is built. */
  lemma {:induction false} OnlyAlong(pool: Pool, t: MessageIndex, x: MessageIndex)
    requires Linked(pool) && t < |pool| && !BuiltAlong(pool, t, x)
    ensures !Wanted(pool, Reachable(pool, t, Apart(pool, t)), x)
  {
    var known := Apart(pool, t);
    ApartClosed(pool, t);
    forall c | c in Reachable(pool, t, known) ensures x !in Needed(pool, c) {
      ReachesAvoids(pool, t, c, known);
      PruningIsExact(pool, t, c, known);
      assert Mutual(pool, t, c);
    }
  }

  lemma {:induction false} SomeTypes(pool: Pool, closure: set<MessageIndex>)
    returns (types: map<MessageIndex, TypeInfo>)
    requires Linked(pool) && forall c :: c in closure ==> c < |pool|
    ensures TypesOf(pool, closure, types)
  {
    var info: TypeInfo := *;
    types := map i: MessageIndex | i in Universe(|pool|) && Wanted(pool, closure, i) :: info;
  }

  lemma {:induction false} MemberPanics(pool: Pool, closure: set<MessageIndex>, types: map<MessageIndex, TypeInfo>,
                                        t: MessageIndex, w: MessageIndex)
    requires Linked(pool) && (forall c :: c in closure ==> c < |pool|) && TypesOf(pool, closure, types) && t in closure
    requires MessageReadsThrough(pool, t, w) && Wrapped(pool, w).Some? && !Wanted(pool, closure, Wrapped(pool, w).value)
    ensures CanPanic(pool, types, t)
  {
    MemberTypes(pool, closure, types, t);
    AskingPanics(pool, types, t, w);
  }

  lemma {:induction false} UnsafePanics(pool: Pool, t: MessageIndex, w: MessageIndex)
    requires Linked(pool) && t < |pool| && MessageReadsThrough(pool, t, w) && Wrapped(pool, w).Some?
    requires !BuiltAlong(pool, t, Wrapped(pool, w).value)
    ensures Closed(pool, Apart(pool, t)) && t !in Apart(pool, t) && BuildCanPanic(pool, t, Apart(pool, t))
  {
    var known := Apart(pool, t);
    ApartClosed(pool, t);
    ReachesSelf(pool, t, {});
    ReachesSelf(pool, t, known);
    OnlyAlong(pool, t, Wrapped(pool, w).value);
    var closure := Reachable(pool, t, known);
    var types := SomeTypes(pool, closure);
    MemberPanics(pool, closure, types, t, w);
  }

  /**
   A pool is safe if and only if no build against any closed cache can panic.
   */
  lemma {:induction false} SafeExactly(pool: Pool)
    requires Linked(pool)
    ensures Safe(pool) <==> forall known, root: MessageIndex ::
              Closed(pool, known) && root < |pool| && root !in known ==> !BuildCanPanic(pool, root, known)
  {
    if Safe(pool) {
      forall known, root: MessageIndex | Closed(pool, known) && root < |pool|
        ensures !BuildCanPanic(pool, root, known)
      {
        SafeNeverPanics(pool, root, known);
      }
    } else {
      var t: MessageIndex, w: MessageIndex :|
        t < |pool| && MessageReadsThrough(pool, t, w) && Wrapped(pool, w).Some?
        && !BuiltAlong(pool, t, Wrapped(pool, w).value);
      UnsafePanics(pool, t, w);
    }
  }

  /** Wrappers that hold scalars make a pool safe. */
  lemma {:induction false} ScalarWrappersAreSafe(pool: Pool)
    requires Linked(pool) && WrappersHoldScalars(pool)
    ensures Safe(pool)
  {
    forall t: MessageIndex, w: MessageIndex | t < |pool| && MessageReadsThrough(pool, t, w)
      ensures Wrapped(pool, w).None?
    {
      MessageReadsWrapper(pool, t, w);
      ScalarWrapper(pool, w);
    }
  }

  // ------------------------------------------ a namesake of a wrapper that holds a message

  const WRAPPED := FieldDescriptor(1, "value", Singular(MessageOf(2)), Explicit, false, None)

  const NOT_A_WRAPPER := MessageDescriptor("google.protobuf.Int32Value", [WRAPPED], [], None)

  const INT32_RULED := FieldDescriptor(1, "f", Singular(MessageOf(0)), Explicit, false,
                                       Some(NO_RULES.(standard := Some(Leaf("int32", [])))))

  const RULED := MessageDescriptor("example.Ruled", [INT32_RULED], [], None)

  const ODD_POOL: Pool := [NOT_A_WRAPPER, RULED, MessageDescriptor("example.Value", [], [], None)]

  lemma {:induction false} OddExpected(pool: Pool)
    requires pool == ODD_POOL
    ensures ExpectedRules(pool, FieldTarget(RULED, INT32_RULED)) == Some("int32")
  {
    assert FullName(pool, 0) == "google.protobuf.Int32Value";
    assert WrapperRules("google.protobuf.Int32Value") == Some("int32");
  }

  lemma {:induction false} OddField(b: Builder)
    requires b.pool == ODD_POOL && 2 !in b.types
    ensures BuildField(b, RULED, INT32_RULED, INT32_RULED.rules.value) == Panicked(2)
  {
    assert FieldByNumber(NOT_A_WRAPPER.fields, 1) == Some(WRAPPED);
    OddExpected(b.pool);
  }

  lemma {:induction false} OddMessage(b: Builder)
    requires b.pool == ODD_POOL && 2 !in b.types
    ensures BuildMessage(b, 1) == Panicked(2)
  {
    OddField(b);
    assert EffectiveRules(INT32_RULED, {}) == INT32_RULED.rules.value;
    assert BuildFields(b, RULED, RULED.fields, {}) == Panicked(2);
    assert MessageOneofs(b, RULED, []) == Done(MessageLevel([], {}));
  }

  lemma {:induction false} OddRefers(pool: Pool)
    requires pool == ODD_POOL
    ensures |pool| == 3
    ensures forall a: MessageIndex, b: MessageIndex :: Refers(pool, a, b) <==> (a == 0 && b == 2) || (a == 1 && b == 0)
  {
    assert WRAPPED in pool[0].fields && MessageType(WRAPPED) == Some(2);
    assert INT32_RULED in pool[1].fields && MessageType(INT32_RULED) == Some(0);
  }

  lemma {:induction false} OddClosures(pool: Pool)
    requires forall a: MessageIndex, b: MessageIndex :: Refers(pool, a, b) <==> (a == 0 && b == 2) || (a == 1 && b == 0)
    ensures IsClosure(pool, 0, {}, {0, 2}) && IsClosure(pool, 1, {0, 2}, {1})
  {
    ReachesSelf(pool, 0, {});
    ReachesNext(pool, 0, 0, 2, {});
    ReachesSelf(pool, 1, {0, 2});
    forall t: MessageIndex | Reaches(pool, 0, t, {}) ensures t in {0, 2} {
      ReachesStays(pool, 0, t, {}, {0, 2});
    }
    forall t: MessageIndex | Reaches(pool, 1, t, {0, 2}) ensures t in {1} {
      ReachesStays(pool, 1, t, {0, 2}, {1});
    }
  }

  lemma {:induction false} OddTypes(pool: Pool, types: map<MessageIndex, TypeInfo>)
    requires forall a: MessageIndex, b: MessageIndex :: Refers(pool, a, b) <==> (a == 0 && b == 2) || (a == 1 && b == 0)
    requires |pool| == 3
    ensures Linked(pool) && (TypesOf(pool, {1}, types) ==> types.Keys == {0, 1})
  {
    assert Needed(pool, 1) == {0, 1};
    assert 1 in {1};
    assert forall i: MessageIndex :: Wanted(pool, {1}, i) <==> i in {0, 1};
  }

  /**
   A call for type 0 caches it and type 2. A call for type 1 then builds type 1 alone,
   whose rules refer to types 0 and 1, and panics for type 2. By `NoPanicFromNothing`
   the same call does not panic when it comes first.
   */
  lemma {:induction false} WrappersMatter(b: Builder)
    requires b.pool == ODD_POOL
    ensures Linked(b.pool) && IsClosure(b.pool, 0, {}, {0, 2}) && IsClosure(b.pool, 1, {0, 2}, {1})
    ensures TypesOf(b.pool, {1}, b.types) ==> b.types.Keys == {0, 1} && BuildMessage(b, 1) == Panicked(2)
  {
    OddRefers(b.pool);
    OddClosures(b.pool);
    OddTypes(b.pool, b.types);
    if TypesOf(b.pool, {1}, b.types) {
      OddMessage(b);
    }
  }
}
