/**
 What holds of a compiled message: the types it was built from suffice, what a
 field's nested type is, which oneof rules are refused, and which custom rule
 each rule path stands for.
 */
module RuleBuildLaws {
  import opened Wrappers
  import opened Descriptors
  import opened Elements
  import opened RuleBuild

  /** What makes a oneof rule an error: no field, one twice, or an unknown one. */
  ghost predicate BadOneof(message: MessageDescriptor, rule: MessageOneofRule) {
    || rule.fields == []
    || (exists i, k :: 0 <= i < k < |rule.fields| && rule.fields[i] == rule.fields[k])
    || (exists n :: n in rule.fields && FieldByName(message.fields, n).None?)
  }

  /** The well-known wrapper types hold a scalar in field 1. */
  ghost predicate WrappersHoldScalars(pool: Pool) {
    forall m :: m in pool && WrapperRules(m.fullName).Some? ==>
      forall f :: f in m.fields && f.number == 1 ==> MessageType(f).None?
  }

  // ---------------------------------------------- the types a build asks for

  /** The message type that a message holds in its field 1, as a wrapper holds its value. */
  function Wrapped(pool: Pool, w: MessageIndex): Option<MessageIndex> {
    if w >= |pool| then None else
    var f :- FieldByNumber(pool[w].fields, 1);
    MessageType(f)
  }

  /** The message type whose field 1 the standard rules of a target read instead of the value. */
  function ReadsThrough(pool: Pool, target: Target, rules: FieldRules): Option<MessageIndex> {
    if rules.standard.None? || !target.Value().MessageOf? then None
    else
      var standard, w := rules.standard.value, target.Value().message;
      if ExpectedRules(pool, target) != Some(RulesName(standard)) || Wrapped(pool, w).None? then None
      else if IsScalarRules(standard) then Some(w)
      else if UniqueMessages(target, standard) && WrapperRules(FullName(pool, w)).Some? then Some(w)
      else None
  }

  predicate UniqueMessages(target: Target, standard: RulesType) {
    standard.Repeated? && standard.unique == Some(true) && target.kind.ListOf? && target.kind.element.MessageOf?
  }

  /** Refused before any type is asked for: the wrong rules, or unique messages other than wrappers. */
  predicate Refused(pool: Pool, target: Target, rules: FieldRules) {
    rules.standard.Some? &&
    (|| ExpectedRules(pool, target) != Some(RulesName(rules.standard.value))
     || (UniqueMessages(target, rules.standard.value)
         && (target.Value().message >= |pool| || WrapperRules(FullName(pool, target.Value().message)).None?
             || FieldByNumber(pool[target.Value().message].fields, 1).None?)))
  }

  function ItemsOf(rules: FieldRules): Option<FieldRules> {
    if rules.standard.Some? && rules.standard.value.Repeated? then rules.standard.value.items else None
  }

  function KeysOf(rules: FieldRules): Option<FieldRules> {
    if rules.standard.Some? && rules.standard.value.Map? then rules.standard.value.keys else None
  }

  function ValuesOf(rules: FieldRules): Option<FieldRules> {
    if rules.standard.Some? && rules.standard.value.Map? then rules.standard.value.values else None
  }

  function ItemReadsThrough(pool: Pool, target: Target, rules: Option<FieldRules>): Option<MessageIndex> {
    if rules.Some? && rules.value.ignore != Some(Always) then ReadsThrough(pool, target, rules.value) else None
  }

  predicate ItemRefused(pool: Pool, target: Target, rules: Option<FieldRules>) {
    rules.Some? && rules.value.ignore != Some(Always) && Refused(pool, target, rules.value)
  }

  /** The message type that the rules of a field's items or map values read through. */
  function ShapeReadsThrough(pool: Pool, message: MessageDescriptor, field: FieldDescriptor, rules: FieldRules)
    : Option<MessageIndex>
  {
    match field.kind
    case Singular(_) => None
    case ListOf(element) =>
      ItemReadsThrough(pool, ItemTarget(element, FieldTarget(message, field).name), ItemsOf(rules))
    case MapOf(key, value) =>
      if ItemRefused(pool, ItemTarget(ScalarOf(key), EntryName(message, field, "key")), KeysOf(rules)) then None
      else ItemReadsThrough(pool, ItemTarget(value, EntryName(message, field, "value")), ValuesOf(rules))
  }

  /** A field's rules, or those of its items or values, read through messages of type `w`. */
  predicate FieldReadsThrough(pool: Pool, message: MessageDescriptor, field: FieldDescriptor, rules: FieldRules,
                              w: MessageIndex)
  {
    var target := FieldTarget(message, field);
    && rules.ignore != Some(Always)
    && (|| ReadsThrough(pool, target, rules) == Some(w)
        || (!Refused(pool, target, rules) && ShapeReadsThrough(pool, message, field, rules) == Some(w)))
  }

  /** The fields that a message's oneof rules name. */
  function OneofNames(rules: seq<MessageOneofRule>): set<string> {
    if rules == [] then {} else (set n | n in rules[0].fields) + OneofNames(rules[1..])
  }

  function OneofRules(message: MessageDescriptor): seq<MessageOneofRule> {
    message.rules.GetOr(MessageRules([], [], [])).oneofs
  }

  /** In a message without a bad oneof rule, the rules of some field read through messages of type `w`. */
  ghost predicate MessageReadsThrough(pool: Pool, idx: MessageIndex, w: MessageIndex)
    requires idx < |pool|
  {
    var message := pool[idx];
    && (forall r :: r in OneofRules(message) ==> !BadOneof(message, r))
    && exists f :: f in message.fields
         && FieldReadsThrough(pool, message, f, EffectiveRules(f, OneofNames(OneofRules(message))), w)
  }

  /** The types that compiling a message asks for. */
  ghost function Asked(pool: Pool, idx: MessageIndex): (s: set<MessageIndex>)
    requires Linked(pool) && idx < |pool|
    ensures Needed(pool, idx) <= s
    ensures forall x: MessageIndex :: x in s <==>
              x in Needed(pool, idx)
              || exists w: MessageIndex :: MessageReadsThrough(pool, idx, w) && Wrapped(pool, w) == Some(x)
  {
    forall x: MessageIndex, w: MessageIndex | Wrapped(pool, w) == Some(x) ensures x < |pool| {
      WrappedInPool(pool, w);
    }
    Needed(pool, idx) +
    set x: MessageIndex | 0 <= x < |pool| && AskedThrough(pool, idx, x)
  }

  ghost predicate AskedThrough(pool: Pool, idx: MessageIndex, x: MessageIndex)
    requires idx < |pool|
  {
    exists w: MessageIndex :: MessageReadsThrough(pool, idx, w) && Wrapped(pool, w) == Some(x)
  }

  lemma {:induction false} WrappedInPool(pool: Pool, w: MessageIndex)
    requires Linked(pool) && Wrapped(pool, w).Some?
    ensures w < |pool| && Refers(pool, w, Wrapped(pool, w).value) && Wrapped(pool, w).value < |pool|
  {
    var f := FieldByNumber(pool[w].fields, 1).value;
    assert f in pool[w].fields && MessageType(f) == Wrapped(pool, w);
    assert Refers(pool, w, Wrapped(pool, w).value);
  }

  /** Rules read only through wrapper types that a field of the message holds. */
  lemma {:induction false} ReadsThroughWrapper(pool: Pool, target: Target, rules: FieldRules)
    requires ReadsThrough(pool, target, rules).Some?
    ensures var w := ReadsThrough(pool, target, rules).value;
            target.Value() == MessageOf(w) && w < |pool| && Wrapped(pool, w).Some?
            && WrapperRules(pool[w].fullName).Some?
  {
    var standard, w := rules.standard.value, target.Value().message;
    if IsScalarRules(standard) {
      assert target.kind.Singular?;
      assert WellKnownRules(FullName(pool, w)) == Some(RulesName(standard));
    }
  }

  lemma {:induction false} MessageReadsWrapper(pool: Pool, idx: MessageIndex, w: MessageIndex)
    requires idx < |pool| && MessageReadsThrough(pool, idx, w)
    ensures Refers(pool, idx, w) && w < |pool| && Wrapped(pool, w).Some? && WrapperRules(pool[w].fullName).Some?
  {
    var message := pool[idx];
    var f :| f in message.fields
             && FieldReadsThrough(pool, message, f, EffectiveRules(f, OneofNames(OneofRules(message))), w);
    FieldReadsWrapper(pool, message, f, EffectiveRules(f, OneofNames(OneofRules(message))), w);
  }

  lemma {:induction false} FieldReadsWrapper(pool: Pool, message: MessageDescriptor, field: FieldDescriptor,
                                             rules: FieldRules, w: MessageIndex)
    requires FieldReadsThrough(pool, message, field, rules, w)
    ensures MessageType(field) == Some(w) && w < |pool| && Wrapped(pool, w).Some?
    ensures WrapperRules(pool[w].fullName).Some?
  {
    var target := FieldTarget(message, field);
    if ReadsThrough(pool, target, rules) == Some(w) {
      ReadsThroughWrapper(pool, target, rules);
    } else {
      match field.kind
      case ListOf(element) => ReadsThroughWrapper(pool, ItemTarget(element, target.name), ItemsOf(rules).value);
      case MapOf(_, value) =>
        ReadsThroughWrapper(pool, ItemTarget(value, EntryName(message, field, "value")), ValuesOf(rules).value);
    }
  }

  lemma {:induction false} ScalarWrapper(pool: Pool, w: MessageIndex)
    requires WrappersHoldScalars(pool) && w < |pool| && WrapperRules(pool[w].fullName).Some?
    ensures Wrapped(pool, w).None?
  {
    assert pool[w] in pool;
  }

  /** When wrappers hold scalars a build asks only for the types it refers to. */
  lemma {:induction false} ScalarWrappersAskNothing(pool: Pool, idx: MessageIndex)
    requires Linked(pool) && idx < |pool| && WrappersHoldScalars(pool)
    ensures Asked(pool, idx) == Needed(pool, idx)
  {
    forall w: MessageIndex ensures !MessageReadsThrough(pool, idx, w) {
      if MessageReadsThrough(pool, idx, w) {
        MessageReadsWrapper(pool, idx, w);
        ScalarWrapper(pool, w);
      }
    }
  }

  // ------------------------------------------------------- more types, same build

  /** Two builders alike but for the types that only the second has. */
  ghost predicate MoreTypes(a: Builder, b: Builder) {
    && a.pool == b.pool && a.compile == b.compile && a.native == b.native
    && forall i :: i in a.types ==> i in b.types && b.types[i] == a.types[i]
  }

  lemma {:induction false} CulpritSame(a: Builder, b: Builder, bound: Option<Bound>, rules: seq<CelRule>)
    requires a.compile == b.compile
    ensures Culprit(a, bound, rules) == Culprit(b, bound, rules)
  {
    if rules != [] {
      CulpritSame(a, b, bound, rules[1..]);
    }
  }

  lemma {:induction false} CompileSame(a: Builder, b: Builder, expressions: CelExpressions)
    requires a.compile == b.compile
    ensures Compile(a, expressions) == Compile(b, expressions)
    ensures !Compile(a, expressions).Panicked?
  {
    CulpritSame(a, b, expressions.bound, expressions.rules);
  }

  lemma {:induction false} StandardSame(a: Builder, b: Builder, target: Target, standard: RulesType,
                                        prefix: seq<Element>)
    requires MoreTypes(a, b) && !StandardRules(a, target, standard, prefix).Panicked?
    ensures StandardRules(a, target, standard, prefix) == StandardRules(b, target, standard, prefix)
  {
    if ExpectedRules(a.pool, target) == Some(RulesName(standard)) {
      assert WrapperField(a, target, standard) == WrapperField(b, target, standard);
    }
  }

  lemma {:induction false} ValueSame(a: Builder, b: Builder, target: Target, rules: FieldRules, prefix: seq<Element>)
    requires MoreTypes(a, b) && !BuildValue(a, target, rules, prefix).Panicked?
    ensures BuildValue(a, target, rules, prefix) == BuildValue(b, target, rules, prefix)
  {
    var custom := CustomRules(rules.celExpression, rules.cel, true, prefix);
    CompileSame(a, b, custom);
    if rules.standard.Some? && Compile(a, custom).Done? {
      StandardSame(a, b, target, rules.standard.value, prefix);
      var s := StandardRules(a, target, rules.standard.value, prefix);
      if s.Done? {
        CompileSame(a, b, CelExpressions(s.value.native.predefined, Some(s.value.native.bound)));
      }
    }
  }

  lemma {:induction false} ItemSame(a: Builder, b: Builder, target: Target, rules: Option<FieldRules>,
                                    prefix: seq<Element>)
    requires MoreTypes(a, b) && !BuildItem(a, target, rules, prefix).Panicked?
    ensures BuildItem(a, target, rules, prefix) == BuildItem(b, target, rules, prefix)
  {
    if rules.Some? && rules.value.ignore != Some(Always) {
      ValueSame(a, b, target, rules.value, prefix);
    }
  }

  lemma {:induction false} ShapeSame(a: Builder, b: Builder, message: MessageDescriptor, field: FieldDescriptor,
                                     remaining: Option<RulesType>)
    requires MoreTypes(a, b) && !BuildShape(a, message, field, remaining).Panicked?
    ensures BuildShape(a, message, field, remaining) == BuildShape(b, message, field, remaining)
  {
    match field.kind
    case Singular(_) =>
    case ListOf(element) =>
      ItemSame(a, b, ItemTarget(element, FieldTarget(message, field).name),
               if remaining.Some? && remaining.value.Repeated? then remaining.value.items else None,
               [REPEATED, REPEATED_ITEMS]);
    case MapOf(key, value) =>
      var map' := remaining.Some? && remaining.value.Map?;
      var keyTarget, keyRules := ItemTarget(ScalarOf(key), EntryName(message, field, "key")),
                                 if map' then remaining.value.keys else None;
      ItemSame(a, b, keyTarget, keyRules, [MAP, MAP_KEYS]);
      if BuildItem(a, keyTarget, keyRules, [MAP, MAP_KEYS]).Done? {
        ItemSame(a, b, ItemTarget(value, EntryName(message, field, "value")),
                 if map' then remaining.value.values else None, [MAP, MAP_VALUES]);
      }
  }

  lemma {:induction false} FieldSame(a: Builder, b: Builder, message: MessageDescriptor, field: FieldDescriptor,
                                     rules: FieldRules)
    requires MoreTypes(a, b) && !BuildField(a, message, field, rules).Panicked?
    ensures BuildField(a, message, field, rules) == BuildField(b, message, field, rules)
  {
    if rules.ignore != Some(Always) {
      ValueSame(a, b, FieldTarget(message, field), rules, []);
      var v := BuildValue(a, FieldTarget(message, field), rules, []);
      if v.Done? {
        ShapeSame(a, b, message, field, v.value.1);
      }
    }
  }

  lemma {:induction false} FieldsSame(a: Builder, b: Builder, message: MessageDescriptor, fields: seq<FieldDescriptor>,
                                      members: set<string>)
    requires MoreTypes(a, b) && !BuildFields(a, message, fields, members).Panicked?
    ensures BuildFields(a, message, fields, members) == BuildFields(b, message, fields, members)
  {
    if fields != [] {
      FieldsSame(a, b, message, fields[1..], members);
      if fields[0].rules.Some? || MessageType(fields[0]).Some? {
        FieldSame(a, b, message, fields[0], EffectiveRules(fields[0], members));
      }
    }
  }

  lemma {:induction false} MembersSame(a: Builder, b: Builder, message: MessageDescriptor, names: seq<string>,
                                       seen: set<string>)
    requires MoreTypes(a, b) && !OneofMembers(a, message, names, seen).Panicked?
    ensures OneofMembers(a, message, names, seen) == OneofMembers(b, message, names, seen)
  {
    if names != [] && names[0] !in seen && FieldByName(message.fields, names[0]).Some? {
      MembersSame(a, b, message, names[1..], seen + {names[0]});
    }
  }

  lemma {:induction false} OneofsSame(a: Builder, b: Builder, message: MessageDescriptor, rules: seq<MessageOneofRule>)
    requires MoreTypes(a, b) && !MessageOneofs(a, message, rules).Panicked?
    ensures MessageOneofs(a, message, rules) == MessageOneofs(b, message, rules)
  {
    if rules != [] {
      if rules[0].fields != [] {
        MembersSame(a, b, message, rules[0].fields, {});
      }
      if OneOneof(a, message, rules[0]).Done? {
        OneofsSame(a, b, message, rules[1..]);
      }
    }
  }

  lemma {:induction false} DescribeAllSame(a: Builder, b: Builder, fields: seq<FieldDescriptor>)
    requires MoreTypes(a, b) && !a.DescribeAll(fields).Panicked?
    ensures a.DescribeAll(fields) == b.DescribeAll(fields)
  {
    if fields != [] {
      DescribeAllSame(a, b, fields[1..]);
    }
  }

  lemma {:induction false} RequiredSame(a: Builder, b: Builder, message: MessageDescriptor,
                                        oneofs: seq<OneofDescriptor>)
    requires MoreTypes(a, b) && !RequiredOneofs(a, message, oneofs).Panicked?
    ensures RequiredOneofs(a, message, oneofs) == RequiredOneofs(b, message, oneofs)
  {
    if oneofs != [] {
      var members := Members(message, oneofs[0].fieldIndices);
      if oneofs[0].required {
        DescribeAllSame(a, b, members);
      }
      if !oneofs[0].required || a.DescribeAll(members).Done? {
        RequiredSame(a, b, message, oneofs[1..]);
      }
    }
  }

  /** A build that does not panic is the same with more types resolved. */
  lemma {:induction false} MoreTypesSame(a: Builder, b: Builder, idx: MessageIndex)
    requires MoreTypes(a, b) && idx < |a.pool| && !BuildMessage(a, idx).Panicked?
    ensures BuildMessage(a, idx) == BuildMessage(b, idx)
  {
    var message := a.pool[idx];
    var rules := message.rules.GetOr(MessageRules([], [], []));
    OneofsSame(a, b, message, rules.oneofs);
    var level := MessageOneofs(a, message, rules.oneofs);
    var custom := CustomRules(rules.celExpression, rules.cel, false, []);
    CompileSame(a, b, custom);
    if level.Done? && Compile(a, custom).Done? {
      FieldsSame(a, b, message, message.fields, level.value.members);
      if BuildFields(a, message, message.fields, level.value.members).Done? {
        RequiredSame(a, b, message, message.oneofs);
      }
    }
  }

  // ------------------------------------------------------- no missing type

  /** The types of a message's fields are among `needed`. */
  ghost predicate Covers(message: MessageDescriptor, needed: set<MessageIndex>) {
    forall f :: f in message.fields && MessageType(f).Some? ==> MessageType(f).value in needed
  }

  /** What a value's rules read through is among `needed`. */
  ghost predicate ReadsIn(pool: Pool, through: Option<MessageIndex>, needed: set<MessageIndex>) {
    through.Some? && Wrapped(pool, through.value).Some? ==> Wrapped(pool, through.value).value in needed
  }

  lemma {:induction false} CompileCompletes(b: Builder, expressions: CelExpressions)
    ensures !Compile(b, expressions).Panicked?
  {
  }

  lemma {:induction false} WrapperResolved(b: Builder, target: Target, rules: FieldRules)
    requires rules.standard.Some? && ReadsIn(b.pool, ReadsThrough(b.pool, target, rules), b.types.Keys)
    requires ExpectedRules(b.pool, target) == Some(RulesName(rules.standard.value))
    ensures !WrapperField(b, target, rules.standard.value).Panicked?
  {
    if target.Value().MessageOf? && target.Value().message < |b.pool| {
      var w := target.Value().message;
      assert FullName(b.pool, w) == b.pool[w].fullName;
    }
  }

  lemma {:induction false} ValueResolved(b: Builder, target: Target, rules: FieldRules, prefix: seq<Element>)
    requires ReadsIn(b.pool, ReadsThrough(b.pool, target, rules), b.types.Keys)
    ensures !BuildValue(b, target, rules, prefix).Panicked?
  {
    if rules.standard.Some? && ExpectedRules(b.pool, target) == Some(RulesName(rules.standard.value)) {
      WrapperResolved(b, target, rules);
    }
  }

  lemma {:induction false} ItemResolved(b: Builder, target: Target, rules: Option<FieldRules>, prefix: seq<Element>)
    requires ReadsIn(b.pool, ItemReadsThrough(b.pool, target, rules), b.types.Keys)
    ensures !BuildItem(b, target, rules, prefix).Panicked?
  {
    if rules.Some? && rules.value.ignore != Some(Always) {
      ValueResolved(b, target, rules.value, prefix);
    }
  }

  lemma {:induction false} MapResolved(b: Builder, message: MessageDescriptor, field: FieldDescriptor,
                                       rules: FieldRules, remaining: Option<RulesType>)
    requires ReadsIn(b.pool, ShapeReadsThrough(b.pool, message, field, rules), b.types.Keys)
    requires remaining == (if rules.standard.None? then None else Some(Remaining(rules.standard.value)))
    requires field.kind.MapOf?
    ensures !BuildShape(b, message, field, remaining).Panicked?
  {
    var keyTarget := ItemTarget(ScalarOf(field.kind.key), EntryName(message, field, "key"));
    ItemResolved(b, keyTarget, KeysOf(rules), [MAP, MAP_KEYS]);
    if ItemRefused(b.pool, keyTarget, KeysOf(rules)) {
      RefusedItemStops(b, keyTarget, KeysOf(rules), [MAP, MAP_KEYS]);
    } else {
      ItemResolved(b, ItemTarget(field.kind.value, EntryName(message, field, "value")), ValuesOf(rules),
                   [MAP, MAP_VALUES]);
    }
  }

  lemma {:induction false} ShapeResolved(b: Builder, message: MessageDescriptor, field: FieldDescriptor,
                                         rules: FieldRules, remaining: Option<RulesType>)
    requires ReadsIn(b.pool, ShapeReadsThrough(b.pool, message, field, rules), b.types.Keys)
    requires remaining == (if rules.standard.None? then None else Some(Remaining(rules.standard.value)))
    ensures !BuildShape(b, message, field, remaining).Panicked?
  {
    match field.kind
    case Singular(_) =>
    case ListOf(element) =>
      ItemResolved(b, ItemTarget(element, FieldTarget(message, field).name), ItemsOf(rules),
                   [REPEATED, REPEATED_ITEMS]);
    case MapOf(_, _) => MapResolved(b, message, field, rules, remaining);
  }

  /** Rules that are refused fail whatever else is given. */
  lemma {:induction false} RefusedStops(b: Builder, target: Target, rules: FieldRules, prefix: seq<Element>)
    requires Refused(b.pool, target, rules)
    ensures BuildValue(b, target, rules, prefix).Failed?
  {
  }

  lemma {:induction false} RefusedItemStops(b: Builder, target: Target, rules: Option<FieldRules>, prefix: seq<Element>)
    requires ItemRefused(b.pool, target, rules)
    ensures BuildItem(b, target, rules, prefix).Failed?
  {
    RefusedStops(b, target, rules.value, prefix);
  }

  lemma {:induction false} ValueRemains(b: Builder, target: Target, rules: FieldRules, prefix: seq<Element>)
    requires BuildValue(b, target, rules, prefix).Done?
    ensures BuildValue(b, target, rules, prefix).value.1
         == if rules.standard.None? then None else Some(Remaining(rules.standard.value))
  {
  }

  lemma {:induction false} FieldResolved(b: Builder, message: MessageDescriptor, field: FieldDescriptor,
                                         rules: FieldRules)
    requires field in message.fields && Covers(message, b.types.Keys)
    requires forall w: MessageIndex ::
               FieldReadsThrough(b.pool, message, field, rules, w) ==> ReadsIn(b.pool, Some(w), b.types.Keys)
    ensures !BuildField(b, message, field, rules).Panicked?
  {
    var target := FieldTarget(message, field);
    if rules.ignore != Some(Always) {
      ValueResolved(b, target, rules, []);
      var v := BuildValue(b, target, rules, []);
      if Refused(b.pool, target, rules) {
        RefusedStops(b, target, rules, []);
      } else if v.Done? {
        ValueRemains(b, target, rules, []);
        ShapeResolved(b, message, field, rules, v.value.1);
      }
    }
  }

  lemma {:induction false} FieldsResolved(b: Builder, message: MessageDescriptor, fields: seq<FieldDescriptor>,
                                          members: set<string>)
    requires Covers(message, b.types.Keys) && forall f :: f in fields ==> f in message.fields
    requires forall f, w: MessageIndex ::
               f in fields && FieldReadsThrough(b.pool, message, f, EffectiveRules(f, members), w)
               ==> ReadsIn(b.pool, Some(w), b.types.Keys)
    ensures !BuildFields(b, message, fields, members).Panicked?
  {
    if fields != [] {
      FieldResolved(b, message, fields[0], EffectiveRules(fields[0], members));
      FieldsResolved(b, message, fields[1..], members);
    }
  }

  lemma {:induction false} MembersResolved(b: Builder, message: MessageDescriptor, names: seq<string>,
                                           seen: set<string>)
    requires Covers(message, b.types.Keys)
    ensures !OneofMembers(b, message, names, seen).Panicked?
  {
    if names != [] {
      MembersResolved(b, message, names[1..], seen + {names[0]});
    }
  }

  lemma {:induction false} OneofsResolved(b: Builder, message: MessageDescriptor, rules: seq<MessageOneofRule>)
    requires Covers(message, b.types.Keys)
    ensures !MessageOneofs(b, message, rules).Panicked?
  {
    if rules != [] {
      MembersResolved(b, message, rules[0].fields, {});
      OneofsResolved(b, message, rules[1..]);
    }
  }

  lemma {:induction false} DescribeAllResolved(b: Builder, message: MessageDescriptor, fields: seq<FieldDescriptor>)
    requires Covers(message, b.types.Keys) && forall f :: f in fields ==> f in message.fields
    ensures b.DescribeAll(fields).Done?
  {
    if fields != [] {
      assert fields[0] in message.fields;
      DescribeAllResolved(b, message, fields[1..]);
    }
  }

  lemma {:induction false} RequiredResolved(b: Builder, message: MessageDescriptor, oneofs: seq<OneofDescriptor>)
    requires Covers(message, b.types.Keys)
    ensures RequiredOneofs(b, message, oneofs).Done?
  {
    if oneofs != [] {
      DescribeAllResolved(b, message, Members(message, oneofs[0].fieldIndices));
      RequiredResolved(b, message, oneofs[1..]);
    }
  }

  lemma {:induction false} NeededCovers(pool: Pool, idx: MessageIndex, types: set<MessageIndex>)
    requires Linked(pool) && idx < |pool| && Needed(pool, idx) <= types
    ensures Covers(pool[idx], types)
  {
    forall f | f in pool[idx].fields && MessageType(f).Some? ensures MessageType(f).value in types {
      assert Refers(pool, idx, MessageType(f).value);
    }
  }

  /** With the types it asks for resolved, the build of a message does not panic. */
  lemma {:induction false} AskedSuffices(b: Builder, idx: MessageIndex)
    requires Linked(b.pool) && idx < |b.pool| && Asked(b.pool, idx) <= b.types.Keys
    ensures !BuildMessage(b, idx).Panicked?
  {
    var message := b.pool[idx];
    NeededCovers(b.pool, idx, b.types.Keys);
    var rules := message.rules.GetOr(MessageRules([], [], []));
    OneofsResolved(b, message, rules.oneofs);
    CompileCompletes(b, CustomRules(rules.celExpression, rules.cel, false, []));
    var level := MessageOneofs(b, message, rules.oneofs);
    if level.Done? {
      MembersAreNames(b, message, rules.oneofs);
      ReadsAsked(b.pool, idx);
      FieldsResolved(b, message, message.fields, level.value.members);
    }
    RequiredResolved(b, message, message.oneofs);
  }

  /** Two builders that differ only in types other than `needed`. */
  ghost predicate Agree(a: Builder, b: Builder, needed: set<MessageIndex>) {
    && a.pool == b.pool && a.compile == b.compile && a.native == b.native
    && needed <= a.types.Keys && needed <= b.types.Keys
    && forall i :: i in needed ==> a.types[i] == b.types[i]
  }

  /** A message is built from the types it asks for alone: no other makes a difference. */
  lemma {:induction false} NeededSuffices(a: Builder, b: Builder, idx: MessageIndex)
    requires Linked(a.pool) && idx < |a.pool| && Agree(a, b, Asked(a.pool, idx))
    ensures BuildMessage(a, idx) == BuildMessage(b, idx)
    ensures !BuildMessage(a, idx).Panicked?
  {
    var least := a.(types := map i | i in Asked(a.pool, idx) :: a.types[i]);
    AskedSuffices(least, idx);
    MoreTypesSame(least, a, idx);
    MoreTypesSame(least, b, idx);
  }

  /** Compiled oneof rules are not bad, and their members are the names in them. */
  lemma {:induction false} MembersAreNames(b: Builder, message: MessageDescriptor, rules: seq<MessageOneofRule>)
    requires MessageOneofs(b, message, rules).Done?
    ensures forall r :: r in rules ==> !BadOneof(message, r)
    ensures MessageOneofs(b, message, rules).value.members == OneofNames(rules)
  {
    OneofsFail(b, message, rules);
    if rules != [] {
      OneofsCons(b, message, rules);
      MembersAreNames(b, message, rules[1..]);
    }
  }

  lemma {:induction false} ReadsAsked(pool: Pool, idx: MessageIndex)
    requires Linked(pool) && idx < |pool|
    requires forall r :: r in OneofRules(pool[idx]) ==> !BadOneof(pool[idx], r)
    ensures forall f, w: MessageIndex :: f in pool[idx].fields
              && FieldReadsThrough(pool, pool[idx], f, EffectiveRules(f, OneofNames(OneofRules(pool[idx]))), w)
              ==> ReadsIn(pool, Some(w), Asked(pool, idx))
  {
    forall f, w: MessageIndex | f in pool[idx].fields
              && FieldReadsThrough(pool, pool[idx], f, EffectiveRules(f, OneofNames(OneofRules(pool[idx]))), w)
      ensures ReadsIn(pool, Some(w), Asked(pool, idx))
    {
      assert MessageReadsThrough(pool, idx, w);
    }
  }

  // ------------------------------------------------------------ nested types

  /** The rules of a container's messages say to always ignore them. */
  predicate ItemsIgnored(field: FieldDescriptor, rules: FieldRules) {
    match rules.standard
    case Some(Repeated(_, _, _, Some(items))) => field.kind.ListOf? && items.ignore == Some(Always)
    case Some(Map(_, _, _, Some(values))) => field.kind.MapOf? && values.ignore == Some(Always)
    case _ => false
  }

  lemma {:induction false} ItemNested(b: Builder, target: Target, rules: Option<FieldRules>, prefix: seq<Element>)
    requires BuildItem(b, target, rules, prefix).Done?
    ensures var item := BuildItem(b, target, rules, prefix).value;
            (if item.None? then None else item.value.value.nested)
            == if rules.Some? && rules.value.ignore == Some(Always) then None else target.Nested()
  {
  }

  /** What a field that is not ignored is built from. */
  lemma {:induction false} FieldParts(b: Builder, message: MessageDescriptor, field: FieldDescriptor, rules: FieldRules)
    returns (remaining: Option<RulesType>)
    requires BuildField(b, message, field, rules).Done? && rules.ignore != Some(Always)
    ensures BuildField(b, message, field, rules).value.Some?
    ensures var compiled := BuildField(b, message, field, rules).value.value;
            && compiled.value.nested == FieldTarget(message, field).Nested()
            && BuildShape(b, message, field, remaining) == Done(compiled.shape)
    ensures remaining == if rules.standard.None? then None else Some(Remaining(rules.standard.value))
    ensures rules.standard.Some? ==>
            ExpectedRules(b.pool, FieldTarget(message, field)) == Some(RulesName(rules.standard.value))
  {
    remaining := BuildValue(b, FieldTarget(message, field), rules, []).value.1;
  }

  lemma {:induction false} ListNested(b: Builder, message: MessageDescriptor, field: FieldDescriptor, rules: FieldRules,
                                      remaining: Option<RulesType>)
    requires field.kind.ListOf? && BuildShape(b, message, field, remaining).Done?
    requires remaining == if rules.standard.None? then None else Some(Remaining(rules.standard.value))
    requires rules.standard.Some? ==> RulesName(rules.standard.value) == "repeated"
    ensures ShapeNested(BuildShape(b, message, field, remaining).value)
         == if ItemsIgnored(field, rules) then None else MessageType(field)
  {
    var items := if remaining.Some? && remaining.value.Repeated? then remaining.value.items else None;
    ItemNested(b, ItemTarget(field.kind.element, FieldTarget(message, field).name), items, [REPEATED, REPEATED_ITEMS]);
  }

  lemma {:induction false} MapNested(b: Builder, message: MessageDescriptor, field: FieldDescriptor, rules: FieldRules,
                                     remaining: Option<RulesType>)
    requires field.kind.MapOf? && BuildShape(b, message, field, remaining).Done?
    requires remaining == if rules.standard.None? then None else Some(Remaining(rules.standard.value))
    requires rules.standard.Some? ==> RulesName(rules.standard.value) == "map"
    ensures ShapeNested(BuildShape(b, message, field, remaining).value)
         == if ItemsIgnored(field, rules) then None else MessageType(field)
  {
    var values := if remaining.Some? && remaining.value.Map? then remaining.value.values else None;
    ItemNested(b, ItemTarget(field.kind.value, EntryName(message, field, "value")), values, [MAP, MAP_VALUES]);
  }

  /**
   A compiled field's nested type is its descriptor's message type, singular, list
   item or map value, unless its items are ignored. An ignored field has no
   validator at all.
   */
  lemma {:induction false} NestedTypeExact(b: Builder, message: MessageDescriptor, field: FieldDescriptor,
                                           rules: FieldRules)
    requires BuildField(b, message, field, rules).Done?
    ensures BuildField(b, message, field, rules).value.None? <==> rules.ignore == Some(Always)
    ensures BuildField(b, message, field, rules).value.Some? ==>
              NestedType(BuildField(b, message, field, rules).value.value)
              == if ItemsIgnored(field, rules) then None else MessageType(field)
  {
    if rules.ignore != Some(Always) {
      var remaining := FieldParts(b, message, field, rules);
      match field.kind
      case Singular(_) =>
      case ListOf(_) => ListNested(b, message, field, rules, remaining);
      case MapOf(_, _) => MapNested(b, message, field, rules, remaining);
    }
  }

  /** Every compiled field comes from one of the message's own. */
  lemma {:induction false} FieldOrigin(b: Builder, message: MessageDescriptor, fields: seq<FieldDescriptor>,
                                       members: set<string>, p: nat)
    requires BuildFields(b, message, fields, members).Done?
    requires p < |BuildFields(b, message, fields, members).value|
    requires BuildFields(b, message, fields, members).value[p].Ok?
    ensures exists f :: f in fields &&
              BuildField(b, message, f, EffectiveRules(f, members))
              == Done(Some(BuildFields(b, message, fields, members).value[p].value))
  {
    var all := BuildFields(b, message, fields, members).value;
    var skipped := (fields[0].rules.None? && MessageType(fields[0]).None?)
                   || BuildField(b, message, fields[0], EffectiveRules(fields[0], members)) == Done(None);
    if skipped {
      FieldOrigin(b, message, fields[1..], members, p);
    } else if p > 0 {
      assert all[1..][p - 1] == all[p];
      FieldOrigin(b, message, fields[1..], members, p - 1);
    } else {
      assert fields[0] in fields;
    }
  }

  /** A message's fields are built with the members that its oneof rules name. */
  lemma {:induction false} MessageFields(b: Builder, idx: MessageIndex) returns (members: set<string>)
    requires idx < |b.pool| && BuildMessage(b, idx).Done?
    ensures BuildFields(b, b.pool[idx], b.pool[idx].fields, members) == Done(BuildMessage(b, idx).value.fields)
  {
    members := MessageOneofs(b, b.pool[idx], b.pool[idx].rules.GetOr(MessageRules([], [], [])).oneofs).value.members;
  }

  /** So the nested types of a message's fields are types its fields refer to. */
  lemma {:induction false} NestedRefers(b: Builder, idx: MessageIndex, p: nat)
    requires idx < |b.pool| && BuildMessage(b, idx).Done?
    requires p < |BuildMessage(b, idx).value.fields| && BuildMessage(b, idx).value.fields[p].Ok?
    requires NestedType(BuildMessage(b, idx).value.fields[p].value).Some?
    ensures Refers(b.pool, idx, NestedType(BuildMessage(b, idx).value.fields[p].value).value)
  {
    var message := b.pool[idx];
    var members := MessageFields(b, idx);
    FieldOrigin(b, message, message.fields, members, p);
    var f :| f in message.fields &&
             BuildField(b, message, f, EffectiveRules(f, members))
             == Done(Some(BuildFields(b, message, message.fields, members).value[p].value));
    NestedTypeExact(b, message, f, EffectiveRules(f, members));
  }

  // ------------------------------------------------------------- oneof rules

  /** The members fail when one is repeated, was seen before, or is unknown. */
  ghost predicate BadMembers(message: MessageDescriptor, names: seq<string>, seen: set<string>) {
    || (exists i, k :: 0 <= i < k < |names| && names[i] == names[k])
    || (exists n :: n in names && (n in seen || FieldByName(message.fields, n).None?))
  }

  lemma {:induction false} TailBad(message: MessageDescriptor, names: seq<string>, seen: set<string>)
    requires names != [] && BadMembers(message, names[1..], seen + {names[0]})
    ensures BadMembers(message, names, seen)
  {
    var rest, more := names[1..], seen + {names[0]};
    if i, k :| 0 <= i < k < |rest| && rest[i] == rest[k] {
      assert names[i + 1] == names[k + 1];
    } else {
      var n :| n in rest && (n in more || FieldByName(message.fields, n).None?);
      var k :| 0 <= k < |rest| && rest[k] == n;
      assert names[k + 1] == n;
    }
  }

  lemma {:induction false} BadTail(message: MessageDescriptor, names: seq<string>, seen: set<string>)
    requires names != [] && names[0] !in seen && FieldByName(message.fields, names[0]).Some?
    requires BadMembers(message, names, seen)
    ensures BadMembers(message, names[1..], seen + {names[0]})
  {
    var rest := names[1..];
    if i, k :| 0 <= i < k < |names| && names[i] == names[k] {
      assert rest[k - 1] == names[k];
      assert i > 0 ==> rest[i - 1] == names[i];
    } else {
      var n :| n in names && (n in seen || FieldByName(message.fields, n).None?);
      assert names == [names[0]] + rest;
      assert n in rest;
    }
  }

  lemma {:induction false} MembersFail(b: Builder, message: MessageDescriptor, names: seq<string>, seen: set<string>)
    requires !OneofMembers(b, message, names, seen).Panicked?
    ensures OneofMembers(b, message, names, seen).Failed? <==> BadMembers(message, names, seen)
    ensures OneofMembers(b, message, names, seen).Done? ==>
              && |OneofMembers(b, message, names, seen).value| == |names|
              && forall i :: 0 <= i < |names| ==> OneofMembers(b, message, names, seen).value[i].name == names[i]
  {
    if names != [] {
      if names[0] in seen || FieldByName(message.fields, names[0]).None? {
        assert names[0] in names;
      } else {
        if BadMembers(message, names, seen) {
          BadTail(message, names, seen);
        }
        if BadMembers(message, names[1..], seen + {names[0]}) {
          TailBad(message, names, seen);
        }
        MembersFail(b, message, names[1..], seen + {names[0]});
      }
    }
  }

  /** The rules fail exactly when one of them is bad. */
  lemma {:induction false} OneofsFail(b: Builder, message: MessageDescriptor, rules: seq<MessageOneofRule>)
    requires !MessageOneofs(b, message, rules).Panicked?
    ensures MessageOneofs(b, message, rules).Failed? <==> exists r :: r in rules && BadOneof(message, r)
  {
    if rules != [] {
      assert rules == [rules[0]] + rules[1..];
      OneOneofFails(b, message, rules[0]);
      if OneOneof(b, message, rules[0]).Done? {
        OneofsFail(b, message, rules[1..]);
      } else {
        assert rules[0] in rules;
      }
    }
  }

  lemma {:induction false} OneofsCons(b: Builder, message: MessageDescriptor, rules: seq<MessageOneofRule>)
    requires rules != [] && MessageOneofs(b, message, rules).Done?
    ensures OneOneof(b, message, rules[0]).Done? && MessageOneofs(b, message, rules[1..]).Done?
    ensures var level, first := MessageOneofs(b, message, rules).value, OneOneof(b, message, rules[0]).value;
            && level.oneofs == [first.0] + MessageOneofs(b, message, rules[1..]).value.oneofs
            && level.members == first.1 + MessageOneofs(b, message, rules[1..]).value.members
  {
  }

  /** Compiled, they name their fields in order. */
  lemma {:induction false} OneofsMatch(b: Builder, message: MessageDescriptor, rules: seq<MessageOneofRule>)
    requires MessageOneofs(b, message, rules).Done?
    ensures var oneofs := MessageOneofs(b, message, rules).value.oneofs;
            |oneofs| == |rules| && forall i :: 0 <= i < |rules| ==> MatchesRule(oneofs[i], rules[i])
  {
    if rules != [] {
      OneofsCons(b, message, rules);
      OneOneofFails(b, message, rules[0]);
      OneofsMatch(b, message, rules[1..]);
    }
  }

  /** And the fields they name are the members whose `ignore` they change. */
  lemma {:induction false} OneofsMembers(b: Builder, message: MessageDescriptor, rules: seq<MessageOneofRule>)
    requires MessageOneofs(b, message, rules).Done?
    ensures forall n :: n in MessageOneofs(b, message, rules).value.members <==>
                        exists i :: 0 <= i < |rules| && n in rules[i].fields
  {
    if rules != [] {
      OneofsCons(b, message, rules);
      OneOneofFails(b, message, rules[0]);
      OneofsMembers(b, message, rules[1..]);
      MembersGrow(MessageOneofs(b, message, rules[1..]).value.members, rules,
                  MessageOneofs(b, message, rules).value.members);
    }
  }

  lemma {:induction false} MembersGrow(rest: set<string>, rules: seq<MessageOneofRule>, all: set<string>)
    requires rules != [] && all == (set n | n in rules[0].fields) + rest
    requires forall n :: n in rest <==> exists i :: 0 <= i < |rules[1..]| && n in rules[1..][i].fields
    ensures forall n :: n in all <==> exists i :: 0 <= i < |rules| && n in rules[i].fields
  {
    forall n | exists i :: 0 <= i < |rules| && n in rules[i].fields ensures n in all {
      var i :| 0 <= i < |rules| && n in rules[i].fields;
      if i > 0 {
        assert rules[1..][i - 1] == rules[i];
      }
    }
    forall n | n in all ensures exists i :: 0 <= i < |rules| && n in rules[i].fields {
      if n in rest {
        var i :| 0 <= i < |rules[1..]| && n in rules[1..][i].fields;
        assert rules[i + 1] == rules[1..][i];
      }
    }
  }

  lemma {:induction false} OneOneofFails(b: Builder, message: MessageDescriptor, rule: MessageOneofRule)
    requires !OneOneof(b, message, rule).Panicked?
    ensures OneOneof(b, message, rule).Failed? <==> BadOneof(message, rule)
    ensures OneOneof(b, message, rule).Done? ==>
              var (oneof, names) := OneOneof(b, message, rule).value;
              MatchesRule(oneof, rule) && forall n :: n in names <==> n in rule.fields
  {
    if rule.fields != [] {
      MembersFail(b, message, rule.fields, {});
      assert BadOneof(message, rule) <==> BadMembers(message, rule.fields, {});
    }
  }

  /** A compiled oneof rule names the fields of its rule, in order. */
  ghost predicate MatchesRule(oneof: MessageOneof, rule: MessageOneofRule) {
    && |oneof.fields| == |rule.fields|
    && (forall i :: 0 <= i < |rule.fields| ==> oneof.fields[i].name == rule.fields[i])
    && oneof.names == Join(rule.fields)
    && oneof.required == rule.required.GetOr(false)
  }
}
