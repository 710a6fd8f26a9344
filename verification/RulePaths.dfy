/**
 Rule paths: built while a field's custom rules are compiled, and walked over the
 field's `FieldRules` message to recover the rule a violation broke.
 */
module RulePaths {
  import opened Wrappers
  import opened FieldPaths
  import D = Descriptors
  import E = Elements
  import B = RuleBuild
  import L = RuleBuildLaws

  // ----------------------------------------- the rules, as protobuf-py messages

  function Plain(number: nat, name: string): FieldDesc {
    FieldDesc(number, name, name, None)
  }

  function InType(number: nat, name: string): FieldDesc {
    FieldDesc(number, name, name, Some("type"))
  }

  const RULE_FIELDS := [Plain(1, "id"), Plain(2, "message"), Plain(3, "expression")]

  /** The `type` cases numbered 1 to 16. */
  function ScalarFields(): (r: seq<FieldDesc>)
    ensures forall f :: f in r ==> 1 <= f.number <= 16
  {
    [ InType(1, "float"), InType(2, "double"), InType(3, "int32"), InType(4, "int64"), InType(5, "uint32"),
      InType(6, "uint64"), InType(7, "sint32"), InType(8, "sint64"), InType(9, "fixed32"), InType(10, "fixed64"),
      InType(11, "sfixed32"), InType(12, "sfixed64"), InType(13, "bool"), InType(14, "string"), InType(15, "bytes"),
      InType(16, "enum")]
  }

  const OTHER_TYPE_FIELDS := [
    InType(18, "repeated"), InType(19, "map"), InType(20, "any"), InType(21, "duration"), InType(28, "field_mask"),
    InType(22, "timestamp")]

  const HEAD_FIELDS := [Plain(29, "cel_expression"), Plain(23, "cel"), Plain(25, "required"), Plain(27, "ignore")]

  const FIELD_RULES_FIELDS := HEAD_FIELDS + (ScalarFields() + OTHER_TYPE_FIELDS)

  const REPEATED_RULES_FIELDS := [Plain(1, "min_items"), Plain(2, "max_items"), Plain(3, "unique"), Plain(4, "items")]

  const MAP_RULES_FIELDS := [Plain(1, "min_pairs"), Plain(2, "max_pairs"), Plain(4, "keys"), Plain(5, "values")]

  function TextValue(s: Option<string>): Py {
    if s.Some? then Scalar(TextKey(s.value)) else NoneValue
  }

  function CountValue(n: Option<nat>): Py {
    if n.Some? then Scalar(IntKey(n.value)) else NoneValue
  }

  function BoolValue(b: Option<bool>): Py {
    if b.Some? then Scalar(BitKey(b.value)) else NoneValue
  }

  function IgnoreValue(ignore: Option<D.Ignore>): Py {
    match ignore
    case None => NoneValue
    case Some(Unspecified) => Scalar(IntKey(0))
    case Some(IfZeroValue) => Scalar(IntKey(1))
    case Some(Always) => Scalar(IntKey(3))
  }

  function RuleMessage(rule: D.Rule): Py {
    MessageValue(ProtobufPy, RULE_FIELDS,
                 map["id" := TextValue(rule.id), "message" := TextValue(rule.message),
                     "expression" := TextValue(rule.expression)])
  }

  function RuleList(cel: seq<D.Rule>): Py {
    ListValue(seq(|cel|, i requires 0 <= i < |cel| => RuleMessage(cel[i])))
  }

  function TextList(texts: seq<string>): Py {
    ListValue(seq(|texts|, i requires 0 <= i < |texts| => Scalar(TextKey(texts[i]))))
  }

  function RepeatedMessage(min: Py, max: Py, unique: Py, items: Py): Py {
    MessageValue(ProtobufPy, REPEATED_RULES_FIELDS,
                 map["min_items" := min, "max_items" := max, "unique" := unique, "items" := items])
  }

  function MapMessage(min: Py, max: Py, keys: Py, values: Py): Py {
    MessageValue(ProtobufPy, MAP_RULES_FIELDS,
                 map["min_pairs" := min, "max_pairs" := max, "keys" := keys, "values" := values])
  }

  function OptionalRules(rules: Option<D.FieldRules>): Py
    decreases rules, 1
  {
    if rules.Some? then RulesMessage(rules.value) else NoneValue
  }

  /** The value of the `type` oneof's attribute. */
  function TypeValue(rules: Option<D.RulesType>): Py
    decreases rules, 0
  {
    match rules
    case None => NoneValue
    case Some(Repeated(min, max, unique, items)) =>
      Selected("repeated", RepeatedMessage(CountValue(min), CountValue(max), BoolValue(unique), OptionalRules(items)))
    case Some(Map(min, max, keys, values)) =>
      Selected("map", MapMessage(CountValue(min), CountValue(max), OptionalRules(keys), OptionalRules(values)))
    case Some(Leaf(name, body)) => Selected(name, Other(|body|))
  }

  function RulesMessage(rules: D.FieldRules): Py
    decreases rules, 0
  {
    MessageValue(ProtobufPy, FIELD_RULES_FIELDS,
                 map["cel_expression" := TextList(rules.celExpression), "cel" := RuleList(rules.cel),
                     "required" := BoolValue(rules.required), "ignore" := IgnoreValue(rules.ignore),
                     "type" := TypeValue(rules.standard)])
  }

  // --------------------------------------------------------------------- the walk

  function KeyOf(subscript: E.Subscript): Key {
    match subscript
    case Index(i) => IntKey(i)
    case BoolKey(b) => BitKey(b)
    case IntKey(i) => Key.IntKey(i)
    case UintKey(u) => Key.IntKey(u)
    case StringKey(s) => TextKey(s)
  }

  /** A path element as protobuf-py presents it. */
  function StepOf(e: E.Element): Step {
    Step(e.number.GetOr(0), e.name, if e.subscript.Some? then Some(KeyOf(e.subscript.value)) else None)
  }

  function StepsOf(path: seq<E.Element>): seq<Step> {
    seq(|path|, i requires 0 <= i < |path| => StepOf(path[i]))
  }

  /** The element's number, 0 when absent, its name, and its subscript's own value as a Python key. */
  predicate Presents(e: E.Element, step: Step) {
    && step.number == (match e.number case None => 0 case Some(n) => n)
    && step.name == e.name
    && match (e.subscript, step.subscript)
       case (None, None) => true
       case (Some(Index(n)), Some(IntKey(i))) => i == n
       case (Some(UintKey(n)), Some(IntKey(i))) => i == n
       case (Some(IntKey(k)), Some(IntKey(i))) => i == k
       case (Some(BoolKey(b)), Some(BitKey(bit))) => bit == b
       case (Some(StringKey(t)), Some(TextKey(text))) => text == t
       case _ => false
  }

  lemma {:induction false} PresentsExactly(e: E.Element, step: Step)
    ensures Presents(e, step) <==> step == StepOf(e)
  {
  }

  lemma {:induction false} PathPresents(path: seq<E.Element>, steps: seq<Step>)
    ensures steps == StepsOf(path) <==> |steps| == |path| && forall i :: 0 <= i < |path| ==> Presents(path[i], steps[i])
  {
    if |steps| == |path| {
      forall i | 0 <= i < |path| ensures Presents(path[i], steps[i]) <==> steps[i] == StepsOf(path)[i] {
        PresentsExactly(path[i], steps[i]);
      }
    }
  }

  /** `root` is absent when the descriptor carries no rules. */
  function RuleValue(root: Option<Py>, path: Option<seq<Step>>): Option<Py> {
    if root.None? then None else FieldPathValue(root.value, path, false).value
  }

  method ResolveRuleValue(root: Option<Py>, path: Option<seq<Step>>) returns (r: Option<Py>)
    ensures r == RuleValue(root, path)
  {
    if path.None? || path.value == [] || root.None? {
      return None;
    }
    var steps := path.value;
    var current := root.value;
    ghost var leaf: Option<FieldDesc> := None;
    var index := 0;
    assert steps[0..] == steps;
    while index < |steps|
      invariant 0 <= index <= |steps|
      invariant Follow(root.value, None, steps, false) == Follow(current, leaf, steps[index..], false)
    {
      assert steps[index..][1..] == steps[index + 1..];
      var hop := StepElement(current, steps[index]);
      if hop.None? {
        return None;
      }
      leaf := Some(hop.value.1);
      current := hop.value.0;
      if steps[index].subscript.Some? {
        var item := GetItem(current, steps[index].subscript.value);
        if item.None? {
          return None;
        }
        current := item.value;
      }
      index := index + 1;
    }
    r := Some(current);
  }

  // -------------------------------------------------------------- the hops it takes

  lemma {:induction false} SkipNumbers(first: seq<FieldDesc>, rest: seq<FieldDesc>, number: int)
    requires forall f :: f in first ==> f.number != number
    ensures ByNumber(first + rest, number) == ByNumber(rest, number)
  {
    if first == [] {
      assert first + rest == rest;
    } else {
      assert (first + rest)[1..] == first[1..] + rest;
      SkipNumbers(first[1..], rest, number);
    }
  }

  lemma {:induction false} TakeNumber(first: seq<FieldDesc>, rest: seq<FieldDesc>, number: int)
    requires ByNumber(first, number).Some?
    ensures ByNumber(first + rest, number) == ByNumber(first, number)
  {
    if first[0].number != number {
      assert (first + rest)[1..] == first[1..] + rest;
      TakeNumber(first[1..], rest, number);
    }
  }

  lemma {:induction false} HeadFields()
    ensures ByNumber(HEAD_FIELDS, 29) == Some(Plain(29, "cel_expression"))
    ensures ByNumber(HEAD_FIELDS, 23) == Some(Plain(23, "cel"))
  {
    assert HEAD_FIELDS[1..][0] == Plain(23, "cel");
  }

  lemma {:induction false} EntryFields()
    ensures ByNumber(FIELD_RULES_FIELDS, 29) == Some(Plain(29, "cel_expression"))
    ensures ByNumber(FIELD_RULES_FIELDS, 23) == Some(Plain(23, "cel"))
  {
    HeadFields();
    TakeNumber(HEAD_FIELDS, ScalarFields() + OTHER_TYPE_FIELDS, 29);
    TakeNumber(HEAD_FIELDS, ScalarFields() + OTHER_TYPE_FIELDS, 23);
  }

  lemma {:induction false} SkipTwo(first: seq<FieldDesc>, second: seq<FieldDesc>, rest: seq<FieldDesc>, number: int)
    requires forall f :: f in first ==> f.number != number
    requires forall f :: f in second ==> f.number != number
    ensures ByNumber(first + (second + rest), number) == ByNumber(rest, number)
  {
    SkipNumbers(first, second + rest, number);
    SkipNumbers(second, rest, number);
  }

  lemma {:induction false} OtherFields()
    ensures ByNumber(OTHER_TYPE_FIELDS, 18) == Some(InType(18, "repeated"))
    ensures ByNumber(OTHER_TYPE_FIELDS, 19) == Some(InType(19, "map"))
  {
    assert OTHER_TYPE_FIELDS[1..][0] == InType(19, "map");
  }

  lemma {:induction false} ContainerField(number: int)
    requires number == 18 || number == 19
    ensures ByNumber(FIELD_RULES_FIELDS, number) == Some(InType(number, if number == 18 then "repeated" else "map"))
  {
    OtherFields();
    SkipTwo(HEAD_FIELDS, ScalarFields(), OTHER_TYPE_FIELDS, number);
  }

  lemma {:induction false} ItemsField()
    ensures ByNumber(REPEATED_RULES_FIELDS, 4) == Some(Plain(4, "items"))
  {
    SkipNumbers(REPEATED_RULES_FIELDS[..3], REPEATED_RULES_FIELDS[3..], 4);
    assert REPEATED_RULES_FIELDS == REPEATED_RULES_FIELDS[..3] + REPEATED_RULES_FIELDS[3..];
  }

  lemma {:induction false} KeysField()
    ensures ByNumber(MAP_RULES_FIELDS, 4) == Some(Plain(4, "keys"))
  {
    SkipNumbers(MAP_RULES_FIELDS[..2], MAP_RULES_FIELDS[2..], 4);
    assert MAP_RULES_FIELDS == MAP_RULES_FIELDS[..2] + MAP_RULES_FIELDS[2..];
  }

  lemma {:induction false} ValuesField()
    ensures ByNumber(MAP_RULES_FIELDS, 5) == Some(Plain(5, "values"))
  {
    SkipNumbers(MAP_RULES_FIELDS[..3], MAP_RULES_FIELDS[3..], 5);
    assert MAP_RULES_FIELDS == MAP_RULES_FIELDS[..3] + MAP_RULES_FIELDS[3..];
  }

  /** A hop through a field that is stored under its own name. */
  lemma {:induction false} PlainHop(fields: seq<FieldDesc>, attrs: map<string, Py>, step: Step, name: string)
    requires step.number > 0 && ByNumber(fields, step.number) == Some(Plain(step.number, name))
    requires name in attrs && !attrs[name].NoneValue?
    ensures StepElement(MessageValue(ProtobufPy, fields, attrs), step) == Some((attrs[name], Plain(step.number, name)))
  {
  }

  /** A hop through the member that is set in the `type` oneof. */
  lemma {:induction false} TypeHop(fields: seq<FieldDesc>, attrs: map<string, Py>, step: Step, name: string, value: Py)
    requires step.number > 0 && ByNumber(fields, step.number) == Some(InType(step.number, name))
    requires "type" in attrs && attrs["type"] == Selected(name, value)
    ensures StepElement(MessageValue(ProtobufPy, fields, attrs), step) == Some((value, InType(step.number, name)))
  {
  }

  lemma {:induction false} ExpressionHop(rules: D.FieldRules, index: nat)
    ensures StepElement(RulesMessage(rules), StepOf(E.Indexed(E.CEL_EXPRESSION, index)))
         == Some((TextList(rules.celExpression), Plain(29, "cel_expression")))
  {
    EntryFields();
    PlainHop(FIELD_RULES_FIELDS, RulesMessage(rules).attrs, StepOf(E.Indexed(E.CEL_EXPRESSION, index)),
             "cel_expression");
  }

  lemma {:induction false} RuleHop(rules: D.FieldRules, index: nat)
    ensures StepElement(RulesMessage(rules), StepOf(E.Indexed(E.CEL, index)))
         == Some((RuleList(rules.cel), Plain(23, "cel")))
  {
    EntryFields();
    PlainHop(FIELD_RULES_FIELDS, RulesMessage(rules).attrs, StepOf(E.Indexed(E.CEL, index)), "cel");
  }

  // ------------------------------------------------- a rule path leads to its rule

  /** Custom rule `j` of some rules: bare expressions come first. */
  function Entry(rules: D.FieldRules, j: nat): Py
    requires j < |rules.celExpression| + |rules.cel|
  {
    if j < |rules.celExpression| then Scalar(TextKey(rules.celExpression[j]))
    else RuleMessage(rules.cel[j - |rules.celExpression|])
  }

  /** The CEL source that entry holds. */
  function Source(rules: D.FieldRules, j: nat): string
    requires j < |rules.celExpression| + |rules.cel|
  {
    if j < |rules.celExpression| then rules.celExpression[j]
    else rules.cel[j - |rules.celExpression|].expression.GetOr("")
  }

  /** `programs` are all of the custom rules of `owner`, each with a path that leads from `root` to it. */
  ghost predicate Reached(root: D.FieldRules, owner: D.FieldRules, programs: Option<B.CelPrograms>) {
    var count := |owner.celExpression| + |owner.cel|;
    && (programs.None? <==> count == 0)
    && (programs.Some? ==>
          && |programs.value.rules| == count
          && forall j :: 0 <= j < count ==> Leads(root, owner, programs.value.rules[j], j))
  }

  ghost predicate Leads(root: D.FieldRules, owner: D.FieldRules, rule: B.CelRule, j: nat)
    requires j < |owner.celExpression| + |owner.cel|
  {
    && rule.expression == Source(owner, j)
    && RuleValue(Some(RulesMessage(root)), Some(StepsOf(rule.rulePath))) == Some(Entry(owner, j))
  }

  /** Whose custom rules: the field's own, or those for its items, keys or values. */
  datatype Part = Own | OfItems | OfKeys | OfValues

  function Rules(root: D.FieldRules, part: Part): Option<D.FieldRules> {
    match (part, root.standard)
    case (Own, _) => Some(root)
    case (OfItems, Some(Repeated(_, _, _, items))) => items
    case (OfKeys, Some(Map(_, _, keys, _))) => keys
    case (OfValues, Some(Map(_, _, _, values))) => values
    case _ => None
  }

  /** The path of those rules from the field's. */
  function Prefix(part: Part): seq<E.Element> {
    match part
    case Own => []
    case OfItems => [E.REPEATED, E.REPEATED_ITEMS]
    case OfKeys => [E.MAP, E.MAP_KEYS]
    case OfValues => [E.MAP, E.MAP_VALUES]
  }

  /** Two hops without subscripts. */
  lemma {:induction false} TwoHops(first: Py, steps: seq<Step>, second: Py, third: Py, f: FieldDesc, g: FieldDesc,
                                   leaf: Option<FieldDesc>)
    requires |steps| >= 3 && steps[0].subscript.None? && steps[1].subscript.None?
    requires StepElement(first, steps[0]) == Some((second, f))
    requires StepElement(second, steps[1]) == Some((third, g))
    ensures Follow(first, leaf, steps, false) == Follow(third, Some(g), steps[2..], false)
  {
    assert steps[1..][1..] == steps[2..];
    assert Follow(first, leaf, steps, false) == Follow(second, Some(f), steps[1..], false);
  }

  lemma {:induction false} TypeStep(root: D.FieldRules, e: E.Element, name: string, value: Py)
    requires (e == E.REPEATED && name == "repeated") || (e == E.MAP && name == "map")
    requires TypeValue(root.standard) == Selected(name, value)
    ensures StepElement(RulesMessage(root), StepOf(e)) == Some((value, InType(StepOf(e).number, name)))
  {
    ContainerField(StepOf(e).number);
    TypeHop(FIELD_RULES_FIELDS, RulesMessage(root).attrs, StepOf(e), name, value);
  }

  lemma {:induction false} ItemsStep(min: Py, max: Py, unique: Py, items: Py)
    requires !items.NoneValue?
    ensures StepElement(RepeatedMessage(min, max, unique, items), StepOf(E.REPEATED_ITEMS))
            == Some((items, Plain(4, "items")))
  {
    ItemsField();
    PlainHop(REPEATED_RULES_FIELDS, RepeatedMessage(min, max, unique, items).attrs, StepOf(E.REPEATED_ITEMS), "items");
  }

  lemma {:induction false} KeysStep(min: Py, max: Py, keys: Py, values: Py)
    requires !keys.NoneValue?
    ensures StepElement(MapMessage(min, max, keys, values), StepOf(E.MAP_KEYS)) == Some((keys, Plain(4, "keys")))
  {
    KeysField();
    PlainHop(MAP_RULES_FIELDS, MapMessage(min, max, keys, values).attrs, StepOf(E.MAP_KEYS), "keys");
  }

  lemma {:induction false} ValuesStep(min: Py, max: Py, keys: Py, values: Py)
    requires !values.NoneValue?
    ensures StepElement(MapMessage(min, max, keys, values), StepOf(E.MAP_VALUES)) == Some((values, Plain(5, "values")))
  {
    ValuesField();
    PlainHop(MAP_RULES_FIELDS, MapMessage(min, max, keys, values).attrs, StepOf(E.MAP_VALUES), "values");
  }

  lemma {:induction false} Present(rules: D.FieldRules)
    ensures OptionalRules(Some(rules)) == RulesMessage(rules) && !RulesMessage(rules).NoneValue?
  {
  }

  lemma {:induction false} ItemsHops(root: D.FieldRules) returns (middle: Py)
    requires Rules(root, OfItems).Some?
    ensures StepElement(RulesMessage(root), StepOf(E.REPEATED)) == Some((middle, InType(18, "repeated")))
    ensures StepElement(middle, StepOf(E.REPEATED_ITEMS))
            == Some((RulesMessage(Rules(root, OfItems).value), Plain(4, "items")))
  {
    var rules := root.standard.value;
    var min, max, unique := CountValue(rules.minItems), CountValue(rules.maxItems), BoolValue(rules.unique);
    middle := RepeatedMessage(min, max, unique, OptionalRules(rules.items));
    TypeStep(root, E.REPEATED, "repeated", middle);
    Present(rules.items.value);
    ItemsStep(min, max, unique, OptionalRules(rules.items));
  }

  lemma {:induction false} KeysHops(root: D.FieldRules) returns (middle: Py)
    requires Rules(root, OfKeys).Some?
    ensures StepElement(RulesMessage(root), StepOf(E.MAP)) == Some((middle, InType(19, "map")))
    ensures StepElement(middle, StepOf(E.MAP_KEYS)) == Some((RulesMessage(Rules(root, OfKeys).value), Plain(4, "keys")))
  {
    var rules := root.standard.value;
    var min, max := CountValue(rules.minPairs), CountValue(rules.maxPairs);
    middle := MapMessage(min, max, OptionalRules(rules.keys), OptionalRules(rules.values));
    TypeStep(root, E.MAP, "map", middle);
    Present(rules.keys.value);
    KeysStep(min, max, OptionalRules(rules.keys), OptionalRules(rules.values));
  }

  lemma {:induction false} ValuesHops(root: D.FieldRules) returns (middle: Py)
    requires Rules(root, OfValues).Some?
    ensures StepElement(RulesMessage(root), StepOf(E.MAP)) == Some((middle, InType(19, "map")))
    ensures StepElement(middle, StepOf(E.MAP_VALUES))
            == Some((RulesMessage(Rules(root, OfValues).value), Plain(5, "values")))
  {
    var rules := root.standard.value;
    var min, max := CountValue(rules.minPairs), CountValue(rules.maxPairs);
    middle := MapMessage(min, max, OptionalRules(rules.keys), OptionalRules(rules.values));
    TypeStep(root, E.MAP, "map", middle);
    Present(rules.values.value);
    ValuesStep(min, max, OptionalRules(rules.keys), OptionalRules(rules.values));
  }

  lemma {:induction false} LeafIrrelevant(current: Py, a: Option<FieldDesc>, b: Option<FieldDesc>, steps: seq<Step>)
    ensures Follow(current, a, steps, false).value == Follow(current, b, steps, false).value
  {
  }

  /** The walk along two elements and one more is the walk along that one from where the two lead. */
  lemma {:induction false} Through(root: Py, a: E.Element, b: E.Element, last: E.Element, middle: Py, owner: Py,
                                   f: FieldDesc, g: FieldDesc)
    requires a.subscript.None? && b.subscript.None?
    requires StepElement(root, StepOf(a)) == Some((middle, f)) && StepElement(middle, StepOf(b)) == Some((owner, g))
    ensures RuleValue(Some(root), Some(StepsOf([a, b] + [last]))) == RuleValue(Some(owner), Some(StepsOf([last])))
  {
    var steps := StepsOf([a, b] + [last]);
    assert steps[2..] == StepsOf([last]);
    TwoHops(root, steps, middle, owner, f, g, None);
    LeafIrrelevant(owner, Some(g), None, StepsOf([last]));
  }

  lemma {:induction false} Arrives(root: D.FieldRules, part: Part, last: E.Element)
    requires Rules(root, part).Some?
    ensures RuleValue(Some(RulesMessage(root)), Some(StepsOf(Prefix(part) + [last])))
         == RuleValue(Some(RulesMessage(Rules(root, part).value)), Some(StepsOf([last])))
  {
    match part {
      case Own =>
        assert Prefix(part) + [last] == [last];
      case OfItems =>
        var middle := ItemsHops(root);
        Through(RulesMessage(root), E.REPEATED, E.REPEATED_ITEMS, last, middle, RulesMessage(Rules(root, part).value),
                InType(18, "repeated"), Plain(4, "items"));
      case OfKeys =>
        var middle := KeysHops(root);
        Through(RulesMessage(root), E.MAP, E.MAP_KEYS, last, middle, RulesMessage(Rules(root, part).value),
                InType(19, "map"), Plain(4, "keys"));
      case OfValues =>
        var middle := ValuesHops(root);
        Through(RulesMessage(root), E.MAP, E.MAP_VALUES, last, middle, RulesMessage(Rules(root, part).value),
                InType(19, "map"), Plain(5, "values"));
    }
  }

  lemma {:induction false} LastExpression(owner: D.FieldRules, index: nat)
    requires index < |owner.celExpression|
    ensures RuleValue(Some(RulesMessage(owner)), Some(StepsOf([E.Indexed(E.CEL_EXPRESSION, index)])))
         == Some(Scalar(TextKey(owner.celExpression[index])))
  {
    var step := StepOf(E.Indexed(E.CEL_EXPRESSION, index));
    var steps := StepsOf([E.Indexed(E.CEL_EXPRESSION, index)]);
    assert steps == [step];
    ExpressionHop(owner, index);
    OneHop(RulesMessage(owner), steps, TextList(owner.celExpression), Plain(29, "cel_expression"), index);
  }

  lemma {:induction false} LastRule(owner: D.FieldRules, index: nat)
    requires index < |owner.cel|
    ensures RuleValue(Some(RulesMessage(owner)), Some(StepsOf([E.Indexed(E.CEL, index)])))
         == Some(RuleMessage(owner.cel[index]))
  {
    var step := StepOf(E.Indexed(E.CEL, index));
    var steps := StepsOf([E.Indexed(E.CEL, index)]);
    assert steps == [step];
    RuleHop(owner, index);
    OneHop(RulesMessage(owner), steps, RuleList(owner.cel), Plain(23, "cel"), index);
  }

  /** The last hop takes an item of a list. */
  lemma {:induction false} OneHop(current: Py, steps: seq<Step>, list: Py, field: FieldDesc, index: nat)
    requires |steps| == 1 && steps[0].subscript == Some(Key.IntKey(index))
    requires StepElement(current, steps[0]) == Some((list, field))
    requires list.ListValue? && index < |list.items|
    ensures Follow(current, None, steps, false).value == Some(list.items[index])
  {
    assert steps[1..] == [];
  }

  /** The path of custom rule `j`, as the rules' fields number it. */
  function LastElement(owner: D.FieldRules, j: nat): E.Element {
    if j < |owner.celExpression| then E.Indexed(E.CEL_EXPRESSION, j) else E.Indexed(E.CEL, j - |owner.celExpression|)
  }

  lemma {:induction false} EntryReached(root: D.FieldRules, part: Part, owner: D.FieldRules, j: nat)
    requires Rules(root, part) == Some(owner) && j < |owner.celExpression| + |owner.cel|
    ensures RuleValue(Some(RulesMessage(root)), Some(StepsOf(Prefix(part) + [LastElement(owner, j)])))
            == Some(Entry(owner, j))
  {
    Arrives(root, part, LastElement(owner, j));
    if j < |owner.celExpression| {
      LastExpression(owner, j);
    } else {
      LastRule(owner, j - |owner.celExpression|);
    }
  }

  lemma {:induction false} CustomRuleAt(owner: D.FieldRules, prefix: seq<E.Element>, j: nat)
    requires j < |owner.celExpression| + |owner.cel|
    ensures var rules := B.CustomRules(owner.celExpression, owner.cel, true, prefix).rules;
            |rules| == |owner.celExpression| + |owner.cel|
            && rules[j].rulePath == prefix + [LastElement(owner, j)] && rules[j].expression == Source(owner, j)
  {
  }

  /** The rules compiled for a part of a field carry paths that lead from the field's rules to them. */
  lemma {:induction false} CompiledReached(b: B.Builder, root: D.FieldRules, part: Part, owner: D.FieldRules)
    requires Rules(root, part) == Some(owner)
    requires B.Compile(b, B.CustomRules(owner.celExpression, owner.cel, true, Prefix(part))).Done?
    ensures Reached(root, owner, B.Compile(b, B.CustomRules(owner.celExpression, owner.cel, true, Prefix(part))).value)
  {
    var rules := B.CustomRules(owner.celExpression, owner.cel, true, Prefix(part)).rules;
    assert |rules| == |owner.celExpression| + |owner.cel|;
    forall j | 0 <= j < |rules| ensures Leads(root, owner, rules[j], j) {
      CustomRuleAt(owner, Prefix(part), j);
      EntryReached(root, part, owner, j);
    }
  }

  // ----------------------------------------------------------------- whole fields

  /** A container's item validator holds just the custom rules that the field has for that part. */
  ghost predicate ItemReached(root: D.FieldRules, part: Part, item: Option<B.ItemValidator>) {
    item.Some? ==>
      match Rules(root, part)
      case Some(owner) => Reached(root, owner, item.value.value.custom)
      case None => item.value.value.custom.None?
  }

  ghost predicate ShapeReached(root: D.FieldRules, shape: B.FieldShape) {
    match shape
    case OneValue => true
    case Items(items) => ItemReached(root, OfItems, items)
    case Entries(_, keys, values) => ItemReached(root, OfKeys, keys) && ItemReached(root, OfValues, values)
  }

  lemma {:induction false} ValueBuilt(b: B.Builder, target: B.Target, root: D.FieldRules, part: Part,
                                      owner: D.FieldRules)
    requires Rules(root, part) == Some(owner) && B.BuildValue(b, target, owner, Prefix(part)).Done?
    ensures Reached(root, owner, B.BuildValue(b, target, owner, Prefix(part)).value.0.custom)
  {
    CompiledReached(b, root, part, owner);
    ValueCustom(b, target, owner, Prefix(part));
  }

  lemma {:induction false} ValueCustom(b: B.Builder, target: B.Target, owner: D.FieldRules, prefix: seq<E.Element>)
    requires B.BuildValue(b, target, owner, prefix).Done?
    ensures var custom := B.Compile(b, B.CustomRules(owner.celExpression, owner.cel, true, prefix));
            custom.Done? && B.BuildValue(b, target, owner, prefix).value.0.custom == custom.value
    ensures B.BuildValue(b, target, owner, prefix).value.1
         == if owner.standard.Some? then Some(B.Remaining(owner.standard.value)) else None
  {
  }

  lemma {:induction false} ItemBuilt(b: B.Builder, target: B.Target, root: D.FieldRules, part: Part)
    requires B.BuildItem(b, target, Rules(root, part), Prefix(part)).Done?
    ensures ItemReached(root, part, B.BuildItem(b, target, Rules(root, part), Prefix(part)).value)
  {
    var rules := Rules(root, part);
    if rules.Some? && rules.value.ignore != Some(D.Always) {
      ValueBuilt(b, target, root, part, rules.value);
    }
  }

  /** The native checks leave the rules for items, keys and values in place. */
  lemma {:induction false} ShapeBuilt(b: B.Builder, message: D.MessageDescriptor, field: D.FieldDescriptor,
                                      root: D.FieldRules, remaining: Option<D.RulesType>)
    requires remaining == if root.standard.Some? then Some(B.Remaining(root.standard.value)) else None
    requires B.BuildShape(b, message, field, remaining).Done?
    ensures ShapeReached(root, B.BuildShape(b, message, field, remaining).value)
  {
    match field.kind {
      case Singular(_) =>
      case ListOf(element) =>
        ItemBuilt(b, B.ItemTarget(element, B.FieldTarget(message, field).name), root, OfItems);
      case MapOf(key, value) =>
        ItemBuilt(b, B.ItemTarget(D.ScalarOf(key), B.EntryName(message, field, "key")), root, OfKeys);
        ItemBuilt(b, B.ItemTarget(value, B.EntryName(message, field, "value")), root, OfValues);
    }
  }

  /**
   The rule path of every custom rule of a compiled field, of its items, its keys and
   its values leads, from the rules that the field declares, to the entry the rule was
   compiled from. `ignore` may have been set by a message oneof before compiling.
   */
  lemma {:induction false} RulePathRoundTrip(b: B.Builder, message: D.MessageDescriptor, field: D.FieldDescriptor,
                                             root: D.FieldRules, rules: D.FieldRules)
    requires rules == root.(ignore := rules.ignore)
    requires B.BuildField(b, message, field, rules).Done? && B.BuildField(b, message, field, rules).value.Some?
    ensures var built := B.BuildField(b, message, field, rules).value.value;
            Reached(root, root, built.value.custom) && ShapeReached(root, built.shape)
  {
    var target := B.FieldTarget(message, field);
    ValueCustom(b, target, rules, []);
    CompiledReached(b, root, Own, root);
    ShapeBuilt(b, message, field, root, B.BuildValue(b, target, rules, []).value.1);
  }

  lemma {:induction false} FieldsRulePaths(b: B.Builder, message: D.MessageDescriptor, members: set<string>, p: nat)
    returns (field: D.FieldDescriptor)
    requires B.BuildFields(b, message, message.fields, members).Done?
    requires p < |B.BuildFields(b, message, message.fields, members).value|
    requires B.BuildFields(b, message, message.fields, members).value[p].Ok?
    ensures field in message.fields
    ensures var compiled := B.BuildFields(b, message, message.fields, members).value[p].value;
            OwnPaths(field, compiled)
  {
    L.FieldOrigin(b, message, message.fields, members, p);
    field :| field in message.fields &&
             B.BuildField(b, message, field, B.EffectiveRules(field, members))
             == B.Done(Some(B.BuildFields(b, message, message.fields, members).value[p].value));
    RulePathRoundTrip(b, message, field, field.rules.GetOr(D.NO_RULES), B.EffectiveRules(field, members));
  }

  /** A compiled field whose rule paths lead to its descriptor's own rules. */
  ghost predicate OwnPaths(field: D.FieldDescriptor, compiled: B.FieldValidator) {
    var root := field.rules.GetOr(D.NO_RULES);
    Reached(root, root, compiled.value.custom) && ShapeReached(root, compiled.shape)
  }

  /** Every compiled field of a message is one whose rule paths lead to its own rules. */
  lemma {:induction false} MessageRulePaths(b: B.Builder, idx: D.MessageIndex, p: nat)
    returns (field: D.FieldDescriptor)
    requires idx < |b.pool| && B.BuildMessage(b, idx).Done?
    requires p < |B.BuildMessage(b, idx).value.fields| && B.BuildMessage(b, idx).value.fields[p].Ok?
    ensures field in b.pool[idx].fields && OwnPaths(field, B.BuildMessage(b, idx).value.fields[p].value)
  {
    var members := L.MessageFields(b, idx);
    field := FieldsRulePaths(b, b.pool[idx], members, p);
  }
}
