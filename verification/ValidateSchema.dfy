/**
 The tables of the generated message types: the violation family, and the rules
 recursion from `FieldRules` through `RepeatedRules` and `MapRules` back to
 `FieldRules`. Fields are in the order they are written.
 */
module ValidateSchema {
  import opened Wrappers
  import opened Wire
  import opened Codec
  import opened CodecLaws

  const VIOLATIONS: TypeId := 0
  const VIOLATION: TypeId := 1
  const FIELD_PATH: TypeId := 2
  const FIELD_PATH_ELEMENT: TypeId := 3
  const FIELD_RULES: TypeId := 4
  const REPEATED_RULES: TypeId := 5
  const MAP_RULES: TypeId := 6
  const INT32_RULES: TypeId := 7
  const RULE: TypeId := 8
  /** A rules message whose own fields are not tabulated: it keeps them as read. */
  const OTHER_RULES: TypeId := 9

  const FIELD_TYPES: set<int32> := set i: int | 1 <= i <= 18
  const IGNORES: set<int32> := {0, 1, 3}

  const VIOLATIONS_FIELDS := Table([true], map[1 := FieldType(0, Submessage(VIOLATION))])

  const VIOLATION_FIELDS := Table([false, false, false, false, false], map[
    2 := FieldType(0, Text),
    3 := FieldType(1, Text),
    4 := FieldType(2, Bool),
    5 := FieldType(3, Submessage(FIELD_PATH)),
    6 := FieldType(4, Submessage(FIELD_PATH))])

  const FIELD_PATH_FIELDS := Table([true], map[1 := FieldType(0, Submessage(FIELD_PATH_ELEMENT))])

  const FIELD_PATH_ELEMENT_FIELDS := Table([false, false, false, false, false, false], map[
    1 := FieldType(0, Int32),
    2 := FieldType(1, Text),
    3 := FieldType(2, Enum(FIELD_TYPES)),
    4 := FieldType(3, Enum(FIELD_TYPES)),
    5 := FieldType(4, Enum(FIELD_TYPES)),
    6 := FieldType(5, Uint64),
    7 := FieldType(5, Bool),
    8 := FieldType(5, Int64),
    9 := FieldType(5, Uint64),
    10 := FieldType(5, Text)])

  /** A case of the `type` oneof, which is written first. */
  function RulesCase(ty: TypeId): FieldType {
    FieldType(0, Submessage(ty))
  }

  const FIELD_RULES_FIELDS := Table([false, true, false, false, true], map[
    1 := RulesCase(OTHER_RULES), 2 := RulesCase(OTHER_RULES), 3 := RulesCase(INT32_RULES),
    4 := RulesCase(OTHER_RULES), 5 := RulesCase(OTHER_RULES), 6 := RulesCase(OTHER_RULES),
    7 := RulesCase(OTHER_RULES), 8 := RulesCase(OTHER_RULES), 9 := RulesCase(OTHER_RULES),
    10 := RulesCase(OTHER_RULES), 11 := RulesCase(OTHER_RULES), 12 := RulesCase(OTHER_RULES),
    13 := RulesCase(OTHER_RULES), 14 := RulesCase(OTHER_RULES), 15 := RulesCase(OTHER_RULES),
    16 := RulesCase(OTHER_RULES), 18 := RulesCase(REPEATED_RULES), 19 := RulesCase(MAP_RULES),
    20 := RulesCase(OTHER_RULES), 21 := RulesCase(OTHER_RULES), 22 := RulesCase(OTHER_RULES),
    28 := RulesCase(OTHER_RULES),
    23 := FieldType(1, Submessage(RULE)),
    25 := FieldType(2, Bool),
    27 := FieldType(3, Enum(IGNORES)),
    29 := FieldType(4, Text)])

  const REPEATED_RULES_FIELDS := Table([false, false, false, false], map[
    1 := FieldType(0, Uint64),
    2 := FieldType(1, Uint64),
    3 := FieldType(2, Bool),
    4 := FieldType(3, Submessage(FIELD_RULES))])

  const MAP_RULES_FIELDS := Table([false, false, false, false], map[
    1 := FieldType(0, Uint64),
    2 := FieldType(1, Uint64),
    4 := FieldType(2, Submessage(FIELD_RULES)),
    5 := FieldType(3, Submessage(FIELD_RULES))])

  /** `less_than` and `greater_than` are oneofs of two scalars. */
  const INT32_RULES_FIELDS := Table([false, false, false, true, true, true], map[
    1 := FieldType(0, Int32),
    2 := FieldType(1, Int32),
    3 := FieldType(1, Int32),
    4 := FieldType(2, Int32),
    5 := FieldType(2, Int32),
    6 := FieldType(3, Int32),
    7 := FieldType(4, Int32),
    8 := FieldType(5, Int32)])

  const RULE_FIELDS := Table([false, false, false], map[
    1 := FieldType(0, Text),
    2 := FieldType(1, Text),
    3 := FieldType(2, Text)])

  function TableOf(ty: TypeId): Table {
    if ty == VIOLATIONS then VIOLATIONS_FIELDS
    else if ty == VIOLATION then VIOLATION_FIELDS
    else if ty == FIELD_PATH then FIELD_PATH_FIELDS
    else if ty == FIELD_PATH_ELEMENT then FIELD_PATH_ELEMENT_FIELDS
    else if ty == FIELD_RULES then FIELD_RULES_FIELDS
    else if ty == REPEATED_RULES then REPEATED_RULES_FIELDS
    else if ty == MAP_RULES then MAP_RULES_FIELDS
    else if ty == INT32_RULES then INT32_RULES_FIELDS
    else if ty == RULE then RULE_FIELDS
    else Table([], map[])
  }

  const VALIDATE: Schema := map ty: TypeId | 0 <= ty <= OTHER_RULES :: TableOf(ty)

  ghost predicate HasTypes(schema: Schema) {
    forall ty :: 0 <= ty <= OTHER_RULES ==> ty in schema
  }

  lemma {:induction false} FieldRulesOk(schema: Schema)
    requires HasTypes(schema)
    ensures TableOk(schema, FIELD_RULES_FIELDS)
  {
  }

  lemma {:induction false} ContainersOk(schema: Schema)
    requires HasTypes(schema)
    ensures TableOk(schema, REPEATED_RULES_FIELDS) && TableOk(schema, MAP_RULES_FIELDS)
  {
  }

  lemma {:induction false} LeavesOk(schema: Schema)
    ensures TableOk(schema, INT32_RULES_FIELDS) && TableOk(schema, RULE_FIELDS)
  {
  }

  lemma {:induction false} ViolationsOk(schema: Schema)
    requires HasTypes(schema)
    ensures TableOk(schema, VIOLATIONS_FIELDS) && TableOk(schema, VIOLATION_FIELDS)
    ensures TableOk(schema, FIELD_PATH_FIELDS)
  {
  }

  lemma {:induction false} ElementOk(schema: Schema)
    ensures TableOk(schema, FIELD_PATH_ELEMENT_FIELDS)
  {
  }

  lemma {:induction false} TableOfOk(schema: Schema, ty: TypeId)
    requires HasTypes(schema)
    ensures TableOk(schema, TableOf(ty))
  {
    if ty <= FIELD_PATH {
      ViolationsOk(schema);
    } else if ty == FIELD_PATH_ELEMENT {
      ElementOk(schema);
    } else if ty == FIELD_RULES {
      FieldRulesOk(schema);
    } else if ty <= MAP_RULES {
      ContainersOk(schema);
    } else if ty <= RULE {
      LeavesOk(schema);
    }
  }

  /** So every result of `CodecLaws` holds of every type in the table. */
  lemma {:induction false} ValidateSchemaOk()
    ensures SchemaOk(VALIDATE)
  {
    forall ty | ty in VALIDATE ensures TableOk(VALIDATE, VALIDATE[ty]) {
      TableOfOk(VALIDATE, ty);
    }
  }
}
