/**
 Python messages as immutable trees, and the walk that recovers the value and the
 field that a path names.
 */
module FieldPaths {
  import opened Wrappers
  import Codec
  import E = Elements

  datatype Runtime = ProtobufPy | Google

  /** A descriptor's field. `localName` and `oneof` are protobuf-py's attributes. */
  datatype FieldDesc = FieldDesc(number: nat, name: string, localName: string, oneof: Option<string>)

  /** What a path element's subscript holds, and what keys a `dict`. */
  datatype Key = IntKey(i: int) | BitKey(b: bool) | TextKey(s: string)

  datatype Py =
    | NoneValue
    | Scalar(key: Key)
    | Other(tag: int)
    | ListValue(items: seq<Py>)
    | DictValue(entries: map<Key, Py>)
    | MessageValue(runtime: Runtime, fields: seq<FieldDesc>, attrs: map<string, Py>)
    | Selected(field: string, value: Py)

  /** One element of a path, as the walk reads it; an absent number reads as 0. */
  datatype Step = Step(number: int, name: Option<string>, subscript: Option<Key>)

  // -------------------------------------------------------------- reading fields

  function ByNumber(fields: seq<FieldDesc>, number: int): (r: Option<FieldDesc>)
    ensures r.Some? ==> r.value in fields && r.value.number == number
  {
    if fields == [] then None
    else if fields[0].number == number then Some(fields[0])
    else ByNumber(fields[1..], number)
  }

  function ByName(fields: seq<FieldDesc>, name: string): (r: Option<FieldDesc>)
    ensures r.Some? ==> r.value in fields && r.value.name == name
  {
    if fields == [] then None
    else if fields[0].name == name then Some(fields[0])
    else ByName(fields[1..], name)
  }

  /** By number if that finds one, else by name. */
  function FindField(fields: seq<FieldDesc>, step: Step): (r: Option<FieldDesc>)
    ensures r.Some? ==> r.value in fields
  {
    if step.number != 0 && ByNumber(fields, step.number).Some? then ByNumber(fields, step.number)
    else if step.name.Some? then ByName(fields, step.name.value)
    else None
  }

  lemma {:induction false} ByNumberFirst(fields: seq<FieldDesc>, number: int)
    ensures match ByNumber(fields, number)
            case None => forall i :: 0 <= i < |fields| ==> fields[i].number != number
            case Some(field) =>
              exists i :: 0 <= i < |fields| && fields[i] == field && field.number == number
                          && forall k :: 0 <= k < i ==> fields[k].number != number
  {
    if fields != [] {
      if fields[0].number == number {
        assert ByNumber(fields, number) == Some(fields[0]);
      } else {
        ByNumberFirst(fields[1..], number);
        if ByNumber(fields[1..], number).Some? {
          var i :| 0 <= i < |fields[1..]| && fields[1..][i] == ByNumber(fields, number).value
                   && forall k :: 0 <= k < i ==> fields[1..][k].number != number;
          assert forall k :: 0 < k < i + 1 ==> fields[k] == fields[1..][k - 1];
          assert fields[i + 1] == fields[1..][i];
        }
      }
    }
  }

  lemma {:induction false} ByNameFirst(fields: seq<FieldDesc>, name: string)
    ensures match ByName(fields, name)
            case None => forall i :: 0 <= i < |fields| ==> fields[i].name != name
            case Some(field) =>
              exists i :: 0 <= i < |fields| && fields[i] == field && field.name == name
                          && forall k :: 0 <= k < i ==> fields[k].name != name
  {
    if fields != [] {
      if fields[0].name == name {
        assert ByName(fields, name) == Some(fields[0]);
      } else {
        ByNameFirst(fields[1..], name);
        if ByName(fields[1..], name).Some? {
          var i :| 0 <= i < |fields[1..]| && fields[1..][i] == ByName(fields, name).value
                   && forall k :: 0 <= k < i ==> fields[1..][k].name != name;
          assert forall k :: 0 < k < i + 1 ==> fields[k] == fields[1..][k - 1];
          assert fields[i + 1] == fields[1..][i];
        }
      }
    }
  }

  /** The first field with the element's number; if it has none, or no field has it, the first with its name. */
  lemma {:induction false} FieldFound(fields: seq<FieldDesc>, step: Step)
    ensures var numbered := step.number != 0 && exists i :: 0 <= i < |fields| && fields[i].number == step.number;
            match FindField(fields, step)
            case None => !numbered && forall i :: 0 <= i < |fields| ==> Some(fields[i].name) != step.name
            case Some(field) =>
              exists i :: 0 <= i < |fields| && fields[i] == field &&
                if numbered then
                  field.number == step.number && forall k :: 0 <= k < i ==> fields[k].number != step.number
                else Some(field.name) == step.name && forall k :: 0 <= k < i ==> Some(fields[k].name) != step.name
  {
    ByNumberFirst(fields, step.number);
    if step.name.Some? {
      ByNameFirst(fields, step.name.value);
    }
  }

  /** Where Python keeps a value: in an attribute, or under a name inside a oneof's attribute. */
  datatype FieldInfo = FieldInfo(attr: string, oneof: Option<(string, string)>)

  function FieldInfoOf(runtime: Runtime, field: FieldDesc): FieldInfo {
    match runtime
    case Google => FieldInfo(field.name, None)
    case ProtobufPy =>
      FieldInfo(field.localName, if field.oneof.Some? then Some((field.oneof.value, field.name)) else None)
  }

  /** What a read gives; a failed read counts as unset. */
  function Fetch(info: FieldInfo, attrs: map<string, Py>): Option<Py> {
    match info.oneof
    case Some((oneof, name)) =>
      if oneof in attrs && attrs[oneof].Selected? && attrs[oneof].field == name then Some(attrs[oneof].value) else None
    case None =>
      if info.attr in attrs && !attrs[info.attr].NoneValue? then Some(attrs[info.attr]) else None
  }

  function StepElement(current: Py, step: Step): Option<(Py, FieldDesc)> {
    if !current.MessageValue? then None else
    var field :- FindField(current.fields, step);
    var value :- Fetch(FieldInfoOf(current.runtime, field), current.attrs);
    Some((value, field))
  }

  /** Python's subscript: a list also takes negative positions. */
  function GetItem(current: Py, key: Key): Option<Py> {
    match (current, key)
    case (ListValue(items), IntKey(i)) =>
      if 0 <= i < |items| then Some(items[i])
      else if -|items| <= i < 0 then Some(items[|items| + i])
      else None
    case (DictValue(entries), _) => if key in entries then Some(entries[key]) else None
    case _ => None
  }

  // --------------------------------------------------------------------- the walk

  /** The value and the leaf field; both are best effort. */
  datatype Found = Found(value: Option<Py>, leaf: Option<FieldDesc>)

  const NOTHING := Found(None, None)

  function Follow(current: Py, leaf: Option<FieldDesc>, steps: seq<Step>, forKey: bool): Found {
    if steps == [] then Found(Some(current), leaf)
    else
      match StepElement(current, steps[0])
      case None => NOTHING
      case Some((value, field)) =>
        match steps[0].subscript
        case None => Follow(value, Some(field), steps[1..], forKey)
        case Some(key) =>
          if forKey && |steps| == 1 then Found(Some(Scalar(key)), Some(field))
          else
            match GetItem(value, key)
            case None => NOTHING
            case Some(item) => Follow(item, Some(field), steps[1..], forKey)
  }

  /** An absent or empty path finds nothing. */
  function FieldPathValue(message: Py, path: Option<seq<Step>>, forKey: bool): Found {
    if path.None? || path.value == [] then NOTHING else Follow(message, None, path.value, forKey)
  }

  method WalkFieldPath(message: Py, path: Option<seq<Step>>, forKey: bool) returns (r: Found)
    ensures r == FieldPathValue(message, path, forKey)
  {
    if path.None? || path.value == [] {
      return NOTHING;
    }
    var steps := path.value;
    var current := message;
    var leaf: Option<FieldDesc> := None;
    var index := 0;
    assert steps[0..] == steps;
    while index < |steps|
      invariant 0 <= index <= |steps|
      invariant Follow(message, None, steps, forKey) == Follow(current, leaf, steps[index..], forKey)
    {
      assert steps[index..][1..] == steps[index + 1..];
      var hop := StepElement(current, steps[index]);
      if hop.None? {
        return NOTHING;
      }
      leaf := Some(hop.value.1);
      current := hop.value.0;
      if steps[index].subscript.Some? {
        var key := steps[index].subscript.value;
        if forKey && index + 1 == |steps| {
          return Found(Some(Scalar(key)), leaf);
        }
        var item := GetItem(current, key);
        if item.None? {
          return NOTHING;
        }
        current := item.value;
      }
      index := index + 1;
    }
    r := Found(Some(current), leaf);
  }

  // -------------------------------------------------------------------- locations

  /** A place below a message: the field at a position, then maybe an item of it. */
  datatype Place = Place(position: nat, key: Option<Key>)

  /** What a message holds in the field at a position, wherever its runtime keeps it. */
  function Held(message: Py, position: nat): Option<Py> {
    if !message.MessageValue? || position >= |message.fields| then None
    else
      var field, attrs := message.fields[position], message.attrs;
      if message.runtime.Google? then
        if field.name in attrs && !attrs[field.name].NoneValue? then Some(attrs[field.name]) else None
      else if field.oneof.Some? then
        var selected := if field.oneof.value in attrs then attrs[field.oneof.value] else NoneValue;
        if selected.Selected? && selected.field == field.name then Some(selected.value) else None
      else if field.localName in attrs && !attrs[field.localName].NoneValue? then Some(attrs[field.localName])
      else None
  }

  /** The item that a place leads to. */
  function HeldAt(root: Py, place: Place): Option<Py> {
    var held :- Held(root, place.position);
    match (held, place.key)
    case (_, None) => Some(held)
    case (ListValue(items), Some(IntKey(i))) =>
      if 0 <= i < |items| then Some(items[i])
      else if -|items| <= i < 0 then Some(items[|items| + i])
      else None
    case (DictValue(entries), Some(key)) => if key in entries then Some(entries[key]) else None
    case _ => None
  }

  /** The value a sequence of places leads to. */
  function ValueAt(root: Py, places: seq<Place>): Option<Py> {
    if places == [] then Some(root) else
    var item :- HeldAt(root, places[0]);
    ValueAt(item, places[1..])
  }

  /** The message that holds the last place's field. */
  function HolderAt(root: Py, places: seq<Place>): Option<Py>
    requires places != []
  {
    ValueAt(root, places[..|places| - 1])
  }

  ghost predicate UniqueNumbers(fields: seq<FieldDesc>) {
    && (forall i :: 0 <= i < |fields| ==> 1 <= fields[i].number < 0x2000_0000)
    && forall i, k :: 0 <= i < k < |fields| ==> fields[i].number != fields[k].number
  }

  /** Every message on the way has fields with unique, valid numbers. */
  ghost predicate UniqueAlong(root: Py, places: seq<Place>)
    decreases |places|
  {
    places != [] ==>
      && (root.MessageValue? ==> UniqueNumbers(root.fields))
      && match HeldAt(root, places[0])
         case None => true
         case Some(item) => UniqueAlong(item, places[1..])
  }

  function StepTo(field: FieldDesc, key: Option<Key>): Step {
    Step(E.FieldNumber(field.number), Some(field.name), key)
  }

  /** The path that addresses a location. */
  function PathTo(root: Py, places: seq<Place>): seq<Step> {
    if places == [] || !root.MessageValue? || places[0].position >= |root.fields| then []
    else
      var step := StepTo(root.fields[places[0].position], places[0].key);
      match HeldAt(root, places[0])
      case None => [step]
      case Some(item) => [step] + PathTo(item, places[1..])
  }

  lemma {:induction false} ByNumberUnique(fields: seq<FieldDesc>, position: nat)
    requires UniqueNumbers(fields) && position < |fields|
    ensures ByNumber(fields, fields[position].number) == Some(fields[position])
  {
    if position > 0 {
      assert fields[0].number != fields[position].number;
      assert UniqueNumbers(fields[1..]);
      ByNumberUnique(fields[1..], position - 1);
    }
  }

  lemma {:induction false} StepHolds(root: Py, position: nat, key: Option<Key>)
    requires root.MessageValue? && UniqueNumbers(root.fields) && Held(root, position).Some?
    ensures position < |root.fields|
    ensures StepElement(root, StepTo(root.fields[position], key))
         == Some((Held(root, position).value, root.fields[position]))
  {
    ByNumberUnique(root.fields, position);
  }

  /** The leaf field of a location. */
  function LeafOf(root: Py, places: seq<Place>): Option<FieldDesc> {
    if places == [] then None
    else
      match HolderAt(root, places)
      case None => None
      case Some(holder) =>
        var position := places[|places| - 1].position;
        if holder.MessageValue? && position < |holder.fields| then Some(holder.fields[position]) else None
  }

  /** One place is one hop of the walk. */
  lemma {:induction false} Hop(root: Py, places: seq<Place>, leaf: Option<FieldDesc>, forKey: bool)
    requires places != [] && HeldAt(root, places[0]).Some? && UniqueAlong(root, places)
    requires forKey ==> PathTo(HeldAt(root, places[0]).value, places[1..]) != []
    ensures root.MessageValue? && places[0].position < |root.fields|
    ensures var item, field := HeldAt(root, places[0]).value, root.fields[places[0].position];
            && PathTo(root, places) == [StepTo(field, places[0].key)] + PathTo(item, places[1..])
            && Follow(root, leaf, PathTo(root, places), forKey)
               == Follow(item, Some(field), PathTo(item, places[1..]), forKey)
            && UniqueAlong(item, places[1..])
  {
    StepHolds(root, places[0].position, places[0].key);
    assert PathTo(root, places)[1..] == PathTo(HeldAt(root, places[0]).value, places[1..]);
  }

  lemma {:induction false} LeafOfRest(root: Py, places: seq<Place>)
    requires |places| > 1 && HeldAt(root, places[0]).Some?
    ensures LeafOf(root, places) == LeafOf(HeldAt(root, places[0]).value, places[1..])
    ensures HolderAt(root, places) == HolderAt(HeldAt(root, places[0]).value, places[1..])
  {
    assert places[1..][..|places| - 2] == places[..|places| - 1][1..];
    assert places[..|places| - 1][0] == places[0];
  }

  /**
   Walking the path of a location gives the value there and its leaf field, in both
   runtimes and through oneof members.
   */
  lemma {:induction false} FieldPathRoundTrip(root: Py, places: seq<Place>, leaf: Option<FieldDesc>)
    requires places != [] && ValueAt(root, places).Some? && UniqueAlong(root, places)
    ensures PathTo(root, places) != []
    ensures Follow(root, leaf, PathTo(root, places), false) == Found(ValueAt(root, places), LeafOf(root, places))
    decreases |places|
  {
    var item := HeldAt(root, places[0]).value;
    Hop(root, places, leaf, false);
    if |places| == 1 {
      assert places[1..] == [] && places[..0] == [];
    } else {
      LeafOfRest(root, places);
      FieldPathRoundTrip(item, places[1..], Some(root.fields[places[0].position]));
    }
  }

  /**
   A violation about a map key: the value is the key itself, whether or not the map
   still has it, and the leaf is the map's field.
   */
  lemma {:induction false} KeyPathRoundTrip(root: Py, places: seq<Place>, leaf: Option<FieldDesc>)
    requires places != [] && places[|places| - 1].key.Some?
    requires HolderAt(root, places).Some? && Held(HolderAt(root, places).value, places[|places| - 1].position).Some?
    requires UniqueAlong(root, places)
    ensures Follow(root, leaf, PathTo(root, places), true)
         == Found(Some(Scalar(places[|places| - 1].key.value)), LeafOf(root, places))
    decreases |places|
  {
    if |places| == 1 {
      assert places[..0] == [] && places[1..] == [];
      StepHolds(root, places[0].position, places[0].key);
      assert |PathTo(root, places)| == 1;
    } else {
      assert places[..|places| - 1][0] == places[0];
      var item := HeldAt(root, places[0]).value;
      LeafOfRest(root, places);
      PathToNotEmpty(item, places[1..]);
      Hop(root, places, leaf, true);
      KeyPathRoundTrip(item, places[1..], Some(root.fields[places[0].position]));
    }
  }

  lemma {:induction false} PathToNotEmpty(root: Py, places: seq<Place>)
    requires places != [] && HolderAt(root, places).Some?
    requires Held(HolderAt(root, places).value, places[|places| - 1].position).Some?
    ensures PathTo(root, places) != []
  {
    if |places| == 1 {
      assert places[..0] == [];
    } else {
      assert places[..|places| - 1][0] == places[0];
    }
  }

  /** Whatever a walk returns is a value the message holds at some location. */
  lemma {:induction false} WalkIsSound(root: Py, leaf: Option<FieldDesc>, steps: seq<Step>) returns (places: seq<Place>)
    requires Follow(root, leaf, steps, false).value.Some?
    ensures |places| == |steps| && ValueAt(root, places) == Follow(root, leaf, steps, false).value
    decreases |steps|
  {
    if steps == [] {
      places := [];
    } else {
      var (value, field) := StepElement(root, steps[0]).value;
      var position :| 0 <= position < |root.fields| && root.fields[position] == field;
      assert Held(root, position) == Some(value);
      var item := if steps[0].subscript.None? then value else GetItem(value, steps[0].subscript.value).value;
      var rest := WalkIsSound(item, Some(field), steps[1..]);
      places := [Place(position, steps[0].subscript)] + rest;
      assert places[1..] == rest;
    }
  }
}
