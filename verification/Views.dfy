/**
 Views of live messages and lists. A message view keeps the field values it has
 fetched in a buffer of once-cells; a list view keeps its elements. Buffers of
 dropped views are emptied and reused by later ones.
 */
module Views {
  import opened Wrappers

  /** A Python object, and an error a read raised. */
  type Py(==, !new, 0)
  type ReadError(==, !new, 0)

  /** Empty, or filled: with a value, or with the knowledge that there is none. */
  type Cell = Option<Option<Py>>

  predicate Blank(cells: seq<Cell>) {
    forall i :: 0 <= i < |cells| ==> cells[i] == None
  }

  /** A growable array; the pool takes back those with capacity. */
  datatype Vec = Vec(elements: seq<Py>, capacity: nat)

  function Extended(v: Vec, more: seq<Py>): Vec {
    var elements := v.elements + more;
    Vec(elements, if |elements| > v.capacity then |elements| else v.capacity)
  }

  function ItemAt(items: seq<Py>, index: nat): Option<Py> {
    if index < |items| then Some(items[index]) else None
  }

  /** The position of the last length that is at least `len`. */
  function RPosition(lengths: seq<nat>, len: nat): (r: Option<nat>)
    ensures r.Some? ==> r.value < |lengths| && lengths[r.value] >= len
    ensures r.Some? ==> forall i :: r.value < i < |lengths| ==> lengths[i] < len
    ensures r.None? ==> forall i :: 0 <= i < |lengths| ==> lengths[i] < len
  {
    if lengths == [] then None
    else if lengths[|lengths| - 1] >= len then Some(|lengths| - 1)
    else RPosition(lengths[..|lengths| - 1], len)
  }

  /** Removes an element, putting the last one in its place. */
  function SwapRemove<T>(s: seq<T>, i: nat): (r: seq<T>)
    requires i < |s|
    ensures |r| == |s| - 1
    ensures forall k :: 0 <= k < |r| ==> r[k] == if k == i then s[|s| - 1] else s[k]
  {
    s[i := s[|s| - 1]][..|s| - 1]
  }

  // ------------------------------------------------------------- the live objects

  /** The buffers of one validation, waiting to be reused. */
  class Ctx {
    var freeValues: seq<array<Cell>>
    var freeItems: seq<Vec>

    constructor ()
      ensures freeValues == [] && freeItems == [] && Valid()
    {
      freeValues := [];
      freeItems := [];
    }

    ghost predicate Valid()
      reads this, freeValues
    {
      ValuesValid() && ItemsValid()
    }

    /** Pooled buffers are distinct and blank, and have room for something. */
    ghost predicate ValuesValid()
      reads `freeValues, freeValues
    {
      && (forall i :: 0 <= i < |freeValues| ==> freeValues[i].Length > 0 && Blank(freeValues[i][..]))
      && (forall i, k :: 0 <= i < k < |freeValues| ==> freeValues[i] != freeValues[k])
    }

    ghost predicate ItemsValid()
      reads `freeItems
    {
      forall i :: 0 <= i < |freeItems| ==> freeItems[i].elements == [] && freeItems[i].capacity > 0
    }

    ghost function Lengths(): seq<nat>
      reads this
    {
      seq(|freeValues|, i requires 0 <= i < |freeValues| reads this => freeValues[i].Length)
    }

    /** A blank buffer of at least `len` cells: the last pooled one that fits, or a new one. */
    method TakeValues(len: nat) returns (values: array<Cell>)
      requires ValuesValid()
      modifies `freeValues
      ensures ValuesValid() && values.Length >= len && Blank(values[..])
      ensures values !in freeValues
      ensures match if len == 0 then None else RPosition(old(Lengths()), len)
              case None => fresh(values) && values.Length == len && freeValues == old(freeValues)
              case Some(i) => values == old(freeValues)[i] && freeValues == SwapRemove(old(freeValues), i)
    {
      if len == 0 {
        values := new Cell[0];
        return;
      }
      var found := LastFitting(len);
      match found
      case Some(i) =>
        values := freeValues[i];
        freeValues := SwapRemove(freeValues, i);
      case None =>
        values := new Cell[len](_ => None);
    }

    /** Searched from the end. */
    method LastFitting(len: nat) returns (found: Option<nat>)
      ensures found == RPosition(Lengths(), len)
    {
      var i := |freeValues|;
      assert Lengths()[..i] == Lengths();
      while i > 0
        invariant 0 <= i <= |freeValues|
        invariant RPosition(Lengths(), len) == RPosition(Lengths()[..i], len)
      {
        i := i - 1;
        assert Lengths()[..i + 1][..i] == Lengths()[..i];
        if freeValues[i].Length >= len {
          return Some(i);
        }
      }
      found := None;
    }
  }

  /** A view of a message object; its cells are filled by the first read. */
  class MessageView {
    const ctx: Ctx
    const slots: nat
    var values: array<Cell>

    /** The buffer is the view's own, and no slot of its type is out of bounds. */
    ghost predicate Valid()
      reads this, ctx`freeValues
    {
      values !in ctx.freeValues && slots <= values.Length
    }

    constructor (c: Ctx, fields: nat)
      requires c.ValuesValid()
      modifies c`freeValues
      ensures ctx == c && slots == fields && Valid() && c.ValuesValid()
      ensures Blank(values[..]) && (fresh(values) || values in old(c.freeValues))
      ensures forall b :: b in c.freeValues ==> b in old(c.freeValues)
    {
      var taken := c.TakeValues(fields);
      ctx := c;
      slots := fields;
      values := taken;
    }

    /**
     Reads `slot`: the first fetch that succeeded. `fetched` is
     what a fetch would give now; a failed one leaves the cell empty.
     */
    method Value(slot: nat, fetched: Result<Option<Py>, ReadError>) returns (r: Result<Option<Py>, ReadError>)
      requires Valid() && slot < slots
      modifies values
      ensures values == old(values)
      ensures r == if old(values[slot]).Some? then Ok(old(values[slot]).value) else fetched
      ensures values[..] == old(values[..])[slot := if r.Ok? then Some(r.value) else None]
    {
      if values[slot].None? {
        if fetched.Err? {
          return fetched;
        }
        values[slot] := Some(fetched.value);
      }
      r := Ok(values[slot].value);
    }

    /** Empties the buffer and returns it to the context. */
    method Drop()
      requires Valid() && ctx.ValuesValid()
      modifies this, ctx`freeValues, values
      ensures ctx.ValuesValid() && fresh(values)
      ensures ctx.freeValues == old(ctx.freeValues) + (if old(values).Length > 0 then [old(values)] else [])
    {
      var emptied := values;
      for i := 0 to emptied.Length
        invariant forall k :: 0 <= k < i ==> emptied[k] == None
        modifies emptied
      {
        emptied[i] := None;
      }
      values := new Cell[0];
      if emptied.Length > 0 {
        ctx.freeValues := ctx.freeValues + [emptied];
      }
    }
  }

  /** A view of a list object, which is absent where the field was never set. */
  class ListView {
    const ctx: Ctx
    const present: bool
    var items: Option<Vec>

    /** What has been read, without the buffer it is in. */
    ghost function Held(): FreshList
      reads this
    {
      FreshItems(ListInfo(present, items))
    }

    constructor (c: Ctx, isSet: bool)
      ensures ctx == c && present == isSet && items == None
    {
      ctx := c;
      present := isSet;
      items := None;
    }

    /**
     The elements, read once: `listed` is what reading them now would give. They are
     put in a pooled buffer, which a failed read loses.
     */
    method Items(listed: Result<seq<Py>, ReadError>) returns (r: Result<seq<Py>, ReadError>)
      requires ctx.ItemsValid()
      modifies this, ctx`freeItems
      ensures ctx.ItemsValid()
      ensures r == if old(items).Some? then Ok(old(items).value.elements) else if present then listed else Ok([])
      ensures r.Ok? <==> items.Some?
      ensures r.Ok? ==> items.value.elements == r.value
      ensures old(items).Some? ==> items == old(items)
      ensures old(items).Some? || !present ==> ctx.freeItems == old(ctx.freeItems)
      ensures old(items).None? && present ==>
                ctx.freeItems == if old(ctx.freeItems) == [] then [] else old(ctx.freeItems)[..|old(ctx.freeItems)| - 1]
    {
      if items.Some? {
        return Ok(items.value.elements);
      }
      var filled := Vec([], 0);
      if present {
        if ctx.freeItems != [] {
          var last := |ctx.freeItems| - 1;
          filled := ctx.freeItems[last];
          ctx.freeItems := ctx.freeItems[..last];
        }
        if listed.Err? {
          return listed;
        }
        assert filled.elements == [] && [] + listed.value == listed.value;
        filled := Extended(filled, listed.value);
      }
      items := Some(filled);
      r := Ok(filled.elements);
    }

    method Get(index: nat, listed: Result<seq<Py>, ReadError>) returns (r: Result<Option<Py>, ReadError>)
      requires ctx.ItemsValid()
      modifies this, ctx`freeItems
      ensures ctx.ItemsValid()
      ensures old(items).Some? ==>
                r == Ok(if index < |old(items).value.elements| then Some(old(items).value.elements[index]) else None)
      ensures old(items).None? && !present ==> r == Ok(None)
      ensures old(items).None? && present ==>
                r == match listed
                     case Ok(all) => Ok(if index < |all| then Some(all[index]) else None)
                     case Err(e) => Err(e)
      ensures r.Ok? <==> items.Some?
      ensures old(items).Some? ==> items == old(items)
      ensures old(items).None? && items.Some? ==> items.value.elements == if present then listed.value else []
    {
      var elements := Items(listed);
      if elements.Err? {
        return Err(elements.error);
      }
      r := Ok(ItemAt(elements.value, index));
    }

    /** Asks the object, `counted`, only while the elements have not been read. */
    method Len(counted: Result<nat, ReadError>) returns (r: Result<nat, ReadError>)
      ensures r == if items.Some? then Ok(|items.value.elements|) else if present then counted else Ok(0)
    {
      match items
      case Some(read) => r := Ok(|read.elements|);
      case None => r := if present then counted else Ok(0);
    }

    /** Empties the buffer and returns it, if it has capacity. */
    method Drop()
      requires ctx.ItemsValid()
      modifies this, ctx`freeItems
      ensures ctx.ItemsValid() && items == None
      ensures ctx.freeItems == old(ctx.freeItems)
                               + (if old(items).Some? && old(items).value.capacity > 0
                                  then [Vec([], old(items).value.capacity)] else [])
    {
      if items.None? {
        return;
      }
      var cleared := Vec([], items.value.capacity);
      items := None;
      if cleared.capacity > 0 {
        ctx.freeItems := ctx.freeItems + [cleared];
      }
    }
  }

  // --------------------------------------------------------- a whole validation

  type Id = nat

  /** What a validation does with its views, with what each fetch would give. */
  datatype Op =
    | CreateMessage(view: Id, fields: nat)
    | Read(view: Id, slot: nat, fetched: Result<Option<Py>, ReadError>)
    | DropMessage(view: Id)
    | CreateList(view: Id, present: bool)
    | Get(view: Id, index: nat, listed: Result<seq<Py>, ReadError>)
    | Length(view: Id, counted: Result<nat, ReadError>)
    | DropList(view: Id)

  datatype Output = Nothing | Value(value: Result<Option<Py>, ReadError>) | Count(count: Result<nat, ReadError>)

  datatype MessageInfo = MessageInfo(fields: nat, buffer: nat)

  datatype ListInfo = ListInfo(present: bool, items: Option<Vec>)

  /** With pooling: buffers live in a store, addressed by position. */
  datatype Pooled = Pooled(
    store: seq<seq<Cell>>,
    freeValues: seq<nat>,
    freeItems: seq<Vec>,
    messages: map<Id, MessageInfo>,
    lists: map<Id, ListInfo>)

  function Blanks(n: nat): (cells: seq<Cell>)
    ensures |cells| == n && Blank(cells)
  {
    seq(n, _ => None)
  }

  /** The lengths of the pooled buffers. */
  function FreeLengths(s: Pooled): seq<nat>
    requires forall i :: 0 <= i < |s.freeValues| ==> s.freeValues[i] < |s.store|
  {
    seq(|s.freeValues|, i requires 0 <= i < |s.freeValues| => |s.store[s.freeValues[i]]|)
  }

  predicate InBounds(s: Pooled) {
    && (forall i :: 0 <= i < |s.freeValues| ==> s.freeValues[i] < |s.store|)
    && (forall v :: v in s.messages ==>
          s.messages[v].buffer < |s.store| && s.messages[v].fields <= |s.store[s.messages[v].buffer]|)
  }

  /** What an op needs of the views that exist. */
  predicate Enabled(messages: map<Id, nat>, lists: set<Id>, op: Op) {
    match op
    case CreateMessage(v, _) => v !in messages
    case Read(v, slot, _) => v in messages && slot < messages[v]
    case DropMessage(v) => v in messages
    case CreateList(v, _) => v !in lists
    case Get(v, _, _) => v in lists
    case Length(v, _) => v in lists
    case DropList(v) => v in lists
  }

  function Sizes(s: Pooled): map<Id, nat> {
    map v | v in s.messages :: s.messages[v].fields
  }

  /** A message view: the last pooled buffer that fits, or a new one. */
  function Created(s: Pooled, v: Id, fields: nat): Pooled
    requires InBounds(s)
  {
    match if fields == 0 then None else RPosition(FreeLengths(s), fields)
    case None =>
      s.(store := s.store + [Blanks(fields)], messages := s.messages[v := MessageInfo(fields, |s.store|)])
    case Some(found) =>
      s.(freeValues := SwapRemove(s.freeValues, found),
         messages := s.messages[v := MessageInfo(fields, s.freeValues[found])])
  }

  function Set(s: Pooled, buffer: nat, slot: nat, value: Option<Py>): Pooled
    requires buffer < |s.store| && slot < |s.store[buffer]|
  {
    s.(store := s.store[buffer := s.store[buffer][slot := Some(value)]])
  }

  function Dropped(s: Pooled, v: Id): Pooled
    requires InBounds(s) && v in s.messages
  {
    var buffer := s.messages[v].buffer;
    var len := |s.store[buffer]|;
    s.(store := s.store[buffer := Blanks(len)],
       freeValues := s.freeValues + (if len > 0 then [buffer] else []),
       messages := s.messages - {v})
  }

  /** The list's elements are fetched all at once, into a pooled buffer if there is one. */
  function ListRead(s: Pooled, v: Id, index: nat, listed: Result<seq<Py>, ReadError>): (Pooled, Output)
    requires v in s.lists
  {
    var ListInfo(present, items) := s.lists[v];
    if items.Some? then (s, Value(Ok(ItemAt(items.value.elements, index))))
    else if !present then
      (s.(lists := s.lists[v := ListInfo(present, Some(Vec([], 0)))]), Value(Ok(None)))
    else
      var last := |s.freeItems| - 1;
      var taken := if s.freeItems == [] then Vec([], 0) else s.freeItems[last];
      var free := if s.freeItems == [] then [] else s.freeItems[..last];
      (match listed
       case Err(e) => (s.(freeItems := free), Value(Err(e)))  // the buffer is lost with the failure
       case Ok(more) =>
         var filled := Extended(taken, more);
         (s.(freeItems := free, lists := s.lists[v := ListInfo(present, Some(filled))]),
          Value(Ok(ItemAt(filled.elements, index)))))
  }

  function ListDropped(s: Pooled, v: Id): Pooled
    requires v in s.lists
  {
    var items := s.lists[v].items;
    s.(freeItems := s.freeItems + (if items.Some? && items.value.capacity > 0
                                   then [Vec([], items.value.capacity)] else []),
       lists := s.lists - {v})
  }

  function PooledStep(s: Pooled, op: Op): (r: (Pooled, Output))
    requires InBounds(s) && Enabled(Sizes(s), s.lists.Keys, op)
  {
    match op
    case CreateMessage(v, fields) => (Created(s, v, fields), Nothing)
    case Read(v, slot, fetched) =>
      var buffer := s.messages[v].buffer;
      (match s.store[buffer][slot]
       case Some(value) => (s, Value(Ok(value)))
       case None =>
         match fetched
         case Err(e) => (s, Value(Err(e)))
         case Ok(value) => (Set(s, buffer, slot, value), Value(Ok(value))))
    case DropMessage(v) => (Dropped(s, v), Nothing)
    case CreateList(v, present) => (s.(lists := s.lists[v := ListInfo(present, None)]), Nothing)
    case Get(v, index, listed) => ListRead(s, v, index, listed)
    case Length(v, counted) =>
      var ListInfo(present, items) := s.lists[v];
      (s, Count(if items.Some? then Ok(|items.value.elements|) else if present then counted else Ok(0)))
    case DropList(v) => (ListDropped(s, v), Nothing)
  }

  // ------------------------------------------------ a fresh buffer for every view

  datatype FreshList = FreshList(present: bool, items: Option<seq<Py>>)

  /** Without pooling: each view remembers what it has read, and nothing else. */
  datatype Fresh = Fresh(messages: map<Id, seq<Cell>>, lists: map<Id, FreshList>)

  function FreshSizes(f: Fresh): map<Id, nat> {
    map v | v in f.messages :: |f.messages[v]|
  }

  function FreshStep(f: Fresh, op: Op): (Fresh, Output)
    requires Enabled(FreshSizes(f), f.lists.Keys, op)
  {
    match op
    case CreateMessage(v, fields) => (f.(messages := f.messages[v := Blanks(fields)]), Nothing)
    case Read(v, slot, fetched) =>
      (match (f.messages[v][slot], fetched)
       case (Some(value), _) => (f, Value(Ok(value)))
       case (None, Err(e)) => (f, Value(Err(e)))
       case (None, Ok(value)) =>
         (f.(messages := f.messages[v := f.messages[v][slot := Some(value)]]), Value(Ok(value))))
    case DropMessage(v) => (f.(messages := f.messages - {v}), Nothing)
    case CreateList(v, present) => (f.(lists := f.lists[v := FreshList(present, None)]), Nothing)
    case Get(v, index, listed) =>
      var FreshList(present, items) := f.lists[v];
      (match (items, if present then listed else Ok([]))
       case (Some(elements), _) => (f, Value(Ok(ItemAt(elements, index))))
       case (None, Err(e)) => (f, Value(Err(e)))
       case (None, Ok(elements)) =>
         (f.(lists := f.lists[v := FreshList(present, Some(elements))]), Value(Ok(ItemAt(elements, index)))))
    case Length(v, counted) =>
      var FreshList(present, items) := f.lists[v];
      (f, Count(if items.Some? then Ok(|items.value|) else if present then counted else Ok(0)))
    case DropList(v) => (f.(lists := f.lists - {v}), Nothing)
  }

  // -------------------------------------------------------------------- refinement

  ghost predicate Distinct(bs: seq<nat>) {
    forall i, k :: 0 <= i < k < |bs| ==> bs[i] != bs[k]
  }

  /** No two live views, nor a live view and the pool, share a buffer. */
  ghost predicate Disjoint(s: Pooled) {
    && Distinct(s.freeValues)
    && (forall v :: v in s.messages ==> s.messages[v].buffer !in s.freeValues)
    && (forall v, u :: v in s.messages && u in s.messages && v != u ==> s.messages[v].buffer != s.messages[u].buffer)
  }

  /** What waits in the pools is blank and worth keeping. */
  ghost predicate PoolsClean(s: Pooled)
    requires InBounds(s)
  {
    && (forall i :: 0 <= i < |s.freeValues| ==> |s.store[s.freeValues[i]]| > 0 && Blank(s.store[s.freeValues[i]]))
    && (forall i :: 0 <= i < |s.freeItems| ==> s.freeItems[i].elements == [] && s.freeItems[i].capacity > 0)
  }

  ghost predicate Inv(s: Pooled) {
    InBounds(s) && Disjoint(s) && PoolsClean(s)
  }

  /** The cells of a view's own slots. */
  function Cells(s: Pooled, v: Id): seq<Cell>
    requires InBounds(s) && v in s.messages
  {
    s.store[s.messages[v].buffer][..s.messages[v].fields]
  }

  function FreshItems(l: ListInfo): FreshList {
    FreshList(l.present, if l.items.None? then None else Some(l.items.value.elements))
  }

  /** The same views, holding the same values. */
  function Abstract(s: Pooled): Fresh
    requires InBounds(s)
  {
    Fresh(map v | v in s.messages :: Cells(s, v), map v | v in s.lists :: FreshItems(s.lists[v]))
  }

  lemma {:induction false} SameSizes(s: Pooled)
    requires InBounds(s)
    ensures FreshSizes(Abstract(s)) == Sizes(s) && Abstract(s).lists.Keys == s.lists.Keys
  {
  }

  /** One view's cells change, or appear; the rest stay. */
  lemma {:induction false} OneViewChanges(s: Pooled, s': Pooled, v: Id, cells: seq<Cell>)
    requires InBounds(s) && InBounds(s') && s'.lists == s.lists
    requires s'.messages.Keys == s.messages.Keys + {v} && Cells(s', v) == cells
    requires forall u :: u in s.messages && u != v ==> Cells(s', u) == Cells(s, u)
    ensures Abstract(s') == Abstract(s).(messages := Abstract(s).messages[v := cells])
  {
    assert Abstract(s').messages == Abstract(s).messages[v := cells];
  }

  lemma {:induction false} SwapRemoveTakesOne(bs: seq<nat>, i: nat)
    requires i < |bs| && Distinct(bs)
    ensures Distinct(SwapRemove(bs, i))
    ensures forall b :: b in SwapRemove(bs, i) <==> b in bs && b != bs[i]
  {
    var r, last := SwapRemove(bs, i), |bs| - 1;
    forall b | b in bs && b != bs[i] ensures b in r {
      var k :| 0 <= k < |bs| && bs[k] == b;
      assert r[if k == last then i else k] == b;
    }
  }

  lemma {:induction false} CreateKeeps(s: Pooled, v: Id, fields: nat)
    requires Inv(s) && v !in s.messages
    ensures Inv(Created(s, v, fields))
  {
    var found := if fields == 0 then None else RPosition(FreeLengths(s), fields);
    if found.Some? {
      SwapRemoveTakesOne(s.freeValues, found.value);
      assert s.freeValues[found.value] in s.freeValues;
    }
  }

  lemma {:induction false} CreatedCells(s: Pooled, v: Id, fields: nat)
    requires Inv(s) && v !in s.messages && Inv(Created(s, v, fields))
    ensures var s' := Created(s, v, fields);
            && s'.lists == s.lists && s'.messages.Keys == s.messages.Keys + {v}
            && Cells(s', v) == Blanks(fields)
            && forall u :: u in s.messages && u != v ==> Cells(s', u) == Cells(s, u)
  {
    var found := if fields == 0 then None else RPosition(FreeLengths(s), fields);
    if found.None? {
      assert forall b :: 0 <= b < |s.store| ==> (s.store + [Blanks(fields)])[b] == s.store[b];
    }
  }

  lemma {:induction false} CreateRefines(s: Pooled, v: Id, fields: nat)
    requires Inv(s) && v !in s.messages
    ensures var s' := Created(s, v, fields);
            Inv(s') && Abstract(s') == Abstract(s).(messages := Abstract(s).messages[v := Blanks(fields)])
  {
    CreateKeeps(s, v, fields);
    CreatedCells(s, v, fields);
    OneViewChanges(s, Created(s, v, fields), v, Blanks(fields));
  }

  lemma {:induction false} SetRefines(s: Pooled, v: Id, slot: nat, value: Option<Py>)
    requires Inv(s) && v in s.messages && slot < s.messages[v].fields
    ensures var s' := Set(s, s.messages[v].buffer, slot, value);
            && Inv(s')
            && Abstract(s') == Abstract(s).(messages := Abstract(s).messages[v := Cells(s, v)[slot := Some(value)]])
  {
    var s' := Set(s, s.messages[v].buffer, slot, value);
    assert Cells(s', v) == Cells(s, v)[slot := Some(value)];
    OneViewChanges(s, s', v, Cells(s, v)[slot := Some(value)]);
  }

  lemma {:induction false} DropKeeps(s: Pooled, v: Id)
    requires Inv(s) && v in s.messages
    ensures Inv(Dropped(s, v))
  {
  }

  lemma {:induction false} DropRefines(s: Pooled, v: Id)
    requires Inv(s) && v in s.messages
    ensures var s' := Dropped(s, v);
            Inv(s') && Abstract(s') == Abstract(s).(messages := Abstract(s).messages - {v})
  {
    DropKeeps(s, v);
    var s' := Dropped(s, v);
    forall u | u in s.messages && u != v ensures Cells(s', u) == Cells(s, u) {
      assert s.messages[u].buffer != s.messages[v].buffer;
    }
    assert Abstract(s').messages == Abstract(s).messages - {v};
  }

  /** What only touches lists, and leaves clean buffers for their elements. */
  lemma {:induction false} ListsChange(s: Pooled, s': Pooled)
    requires Inv(s)
    requires s'.store == s.store && s'.freeValues == s.freeValues && s'.messages == s.messages
    requires forall vec :: vec in s'.freeItems ==> vec in s.freeItems || (vec.elements == [] && vec.capacity > 0)
    ensures Inv(s') && Abstract(s').messages == Abstract(s).messages
  {
    forall i | 0 <= i < |s'.freeItems| ensures s'.freeItems[i].elements == [] && s'.freeItems[i].capacity > 0 {
      assert s'.freeItems[i] in s'.freeItems;
    }
  }

  lemma {:induction false} ListReadRefines(s: Pooled, v: Id, index: nat, listed: Result<seq<Py>, ReadError>)
    requires Inv(s) && v in s.lists
    ensures Inv(ListRead(s, v, index, listed).0)
    ensures Enabled(FreshSizes(Abstract(s)), Abstract(s).lists.Keys, Get(v, index, listed))
    ensures FreshStep(Abstract(s), Get(v, index, listed))
         == (Abstract(ListRead(s, v, index, listed).0), ListRead(s, v, index, listed).1)
  {
    var s' := ListRead(s, v, index, listed).0;
    ListsChange(s, s');
    if listed.Ok? {
      assert [] + listed.value == listed.value;
    }
    assert Abstract(s').lists == FreshStep(Abstract(s), Get(v, index, listed)).0.lists;
  }

  lemma {:induction false} ListDropRefines(s: Pooled, v: Id)
    requires Inv(s) && v in s.lists
    ensures var s' := ListDropped(s, v);
            Inv(s') && Abstract(s') == Abstract(s).(lists := Abstract(s).lists - {v})
  {
    ListsChange(s, ListDropped(s, v));
    assert Abstract(ListDropped(s, v)).lists == Abstract(s).lists - {v};
  }

  lemma {:induction false} ListCreateRefines(s: Pooled, v: Id, present: bool)
    requires Inv(s) && v !in s.lists
    ensures var s' := s.(lists := s.lists[v := ListInfo(present, None)]);
            Inv(s') && Abstract(s') == Abstract(s).(lists := Abstract(s).lists[v := FreshList(present, None)])
  {
    var s' := s.(lists := s.lists[v := ListInfo(present, None)]);
    ListsChange(s, s');
    assert Abstract(s').lists == Abstract(s).lists[v := FreshList(present, None)];
  }

  lemma {:induction false} ReadRefines(s: Pooled, v: Id, slot: nat, fetched: Result<Option<Py>, ReadError>)
    requires Inv(s) && Enabled(Sizes(s), s.lists.Keys, Read(v, slot, fetched))
    ensures Inv(PooledStep(s, Read(v, slot, fetched)).0)
    ensures v in Abstract(s).messages && slot < |Abstract(s).messages[v]|
    ensures FreshStep(Abstract(s), Read(v, slot, fetched))
         == (Abstract(PooledStep(s, Read(v, slot, fetched)).0), PooledStep(s, Read(v, slot, fetched)).1)
  {
    assert Cells(s, v)[slot] == s.store[s.messages[v].buffer][slot];
    if Cells(s, v)[slot].None? && fetched.Ok? {
      SetRefines(s, v, slot, fetched.value);
    }
  }

  /** One step of the pooled views is the same step of fresh ones. */
  lemma {:induction false} StepRefines(s: Pooled, op: Op)
    requires Inv(s) && Enabled(Sizes(s), s.lists.Keys, op)
    ensures Inv(PooledStep(s, op).0)
    ensures Enabled(FreshSizes(Abstract(s)), Abstract(s).lists.Keys, op)
    ensures FreshStep(Abstract(s), op) == (Abstract(PooledStep(s, op).0), PooledStep(s, op).1)
  {
    SameSizes(s);
    match op
    case CreateMessage(v, fields) => CreateRefines(s, v, fields);
    case Read(v, slot, fetched) => ReadRefines(s, v, slot, fetched);
    case DropMessage(v) => DropRefines(s, v);
    case CreateList(v, present) => ListCreateRefines(s, v, present);
    case Get(v, index, listed) => ListReadRefines(s, v, index, listed);
    case Length(v, counted) =>
    case DropList(v) => ListDropRefines(s, v);
  }

  // ------------------------------------------------------------------- whole runs

  /** Every op is enabled when its turn comes. */
  ghost predicate RunOk(f: Fresh, ops: seq<Op>)
    decreases |ops|
  {
    ops == [] || (Enabled(FreshSizes(f), f.lists.Keys, ops[0]) && RunOk(FreshStep(f, ops[0]).0, ops[1..]))
  }

  ghost function FreshOutputs(f: Fresh, ops: seq<Op>): seq<Output>
    requires RunOk(f, ops)
    decreases |ops|
  {
    if ops == [] then [] else [FreshStep(f, ops[0]).1] + FreshOutputs(FreshStep(f, ops[0]).0, ops[1..])
  }

  /** The states and outputs of a pooled run; it never leaves its buffers' bounds. */
  ghost predicate PooledRun(s: Pooled, ops: seq<Op>, outputs: seq<Output>, end: Pooled)
    decreases |ops|
  {
    if ops == [] then outputs == [] && end == s
    else
      && outputs != []
      && InBounds(s) && Enabled(Sizes(s), s.lists.Keys, ops[0])
      && outputs[0] == PooledStep(s, ops[0]).1
      && PooledRun(PooledStep(s, ops[0]).0, ops[1..], outputs[1..], end)
  }

  /**
   Over any run, from any clean state: the pooled views can take every step, give
   the outputs of fresh ones, and leave the pools clean.
   */
  lemma {:induction false} PoolingIsInvisible(s: Pooled, ops: seq<Op>) returns (end: Pooled)
    requires Inv(s) && RunOk(Abstract(s), ops)
    ensures PooledRun(s, ops, FreshOutputs(Abstract(s), ops), end) && Inv(end)
    decreases |ops|
  {
    if ops == [] {
      end := s;
    } else {
      SameSizes(s);
      StepRefines(s, ops[0]);
      end := PoolingIsInvisible(PooledStep(s, ops[0]).0, ops[1..]);
      var outputs := FreshOutputs(Abstract(s), ops);
      assert outputs[1..] == FreshOutputs(Abstract(PooledStep(s, ops[0]).0), ops[1..]);
    }
  }

  lemma {:induction false} PooledOutputs(s: Pooled, ops: seq<Op>, outputs: seq<Output>, end: Pooled)
    requires Inv(s) && RunOk(Abstract(s), ops) && PooledRun(s, ops, outputs, end)
    ensures outputs == FreshOutputs(Abstract(s), ops)
    decreases |ops|
  {
    if ops != [] {
      SameSizes(s);
      StepRefines(s, ops[0]);
      PooledOutputs(PooledStep(s, ops[0]).0, ops[1..], outputs[1..], end);
      assert outputs == [outputs[0]] + outputs[1..];
    }
  }

  const START := Pooled([], [], [], map[], map[])

  lemma {:induction false} StartIsClean()
    ensures Inv(START) && Abstract(START) == Fresh(map[], map[])
  {
  }
}
