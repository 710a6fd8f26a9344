/**
 The views of one validation, as the live objects of `Views`: any sequence of
 creations, reads and drops does what views with buffers of their own would do.
 */
module ViewRuns {
  import opened Wrappers
  import opened Views

  // ---------------------------------------------------------------- message views

  type MessageViews = map<Id, MessageView>

  ghost function Buffers(views: MessageViews): set<array<Cell>>
    reads views.Values
  {
    set m | m in views.Values :: m.values
  }

  /** The objects that an op on message views may change. */
  ghost function MessagesRepr(ctx: Ctx, views: MessageViews): set<object>
    reads ctx`freeValues, views.Values
  {
    views.Values + Buffers(views) + set b | b in ctx.freeValues
  }

  /** Every view has a buffer of its own, which is not in the pool; `held` is what they have read. */
  ghost predicate MessagesLive(ctx: Ctx, views: MessageViews, held: map<Id, seq<Cell>>)
    reads ctx`freeValues, ctx.freeValues, views.Values, Buffers(views)
  {
    && ctx.ValuesValid()
    && held.Keys == views.Keys
    && (forall v :: v in views ==> views[v].ctx == ctx && views[v].Valid())
    && (forall u, v :: u in views && v in views && u != v ==>
          views[u] != views[v] && views[u].values != views[v].values)
    && (forall v :: v in views ==> held[v] == views[v].values[..views[v].slots])
  }

  method CreateView(ctx: Ctx, views: MessageViews, ghost held: map<Id, seq<Cell>>, v: Id, fields: nat)
    returns (more: MessageViews)
    requires MessagesLive(ctx, views, held) && v !in held
    modifies ctx`freeValues
    ensures MessagesLive(ctx, more, held[v := Blanks(fields)])
    ensures fresh(MessagesRepr(ctx, more) - old(MessagesRepr(ctx, views)))
  {
    var view := new MessageView(ctx, fields);
    assert view.values[..fields] == Blanks(fields);
    more := views[v := view];
  }

  method ReadView(ctx: Ctx, views: MessageViews, ghost held: map<Id, seq<Cell>>, v: Id, slot: nat,
                  fetched: Result<Option<Py>, ReadError>)
    returns (r: Result<Option<Py>, ReadError>)
    requires MessagesLive(ctx, views, held) && v in held && slot < |held[v]|
    modifies views[v].values
    ensures r == if held[v][slot].Some? then Ok(held[v][slot].value) else fetched
    ensures MessagesLive(ctx, views, held[v := held[v][slot := if r.Ok? then Some(r.value) else None]])
    ensures MessagesRepr(ctx, views) == old(MessagesRepr(ctx, views))
  {
    r := views[v].Value(slot, fetched);
  }

  method DropView(ctx: Ctx, views: MessageViews, ghost held: map<Id, seq<Cell>>, v: Id)
    returns (fewer: MessageViews)
    requires MessagesLive(ctx, views, held) && v in held
    modifies ctx`freeValues, views[v], views[v].values
    ensures MessagesLive(ctx, fewer, held - {v})
    ensures fresh(MessagesRepr(ctx, fewer) - old(MessagesRepr(ctx, views)))
  {
    views[v].Drop();
    fewer := views - {v};
  }

  lemma {:induction false} ReadHeld(held: Fresh, v: Id, slot: nat, fetched: Result<Option<Py>, ReadError>,
                                    r: Result<Option<Py>, ReadError>)
    requires v in held.messages && slot < |held.messages[v]|
    requires r == if held.messages[v][slot].Some? then Ok(held.messages[v][slot].value) else fetched
    ensures FreshStep(held, Read(v, slot, fetched))
         == (held.(messages := held.messages[v := held.messages[v][slot := if r.Ok? then Some(r.value) else None]]),
             Value(r))
  {
    var cells := held.messages[v];
    if cells[slot].Some? || r.Err? {
      assert cells[slot := if r.Ok? then Some(r.value) else None] == cells;
      assert held.messages[v := cells] == held.messages;
    }
  }

  predicate OnMessages(op: Op) {
    op.CreateMessage? || op.Read? || op.DropMessage?
  }

  method PerformMessage(ctx: Ctx, views: MessageViews, ghost held: Fresh, op: Op)
    returns (views': MessageViews, output: Output)
    requires OnMessages(op) && MessagesLive(ctx, views, held.messages) && Enabled(FreshSizes(held), held.lists.Keys, op)
    modifies ctx`freeValues, MessagesRepr(ctx, views)
    ensures MessagesLive(ctx, views', FreshStep(held, op).0.messages) && output == FreshStep(held, op).1
    ensures fresh(MessagesRepr(ctx, views') - old(MessagesRepr(ctx, views)))
  {
    match op
    case CreateMessage(v, fields) =>
      views' := CreateView(ctx, views, held.messages, v, fields);
      output := Nothing;
    case Read(v, slot, fetched) =>
      var r := ReadView(ctx, views, held.messages, v, slot, fetched);
      ReadHeld(held, v, slot, fetched, r);
      views', output := views, Value(r);
    case DropMessage(v) =>
      views' := DropView(ctx, views, held.messages, v);
      output := Nothing;
  }

  // ------------------------------------------------------------------- list views

  type ListViews = map<Id, ListView>

  ghost predicate ListsLive(ctx: Ctx, views: ListViews, held: map<Id, FreshList>)
    reads ctx`freeItems, views.Values
  {
    && ctx.ItemsValid()
    && held.Keys == views.Keys
    && (forall v :: v in views ==> views[v].ctx == ctx && held[v] == views[v].Held())
    && (forall u, v :: u in views && v in views && u != v ==> views[u] != views[v])
  }

  method PerformList(ctx: Ctx, views: ListViews, ghost held: Fresh, op: Op)
    returns (views': ListViews, output: Output)
    requires !OnMessages(op) && ListsLive(ctx, views, held.lists) && Enabled(FreshSizes(held), held.lists.Keys, op)
    modifies ctx`freeItems, views.Values
    ensures ListsLive(ctx, views', FreshStep(held, op).0.lists) && output == FreshStep(held, op).1
    ensures fresh(views'.Values - views.Values)
  {
    views', output := views, Nothing;
    match op
    case CreateList(v, present) =>
      var view := new ListView(ctx, present);
      views' := views[v := view];
    case Get(v, index, listed) =>
      var r := views[v].Get(index, listed);
      output := Value(r);
    case Length(v, counted) =>
      var r := views[v].Len(counted);
      output := Count(r);
    case DropList(v) =>
      views[v].Drop();
      views' := views - {v};
  }

  // ---------------------------------------------------------------- both together

  /** All that an op on messages may change, the context apart, is in `ms`. */
  ghost predicate MessagesIn(ctx: Ctx, views: MessageViews, held: map<Id, seq<Cell>>, ms: set<object>)
    reads ctx`freeValues, ms
  {
    views.Values <= ms && Buffers(views) <= ms && (forall b :: b in ctx.freeValues ==> b in ms)
    && MessagesLive(ctx, views, held)
  }

  ghost predicate ListsIn(ctx: Ctx, views: ListViews, held: map<Id, FreshList>, ls: set<object>)
    reads ctx`freeItems, ls
  {
    views.Values <= ls && ListsLive(ctx, views, held)
  }

  method PerformListIn(ctx: Ctx, views: ListViews, ghost ls: set<object>, ghost held: Fresh, op: Op)
    returns (views': ListViews, ghost ls': set<object>, output: Output)
    requires !OnMessages(op) && ListsIn(ctx, views, held.lists, ls)
    requires Enabled(FreshSizes(held), held.lists.Keys, op)
    modifies ctx`freeItems, ls
    ensures ListsIn(ctx, views', FreshStep(held, op).0.lists, ls') && output == FreshStep(held, op).1
    ensures fresh(ls' - ls)
  {
    views', output := PerformList(ctx, views, held, op);
    ls' := ls + views'.Values;
  }

  method PerformMessageIn(ctx: Ctx, views: MessageViews, ghost ms: set<object>, ghost held: Fresh, op: Op)
    returns (views': MessageViews, ghost ms': set<object>, output: Output)
    requires OnMessages(op) && MessagesIn(ctx, views, held.messages, ms)
    requires Enabled(FreshSizes(held), held.lists.Keys, op)
    modifies ctx`freeValues, ms
    ensures MessagesIn(ctx, views', FreshStep(held, op).0.messages, ms') && output == FreshStep(held, op).1
    ensures fresh(ms' - ms)
  {
    views', output := PerformMessage(ctx, views, held, op);
    ms' := ms + MessagesRepr(ctx, views');
  }

  /** The objects of message views and of list views are kept apart. */
  ghost predicate Live(ctx: Ctx, messages: MessageViews, ms: set<object>, lists: ListViews, ls: set<object>,
                       held: Fresh)
    reads ctx, ms, ls
  {
    MessagesIn(ctx, messages, held.messages, ms) && ListsIn(ctx, lists, held.lists, ls) && ms !! ls && ctx !in ms + ls
  }

  /** An op on messages leaves lists alone. */
  method StepMessages(ctx: Ctx, messages: MessageViews, ghost ms: set<object>, ghost lists: ListViews,
                      ghost ls: set<object>, ghost held: Fresh, op: Op)
    returns (messages': MessageViews, ghost ms': set<object>, output: Output)
    requires OnMessages(op) && Live(ctx, messages, ms, lists, ls, held)
    requires Enabled(FreshSizes(held), held.lists.Keys, op)
    modifies ctx`freeValues, ms
    ensures Live(ctx, messages', ms', lists, ls, FreshStep(held, op).0) && output == FreshStep(held, op).1
    ensures fresh(ms' - ms)
  {
    assert FreshStep(held, op).0.lists == held.lists;
    messages', ms', output := PerformMessageIn(ctx, messages, ms, held, op);
    assert ListsIn(ctx, lists, held.lists, ls);
  }

  /** And the reverse. */
  method StepLists(ctx: Ctx, ghost messages: MessageViews, ghost ms: set<object>, lists: ListViews,
                   ghost ls: set<object>, ghost held: Fresh, op: Op)
    returns (lists': ListViews, ghost ls': set<object>, output: Output)
    requires !OnMessages(op) && Live(ctx, messages, ms, lists, ls, held)
    requires Enabled(FreshSizes(held), held.lists.Keys, op)
    modifies ctx`freeItems, ls
    ensures Live(ctx, messages, ms, lists', ls', FreshStep(held, op).0) && output == FreshStep(held, op).1
    ensures fresh(ls' - ls)
  {
    assert FreshStep(held, op).0.messages == held.messages;
    lists', ls', output := PerformListIn(ctx, lists, ls, held, op);
    assert MessagesIn(ctx, messages, held.messages, ms);
  }

  // ------------------------------------------------------------------- whole runs

  method RunAll(ctx: Ctx, messages: MessageViews, ghost ms: set<object>, lists: ListViews, ghost ls: set<object>,
                ghost held: Fresh, ops: seq<Op>)
    returns (outputs: seq<Output>)
    requires Live(ctx, messages, ms, lists, ls, held) && RunOk(held, ops)
    modifies ctx, ms, ls
    ensures outputs == FreshOutputs(held, ops)
    decreases |ops|
  {
    if ops == [] {
      return [];
    }
    var output, rest;
    if OnMessages(ops[0]) {
      var messages';
      ghost var ms';
      messages', ms', output := StepMessages(ctx, messages, ms, lists, ls, held, ops[0]);
      rest := RunAll(ctx, messages', ms', lists, ls, FreshStep(held, ops[0]).0, ops[1..]);
    } else {
      var lists';
      ghost var ls';
      lists', ls', output := StepLists(ctx, messages, ms, lists, ls, held, ops[0]);
      rest := RunAll(ctx, messages, ms, lists', ls', FreshStep(held, ops[0]).0, ops[1..]);
    }
    outputs := [output] + rest;
  }
}
