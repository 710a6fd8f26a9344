/**
 Compiling a closure of message types against a snapshot of the cache: resolving what
 the builds need, building each type, and passing the failures of whole messages on to
 the fields that hold them.
 */
module BuildClosure {
  import opened Wrappers
  import opened Descriptors
  import opened Closure
  import opened RuleBuild
  import opened RuleBuildLaws
  import opened CompiledRules

  /** A runtime's own error. */
  type ReadError(==, !new, 0)

  /** A cache entry: compiled rules, or the error that took their place. */
  type Built = Result<MessageValidator, string>

  type Cache = map<MessageIndex, Built>

  // ------------------------------------------------------- resolving the types

  type Reader = string -> Result<TypeInfo, ReadError>

  /** The types the rules of a closure refer to. */
  ghost predicate Wanted(pool: Pool, closure: set<MessageIndex>, i: MessageIndex)
    requires Linked(pool) && forall c :: c in closure ==> c < |pool|
  {
    exists c :: c in closure && i in Needed(pool, c)
  }

  /** Where a type comes from: what is compiled already, else the reader. */
  function LookUp(pool: Pool, known: Cache, reader: Reader, i: MessageIndex): Result<TypeInfo, ReadError>
    requires i < |pool|
  {
    if i in known && known[i].Ok? then Ok(known[i].value.messageType) else reader(pool[i].fullName)
  }

  /**
   Resolves every type the rules to be built refer to, in any order of the
   closure. An error is one of those types' own.
   */
  method Resolve(pool: Pool, root: MessageIndex, known: Cache, reader: Reader)
    returns (r: Result<map<MessageIndex, TypeInfo>, ReadError>, ghost closure: set<MessageIndex>)
    requires Linked(pool) && root < |pool|
    ensures IsClosure(pool, root, known.Keys, closure) && forall c :: c in closure ==> c < |pool|
    ensures r.Ok? ==> forall i: MessageIndex :: i in r.value <==> Wanted(pool, closure, i)
    ensures r.Ok? ==> forall i: MessageIndex :: i in r.value ==>
              i < |pool| && LookUp(pool, known, reader, i) == Ok(r.value[i])
    ensures r.Ok? ==> forall i: MessageIndex :: i in r.value ==>
              if i in known && known[i].Ok? then r.value[i] == known[i].value.messageType
              else reader(pool[i].fullName) == Ok(r.value[i])
    ensures r.Err? ==> exists i: MessageIndex ::
              i < |pool| && Wanted(pool, closure, i) && LookUp(pool, known, reader, i) == Err(r.error)
  {
    var todo := FindClosure(pool, root, known.Keys);
    closure := todo;
    var types: map<MessageIndex, TypeInfo> := map[];
    while todo != {}
      invariant todo <= closure
      invariant forall i: MessageIndex :: i in types <==> Wanted(pool, closure - todo, i)
      invariant forall i: MessageIndex :: i in types ==> i < |pool| && LookUp(pool, known, reader, i) == Ok(types[i])
      decreases |todo|
    {
      var idx :| idx in todo;
      var referenced := References(pool, idx);
      var more := ResolveEach(pool, referenced, types, known, reader);
      if more.Err? {
        var i :| i in referenced && LookUp(pool, known, reader, i) == Err(more.error);
        assert Wanted(pool, closure, i);
        return Err(more.error), closure;
      }
      types := more.value;
      WantedGrows(pool, closure - todo, idx);
      assert closure - (todo - {idx}) == (closure - todo) + {idx};
      todo := todo - {idx};
    }
    assert closure - {} == closure;
    r := Ok(types);
  }

  /** Adds the types that are not resolved yet. */
  method ResolveEach(pool: Pool, referenced: seq<MessageIndex>, types: map<MessageIndex, TypeInfo>, known: Cache,
                     reader: Reader)
    returns (r: Result<map<MessageIndex, TypeInfo>, ReadError>)
    requires forall i :: i in referenced ==> i < |pool|
    requires forall i: MessageIndex :: i in types ==> i < |pool| && LookUp(pool, known, reader, i) == Ok(types[i])
    ensures r.Ok? ==> forall i: MessageIndex :: i in r.value <==> i in types || i in referenced
    ensures r.Ok? ==> forall i: MessageIndex :: i in r.value ==>
              i < |pool| && LookUp(pool, known, reader, i) == Ok(r.value[i])
    ensures r.Err? ==> exists i :: i in referenced && LookUp(pool, known, reader, i) == Err(r.error)
  {
    var all: map<MessageIndex, TypeInfo> := types;
    for k := 0 to |referenced|
      invariant forall i: MessageIndex :: i in all <==> i in types || i in referenced[..k]
      invariant forall i: MessageIndex :: i in all ==> i < |pool| && LookUp(pool, known, reader, i) == Ok(all[i])
    {
      var i := referenced[k];
      assert i in referenced;
      if i !in all {
        var found := LookUp(pool, known, reader, i);
        if found.Err? {
          return Err(found.error);
        }
        all := all[i := found.value];
      }
    }
    r := Ok(all);
  }

  /** A type and the types its fields hold. */
  method References(pool: Pool, idx: MessageIndex) returns (r: seq<MessageIndex>)
    requires Linked(pool) && idx < |pool|
    ensures forall i: MessageIndex :: i in r <==> i in Needed(pool, idx)
  {
    r := PushNested(pool, idx, [idx]);
    assert forall i: MessageIndex :: Refers(pool, idx, i) ==> i < |pool|;
  }

  lemma {:induction false} WantedGrows(pool: Pool, closure: set<MessageIndex>, idx: MessageIndex)
    requires Linked(pool) && idx < |pool| && forall c :: c in closure ==> c < |pool|
    ensures forall i: MessageIndex ::
              Wanted(pool, closure + {idx}, i) <==> Wanted(pool, closure, i) || i in Needed(pool, idx)
  {
    forall i: MessageIndex | Wanted(pool, closure, i) || i in Needed(pool, idx)
      ensures Wanted(pool, closure + {idx}, i)
    {
      if i in Needed(pool, idx) {
        assert idx in closure + {idx};
      } else {
        var c :| c in closure && i in Needed(pool, c);
        assert c in closure + {idx};
      }
    }
  }

  // ---------------------------------------------------- linking nested failures

  /** The message-level error of a nested type, looked up in `known` first. */
  function NestedError(known: Cache, built: Cache, nested: MessageIndex): Option<string> {
    if nested in known then
      if known[nested].Err? then Some(known[nested].error) else None
    else if nested in built && built[nested].Err? then Some(built[nested].error)
    else None
  }

  function EmbeddedError(pool: Pool, idx: MessageIndex, nested: MessageIndex, field: FieldValidator,
                         error: string): string {
    "failed to compile embedded type " + FullName(pool, nested) + " for " + FullName(pool, idx) + "." + field.field.name
    + ": " + error
  }

  /** A compiled field, or an error in its place if its nested type has one. */
  function LinkField(pool: Pool, idx: MessageIndex, known: Cache, built: Cache, f: Result<FieldValidator, string>)
    : Result<FieldValidator, string>
  {
    if f.Err? || NestedType(f.value).None? then f
    else
      var nested := NestedType(f.value).value;
      match NestedError(known, built, nested)
      case None => f
      case Some(error) => Err(EmbeddedError(pool, idx, nested, f.value, error))
  }

  function LinkEntry(pool: Pool, idx: MessageIndex, known: Cache, built: Cache, entry: Built): Built {
    match entry
    case Err(error) => Err(error)
    case Ok(v) =>
      Ok(v.(fields := seq(|v.fields|, i requires 0 <= i < |v.fields| =>
        LinkField(pool, idx, known, built, v.fields[i]))))
  }

  datatype Failure = Failure(idx: MessageIndex, position: nat, error: string)

  /** A failure recorded for a field that compiled. */
  ghost predicate FailureOk(pool: Pool, known: Cache, built: Cache, f: Failure) {
    && f.idx in built && built[f.idx].Ok? && f.position < |built[f.idx].value.fields|
    && built[f.idx].value.fields[f.position].Ok?
    && LinkField(pool, f.idx, known, built, built[f.idx].value.fields[f.position]) == Err(f.error)
  }

  ghost predicate Recorded(failures: seq<Failure>, idx: MessageIndex, position: nat) {
    exists k :: 0 <= k < |failures| && failures[k].idx == idx && failures[k].position == position
  }

  /** The failures of one message's fields. */
  method FieldFailures(pool: Pool, idx: MessageIndex, known: Cache, built: Cache) returns (failures: seq<Failure>)
    requires idx in built && built[idx].Ok?
    ensures forall k :: 0 <= k < |failures| ==> failures[k].idx == idx && FailureOk(pool, known, built, failures[k])
    ensures forall p :: 0 <= p < |built[idx].value.fields| ==>
              Recorded(failures, idx, p)
              || LinkField(pool, idx, known, built, built[idx].value.fields[p]) == built[idx].value.fields[p]
  {
    failures := [];
    var fields := built[idx].value.fields;
    for position := 0 to |fields|
      invariant forall k :: 0 <= k < |failures| ==> failures[k].idx == idx && FailureOk(pool, known, built, failures[k])
      invariant forall p :: 0 <= p < position ==>
                  Recorded(failures, idx, p) || LinkField(pool, idx, known, built, fields[p]) == fields[p]
    {
      if fields[position].Err? {
        continue;
      }
      var compiled := fields[position].value;
      var nested := NestedType(compiled);
      if nested.None? {
        continue;
      }
      var error := NestedError(known, built, nested.value);
      if error.None? {
        continue;
      }
      ghost var before := failures;
      failures := failures + [Failure(idx, position, EmbeddedError(pool, idx, nested.value, compiled, error.value))];
      RecordedGrows(before, failures[|before|]);
    }
  }

  lemma {:induction false} RecordedGrows(failures: seq<Failure>, f: Failure)
    ensures Recorded(failures + [f], f.idx, f.position)
    ensures forall idx, p :: Recorded(failures, idx, p) ==> Recorded(failures + [f], idx, p)
  {
    assert (failures + [f])[|failures|] == f;
    forall idx, p | Recorded(failures, idx, p) ensures Recorded(failures + [f], idx, p) {
      var k :| 0 <= k < |failures| && failures[k].idx == idx && failures[k].position == p;
      assert (failures + [f])[k] == failures[k];
    }
  }

  lemma {:induction false} RecordedAppend(a: seq<Failure>, b: seq<Failure>)
    ensures forall idx, p :: Recorded(a, idx, p) || Recorded(b, idx, p) ==> Recorded(a + b, idx, p)
  {
    forall idx, p | Recorded(a, idx, p) || Recorded(b, idx, p) ensures Recorded(a + b, idx, p) {
      if Recorded(a, idx, p) {
        var k :| 0 <= k < |a| && a[k].idx == idx && a[k].position == p;
        assert (a + b)[k] == a[k];
      } else {
        var k :| 0 <= k < |b| && b[k].idx == idx && b[k].position == p;
        assert (a + b)[|a| + k] == b[k];
      }
    }
  }

  /** The failures of every message, in any order of the map. */
  method AllFailures(pool: Pool, known: Cache, built: Cache) returns (failures: seq<Failure>)
    ensures forall k :: 0 <= k < |failures| ==> FailureOk(pool, known, built, failures[k])
    ensures forall idx, p :: idx in built && built[idx].Ok? && 0 <= p < |built[idx].value.fields| ==>
              Recorded(failures, idx, p)
              || LinkField(pool, idx, known, built, built[idx].value.fields[p]) == built[idx].value.fields[p]
  {
    failures := [];
    var todo := built.Keys;
    while todo != {}
      invariant todo <= built.Keys
      invariant forall k :: 0 <= k < |failures| ==> FailureOk(pool, known, built, failures[k])
      invariant forall idx, p :: idx in built.Keys - todo && built[idx].Ok? && 0 <= p < |built[idx].value.fields| ==>
                  Recorded(failures, idx, p)
                  || LinkField(pool, idx, known, built, built[idx].value.fields[p]) == built[idx].value.fields[p]
      decreases |todo|
    {
      var idx :| idx in todo;
      if built[idx].Ok? {
        var more := FieldFailures(pool, idx, known, built);
        RecordedAppend(failures, more);
        failures := failures + more;
      }
      todo := todo - {idx};
    }
  }

  /** `now` is `built` with some fields replaced by their linked form. */
  ghost predicate PartlyLinked(pool: Pool, known: Cache, built: Cache, now: Cache) {
    && now.Keys == built.Keys
    && forall idx :: idx in built ==>
         match built[idx]
         case Err(_) => now[idx] == built[idx]
         case Ok(v) =>
           && now[idx].Ok? && |now[idx].value.fields| == |v.fields|
           && now[idx].value == v.(fields := now[idx].value.fields)
           && forall p :: 0 <= p < |v.fields| ==>
                now[idx].value.fields[p] == v.fields[p]
                || now[idx].value.fields[p] == LinkField(pool, idx, known, built, v.fields[p])
  }

  ghost predicate Applied(linked: Cache, f: Failure) {
    && f.idx in linked && linked[f.idx].Ok? && f.position < |linked[f.idx].value.fields|
    && linked[f.idx].value.fields[f.position] == Err(f.error)
  }

  /** Overwrites the failed fields in place. */
  method Overwrite(pool: Pool, known: Cache, built: Cache, failures: seq<Failure>) returns (linked: Cache)
    requires forall k :: 0 <= k < |failures| ==> FailureOk(pool, known, built, failures[k])
    ensures PartlyLinked(pool, known, built, linked)
    ensures forall k :: 0 <= k < |failures| ==>
              Applied(linked, failures[k])
  {
    linked := built;
    for k := 0 to |failures|
      invariant PartlyLinked(pool, known, built, linked)
      invariant forall i :: 0 <= i < k ==>
                  FailureOk(pool, known, built, failures[i]) && Applied(linked, failures[i])
    {
      var f := failures[k];
      assert FailureOk(pool, known, built, f);
      var v := linked[f.idx].value;
      linked := linked[f.idx := Ok(v.(fields := v.fields[f.position := Err(f.error)]))];
    }
  }

  lemma {:induction false} FullyLinked(pool: Pool, known: Cache, built: Cache, failures: seq<Failure>, linked: Cache,
                                       idx: MessageIndex)
    requires PartlyLinked(pool, known, built, linked) && idx in built
    requires forall k :: 0 <= k < |failures| ==> FailureOk(pool, known, built, failures[k])
    requires forall k :: 0 <= k < |failures| ==>
               Applied(linked, failures[k])
    requires built[idx].Ok? ==> forall p :: 0 <= p < |built[idx].value.fields| ==>
               Recorded(failures, idx, p)
               || LinkField(pool, idx, known, built, built[idx].value.fields[p]) == built[idx].value.fields[p]
    ensures linked[idx] == LinkEntry(pool, idx, known, built, built[idx])
  {
    if built[idx].Ok? {
      var v := built[idx].value;
      forall p | 0 <= p < |v.fields|
        ensures linked[idx].value.fields[p] == LinkField(pool, idx, known, built, v.fields[p])
      {
        if Recorded(failures, idx, p) {
          var k :| 0 <= k < |failures| && failures[k].idx == idx && failures[k].position == p;
          assert FailureOk(pool, known, built, failures[k]);
        }
      }
      assert linked[idx].value.fields == LinkEntry(pool, idx, known, built, built[idx]).value.fields;
    }
  }

  // ------------------------------------------------------------- the whole build

  /** What the cache keeps of a build that did not panic. */
  function AsBuilt(step: Step<MessageValidator>): Built {
    match step
    case Done(v) => Ok(v)
    case Failed(error) => Err(error)
    case Panicked(_) => Err("")
  }

  function Outcome(b: Builder, idx: MessageIndex): Built
    requires idx < |b.pool|
  {
    AsBuilt(BuildMessage(b, idx))
  }

  /** Each type built on its own. */
  ghost function Outcomes(b: Builder, closure: set<MessageIndex>): Cache
    requires forall t :: t in closure ==> t < |b.pool|
  {
    map t | t in closure :: Outcome(b, t)
  }

  /** Every entry linked to the rest. */
  ghost function LinkedCache(pool: Pool, known: Cache, built: Cache): Cache {
    map t | t in built :: LinkEntry(pool, t, known, built, built[t])
  }

  /** The message that a field leads to is an error, in the cache or, failing that, by its own options. */
  ghost predicate NestedRefused(b: Builder, known: Cache, f: FieldDescriptor) {
    && !Unvisited(f) && TypeHeld(f.kind).Some?
    && var n := TypeHeld(f.kind).value;
       if n in known then known[n].Err? else n < |b.pool| && MessageRefused(b, n)
  }

  /**
   A cache entry, by what the descriptors and options say: an error where the message is
   one, else its own rules and an entry for each compiled field, which is an error where
   the field's rules or the message it leads to are.
   */
  ghost predicate EntryIs(b: Builder, known: Cache, t: MessageIndex, entry: Built)
    requires t < |b.pool|
  {
    var fields := CompiledFields(b.pool[t].fields);
    match entry
    case Err(_) => MessageRefused(b, t)
    case Ok(v) =>
      && !MessageRefused(b, t) && |v.fields| == |fields|
      && (exists own :: MessageIs(b, t, own) && v == own.(fields := v.fields))
      && forall i :: 0 <= i < |fields| ==>
           match v.fields[i]
           case Ok(compiled) =>
             !FieldRefused(b, fields[i]) && !NestedRefused(b, known, fields[i])
             && FieldIs(b, b.pool[t], fields[i], compiled)
           case Err(_) => FieldRefused(b, fields[i]) || NestedRefused(b, known, fields[i])
  }

  lemma {:induction false} OutcomeExactly(b: Builder, t: MessageIndex)
    requires t < |b.pool| && !BuildMessage(b, t).Panicked?
    ensures match Outcome(b, t)
            case Ok(v) => BuildMessage(b, t) == Done(v) && !MessageRefused(b, t) && MessageIs(b, t, v)
            case Err(error) => BuildMessage(b, t) == Failed(error) && MessageRefused(b, t)
  {
    MessageExactly(b, t);
  }

  /** The nested error of a compiled field of the closure is that of the type it leads to. */
  lemma {:induction false} NestedErrorExactly(b: Builder, known: Cache, closure: set<MessageIndex>,
                                              message: MessageDescriptor, f: FieldDescriptor, v: FieldValidator)
    requires (forall t :: t in closure ==> t < |b.pool| && !BuildMessage(b, t).Panicked?) && FieldIs(b, message, f, v)
    requires TypeHeld(f.kind).Some? ==> TypeHeld(f.kind).value in known || TypeHeld(f.kind).value in closure
    ensures (NestedType(v).Some? && NestedError(known, Outcomes(b, closure), NestedType(v).value).Some?)
            <==> NestedRefused(b, known, f)
  {
    NestedExactly(b, message, f, v);
    if TypeHeld(f.kind).Some? && TypeHeld(f.kind).value !in known {
      OutcomeExactly(b, TypeHeld(f.kind).value);
    }
  }

  /** Each field of the closure leads to a type that is cached or in it. */
  ghost predicate Reaching(pool: Pool, known: set<MessageIndex>, closure: set<MessageIndex>) {
    forall t: MessageIndex, n: MessageIndex :: t in closure && Refers(pool, t, n) ==> n in known || n in closure
  }

  lemma {:induction false} CompiledAreFields(fields: seq<FieldDescriptor>)
    ensures forall f :: f in CompiledFields(fields) <==> f in fields && Compiled(f)
  {
    if fields != [] {
      CompiledAreFields(fields[1..]);
    }
  }

  lemma {:induction false} FieldLeads(b: Builder, known: Cache, closure: set<MessageIndex>, t: MessageIndex, p: nat)
    requires t in closure && t < |b.pool| && Reaching(b.pool, known.Keys, closure)
    requires p < |CompiledFields(b.pool[t].fields)|
    ensures var held := TypeHeld(CompiledFields(b.pool[t].fields)[p].kind);
            held.Some? ==> held.value in known || held.value in closure
  {
    var f := CompiledFields(b.pool[t].fields)[p];
    CompiledAreFields(b.pool[t].fields);
    if TypeHeld(f.kind).Some? {
      RefersExactly(b.pool, t, TypeHeld(f.kind).value);
    }
  }

  lemma {:induction false} EntryExactly(b: Builder, known: Cache, closure: set<MessageIndex>, t: MessageIndex)
    requires (forall t :: t in closure ==> t < |b.pool| && !BuildMessage(b, t).Panicked?) && t in closure
    requires Reaching(b.pool, known.Keys, closure)
    ensures EntryIs(b, known, t, LinkEntry(b.pool, t, known, Outcomes(b, closure), Outcome(b, t)))
  {
    OutcomeExactly(b, t);
    if Outcome(b, t).Ok? {
      var own, built := Outcome(b, t).value, Outcomes(b, closure);
      var linked := LinkEntry(b.pool, t, known, built, Ok(own)).value;
      forall i | 0 <= i < |own.fields| && own.fields[i].Ok?
        ensures (NestedType(own.fields[i].value).Some?
                 && NestedError(known, built, NestedType(own.fields[i].value).value).Some?)
                <==> NestedRefused(b, known, CompiledFields(b.pool[t].fields)[i])
      {
        FieldLeads(b, known, closure, t, i);
        NestedErrorExactly(b, known, closure, b.pool[t], CompiledFields(b.pool[t].fields)[i], own.fields[i].value);
      }
      assert MessageIs(b, t, own) && linked == own.(fields := linked.fields);
    }
  }

  lemma {:induction false} EntriesExactly(b: Builder, known: Cache, closure: set<MessageIndex>)
    requires forall t :: t in closure ==> t < |b.pool| && !BuildMessage(b, t).Panicked?
    requires Reaching(b.pool, known.Keys, closure)
    ensures var linked := LinkedCache(b.pool, known, Outcomes(b, closure));
            linked.Keys == closure && forall t :: t in closure ==> EntryIs(b, known, t, linked[t])
  {
    forall t | t in closure
      ensures EntryIs(b, known, t, LinkEntry(b.pool, t, known, Outcomes(b, closure), Outcome(b, t)))
    {
      EntryExactly(b, known, closure, t);
    }
  }

  lemma {:induction false} ClosureReaches(pool: Pool, root: MessageIndex, known: set<MessageIndex>)
    requires Linked(pool)
    ensures Reaching(pool, known, Reachable(pool, root, known))
  {
    forall t: MessageIndex, n: MessageIndex | t in Reachable(pool, root, known) && Refers(pool, t, n) && n !in known
      ensures n in Reachable(pool, root, known)
    {
      ReachesNext(pool, root, t, n, known);
    }
  }

  /** The build of one of the types panics. */
  ghost predicate SomePanics(b: Builder, closure: set<MessageIndex>)
    requires forall t :: t in closure ==> t < |b.pool|
  {
    exists t :: t in closure && BuildMessage(b, t).Panicked?
  }

  /**
   Builds the closure of `root` outside `known` into `out`, in whatever order the maps
   are walked, unless the build of one type panics.
   */
  method BuildAll(b: Builder, root: MessageIndex, known: Cache, out: Cache) returns (r: Step<Cache>)
    requires Linked(b.pool) && root < |b.pool|
    ensures r.Panicked? <==> SomePanics(b, Reachable(b.pool, root, known.Keys))
    ensures !r.Panicked? ==>
              r == Done(out + LinkedCache(b.pool, known, Outcomes(b, Reachable(b.pool, root, known.Keys))))
    ensures r.Done? ==> forall t :: t in Reachable(b.pool, root, known.Keys) ==>
              t in r.value && EntryIs(b, known, t, r.value[t])
  {
    var built := BuildMissing(b, root, known);
    if built.Panicked? {
      return built;
    }
    r := Done(out + built.value);
  }

  method BuildMissing(b: Builder, root: MessageIndex, known: Cache) returns (r: Step<Cache>)
    requires Linked(b.pool) && root < |b.pool|
    ensures r.Panicked? <==> SomePanics(b, Reachable(b.pool, root, known.Keys))
    ensures !r.Panicked? ==>
              r == Done(LinkedCache(b.pool, known, Outcomes(b, Reachable(b.pool, root, known.Keys))))
    ensures r.Done? ==>
              && r.value.Keys == Reachable(b.pool, root, known.Keys)
              && forall t :: t in r.value ==> t < |b.pool| && EntryIs(b, known, t, r.value[t])
  {
    var closure := FindClosure(b.pool, root, known.Keys);
    assert closure == Reachable(b.pool, root, known.Keys);
    var compiled := CompileEach(b, closure);
    if compiled.Panicked? {
      return compiled;
    }
    ClosureReaches(b.pool, root, known.Keys);
    var linked := LinkBuilt(b, known, closure, compiled.value);
    r := Done(linked);
  }

  method CompileEach(b: Builder, closure: set<MessageIndex>) returns (r: Step<Cache>)
    requires forall t :: t in closure ==> t < |b.pool|
    ensures r.Panicked? <==> SomePanics(b, closure)
    ensures !r.Panicked? ==> r == Done(Outcomes(b, closure))
  {
    r := CompileAll(closure, (t: MessageIndex) requires t < |b.pool| => BuildMessage(b, t));
    assert r.Done? ==> r.value == Outcomes(b, closure);
  }

  /** Telling each field of the closure whose message type did not compile. */
  method LinkBuilt(b: Builder, known: Cache, ghost closure: set<MessageIndex>, built: Cache) returns (linked: Cache)
    requires forall t :: t in closure ==> t < |b.pool| && !BuildMessage(b, t).Panicked?
    requires Reaching(b.pool, known.Keys, closure) && built == Outcomes(b, closure)
    ensures linked == LinkedCache(b.pool, known, built) && linked.Keys == closure
    ensures forall t :: t in closure ==> EntryIs(b, known, t, linked[t])
  {
    linked := LinkAll(b.pool, known, built);
    EntriesExactly(b, known, closure);
  }

  /** Each type on its own, in any order. */
  method CompileAll(closure: set<MessageIndex>, build: MessageIndex --> Step<MessageValidator>)
    returns (r: Step<Cache>)
    requires forall t :: t in closure ==> build.requires(t)
    ensures r.Panicked? ==> exists t :: t in closure && build(t).Panicked?
    ensures !r.Panicked? ==>
              && r.Done? && r.value.Keys == closure
              && forall t :: t in closure ==> !build(t).Panicked? && r.value[t] == AsBuilt(build(t))
  {
    var compiled: Cache := map[];
    var todo := closure;
    while todo != {}
      invariant todo <= closure && compiled.Keys == closure - todo
      invariant forall t :: t in compiled ==> !build(t).Panicked? && compiled[t] == AsBuilt(build(t))
      decreases |todo|
    {
      var idx :| idx in todo;
      var built := build(idx);
      if built.Panicked? {
        return Panicked(built.missing);
      }
      compiled := compiled[idx := AsBuilt(built)];
      todo := todo - {idx};
    }
    r := Done(compiled);
  }

  method LinkAll(pool: Pool, known: Cache, built: Cache) returns (linked: Cache)
    ensures linked == LinkedCache(pool, known, built)
  {
    var failures := AllFailures(pool, known, built);
    linked := Overwrite(pool, known, built, failures);
    forall t | t in built ensures linked[t] == LinkEntry(pool, t, known, built, built[t]) {
      FullyLinked(pool, known, built, failures, linked, t);
    }
  }

  function Blame(entry: Built): string {
    match entry case Err(error) => error case Ok(_) => ""
  }

  /** After linking, a field fails exactly when its own build or its message type's failed. */
  lemma {:induction false} FieldFails(pool: Pool, known: Cache, built: Cache, t: MessageIndex, p: nat)
    requires t in built && built[t].Ok? && p < |built[t].value.fields|
    ensures t in LinkedCache(pool, known, built) && LinkedCache(pool, known, built)[t].Ok?
    ensures p < |LinkedCache(pool, known, built)[t].value.fields|
    ensures LinkedCache(pool, known, built)[t].value.fields[p].Err? <==>
            built[t].value.fields[p].Err?
            || exists n: MessageIndex :: NestedType(built[t].value.fields[p].value) == Some(n)
                 && if n in known then known[n].Err? else n in built && built[n].Err?
    ensures built[t].value.fields[p].Ok? && LinkedCache(pool, known, built)[t].value.fields[p].Err? ==>
              exists n: MessageIndex :: NestedType(built[t].value.fields[p].value) == Some(n)
                && LinkedCache(pool, known, built)[t].value.fields[p].error
                   == "failed to compile embedded type " + FullName(pool, n) + " for " + FullName(pool, t) + "."
                      + built[t].value.fields[p].value.field.name + ": "
                      + (if n in known then Blame(known[n]) else if n in built then Blame(built[n]) else "")
  {
    var f := built[t].value.fields[p];
    if f.Ok? && NestedType(f.value).Some? {
      var n := NestedType(f.value).value;
      assert NestedError(known, built, n).Some? <==> if n in known then known[n].Err? else n in built && built[n].Err?;
    }
  }
}
