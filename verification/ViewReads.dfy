/** What the reads of a run give, in terms of the ops before them. */
module ViewReads {
  import opened Wrappers
  import opened Views
  import opened ViewRuns

  /** The views after the first `i` ops. */
  ghost function StateAt(f: Fresh, ops: seq<Op>, i: nat): Fresh
    requires RunOk(f, ops) && i <= |ops|
    decreases i
  {
    if i == 0 then f else StateAt(FreshStep(f, ops[0]).0, ops[1..], i - 1)
  }

  lemma {:induction false} StateNext(f: Fresh, ops: seq<Op>, i: nat)
    requires RunOk(f, ops) && i < |ops|
    ensures var now := StateAt(f, ops, i);
            && Enabled(FreshSizes(now), now.lists.Keys, ops[i])
            && StateAt(f, ops, i + 1) == FreshStep(now, ops[i]).0
            && |FreshOutputs(f, ops)| == |ops| && FreshOutputs(f, ops)[i] == FreshStep(now, ops[i]).1
    decreases i
  {
    OutputForEach(f, ops);
    if i > 0 {
      StateNext(FreshStep(f, ops[0]).0, ops[1..], i - 1);
    }
  }

  lemma {:induction false} OutputForEach(f: Fresh, ops: seq<Op>)
    requires RunOk(f, ops)
    ensures |FreshOutputs(f, ops)| == |ops|
    decreases |ops|
  {
    if ops != [] {
      OutputForEach(FreshStep(f, ops[0]).0, ops[1..]);
    }
  }

  // --------------------------------------------------------------- message views

  predicate Fetches(op: Op, v: Id, slot: nat) {
    op.Read? && op.view == v && op.slot == slot && op.fetched.Ok?
  }

  /** Of the ops after `c` and before `k`, the first to fetch the slot is `j`. */
  ghost predicate FirstFetch(ops: seq<Op>, c: nat, k: nat, v: Id, slot: nat, j: nat)
    requires k <= |ops|
  {
    c < j < k && Fetches(ops[j], v, slot) && forall i :: c < i < j ==> !Fetches(ops[i], v, slot)
  }

  ghost predicate Unfetched(ops: seq<Op>, c: nat, k: nat, v: Id, slot: nat)
    requires k <= |ops|
  {
    forall i :: c < i < k ==> !Fetches(ops[i], v, slot)
  }

  /** The view that op `c` created is there until before op `k`. */
  predicate MessageLives(ops: seq<Op>, c: nat, k: nat, v: Id)
    requires c < k <= |ops|
  {
    && ops[c].CreateMessage? && ops[c].view == v
    && forall i :: c < i < k && ops[i].view == v ==> !ops[i].CreateMessage? && !ops[i].DropMessage?
  }

  lemma {:induction false} CellAt(f: Fresh, ops: seq<Op>, c: nat, k: nat, v: Id, slot: nat)
    requires RunOk(f, ops) && c < k <= |ops| && MessageLives(ops, c, k, v) && slot < ops[c].fields
    ensures var held := StateAt(f, ops, k).messages;
            && v in held && |held[v]| == ops[c].fields
            && (forall j: nat :: FirstFetch(ops, c, k, v, slot, j) ==> held[v][slot] == Some(ops[j].fetched.value))
            && (Unfetched(ops, c, k, v, slot) ==> held[v][slot] == None)
    decreases k
  {
    StateNext(f, ops, k - 1);
    if k - 1 > c {
      CellAt(f, ops, c, k - 1, v, slot);
      if Unfetched(ops, c, k - 1, v, slot) {
        assert forall j: nat :: FirstFetch(ops, c, k, v, slot, j) ==> j == k - 1;
      } else {
        var j := FirstOne(ops, c, k - 1, v, slot);
        assert forall i: nat :: FirstFetch(ops, c, k, v, slot, i) ==> i == j;
      }
    }
  }

  lemma {:induction false} FirstOne(ops: seq<Op>, c: nat, k: nat, v: Id, slot: nat) returns (j: nat)
    requires c < k <= |ops| && !Unfetched(ops, c, k, v, slot)
    ensures FirstFetch(ops, c, k, v, slot, j)
  {
    if Unfetched(ops, c, k - 1, v, slot) {
      j := k - 1;
    } else {
      j := FirstOne(ops, c, k - 1, v, slot);
    }
  }

  /** A read gives the first fetch that succeeded and, while none has, what fetching gives now. */
  ghost predicate ReadGives(ops: seq<Op>, c: nat, k: nat, output: Output)
    requires c < k < |ops| && ops[k].Read?
  {
    var v, slot := ops[k].view, ops[k].slot;
    && (forall j: nat :: FirstFetch(ops, c, k, v, slot, j) ==> output == Value(Ok(ops[j].fetched.value)))
    && (Unfetched(ops, c, k, v, slot) ==> output == Value(ops[k].fetched))
  }

  lemma {:induction false} FirstFetchWins(f: Fresh, ops: seq<Op>, c: nat, k: nat)
    requires RunOk(f, ops) && c < k < |ops| && ops[k].Read? && MessageLives(ops, c, k, ops[k].view)
    ensures k < |FreshOutputs(f, ops)| && ReadGives(ops, c, k, FreshOutputs(f, ops)[k])
  {
    StateNext(f, ops, k);
    SlotExists(f, ops, c, k);
    CellAt(f, ops, c, k, ops[k].view, ops[k].slot);
  }

  lemma {:induction false} SlotExists(f: Fresh, ops: seq<Op>, c: nat, k: nat)
    requires RunOk(f, ops) && c < k < |ops| && ops[k].Read? && MessageLives(ops, c, k, ops[k].view)
    ensures ops[k].slot < ops[c].fields
  {
    StateNext(f, ops, k);
    Width(f, ops, c, k, ops[k].view);
  }

  lemma {:induction false} Width(f: Fresh, ops: seq<Op>, c: nat, k: nat, v: Id)
    requires RunOk(f, ops) && c < k <= |ops| && MessageLives(ops, c, k, v)
    ensures v in StateAt(f, ops, k).messages && |StateAt(f, ops, k).messages[v]| == ops[c].fields
    decreases k
  {
    StateNext(f, ops, k - 1);
    if k - 1 > c {
      Width(f, ops, c, k - 1, v);
    }
  }

  // ------------------------------------------------------------------ list views

  predicate Lists(op: Op, v: Id) {
    op.Get? && op.view == v && op.listed.Ok?
  }

  /** Of the ops after `c` and before `k`, the first to list the elements is `j`. */
  ghost predicate FirstListing(ops: seq<Op>, c: nat, k: nat, v: Id, j: nat)
    requires k <= |ops|
  {
    c < j < k && Lists(ops[j], v) && forall i :: c < i < j ==> !Lists(ops[i], v)
  }

  ghost predicate Unlisted(ops: seq<Op>, c: nat, k: nat, v: Id)
    requires k <= |ops|
  {
    forall i :: c < i < k ==> !Lists(ops[i], v)
  }

  predicate ListLives(ops: seq<Op>, c: nat, k: nat, v: Id)
    requires c < k <= |ops|
  {
    && ops[c].CreateList? && ops[c].view == v
    && forall i :: c < i < k && ops[i].view == v ==> !ops[i].CreateList? && !ops[i].DropList?
  }

  lemma {:induction false} FirstListed(ops: seq<Op>, c: nat, k: nat, v: Id) returns (j: nat)
    requires c < k <= |ops| && !Unlisted(ops, c, k, v)
    ensures FirstListing(ops, c, k, v, j)
  {
    if Unlisted(ops, c, k - 1, v) {
      j := k - 1;
    } else {
      j := FirstListed(ops, c, k - 1, v);
    }
  }

  lemma {:induction false} ListAt(f: Fresh, ops: seq<Op>, c: nat, k: nat, v: Id)
    requires RunOk(f, ops) && c < k <= |ops| && ListLives(ops, c, k, v)
    ensures var held := StateAt(f, ops, k).lists;
            && v in held && held[v].present == ops[c].present
            && (!ops[c].present && held[v].items.Some? ==> held[v].items.value == [])
            && (ops[c].present ==>
                  && (forall j: nat :: FirstListing(ops, c, k, v, j) ==> held[v].items == Some(ops[j].listed.value))
                  && (Unlisted(ops, c, k, v) ==> held[v].items == None))
    decreases k
  {
    StateNext(f, ops, k - 1);
    if k - 1 > c {
      ListAt(f, ops, c, k - 1, v);
      if Unlisted(ops, c, k - 1, v) {
        assert forall j: nat :: FirstListing(ops, c, k, v, j) ==> j == k - 1;
      } else {
        var j := FirstListed(ops, c, k - 1, v);
        assert forall i: nat :: FirstListing(ops, c, k, v, i) ==> i == j;
      }
    }
  }

  /** An item of the first listing that succeeded, this one included; none beyond its end. */
  ghost predicate GetGives(ops: seq<Op>, c: nat, k: nat, output: Output)
    requires c < k < |ops| && ops[c].CreateList? && ops[k].Get?
  {
    var v, index := ops[k].view, ops[k].index;
    if !ops[c].present then output == Value(Ok(None))
    else
      && (forall j: nat :: FirstListing(ops, c, k + 1, v, j) ==>
            var all := ops[j].listed.value;
            output == Value(Ok(if index < |all| then Some(all[index]) else None)))
      && (Unlisted(ops, c, k + 1, v) ==> ops[k].listed.Err? && output == Value(Err(ops[k].listed.error)))
  }

  /** The length of the first listing that succeeded and, while none has, what counting gives now. */
  ghost predicate LengthGives(ops: seq<Op>, c: nat, k: nat, output: Output)
    requires c < k < |ops| && ops[c].CreateList? && ops[k].Length?
  {
    var v := ops[k].view;
    if !ops[c].present then output == Count(Ok(0))
    else
      && (forall j: nat :: FirstListing(ops, c, k, v, j) ==> output == Count(Ok(|ops[j].listed.value|)))
      && (Unlisted(ops, c, k, v) ==> output == Count(ops[k].counted))
  }

  lemma {:induction false} FirstListingWins(f: Fresh, ops: seq<Op>, c: nat, k: nat)
    requires RunOk(f, ops) && c < k < |ops| && ops[k].Get? && ListLives(ops, c, k, ops[k].view)
    ensures k < |FreshOutputs(f, ops)| && GetGives(ops, c, k, FreshOutputs(f, ops)[k])
  {
    var v := ops[k].view;
    StateNext(f, ops, k);
    ListAt(f, ops, c, k, v);
    var next := k + 1;
    if Unlisted(ops, c, k, v) {
      assert forall j: nat :: FirstListing(ops, c, next, v, j) ==> j == k;
    } else {
      var j := FirstListed(ops, c, k, v);
      assert forall i: nat :: FirstListing(ops, c, next, v, i) ==> i == j;
    }
  }

  lemma {:induction false} FirstLengthWins(f: Fresh, ops: seq<Op>, c: nat, k: nat)
    requires RunOk(f, ops) && c < k < |ops| && ops[k].Length? && ListLives(ops, c, k, ops[k].view)
    ensures k < |FreshOutputs(f, ops)| && LengthGives(ops, c, k, FreshOutputs(f, ops)[k])
  {
    var v := ops[k].view;
    StateNext(f, ops, k);
    ListAt(f, ops, c, k, v);
    if !Unlisted(ops, c, k, v) {
      var j := FirstListed(ops, c, k, v);
      assert forall i: nat :: FirstListing(ops, c, k, v, i) ==> i == j;
    }
  }

  // ------------------------------------------------------------------ whole runs

  /** What every read of a run gives, of the views created in it. */
  ghost predicate Reads(ops: seq<Op>, outputs: seq<Output>) {
    && |outputs| == |ops|
    && forall c, k :: 0 <= c < k < |ops| ==>
         && (ops[k].Read? && MessageLives(ops, c, k, ops[k].view) ==> ReadGives(ops, c, k, outputs[k]))
         && (ops[k].Get? && ListLives(ops, c, k, ops[k].view) ==> GetGives(ops, c, k, outputs[k]))
         && (ops[k].Length? && ListLives(ops, c, k, ops[k].view) ==> LengthGives(ops, c, k, outputs[k]))
  }

  lemma {:induction false} FreshReads(f: Fresh, ops: seq<Op>)
    requires RunOk(f, ops)
    ensures Reads(ops, FreshOutputs(f, ops))
  {
    OutputForEach(f, ops);
    var outputs := FreshOutputs(f, ops);
    forall c, k | 0 <= c < k < |ops|
      ensures ops[k].Read? && MessageLives(ops, c, k, ops[k].view) ==> ReadGives(ops, c, k, outputs[k])
      ensures ops[k].Get? && ListLives(ops, c, k, ops[k].view) ==> GetGives(ops, c, k, outputs[k])
      ensures ops[k].Length? && ListLives(ops, c, k, ops[k].view) ==> LengthGives(ops, c, k, outputs[k])
    {
      if ops[k].Read? && MessageLives(ops, c, k, ops[k].view) {
        FirstFetchWins(f, ops, c, k);
      } else if ops[k].Get? && ListLives(ops, c, k, ops[k].view) {
        FirstListingWins(f, ops, c, k);
      } else if ops[k].Length? && ListLives(ops, c, k, ops[k].view) {
        FirstLengthWins(f, ops, c, k);
      }
    }
  }

  /** With pooling too, whatever was created, read and dropped before or meanwhile. */
  lemma {:induction false} PooledReads(s: Pooled, ops: seq<Op>, outputs: seq<Output>, end: Pooled)
    requires Inv(s) && RunOk(Abstract(s), ops) && PooledRun(s, ops, outputs, end)
    ensures Reads(ops, outputs)
  {
    PooledOutputs(s, ops, outputs, end);
    FreshReads(Abstract(s), ops);
  }

  /**
   A validation: whatever it creates, reads and drops, the objects that share buffers
   give the outputs of views that each have a buffer of their own.
   */
  method Validation(ops: seq<Op>) returns (outputs: seq<Output>)
    requires RunOk(Fresh(map[], map[]), ops)
    ensures outputs == FreshOutputs(Fresh(map[], map[]), ops)
    ensures Reads(ops, outputs)
  {
    FreshReads(Fresh(map[], map[]), ops);
    var ctx := new Ctx();
    outputs := RunAll(ctx, map[], {}, map[], {}, Fresh(map[], map[]), ops);
  }
}
