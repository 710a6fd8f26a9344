/** The worklist that finds the message types whose rules must be built. */
module Closure {
  import opened Wrappers
  import opened Descriptors

  /** A walk over the types from the first to the last, none of them in `known`. */
  ghost predicate Walk(pool: Pool, path: seq<MessageIndex>, known: set<MessageIndex>) {
    && path != []
    && (forall i :: 0 <= i < |path| ==> path[i] !in known)
    && (forall i :: 0 <= i < |path| - 1 ==> Refers(pool, path[i], path[i + 1]))
  }

  /** `t` is reached from `root` without entering `known`. */
  ghost predicate Reaches(pool: Pool, root: MessageIndex, t: MessageIndex, known: set<MessageIndex>) {
    exists path :: Walk(pool, path, known) && path[0] == root && path[|path| - 1] == t
  }

  ghost predicate Closed(pool: Pool, s: set<MessageIndex>) {
    forall a: MessageIndex, b: MessageIndex :: a in s && Refers(pool, a, b) ==> b in s
  }

  lemma {:induction false} ReachesSelf(pool: Pool, root: MessageIndex, known: set<MessageIndex>)
    requires root !in known
    ensures Reaches(pool, root, root, known)
  {
    assert Walk(pool, [root], known);
  }

  lemma {:induction false} ReachesAvoids(pool: Pool, root: MessageIndex, t: MessageIndex, known: set<MessageIndex>)
    requires Reaches(pool, root, t, known)
    ensures root !in known && t !in known
  {
    var path :| Walk(pool, path, known) && path[0] == root && path[|path| - 1] == t;
  }

  lemma {:induction false} ReachesNext(pool: Pool, root: MessageIndex, a: MessageIndex, b: MessageIndex,
                                       known: set<MessageIndex>)
    requires Reaches(pool, root, a, known) && Refers(pool, a, b) && b !in known
    ensures Reaches(pool, root, b, known)
  {
    var path :| Walk(pool, path, known) && path[0] == root && path[|path| - 1] == a;
    assert Walk(pool, path + [b], known);
  }

  /** A set that is closed outside `known` holds every walk that starts in it. */
  lemma {:induction false} WalkStays(pool: Pool, path: seq<MessageIndex>, known: set<MessageIndex>,
                                     s: set<MessageIndex>)
    requires Walk(pool, path, known) && path[0] in s
    requires forall a: MessageIndex, b: MessageIndex :: a in s && Refers(pool, a, b) && b !in known ==> b in s
    ensures path[|path| - 1] in s
    decreases |path|
  {
    if |path| > 1 {
      assert Refers(pool, path[0], path[1]);
      assert Walk(pool, path[1..], known) by {
        forall i | 0 <= i < |path[1..]| - 1 ensures Refers(pool, path[1..][i], path[1..][i + 1]) {
          assert Refers(pool, path[i + 1], path[i + 2]);
        }
      }
      WalkStays(pool, path[1..], known, s);
    }
  }

  lemma {:induction false} ReachesStays(pool: Pool, root: MessageIndex, t: MessageIndex, known: set<MessageIndex>,
                                        s: set<MessageIndex>)
    requires Reaches(pool, root, t, known) && root in s
    requires forall a: MessageIndex, b: MessageIndex :: a in s && Refers(pool, a, b) && b !in known ==> b in s
    ensures t in s
  {
    var path :| Walk(pool, path, known) && path[0] == root && path[|path| - 1] == t;
    WalkStays(pool, path, known, s);
  }

  /** Pruning at `known` loses nothing when `known` is closed. */
  lemma {:induction false} PruningIsExact(pool: Pool, root: MessageIndex, t: MessageIndex, known: set<MessageIndex>)
    requires Closed(pool, known)
    ensures Reaches(pool, root, t, known) <==> Reaches(pool, root, t, {}) && t !in known
  {
    if Reaches(pool, root, t, known) {
      var path :| Walk(pool, path, known) && path[0] == root && path[|path| - 1] == t;
      assert Walk(pool, path, {});
    }
    if Reaches(pool, root, t, {}) && t !in known {
      var path :| Walk(pool, path, {}) && path[0] == root && path[|path| - 1] == t;
      AvoidsKnown(pool, path, known);
      assert Walk(pool, path, known);
    }
  }

  lemma {:induction false} AvoidsKnown(pool: Pool, path: seq<MessageIndex>, known: set<MessageIndex>)
    requires Closed(pool, known) && Walk(pool, path, {}) && path[|path| - 1] !in known
    ensures forall i :: 0 <= i < |path| ==> path[i] !in known
    decreases |path|
  {
    if |path| > 1 {
      assert Walk(pool, path[1..], {}) by {
        forall i | 0 <= i < |path[1..]| - 1 ensures Refers(pool, path[1..][i], path[1..][i + 1]) {
          assert Refers(pool, path[i + 1], path[i + 2]);
        }
      }
      AvoidsKnown(pool, path[1..], known);
      assert path[1] == path[1..][0] && path[1] !in known;
      assert Refers(pool, path[0], path[1]);
      forall i | 0 <= i < |path| ensures path[i] !in known {
        if i > 0 { assert path[i] == path[1..][i - 1]; }
      }
    }
  }

  /** Every type reachable from `root` outside `known`. */
  ghost predicate IsClosure(pool: Pool, root: MessageIndex, known: set<MessageIndex>, s: set<MessageIndex>) {
    forall t: MessageIndex :: t in s <==> Reaches(pool, root, t, known)
  }

  ghost function Reachable(pool: Pool, root: MessageIndex, known: set<MessageIndex>): (s: set<MessageIndex>)
    ensures forall t: MessageIndex :: t in s <==> t < |pool| && Reaches(pool, root, t, known)
  {
    set t: MessageIndex | t in Universe(|pool|) && Reaches(pool, root, t, known)
  }

  /** Everything `pending` holds is in the pool, and reachable unless known. */
  ghost predicate PendingOk(pool: Pool, root: MessageIndex, known: set<MessageIndex>, pending: seq<MessageIndex>) {
    forall p: MessageIndex :: p in pending ==> p < |pool| && (p !in known ==> Reaches(pool, root, p, known))
  }

  /** What the fields of `closure` refer to is known, visited or still pending. */
  ghost predicate Explored(pool: Pool, known: set<MessageIndex>, closure: set<MessageIndex>,
                           pending: seq<MessageIndex>) {
    forall a: MessageIndex, b: MessageIndex :: a in closure && Refers(pool, a, b) ==>
      b in closure || b in known || b in pending
  }

  /** Pushes the message type of each field of `idx`. */
  method PushNested(pool: Pool, idx: MessageIndex, pending: seq<MessageIndex>) returns (pushed: seq<MessageIndex>)
    requires idx < |pool|
    ensures forall p: MessageIndex :: p in pushed <==> p in pending || Refers(pool, idx, p)
  {
    pushed := pending;
    var fields := pool[idx].fields;
    for i := 0 to |fields|
      invariant forall p: MessageIndex :: p in pushed <==>
                  p in pending || exists k :: 0 <= k < i && MessageType(fields[k]) == Some(p)
    {
      var nested := MessageType(fields[i]);
      if nested.Some? {
        pushed := pushed + [nested.value];
      }
    }
  }

  /** The loop invariant of the worklist. */
  ghost predicate Invariant(pool: Pool, root: MessageIndex, known: set<MessageIndex>, closure: set<MessageIndex>,
                            pending: seq<MessageIndex>) {
    && closure !! known
    && PendingOk(pool, root, known, pending)
    && (forall t :: t in closure ==> t < |pool| && Reaches(pool, root, t, known))
    && (root in closure || root in known || root in pending)
    && Explored(pool, known, closure, pending)
  }

  lemma {:induction false} PopKeeps(pool: Pool, root: MessageIndex, known: set<MessageIndex>,
                                    closure: set<MessageIndex>,
                 rest: seq<MessageIndex>, idx: MessageIndex)
    requires Invariant(pool, root, known, closure, rest + [idx])
    ensures idx < |pool| && (idx !in known ==> Reaches(pool, root, idx, known))
    ensures PendingOk(pool, root, known, rest)
    ensures idx in known || idx in closure ==> Invariant(pool, root, known, closure, rest)
  {
    assert idx in rest + [idx];
    forall p: MessageIndex ensures p in rest + [idx] <==> p in rest || p == idx {
    }
  }

  lemma {:induction false} ExpandKeeps(pool: Pool, root: MessageIndex, known: set<MessageIndex>,
                                       closure: set<MessageIndex>,
                    rest: seq<MessageIndex>, idx: MessageIndex, pushed: seq<MessageIndex>)
    requires Linked(pool) && Invariant(pool, root, known, closure, rest + [idx])
    requires idx !in known && idx !in closure
    requires forall p: MessageIndex :: p in pushed <==> p in rest || Refers(pool, idx, p)
    ensures Invariant(pool, root, known, closure + {idx}, pushed)
  {
    PopKeeps(pool, root, known, closure, rest, idx);
    forall p: MessageIndex | p in pushed
      ensures p < |pool| && (p !in known ==> Reaches(pool, root, p, known))
    {
      if p !in rest && p !in known {
        ReachesNext(pool, root, idx, p, known);
      }
    }
    forall a: MessageIndex, b: MessageIndex | a in closure + {idx} && Refers(pool, a, b)
      ensures b in closure + {idx} || b in known || b in pushed
    {
      assert b in rest + [idx] <==> b in rest || b == idx;
    }
  }

  lemma {:induction false} WorklistDone(pool: Pool, root: MessageIndex, known: set<MessageIndex>,
                                        closure: set<MessageIndex>)
    requires Invariant(pool, root, known, closure, [])
    ensures IsClosure(pool, root, known, closure)
  {
    forall t | Reaches(pool, root, t, known) ensures t in closure {
      ReachesAvoids(pool, root, t, known);
      ReachesStays(pool, root, t, known, closure);
    }
  }

  method FindClosure(pool: Pool, root: MessageIndex, known: set<MessageIndex>) returns (closure: set<MessageIndex>)
    requires Linked(pool) && root < |pool|
    ensures IsClosure(pool, root, known, closure)
    ensures forall t: MessageIndex :: t in closure ==> t < |pool| && t !in known
  {
    closure := {};
    var pending := [root];
    ghost var universe := Universe(|pool|);
    if root !in known {
      ReachesSelf(pool, root, known);
    }
    while pending != []
      invariant Invariant(pool, root, known, closure, pending)
      decreases |universe - closure|, |pending|
    {
      var last := |pending| - 1;
      var idx, rest := pending[last], pending[..last];
      assert pending == rest + [idx];
      PopKeeps(pool, root, known, closure, rest, idx);
      if idx in known || idx in closure {
        pending := rest;
        continue;
      }
      Smaller(universe - (closure + {idx}), universe - closure);
      pending := PushNested(pool, idx, rest);
      ExpandKeeps(pool, root, known, closure, rest, idx, pending);
      closure := closure + {idx};
    }
    WorklistDone(pool, root, known, closure);
  }

  ghost function Universe(n: nat): (s: set<MessageIndex>)
    ensures forall i: MessageIndex :: i in s <==> i < n
  {
    if n == 0 then {} else Universe(n - 1) + {n - 1}
  }

  lemma {:induction false} Smaller(a: set<MessageIndex>, b: set<MessageIndex>)
    requires a < b
    ensures |a| < |b|
  {
    var x :| x in b && x !in a;
    assert a <= b - {x};
    SubsetSize(a, b - {x});
  }

  lemma {:induction false} SubsetSize(a: set<MessageIndex>, b: set<MessageIndex>)
    requires a <= b
    ensures |a| <= |b|
  {
    if a != {} {
      var x :| x in a;
      SubsetSize(a - {x}, b - {x});
    }
  }
}
