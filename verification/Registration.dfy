/**
 Registering descriptor files: a depth-first walk over imports that keeps four
 stores in step, whatever fails on the way. Everything outside that may fail,
 from reading a Python attribute to linking a file, draws its outcome from a
 stream, so that every pattern of failures is covered.
 */
module Registration {
  import opened Wrappers

  /**
   A descriptor file. `messages` gives, for each message type the file declares, the
   message types its fields refer to.
   */
  datatype File = File(name: string, imports: seq<File>, messages: map<string, set<string>>)

  /** Whether each call to the outside, in order, succeeds. */
  type Outcomes = nat -> bool

  /**
   The stores: the names the engine has registered, the file that the descriptor pool and
   the CEL pool hold under each name and, for protobuf-py, the names in the registry. `log`
   is the order of registration.
   */
  datatype Stores = Stores(
    registered: set<string>,
    pool: map<string, File>,
    cel: map<string, File>,
    registry: Option<set<string>>,
    log: seq<File>)

  /** Where a walk got to: the stores, the outcomes it used, and whether it succeeded. */
  datatype Progress = Progress(s: Stores, at: nat, ok: bool)

  predicate ImportsIn(file: File, names: set<string>) {
    forall i :: 0 <= i < |file.imports| ==> file.imports[i].name in names
  }

  // ------------------------------------------------------------ what the walk does

  /** The descriptor pool links a file under a name it does not have; it keeps the one it has. */
  function AddToPool(outcomes: Outcomes, s: Stores, at: nat, file: File): Progress {
    if !outcomes(at) then Progress(s, at + 1, false)
    else if file.name in s.pool then Progress(s, at + 1, true)
    else if !ImportsIn(file, s.pool.Keys) then Progress(s, at + 1, false)
    else if !outcomes(at + 1) then Progress(s, at + 2, false)
    else Progress(s.(pool := s.pool[file.name := file]), at + 2, true)
  }

  /** So does the CEL pool. */
  function AddToCel(outcomes: Outcomes, s: Stores, at: nat, file: File): Progress {
    if !outcomes(at) then Progress(s, at + 1, false)
    else if file.name in s.cel then Progress(s, at + 1, true)
    else if !ImportsIn(file, s.cel.Keys) then Progress(s, at + 1, false)
    else if !outcomes(at + 1) then Progress(s, at + 2, false)
    else Progress(s.(cel := s.cel[file.name := file]), at + 2, true)
  }

  function AddToRegistry(outcomes: Outcomes, s: Stores, at: nat, file: File): Progress {
    match s.registry
    case None => Progress(s, at, true)
    case Some(files) =>
      if !outcomes(at) then Progress(s, at + 1, false)
      else Progress(s.(registry := Some(files + {file.name})), at + 1, true)
  }

  /** `add_file_descriptor_bytes`: the descriptor pool first. */
  function AddBytes(outcomes: Outcomes, s: Stores, at: nat, file: File): Progress {
    var pooled := AddToPool(outcomes, s, at, file);
    if pooled.ok then AddToCel(outcomes, pooled.s, pooled.at, file) else pooled
  }

  /** Adds one file to each store in turn, stopping at the first failure. */
  function Add(outcomes: Outcomes, s: Stores, at: nat, file: File): Progress {
    var added := AddBytes(outcomes, s, at, file);
    if added.ok then AddToRegistry(outcomes, added.s, added.at, file) else added
  }

  function Note(s: Stores, file: File): Stores {
    s.(registered := s.registered + {file.name}, log := s.log + [file])
  }

  /** A file after its imports, skipping what is registered. */
  function Collect(outcomes: Outcomes, s: Stores, at: nat, file: File): Progress
    decreases file, 1
  {
    if !outcomes(at) then Progress(s, at + 1, false)
    else if file.name in s.registered then Progress(s, at + 1, true)
    else Finish(outcomes, CollectImports(outcomes, s, at + 1, file.imports, 0), file)
  }

  /** Serializes and adds a file whose imports have been walked. */
  function Finish(outcomes: Outcomes, w: Progress, file: File): Progress {
    if !w.ok then w
    else if !outcomes(w.at) then Progress(w.s, w.at + 1, false)
    else NoteAdded(Add(outcomes, w.s, w.at + 1, file), file)
  }

  function NoteAdded(added: Progress, file: File): Progress {
    if added.ok then added.(s := Note(added.s, file)) else added
  }

  /** The imports from the `i`-th on; reading the next one may fail too. */
  function CollectImports(outcomes: Outcomes, s: Stores, at: nat, imports: seq<File>, i: nat): Progress
    requires i <= |imports|
    decreases imports, 0, |imports| - i
  {
    if !outcomes(at) then Progress(s, at + 1, false)
    else if i == |imports| then Progress(s, at + 1, true)
    else
      var w := Collect(outcomes, s, at + 1, imports[i]);
      if !w.ok then w else CollectImports(outcomes, w.s, w.at, imports, i + 1)
  }

  /** `Engine::register`. */
  function RegisterFile(outcomes: Outcomes, s: Stores, at: nat, file: File): Progress {
    if !outcomes(at) then Progress(s, at + 1, false)
    else if file.name in s.registered then Progress(s, at + 1, true)
    else Collect(outcomes, s, at + 1, file)
  }

  // -------------------------------------------------------------- what always holds

  ghost predicate Logged(log: seq<File>, name: string) {
    exists i :: 0 <= i < |log| && log[i].name == name
  }

  /** Files come after all their imports, and none comes twice. */
  ghost predicate InOrder(log: seq<File>) {
    && (forall i, d :: 0 <= i < |log| && d in log[i].imports ==> Logged(log[..i], d.name))
    && (forall i, k :: 0 <= i < k < |log| ==> log[i].name != log[k].name)
  }

  /** What is registered is in both pools, each of which may have started with files the other lacks. */
  ghost predicate HoldRegistered(s: Stores) {
    s.registered <= s.pool.Keys && s.registered <= s.cel.Keys
  }

  ghost predicate InStep(s: Stores) {
    HoldRegistered(s) && (s.registry.Some? ==> s.registered == s.registry.value)
  }

  ghost predicate Valid(s: Stores) {
    && InStep(s) && InOrder(s.log)
    && (forall name :: name in s.registered <==> Logged(s.log, name))
  }

  /** A pool that keeps every file it held. */
  ghost predicate Extends(a: map<string, File>, b: map<string, File>) {
    forall name :: name in a ==> name in b && b[name] == a[name]
  }

  /** The stores only grow, and the CEL pool by nothing that the descriptor pool lacks. */
  ghost predicate Grows(s: Stores, s': Stores) {
    && s.registered <= s'.registered && Extends(s.pool, s'.pool) && Extends(s.cel, s'.cel)
    && s'.cel.Keys - s.cel.Keys <= s'.pool.Keys
    && (s.registry.Some? <==> s'.registry.Some?)
    && s.log <= s'.log
  }

  predicate InTree(g: File, f: File)
    decreases f
  {
    g == f || exists i :: 0 <= i < |f.imports| && InTree(g, f.imports[i])
  }

  /** A name stands for one file: `names` says which, throughout the tree of `f`. */
  ghost predicate Coherent(names: map<string, File>, f: File)
    decreases f
  {
    && f.name in names && names[f.name] == f
    && forall i :: 0 <= i < |f.imports| ==> Coherent(names, f.imports[i])
  }

  ghost predicate AllCoherent(names: map<string, File>, fs: seq<File>) {
    forall i :: 0 <= i < |fs| ==> Coherent(names, fs[i])
  }

  ghost predicate InTrees(g: File, roots: seq<File>) {
    exists i :: 0 <= i < |roots| && InTree(g, roots[i])
  }

  /** What `s'` registers beyond `s` are files of those trees. */
  ghost predicate AddsOnly(s: Stores, s': Stores, roots: seq<File>) {
    s.log <= s'.log && forall i :: |s.log| <= i < |s'.log| ==> InTrees(s'.log[i], roots)
  }

  ghost predicate AllSucceed(outcomes: Outcomes, from: nat, to: nat) {
    forall i :: from <= i < to ==> outcomes(i)
  }

  // ------------------------------------------------------------------ one file

  lemma {:induction false} ToPool(outcomes: Outcomes, s: Stores, at: nat, file: File)
    requires ImportsIn(file, s.pool.Keys)
    ensures var w := AddToPool(outcomes, s, at, file);
            && w.at > at && w.s == s.(pool := w.s.pool) && Extends(s.pool, w.s.pool)
            && (w.ok ==> file.name in w.s.pool) && (w.ok <==> AllSucceed(outcomes, at, w.at))
  {
  }

  lemma {:induction false} ToCel(outcomes: Outcomes, s: Stores, at: nat, file: File)
    requires ImportsIn(file, s.cel.Keys) && file.name in s.pool
    ensures var w := AddToCel(outcomes, s, at, file);
            && w.at > at && w.s == s.(cel := w.s.cel) && Extends(s.cel, w.s.cel)
            && w.s.cel.Keys - s.cel.Keys <= s.pool.Keys
            && (w.ok ==> file.name in w.s.cel) && (w.ok <==> AllSucceed(outcomes, at, w.at))
  {
  }

  /** How far adding a file got: the registry has it only if every store has. */
  ghost predicate Added(outcomes: Outcomes, s: Stores, at: nat, w: Progress, file: File) {
    && w.at > at && w.s.log == s.log && w.s.registered == s.registered && Grows(s, w.s)
    && (w.ok ==> file.name in w.s.pool && file.name in w.s.cel)
    && (s.registry.Some? ==>
          w.s.registry == Some(if w.ok then s.registry.value + {file.name} else s.registry.value))
    && (w.ok <==> AllSucceed(outcomes, at, w.at))
  }

  /** However far it gets, adding a file leaves the stores in step. */
  lemma {:induction false} AddKeeps(outcomes: Outcomes, s: Stores, at: nat, file: File)
    requires InStep(s) && ImportsIn(file, s.registered)
    ensures Added(outcomes, s, at, Add(outcomes, s, at, file), file)
  {
    ToPool(outcomes, s, at, file);
    var pooled := AddToPool(outcomes, s, at, file);
    if pooled.ok {
      ToCel(outcomes, pooled.s, pooled.at, file);
    }
  }

  /**
   Which stores have the file then, of those that did not: the descriptor pool if its two
   calls succeed, the CEL pool if its own two do after that, the registry if all do.
   Everything else in them is as it was.
   */
  lemma {:induction false} AddExactly(outcomes: Outcomes, s: Stores, at: nat, file: File)
    requires InStep(s) && ImportsIn(file, s.registered)
    ensures var w := Add(outcomes, s, at, file);
            var cel := at + if file.name in s.pool then 1 else 2;
            var registry := cel + if file.name in s.cel then 1 else 2;
            && (file.name in w.s.pool <==> file.name in s.pool || AllSucceed(outcomes, at, at + 2))
            && (file.name in w.s.cel <==> file.name in s.cel || AllSucceed(outcomes, at, cel + 2))
            && (w.ok <==> AllSucceed(outcomes, at, if s.registry.None? then registry else registry + 1))
            && w.s.pool == (if file.name in w.s.pool && file.name !in s.pool then s.pool[file.name := file] else s.pool)
            && w.s.cel == (if file.name in w.s.cel && file.name !in s.cel then s.cel[file.name := file] else s.cel)
  {
  }

  lemma {:induction false} LoggedAppend(log: seq<File>, file: File)
    ensures forall name :: Logged(log + [file], name) <==> Logged(log, name) || name == file.name
  {
    assert (log + [file])[|log|] == file;
    forall name | Logged(log, name) ensures Logged(log + [file], name) {
      var i :| 0 <= i < |log| && log[i].name == name;
      assert (log + [file])[i] == log[i];
    }
  }

  /** Noting a file whose imports are noted, and which is not. */
  lemma {:induction false} OrderAppend(log: seq<File>, file: File)
    requires InOrder(log) && !Logged(log, file.name)
    requires forall d :: d in file.imports ==> Logged(log, d.name)
    ensures InOrder(log + [file])
  {
    var more := log + [file];
    assert more[..|log|] == log;
    forall i, d | 0 <= i < |more| && d in more[i].imports ensures Logged(more[..i], d.name) {
      if i < |log| {
        assert more[..i] == log[..i];
      }
    }
    forall i, k | 0 <= i < k < |more| ensures more[i].name != more[k].name {
      if k == |log| {
        assert more[i] == log[i];
      }
    }
  }

  lemma {:induction false} NoteKeeps(outcomes: Outcomes, s: Stores, at: nat, added: Progress, file: File)
    requires Valid(s) && Added(outcomes, s, at, added, file)
    requires file.name !in s.registered && ImportsIn(file, s.registered)
    ensures var w := NoteAdded(added, file);
            && Valid(w.s) && Grows(s, w.s) && w.s.log == (if w.ok then s.log + [file] else s.log)
            && (w.ok ==> file.name in w.s.registered)
  {
    forall d | d in file.imports ensures Logged(s.log, d.name) {
      var i :| 0 <= i < |file.imports| && file.imports[i] == d;
    }
    OrderAppend(s.log, file);
    LoggedAppend(s.log, file);
  }

  // ------------------------------------------------------------------- the trees

  function Size(f: File): (n: nat)
    ensures n > 0
    decreases f, 1
  {
    1 + Sizes(f.imports, 0)
  }

  function Sizes(fs: seq<File>, i: nat): nat
    requires i <= |fs|
    decreases fs, 0, |fs| - i
  {
    if i == |fs| then 0 else Size(fs[i]) + Sizes(fs, i + 1)
  }

  lemma {:induction false} SizeOfOne(fs: seq<File>, i: nat, k: nat)
    requires i <= k < |fs|
    ensures Size(fs[k]) <= Sizes(fs, i)
    decreases k - i
  {
    if i < k {
      SizeOfOne(fs, i + 1, k);
    }
  }

  lemma {:induction false} TreeSize(g: File, f: File)
    requires InTree(g, f)
    ensures Size(g) <= Size(f)
    decreases f
  {
    if g != f {
      var i :| 0 <= i < |f.imports| && InTree(g, f.imports[i]);
      TreeSize(g, f.imports[i]);
      SizeOfOne(f.imports, 0, i);
    }
  }

  lemma {:induction false} TreeCoherent(names: map<string, File>, g: File, f: File)
    requires Coherent(names, f) && InTree(g, f)
    ensures Coherent(names, g)
    decreases f
  {
    if g != f {
      var i :| 0 <= i < |f.imports| && InTree(g, f.imports[i]);
      TreeCoherent(names, g, f.imports[i]);
    }
  }

  lemma {:induction false} TreeTrans(h: File, g: File, f: File)
    requires InTree(h, g) && InTree(g, f)
    ensures InTree(h, f)
    decreases f
  {
    if g != f {
      var i :| 0 <= i < |f.imports| && InTree(g, f.imports[i]);
      TreeTrans(h, g, f.imports[i]);
    }
  }

  /** No import of a file, direct or not, has its name. */
  lemma {:induction false} NotItsOwnImport(names: map<string, File>, f: File, g: File, i: nat)
    requires Coherent(names, f) && i < |f.imports| && InTree(g, f.imports[i])
    ensures g.name != f.name
  {
    TreeCoherent(names, g, f.imports[i]);
    if g.name == f.name {
      TreeSize(g, f.imports[i]);
      SizeOfOne(f.imports, 0, i);
    }
  }

  // -------------------------------------------------------------------- the walk

  /** A walk from `s` kept everything that matters. */
  ghost predicate Kept(outcomes: Outcomes, s: Stores, at: nat, w: Progress, roots: seq<File>) {
    && Valid(w.s) && Grows(s, w.s) && AddsOnly(s, w.s, roots)
    && w.at > at && (w.ok <==> AllSucceed(outcomes, at, w.at))
  }

  lemma {:induction false} AddsMore(s: Stores, s1: Stores, s2: Stores, imports: seq<File>, i: nat)
    requires i < |imports| && AddsOnly(s, s1, [imports[i]]) && AddsOnly(s1, s2, imports)
    ensures AddsOnly(s, s2, imports)
  {
    forall k | |s.log| <= k < |s2.log| ensures InTrees(s2.log[k], imports) {
      if k < |s1.log| {
        assert s2.log[k] == s1.log[k] && InTrees(s1.log[k], [imports[i]]);
        assert InTree(s1.log[k], imports[i]);
      }
    }
  }

  /** Reading an import, walking it, then the rest. */
  lemma {:induction false} Then(outcomes: Outcomes, s: Stores, at: nat, w: Progress, rest: Progress,
                                imports: seq<File>, i: nat)
    requires i < |imports| && outcomes(at) && w.ok
    requires Kept(outcomes, s, at + 1, w, [imports[i]]) && Kept(outcomes, w.s, w.at, rest, imports)
    ensures Kept(outcomes, s, at, rest, imports)
  {
    AddsMore(s, w.s, rest.s, imports, i);
  }

  lemma {:induction false} Stopped(outcomes: Outcomes, s: Stores, at: nat, w: Progress, imports: seq<File>, i: nat)
    requires i < |imports| && outcomes(at) && !w.ok && Kept(outcomes, s, at + 1, w, [imports[i]])
    ensures Kept(outcomes, s, at, w, imports)
  {
    AddsMore(s, w.s, w.s, imports, i);
  }

  /**
   The walk keeps the stores valid wherever it stops, succeeds exactly when nothing
   outside failed, registers nothing but files of this tree, and on success
   registers the file.
   */
  lemma {:induction false} CollectKeeps(names: map<string, File>, outcomes: Outcomes, s: Stores, at: nat, file: File)
    requires Valid(s) && Coherent(names, file)
    ensures Kept(outcomes, s, at, Collect(outcomes, s, at, file), [file])
    ensures Collect(outcomes, s, at, file).ok ==> file.name in Collect(outcomes, s, at, file).s.registered
    decreases file, 1
  {
    if outcomes(at) && file.name !in s.registered {
      CollectImportsKeeps(names, outcomes, s, at + 1, file.imports, 0);
      FinishKeeps(names, outcomes, s, at + 1, CollectImports(outcomes, s, at + 1, file.imports, 0), file);
    }
  }

  lemma {:induction false} ImportKeeps(names: map<string, File>, outcomes: Outcomes, s: Stores, at: nat,
                                       imports: seq<File>, i: nat) returns (w: Progress)
    requires Valid(s) && AllCoherent(names, imports) && i < |imports| && outcomes(at)
    ensures Kept(outcomes, s, at + 1, w, [imports[i]])
    ensures w.ok ==> imports[i].name in w.s.registered
    ensures CollectImports(outcomes, s, at, imports, i)
         == if w.ok then CollectImports(outcomes, w.s, w.at, imports, i + 1) else w
    decreases imports, 0, |imports| - i, 0
  {
    w := Collect(outcomes, s, at + 1, imports[i]);
    CollectKeeps(names, outcomes, s, at + 1, imports[i]);
  }

  lemma {:induction false} CollectImportsKeeps(names: map<string, File>, outcomes: Outcomes, s: Stores, at: nat,
                                               imports: seq<File>, i: nat)
    requires Valid(s) && AllCoherent(names, imports) && i <= |imports|
    requires forall k :: 0 <= k < i ==> imports[k].name in s.registered
    ensures Kept(outcomes, s, at, CollectImports(outcomes, s, at, imports, i), imports)
    ensures var w := CollectImports(outcomes, s, at, imports, i);
            w.ok ==> forall k :: 0 <= k < |imports| ==> imports[k].name in w.s.registered
    decreases imports, 0, |imports| - i, 1
  {
    if outcomes(at) && i < |imports| {
      var w := ImportKeeps(names, outcomes, s, at, imports, i);
      if w.ok {
        CollectImportsKeeps(names, outcomes, w.s, w.at, imports, i + 1);
        Then(outcomes, s, at, w, CollectImports(outcomes, w.s, w.at, imports, i + 1), imports, i);
      } else {
        Stopped(outcomes, s, at, w, imports, i);
      }
    }
  }

  /** The imports did not register the file itself. */
  lemma {:induction false} StillMissing(names: map<string, File>, s: Stores, s': Stores, file: File)
    requires Valid(s) && Valid(s') && AddsOnly(s, s', file.imports)
    requires Coherent(names, file) && file.name !in s.registered
    ensures file.name !in s'.registered
  {
    forall k | 0 <= k < |s'.log| ensures s'.log[k].name != file.name {
      if k < |s.log| {
        assert s'.log[k] == s.log[k] && Logged(s.log, s.log[k].name);
      } else {
        var i :| 0 <= i < |file.imports| && InTree(s'.log[k], file.imports[i]);
        NotItsOwnImport(names, file, s'.log[k], i);
      }
    }
  }

  /** Imports' trees are part of the file's. */
  lemma {:induction false} AddsFile(s: Stores, s1: Stores, s2: Stores, file: File)
    requires AddsOnly(s, s1, file.imports) && (s2.log == s1.log || s2.log == s1.log + [file])
    ensures AddsOnly(s, s2, [file])
  {
    forall k | |s.log| <= k < |s2.log| ensures InTrees(s2.log[k], [file]) {
      assert InTree(s2.log[k], [file][0]) by {
        if k < |s1.log| {
          assert InTrees(s1.log[k], file.imports);
        }
      }
    }
  }

  /** Serializing, adding and noting a file whose imports are registered. */
  lemma {:induction false} FinishStores(outcomes: Outcomes, w: Progress, file: File)
    requires w.ok && Valid(w.s) && ImportsIn(file, w.s.registered) && file.name !in w.s.registered
    ensures var r := Finish(outcomes, w, file);
            && Valid(r.s) && Grows(w.s, r.s)
            && r.s.log == (if r.ok then w.s.log + [file] else w.s.log)
            && (r.ok ==> file.name in r.s.registered)
  {
    if outcomes(w.at) {
      var added := Add(outcomes, w.s, w.at + 1, file);
      AddKeeps(outcomes, w.s, w.at + 1, file);
      NoteKeeps(outcomes, w.s, w.at + 1, added, file);
      assert Finish(outcomes, w, file) == NoteAdded(added, file);
    }
  }

  lemma {:induction false} FinishSucceeds(outcomes: Outcomes, w: Progress, file: File)
    requires w.ok && InStep(w.s) && ImportsIn(file, w.s.registered)
    ensures var r := Finish(outcomes, w, file); r.at > w.at && (r.ok <==> AllSucceed(outcomes, w.at, r.at))
  {
    if outcomes(w.at) {
      AddKeeps(outcomes, w.s, w.at + 1, file);
    }
  }

  lemma {:induction false} FinishKeeps(names: map<string, File>, outcomes: Outcomes, s: Stores, at: nat, w: Progress,
                                       file: File)
    requires Valid(s) && Kept(outcomes, s, at, w, file.imports)
    requires Coherent(names, file) && file.name !in s.registered
    requires w.ok ==> ImportsIn(file, w.s.registered)
    ensures Kept(outcomes, s, at, Finish(outcomes, w, file), [file])
    ensures Finish(outcomes, w, file).ok ==> file.name in Finish(outcomes, w, file).s.registered
  {
    if w.ok {
      StillMissing(names, s, w.s, file);
      FinishStores(outcomes, w, file);
      FinishSucceeds(outcomes, w, file);
    }
    AddsFile(s, w.s, Finish(outcomes, w, file).s, file);
  }

  // -------------------------------------------------------------- registrations

  /** A run of registrations, each one that fails left as it is. */
  function RegisterAll(outcomes: Outcomes, s: Stores, at: nat, files: seq<File>): Progress
    decreases |files|
  {
    if files == [] then Progress(s, at, true)
    else
      var w := RegisterFile(outcomes, s, at, files[0]);
      RegisterAll(outcomes, w.s, w.at, files[1..])
  }

  ghost predicate TreeRegistered(s: Stores, f: File) {
    forall g :: InTree(g, f) ==> g.name in s.registered
  }

  lemma {:induction false} LogCoherent(names: map<string, File>, s: Stores, s': Stores, file: File)
    requires AllCoherent(names, s.log) && Coherent(names, file) && AddsOnly(s, s', [file])
    ensures AllCoherent(names, s'.log)
  {
    forall i | 0 <= i < |s'.log| ensures Coherent(names, s'.log[i]) {
      if i < |s.log| {
        assert s'.log[i] == s.log[i];
      } else {
        assert InTrees(s'.log[i], [file]);
        TreeCoherent(names, s'.log[i], file);
      }
    }
  }

  /** A registered file's imports, direct or not, are registered. */
  lemma {:induction false} ImportClosed(names: map<string, File>, s: Stores, f: File)
    requires Valid(s) && AllCoherent(names, s.log) && Coherent(names, f) && f.name in s.registered
    ensures TreeRegistered(s, f)
    decreases f
  {
    var i :| 0 <= i < |s.log| && s.log[i].name == f.name;
    assert Coherent(names, s.log[i]) && s.log[i] == f;
    forall k | 0 <= k < |f.imports| ensures TreeRegistered(s, f.imports[k]) {
      assert f.imports[k] in s.log[i].imports;
      var j :| 0 <= j < |s.log[..i]| && s.log[..i][j].name == f.imports[k].name;
      assert Logged(s.log, s.log[j].name);
      ImportClosed(names, s, f.imports[k]);
    }
  }

  /** One call to the outside, and nothing else. */
  lemma {:induction false} OneCall(outcomes: Outcomes, s: Stores, at: nat, roots: seq<File>)
    requires Valid(s)
    ensures Kept(outcomes, s, at, Progress(s, at + 1, outcomes(at)), roots)
  {
  }

  lemma {:induction false} AfterOneCall(outcomes: Outcomes, s: Stores, at: nat, w: Progress, roots: seq<File>)
    requires outcomes(at) && Kept(outcomes, s, at + 1, w, roots)
    ensures Kept(outcomes, s, at, w, roots)
  {
  }

  lemma {:induction false} RegisterKeeps(names: map<string, File>, outcomes: Outcomes, s: Stores, at: nat,
                                         file: File)
    requires Valid(s) && Coherent(names, file)
    ensures Kept(outcomes, s, at, RegisterFile(outcomes, s, at, file), [file])
    ensures RegisterFile(outcomes, s, at, file).ok ==>
              file.name in RegisterFile(outcomes, s, at, file).s.registered
  {
    if outcomes(at) && file.name !in s.registered {
      CollectKeeps(names, outcomes, s, at + 1, file);
      AfterOneCall(outcomes, s, at, Collect(outcomes, s, at + 1, file), [file]);
    } else {
      OneCall(outcomes, s, at, [file]);
    }
  }

  /**
   Registering a file, from any state a run can reach: it succeeds exactly when
   nothing outside failed, and then precisely the files of its tree have been added.
   So a retry of a registration that failed half-way completes it.
   */
  lemma {:induction false} RegisterCompletes(names: map<string, File>, outcomes: Outcomes, s: Stores, at: nat,
                                             file: File)
    requires Valid(s) && AllCoherent(names, s.log) && Coherent(names, file)
    ensures var w := RegisterFile(outcomes, s, at, file);
            && Valid(w.s) && AllCoherent(names, w.s.log) && Grows(s, w.s) && w.at > at
            && (w.ok <==> AllSucceed(outcomes, at, w.at))
            && (w.ok ==> TreeRegistered(w.s, file))
            && AddsOnly(s, w.s, [file])
  {
    var w := RegisterFile(outcomes, s, at, file);
    RegisterKeeps(names, outcomes, s, at, file);
    LogCoherent(names, s, w.s, file);
    if w.ok {
      ImportClosed(names, w.s, file);
    }
  }

  /** Before anything is registered the pools hold only what they start with: any files, not always the same. */
  ghost predicate Fresh(s: Stores) {
    s.registered == {} && s.log == [] && (s.registry.Some? ==> s.registry.value == {})
  }

  lemma {:induction false} FreshIsValid(names: map<string, File>, s: Stores)
    requires Fresh(s)
    ensures Valid(s) && AllCoherent(names, s.log)
  {
  }

  /**
   In every run of registrations, failures included: files come after their
   imports and never twice, with their trees, and what is registered is in both pools.
   Whatever the CEL pool took the descriptor pool has too.
   */
  lemma {:induction false} EveryRun(names: map<string, File>, outcomes: Outcomes, s: Stores, at: nat, files: seq<File>)
    requires Valid(s) && AllCoherent(names, s.log) && AllCoherent(names, files)
    ensures var w := RegisterAll(outcomes, s, at, files);
            && InOrder(w.s.log) && InStep(w.s) && AllCoherent(names, w.s.log)
            && Grows(s, w.s)
            && forall f :: f in w.s.log ==> TreeRegistered(w.s, f)
    decreases |files|
  {
    if files == [] {
      forall f | f in s.log ensures TreeRegistered(s, f) {
        var i :| 0 <= i < |s.log| && s.log[i] == f;
        assert Logged(s.log, f.name);
        ImportClosed(names, s, f);
      }
    } else {
      RegisterCompletes(names, outcomes, s, at, files[0]);
      var w := RegisterFile(outcomes, s, at, files[0]);
      EveryRun(names, outcomes, w.s, w.at, files[1..]);
    }
  }

  /** In the log, one name is there before the other. */
  ghost predicate Before(log: seq<File>, first: string, second: string) {
    exists k :: 0 <= k <= |log| && Logged(log[..k], first) && !Logged(log[..k], second)
  }

  ghost predicate NotBelow(g: File, imports: seq<File>, j: nat, i: nat)
    requires i < |imports|
  {
    forall k :: j <= k <= i ==> !InTree(g, imports[k])
  }

  /** A walk of another tree does not register a file. */
  lemma {:induction false} NotRegistered(names: map<string, File>, s: Stores, s': Stores, g: File, f: File)
    requires Valid(s) && Valid(s') && AddsOnly(s, s', [f]) && Coherent(names, f) && Coherent(names, g)
    requires g.name !in s.registered && !InTree(g, f)
    ensures g.name !in s'.registered
  {
    forall k | 0 <= k < |s'.log| ensures s'.log[k].name != g.name {
      if k < |s.log| {
        assert s'.log[k] == s.log[k] && Logged(s.log, s.log[k].name);
      } else {
        assert InTrees(s'.log[k], [f]);
        TreeCoherent(names, s'.log[k], f);
      }
    }
  }

  lemma {:induction false} BeforeLater(s: Stores, log: seq<File>, first: string, second: string)
    requires Valid(s) && s.log <= log && first in s.registered && second !in s.registered
    ensures Before(log, first, second)
  {
    assert log[..|s.log|] == s.log;
  }

  /** Imports are walked in order: a later one is only registered early as part of an earlier one's tree. */
  lemma {:induction false} ImportsInOrder(names: map<string, File>, outcomes: Outcomes, s: Stores, at: nat,
                                          imports: seq<File>, j: nat, i: nat, later: File)
    requires Valid(s) && AllCoherent(names, imports) && Coherent(names, later) && j <= i < |imports|
    requires (forall k :: 0 <= k < j ==> imports[k].name in s.registered)
    requires later.name !in s.registered && NotBelow(later, imports, j, i)
    requires CollectImports(outcomes, s, at, imports, j).ok
    ensures Before(CollectImports(outcomes, s, at, imports, j).s.log, imports[i].name, later.name)
    decreases i - j
  {
    var w := ImportKeeps(names, outcomes, s, at, imports, j);
    NotRegistered(names, s, w.s, later, imports[j]);
    if j < i {
      ImportsInOrder(names, outcomes, w.s, w.at, imports, j + 1, i, later);
    } else {
      CollectImportsKeeps(names, outcomes, w.s, w.at, imports, j + 1);
      BeforeLater(w.s, CollectImports(outcomes, s, at, imports, j).s.log, imports[i].name, later.name);
    }
  }

  lemma {:induction false} RegistersInOrder(names: map<string, File>, outcomes: Outcomes, s: Stores, at: nat,
                                            file: File, i: nat, k: nat)
    requires Valid(s) && Coherent(names, file) && RegisterFile(outcomes, s, at, file).ok
    requires file.name !in s.registered && i < k < |file.imports| && file.imports[k].name !in s.registered
    requires NotBelow(file.imports[k], file.imports, 0, i)
    ensures Before(RegisterFile(outcomes, s, at, file).s.log, file.imports[i].name, file.imports[k].name)
  {
    var w := CollectImports(outcomes, s, at + 2, file.imports, 0);
    ImportsInOrder(names, outcomes, s, at + 2, file.imports, 0, i, file.imports[k]);
    var n :| 0 <= n <= |w.s.log| && Logged(w.s.log[..n], file.imports[i].name)
             && !Logged(w.s.log[..n], file.imports[k].name);
    assert (w.s.log + [file])[..n] == w.s.log[..n];
    FinishLogs(outcomes, w, file);
  }

  lemma {:induction false} FinishLogs(outcomes: Outcomes, w: Progress, file: File)
    requires Finish(outcomes, w, file).ok
    ensures Finish(outcomes, w, file).s.log == w.s.log + [file]
  {
  }

  // ------------------------------------------------ what a registration registers

  /** The walk from `f` gets to `g`: it goes below no file whose name is in `known`. */
  ghost predicate Missing(known: set<string>, g: File, f: File)
    decreases f
  {
    f.name !in known && (g == f || exists i :: 0 <= i < |f.imports| && Missing(known, g, f.imports[i]))
  }

  ghost predicate MissingNamed(known: set<string>, name: string, f: File) {
    exists g :: Missing(known, g, f) && g.name == name
  }

  /** From one of the first `i` imports. */
  ghost predicate MissingAny(known: set<string>, name: string, imports: seq<File>, i: nat)
    requires i <= |imports|
  {
    exists k :: 0 <= k < i && MissingNamed(known, name, imports[k])
  }

  lemma {:induction false} MissingInTree(known: set<string>, g: File, f: File)
    requires Missing(known, g, f)
    ensures InTree(g, f)
    decreases f
  {
    if g != f {
      var i :| 0 <= i < |f.imports| && Missing(known, g, f.imports[i]);
      MissingInTree(known, g, f.imports[i]);
    }
  }

  lemma {:induction false} MissingTrans(known: set<string>, h: File, g: File, f: File)
    requires Missing(known, h, g) && Missing(known, g, f)
    ensures Missing(known, h, f)
    decreases f
  {
    if g != f {
      var i :| 0 <= i < |f.imports| && Missing(known, g, f.imports[i]);
      MissingTrans(known, h, g, f.imports[i]);
    }
  }

  lemma {:induction false} MissingShrinks(known: set<string>, more: set<string>, g: File, f: File)
    requires known <= more && Missing(more, g, f)
    ensures Missing(known, g, f)
    decreases f
  {
    if g != f {
      var i :| 0 <= i < |f.imports| && Missing(more, g, f.imports[i]);
      MissingShrinks(known, more, g, f.imports[i]);
    }
  }

  /** `now` is `known` and what the walks from the first `i` imports registered. */
  ghost predicate Walked(known: set<string>, now: set<string>, imports: seq<File>, i: nat)
    requires i <= |imports|
  {
    forall name :: name in now <==> name in known || MissingAny(known, name, imports, i)
  }

  /** What earlier walks registered, they registered with all that is below it. */
  lemma {:induction false} StillReached(names: map<string, File>, known: set<string>, now: set<string>,
                                        imports: seq<File>, i: nat, g: File, f: File)
    requires AllCoherent(names, imports) && Coherent(names, f) && i <= |imports|
    requires Walked(known, now, imports, i) && Missing(known, g, f)
    ensures g.name in now || Missing(now, g, f)
    decreases f
  {
    if f.name in now {
      var k :| 0 <= k < i && MissingNamed(known, f.name, imports[k]);
      var h :| Missing(known, h, imports[k]) && h.name == f.name;
      MissingInTree(known, h, imports[k]);
      TreeCoherent(names, h, imports[k]);
      MissingTrans(known, g, f, imports[k]);
      assert MissingNamed(known, g.name, imports[k]);
    } else if g != f {
      var k :| 0 <= k < |f.imports| && Missing(known, g, f.imports[k]);
      StillReached(names, known, now, imports, i, g, f.imports[k]);
    }
  }

  lemma {:induction false} WalkedOne(names: map<string, File>, known: set<string>, now: set<string>, next: set<string>,
                                     imports: seq<File>, i: nat)
    requires AllCoherent(names, imports) && i < |imports| && Walked(known, now, imports, i)
    requires forall name :: name in next <==> name in now || MissingNamed(now, name, imports[i])
    ensures Walked(known, next, imports, i + 1)
  {
    forall name ensures name in next <==> name in known || MissingAny(known, name, imports, i + 1) {
      if MissingNamed(now, name, imports[i]) {
        var g :| Missing(now, g, imports[i]) && g.name == name;
        MissingShrinks(known, now, g, imports[i]);
        assert MissingNamed(known, name, imports[i]);
      }
      if MissingNamed(known, name, imports[i]) {
        var g :| Missing(known, g, imports[i]) && g.name == name;
        StillReached(names, known, now, imports, i, g, imports[i]);
      }
    }
  }

  lemma {:induction false} CollectRegisters(names: map<string, File>, outcomes: Outcomes, s: Stores, at: nat,
                                            file: File)
    requires Valid(s) && Coherent(names, file) && Collect(outcomes, s, at, file).ok
    ensures forall name :: name in Collect(outcomes, s, at, file).s.registered <==>
                           name in s.registered || MissingNamed(s.registered, name, file)
    decreases file, 1
  {
    if file.name !in s.registered {
      var w := CollectImports(outcomes, s, at + 1, file.imports, 0);
      ImportsRegister(names, outcomes, s.registered, s, at + 1, file.imports, 0);
      FileAndImports(s.registered, w.s.registered, file);
      RegistersOne(outcomes, w, file);
    }
  }

  lemma {:induction false} RegistersOne(outcomes: Outcomes, w: Progress, file: File)
    requires Finish(outcomes, w, file).ok
    ensures Finish(outcomes, w, file).s.registered == w.s.registered + {file.name}
  {
  }

  lemma {:induction false} FileAndImports(known: set<string>, now: set<string>, file: File)
    requires file.name !in known && Walked(known, now, file.imports, |file.imports|)
    ensures forall name :: name in now + {file.name} <==> name in known || MissingNamed(known, name, file)
  {
    assert Missing(known, file, file);
    forall name ensures MissingNamed(known, name, file)
                        <==> name == file.name || MissingAny(known, name, file.imports, |file.imports|) {
      if MissingAny(known, name, file.imports, |file.imports|) {
        var k :| 0 <= k < |file.imports| && MissingNamed(known, name, file.imports[k]);
        var g :| Missing(known, g, file.imports[k]) && g.name == name;
        assert Missing(known, g, file);
      }
      if MissingNamed(known, name, file) {
        var g :| Missing(known, g, file) && g.name == name;
        if g != file {
          var k :| 0 <= k < |file.imports| && Missing(known, g, file.imports[k]);
          assert MissingNamed(known, name, file.imports[k]);
        }
      }
    }
  }

  lemma {:induction false} ImportsRegister(names: map<string, File>, outcomes: Outcomes, known: set<string>, s: Stores,
                                           at: nat, imports: seq<File>, i: nat)
    requires Valid(s) && AllCoherent(names, imports) && i <= |imports| && Walked(known, s.registered, imports, i)
    requires CollectImports(outcomes, s, at, imports, i).ok
    ensures Walked(known, CollectImports(outcomes, s, at, imports, i).s.registered, imports, |imports|)
    decreases imports, 0, |imports| - i
  {
    if i < |imports| {
      var w := Collect(outcomes, s, at + 1, imports[i]);
      CollectKeeps(names, outcomes, s, at + 1, imports[i]);
      CollectRegisters(names, outcomes, s, at + 1, imports[i]);
      WalkedOne(names, known, s.registered, w.s.registered, imports, i);
      ImportsRegister(names, outcomes, known, w.s, w.at, imports, i + 1);
    }
  }

  /**
   Whatever was registered before, by whatever files: a registration that succeeds adds
   exactly the names that the walk gets to. So it leaves the file's whole tree
   registered if and only if each name of the tree was registered or is got to.
   */
  lemma {:induction false} RegistersExactly(names: map<string, File>, outcomes: Outcomes, s: Stores, at: nat,
                                            file: File)
    requires Valid(s) && Coherent(names, file) && RegisterFile(outcomes, s, at, file).ok
    ensures forall name :: name in RegisterFile(outcomes, s, at, file).s.registered <==>
                           name in s.registered || MissingNamed(s.registered, name, file)
    ensures TreeRegistered(RegisterFile(outcomes, s, at, file).s, file) <==>
            forall g :: InTree(g, file) ==> g.name in s.registered || MissingNamed(s.registered, g.name, file)
  {
    if file.name !in s.registered {
      CollectRegisters(names, outcomes, s, at + 1, file);
    }
  }

  /** Why names must stand for one file: a namesake hides the imports of a file. */
  lemma {:induction false} NamesakeHidesImports()
    ensures exists outcomes: Outcomes, s, other, file ::
              && Fresh(s)
              && var first := RegisterFile(outcomes, s, 0, other);
                 var second := RegisterFile(outcomes, first.s, first.at, file);
                 first.ok && second.ok && !TreeRegistered(second.s, file)
  {
    var outcomes: Outcomes := _ => true;
    var s := Stores({}, map[], map[], None, []);
    var leaf := File("leaf.proto", [], map[]);
    var other, file := File("a.proto", [], map[]), File("a.proto", [leaf], map[]);
    var first := RegisterFile(outcomes, s, 0, other);
    var second := RegisterFile(outcomes, first.s, first.at, file);
    assert first.s.registered == {"a.proto"};
    assert InTree(leaf, leaf);
    assert InTree(leaf, file.imports[0]);
    assert InTree(leaf, file) && leaf.name !in second.s.registered;
  }

  // ------------------------------------------------------------- looking types up

  /** A file links: the types its fields refer to are its own or its imports'. */
  ghost predicate Links(f: File) {
    forall m, t :: m in f.messages && t in f.messages[m] ==> exists g :: InTree(g, f) && t in g.messages
  }

  ghost predicate TreeLinks(f: File) {
    forall g :: InTree(g, f) ==> Links(g)
  }

  /** In the tree of `f`, type `t` has a field of type `u`. */
  ghost predicate HasField(f: File, t: string, u: string) {
    exists g :: InTree(g, f) && t in g.messages && u in g.messages[t]
  }

  /** A walk over types, from one that `f` declares, through their fields. */
  ghost predicate TypeWalk(f: File, types: seq<string>) {
    && types != [] && types[0] in f.messages
    && forall i :: 0 <= i < |types| - 1 ==> HasField(f, types[i], types[i + 1])
  }

  /** A pool declares the types of the files it holds. */
  ghost predicate Declared(pool: map<string, File>, t: string) {
    exists name :: name in pool && t in pool[name].messages
  }

  lemma {:induction false} DeclaredInTree(f: File, types: seq<string>)
    requires TreeLinks(f) && TypeWalk(f, types)
    ensures exists g :: InTree(g, f) && types[|types| - 1] in g.messages
  {
    var last := |types| - 1;
    if last == 0 {
      assert InTree(f, f);
    } else {
      assert HasField(f, types[last - 1], types[last]);
      var g :| InTree(g, f) && types[last - 1] in g.messages && types[last] in g.messages[types[last - 1]];
      assert Links(g);
      var h :| InTree(h, g) && types[last] in h.messages;
      TreeTrans(h, g, f);
    }
  }

  // -------------------------------------------------------- what the pools hold

  /** What `b` holds beyond `a` are files of those trees, each under its own name. */
  ghost predicate Fills(a: map<string, File>, b: map<string, File>, roots: seq<File>) {
    && Extends(a, b)
    && forall name :: name in b && name !in a ==> b[name].name == name && InTrees(b[name], roots)
  }

  /** And, if `ok`, one for each registered name. */
  ghost predicate PoolFilled(a: map<string, File>, b: map<string, File>, registered: set<string>, ok: bool,
                             roots: seq<File>) {
    && Fills(a, b, roots)
    && (ok ==> forall name :: name in b <==> name in a || name in registered)
  }

  ghost predicate Filled(s: Stores, w: Progress, roots: seq<File>) {
    && PoolFilled(s.pool, w.s.pool, w.s.registered, w.ok, roots)
    && PoolFilled(s.cel, w.s.cel, w.s.registered, w.ok, roots)
  }

  /** `b` is `a`, or `a` with `file` under a name that `a` does not have. */
  ghost predicate AtMost(a: map<string, File>, b: map<string, File>, file: File) {
    b == a || (file.name !in a && b == a[file.name := file])
  }

  lemma {:induction false} AddAtMost(outcomes: Outcomes, s: Stores, at: nat, file: File)
    ensures var w := Add(outcomes, s, at, file);
            && w.s.registered == s.registered && AtMost(s.pool, w.s.pool, file) && AtMost(s.cel, w.s.cel, file)
            && (w.ok ==> file.name in w.s.pool && file.name in w.s.cel)
  {
  }

  lemma {:induction false} FinishAtMost(outcomes: Outcomes, w: Progress, file: File)
    ensures var r := Finish(outcomes, w, file);
            && AtMost(w.s.pool, r.s.pool, file) && AtMost(w.s.cel, r.s.cel, file)
            && (r.ok ==> w.ok && file.name in r.s.pool && file.name in r.s.cel)
            && r.s.registered == if r.ok then w.s.registered + {file.name} else w.s.registered
  {
    if w.ok && outcomes(w.at) {
      AddAtMost(outcomes, w.s, w.at + 1, file);
    }
  }

  lemma {:induction false} TreesFile(file: File)
    ensures forall g :: InTrees(g, file.imports) ==> InTrees(g, [file])
  {
    forall g | InTrees(g, file.imports) ensures InTrees(g, [file]) {
      assert InTree(g, [file][0]);
    }
  }

  lemma {:induction false} TreesOne(imports: seq<File>, i: nat)
    requires i < |imports|
    ensures forall g :: InTrees(g, [imports[i]]) ==> InTrees(g, imports)
  {
    forall g | InTrees(g, [imports[i]]) ensures InTrees(g, imports) {
      assert InTree(g, imports[i]);
    }
  }

  lemma {:induction false} FillsWider(a: map<string, File>, b: map<string, File>, few: seq<File>, roots: seq<File>)
    requires Fills(a, b, few) && forall g :: InTrees(g, few) ==> InTrees(g, roots)
    ensures Fills(a, b, roots)
  {
  }

  lemma {:induction false} FillsThen(a: map<string, File>, b: map<string, File>, c: map<string, File>, roots: seq<File>)
    requires Fills(a, b, roots) && Fills(b, c, roots)
    ensures Fills(a, c, roots)
  {
    forall name | name in c && name !in a ensures c[name].name == name && InTrees(c[name], roots) {
      if name in b {
        assert c[name] == b[name];
      }
    }
  }

  lemma {:induction false} PoolOne(a: map<string, File>, b: map<string, File>, c: map<string, File>,
                                   before: set<string>,
                                   wasOk: bool, ok: bool, file: File)
    requires PoolFilled(a, b, before, wasOk, file.imports) && AtMost(b, c, file)
    requires ok ==> wasOk && file.name in c
    ensures PoolFilled(a, c, before + {file.name}, ok, [file])
    ensures !ok ==> PoolFilled(a, c, before, ok, [file])
  {
    TreesFile(file);
    FillsWider(a, b, file.imports, [file]);
    assert InTree(file, [file][0]);
    FillsThen(a, b, c, [file]);
  }

  lemma {:induction false} PoolThen(a: map<string, File>, b: map<string, File>, c: map<string, File>,
                                    before: set<string>,
                                    after: set<string>, ok: bool, roots: seq<File>)
    requires PoolFilled(a, b, before, true, roots) && PoolFilled(b, c, after, ok, roots) && before <= after
    ensures PoolFilled(a, c, after, ok, roots)
  {
    FillsThen(a, b, c, roots);
  }

  lemma {:induction false} CollectFills(outcomes: Outcomes, s: Stores, at: nat, file: File)
    requires HoldRegistered(s)
    ensures Filled(s, Collect(outcomes, s, at, file), [file])
    decreases file, 1
  {
    if outcomes(at) && file.name !in s.registered {
      CollectImportsFills(outcomes, s, at + 1, file.imports, 0);
      FinishFills(outcomes, s, CollectImports(outcomes, s, at + 1, file.imports, 0), file);
    }
  }

  lemma {:induction false} FinishFills(outcomes: Outcomes, s: Stores, w: Progress, file: File)
    requires Filled(s, w, file.imports)
    ensures Filled(s, Finish(outcomes, w, file), [file])
  {
    var r := Finish(outcomes, w, file);
    FinishAtMost(outcomes, w, file);
    PoolOne(s.pool, w.s.pool, r.s.pool, w.s.registered, w.ok, r.ok, file);
    PoolOne(s.cel, w.s.cel, r.s.cel, w.s.registered, w.ok, r.ok, file);
  }

  lemma {:induction false} PoolWider(a: map<string, File>, b: map<string, File>, registered: set<string>, ok: bool,
                                     imports: seq<File>, i: nat)
    requires i < |imports| && PoolFilled(a, b, registered, ok, [imports[i]])
    ensures PoolFilled(a, b, registered, ok, imports)
  {
    TreesOne(imports, i);
    FillsWider(a, b, [imports[i]], imports);
  }

  /** One import, then the rest. */
  lemma {:induction false} FilledThen(s: Stores, w: Progress, rest: Progress, imports: seq<File>, i: nat)
    requires i < |imports| && Filled(s, w, [imports[i]])
    requires if w.ok then Filled(w.s, rest, imports) && w.s.registered <= rest.s.registered else rest == w
    ensures Filled(s, rest, imports)
  {
    PoolWider(s.pool, w.s.pool, w.s.registered, w.ok, imports, i);
    PoolWider(s.cel, w.s.cel, w.s.registered, w.ok, imports, i);
    if w.ok {
      PoolThen(s.pool, w.s.pool, rest.s.pool, w.s.registered, rest.s.registered, rest.ok, imports);
      PoolThen(s.cel, w.s.cel, rest.s.cel, w.s.registered, rest.s.registered, rest.ok, imports);
    }
  }

  /** The first import of the rest has been read and walked. */
  lemma {:induction false} OneImport(outcomes: Outcomes, s: Stores, at: nat, imports: seq<File>, i: nat)
    returns (w: Progress)
    requires HoldRegistered(s) && i < |imports| && outcomes(at)
    ensures Filled(s, w, [imports[i]])
    ensures w.ok ==> HoldRegistered(w.s) && w.s.registered <= CollectImports(outcomes, s, at, imports, i).s.registered
    ensures CollectImports(outcomes, s, at, imports, i)
         == if w.ok then CollectImports(outcomes, w.s, w.at, imports, i + 1) else w
    decreases imports, 0, |imports| - i, 0
  {
    w := Collect(outcomes, s, at + 1, imports[i]);
    CollectFills(outcomes, s, at + 1, imports[i]);
    if w.ok {
      RegisteredGrows(outcomes, w.s, w.at, imports, i + 1);
    }
  }

  lemma {:induction false} NoImport(outcomes: Outcomes, s: Stores, at: nat, imports: seq<File>, i: nat)
    requires HoldRegistered(s) && i <= |imports| && !(outcomes(at) && i < |imports|)
    ensures Filled(s, CollectImports(outcomes, s, at, imports, i), imports)
  {
  }

  lemma {:induction false} CollectImportsFills(outcomes: Outcomes, s: Stores, at: nat, imports: seq<File>, i: nat)
    requires HoldRegistered(s) && i <= |imports|
    ensures Filled(s, CollectImports(outcomes, s, at, imports, i), imports)
    decreases imports, 0, |imports| - i, 1
  {
    if outcomes(at) && i < |imports| {
      var w := OneImport(outcomes, s, at, imports, i);
      if w.ok {
        CollectImportsFills(outcomes, w.s, w.at, imports, i + 1);
      }
      FilledThen(s, w, CollectImports(outcomes, s, at, imports, i), imports, i);
    } else {
      NoImport(outcomes, s, at, imports, i);
    }
  }

  lemma {:induction false} RegisteredGrows(outcomes: Outcomes, s: Stores, at: nat, imports: seq<File>, i: nat)
    requires i <= |imports|
    ensures s.registered <= CollectImports(outcomes, s, at, imports, i).s.registered
    decreases imports, 0, |imports| - i
  {
    if outcomes(at) && i < |imports| {
      CollectGrows(outcomes, s, at + 1, imports[i]);
      var w := Collect(outcomes, s, at + 1, imports[i]);
      RegisteredGrows(outcomes, w.s, w.at, imports, i + 1);
    }
  }

  lemma {:induction false} CollectGrows(outcomes: Outcomes, s: Stores, at: nat, file: File)
    ensures s.registered <= Collect(outcomes, s, at, file).s.registered
    decreases file, 1
  {
    if outcomes(at) && file.name !in s.registered {
      RegisteredGrows(outcomes, s, at + 1, file.imports, 0);
    }
  }

  /** A pool after a registration, when the walk got to the files `names` says. */
  ghost predicate PoolAfter(names: map<string, File>, known: set<string>, before: map<string, File>,
                            after: map<string, File>, file: File) {
    && (forall name :: name in after <==> name in before || MissingNamed(known, name, file))
    && (forall name :: name in before ==> after[name] == before[name])
    && (forall name :: name in after && name !in before ==> name in names && after[name] == names[name])
  }

  /**
   Whatever the pools held before: after a registration that succeeds each pool holds
   what it held and, under the other names that the walk gets to, this tree's files.
   */
  lemma {:induction false} PoolsExactly(names: map<string, File>, outcomes: Outcomes, s: Stores, at: nat, file: File)
    requires Valid(s) && Coherent(names, file) && RegisterFile(outcomes, s, at, file).ok
    ensures PoolAfter(names, s.registered, s.pool, RegisterFile(outcomes, s, at, file).s.pool, file)
    ensures PoolAfter(names, s.registered, s.cel, RegisterFile(outcomes, s, at, file).s.cel, file)
  {
    var w := RegisterFile(outcomes, s, at, file);
    RegistersExactly(names, outcomes, s, at, file);
    if file.name !in s.registered {
      CollectFills(outcomes, s, at + 1, file);
    }
    FilledCoherent(names, s.pool, w.s.pool, file);
    FilledCoherent(names, s.cel, w.s.cel, file);
  }

  lemma {:induction false} FilledCoherent(names: map<string, File>, a: map<string, File>, b: map<string, File>,
                                          file: File)
    requires Coherent(names, file) && Fills(a, b, [file])
    ensures forall name :: name in b && name !in a ==> name in names && b[name] == names[name]
  {
    forall name | name in b && name !in a ensures name in names && b[name] == names[name] {
      assert InTrees(b[name], [file]);
      TreeCoherent(names, b[name], file);
    }
  }

  /** A pool holds every file of a tree, with these contents. */
  ghost predicate HoldsTree(pool: map<string, File>, f: File) {
    forall g :: InTree(g, f) ==> g.name in pool && pool[g.name] == g
  }

  /**
   So a registration leaves the descriptor pool holding the file's tree if and only if
   the pool held nothing else under a name of the tree, and each name it did not hold
   is got to. Likewise the CEL pool.
   */
  lemma {:induction false} HoldsTreeExactly(names: map<string, File>, outcomes: Outcomes, s: Stores, at: nat,
                                            file: File)
    requires Valid(s) && Coherent(names, file) && RegisterFile(outcomes, s, at, file).ok
    ensures HoldsTree(RegisterFile(outcomes, s, at, file).s.pool, file) <==>
            forall g :: InTree(g, file) ==>
              if g.name in s.pool then s.pool[g.name] == g else MissingNamed(s.registered, g.name, file)
    ensures HoldsTree(RegisterFile(outcomes, s, at, file).s.cel, file) <==>
            forall g :: InTree(g, file) ==>
              if g.name in s.cel then s.cel[g.name] == g else MissingNamed(s.registered, g.name, file)
  {
    PoolsExactly(names, outcomes, s, at, file);
    var w := RegisterFile(outcomes, s, at, file);
    HoldsAfterward(names, s.registered, s.pool, w.s.pool, file);
    HoldsAfterward(names, s.registered, s.cel, w.s.cel, file);
  }

  lemma {:induction false} HoldsAfterward(names: map<string, File>, known: set<string>, before: map<string, File>,
                                          after: map<string, File>, file: File)
    requires Coherent(names, file) && PoolAfter(names, known, before, after, file)
    ensures HoldsTree(after, file) <==>
            forall g :: InTree(g, file) ==>
              if g.name in before then before[g.name] == g else MissingNamed(known, g.name, file)
  {
    forall g | InTree(g, file) ensures g.name in names && names[g.name] == g {
      TreeCoherent(names, g, file);
    }
  }

  /**
   And looking a type up then finds it if and only if the pool declared it before, or a
   file of the tree that the walk gets to declares it, under a name the pool did not have.
   */
  lemma {:induction false} LookupExactly(names: map<string, File>, outcomes: Outcomes, s: Stores, at: nat, file: File,
                                         t: string)
    requires Valid(s) && Coherent(names, file) && RegisterFile(outcomes, s, at, file).ok
    ensures Declared(RegisterFile(outcomes, s, at, file).s.pool, t) <==>
            Declared(s.pool, t) || exists g :: Missing(s.registered, g, file) && g.name !in s.pool && t in g.messages
    ensures Declared(RegisterFile(outcomes, s, at, file).s.cel, t) <==>
            Declared(s.cel, t) || exists g :: Missing(s.registered, g, file) && g.name !in s.cel && t in g.messages
  {
    PoolsExactly(names, outcomes, s, at, file);
    var w := RegisterFile(outcomes, s, at, file);
    DeclaredAfter(names, s.registered, s.pool, w.s.pool, file, t);
    DeclaredAfter(names, s.registered, s.cel, w.s.cel, file, t);
  }

  lemma {:induction false} DeclaredAfter(names: map<string, File>, known: set<string>, before: map<string, File>,
                                         after: map<string, File>, file: File, t: string)
    requires Coherent(names, file) && PoolAfter(names, known, before, after, file)
    ensures Declared(after, t) <==>
            Declared(before, t) || exists g :: Missing(known, g, file) && g.name !in before && t in g.messages
  {
    forall g | Missing(known, g, file) ensures g.name in after && (g.name !in before ==> after[g.name] == g) {
      assert MissingNamed(known, g.name, file);
      MissingInTree(known, g, file);
      TreeCoherent(names, g, file);
    }
    if Declared(after, t) {
      var name :| name in after && t in after[name].messages;
      if name !in before {
        var g :| Missing(known, g, file) && g.name == name;
      }
    }
  }

  /** The embedded files as the pools have them, and a newer copy of one of them. */
  const EMBEDDED := File("buf/validate/validate.proto", [], map["buf.validate.FieldRules" := {}])

  const NEWER := File("buf/validate/validate.proto", [],
                      map["buf.validate.FieldRules" := {}, "buf.validate.NewRules" := {}])

  /** Registering the newer copy succeeds and changes neither pool, so its new type is not found. */
  lemma {:induction false} BaseNamesakeMisses()
    ensures var base := map[EMBEDDED.name := EMBEDDED];
            var s := Stores({}, base, base, None, []);
            var w := RegisterFile(_ => true, s, 0, NEWER);
            && Fresh(s) && w.ok && NEWER.name in w.s.registered && w.s.pool == base && w.s.cel == base
            && "buf.validate.NewRules" in NEWER.messages && !Declared(w.s.pool, "buf.validate.NewRules")
  {
    assert EMBEDDED.messages.Keys == {"buf.validate.FieldRules"};
  }

  // ------------------------------------------------------- the two pools together

  /** What a pool that starts as `base` holds under the name of `g` once `g` was added. */
  ghost function Under(base: map<string, File>, g: File): File {
    if g.name in base then base[g.name] else g
  }

  ghost predicate BothHold(s: Stores, name: string) {
    name in s.pool && name in s.cel && s.pool[name] == s.cel[name]
  }

  /**
   After a registration that succeeds the two pools hold the same file under a name of
   the tree if and only if both had the name or it is got to, and neither had, under it,
   a file other than the one the other had or took.
   */
  lemma {:induction false} SameFileExactly(names: map<string, File>, outcomes: Outcomes, s: Stores, at: nat,
                                           file: File, g: File)
    requires Valid(s) && Coherent(names, file) && RegisterFile(outcomes, s, at, file).ok && InTree(g, file)
    ensures BothHold(RegisterFile(outcomes, s, at, file).s, g.name) <==>
            && ((g.name in s.pool && g.name in s.cel) || MissingNamed(s.registered, g.name, file))
            && Under(s.pool, g) == Under(s.cel, g)
  {
    PoolsExactly(names, outcomes, s, at, file);
    TreeCoherent(names, g, file);
  }

  /** A file that CEL comes with, and a file of the same name that declares something else. */
  const WRAPPERS := File("google/protobuf/wrappers.proto", [], map["google.protobuf.Int32Value" := {}])

  const ODD_WRAPPERS := File("google/protobuf/wrappers.proto", [],
                             map["google.protobuf.Int32Value" := {"google.protobuf.Odd"}, "google.protobuf.Odd" := {}])

  /**
   From where the engine starts, with files in the CEL pool that the descriptor pool
   lacks, a registration can succeed and leave two files under the registered name.
   */
  lemma {:induction false} PoolsDisagree(base: map<string, File>, celBase: map<string, File>)
    requires WRAPPERS.name !in base && WRAPPERS.name in celBase && celBase[WRAPPERS.name] == WRAPPERS
    ensures var s := Stores({}, base, celBase, None, []);
            var w := RegisterFile(_ => true, s, 0, ODD_WRAPPERS);
            && Fresh(s) && !(s.cel.Keys <= s.pool.Keys)
            && w.ok && WRAPPERS.name in w.s.registered && !BothHold(w.s, WRAPPERS.name)
            && Declared(w.s.pool, "google.protobuf.Odd") && w.s.cel == celBase
  {
    assert ODD_WRAPPERS.messages != WRAPPERS.messages by {
      assert "google.protobuf.Odd" in ODD_WRAPPERS.messages && "google.protobuf.Odd" !in WRAPPERS.messages;
    }
    assert WRAPPERS.name in celBase.Keys;
    var s := Stores({}, base, celBase, None, []);
    var w := RegisterFile(_ => true, s, 0, ODD_WRAPPERS);
    assert w.s.pool[ODD_WRAPPERS.name] == ODD_WRAPPERS;
  }

  // ----------------------------------------------------- the pools over whole runs

  /** A pool that grew from `base` by files that `names` knows. */
  ghost predicate GrownFrom(names: map<string, File>, base: map<string, File>, pool: map<string, File>) {
    && Extends(base, pool)
    && forall name :: name in pool && name !in base ==> name in names && pool[name] == names[name]
  }

  lemma {:induction false} CollectGrownFrom(names: map<string, File>, base: map<string, File>,
                                            celBase: map<string, File>,
                                            outcomes: Outcomes, s: Stores, at: nat, file: File)
    requires Coherent(names, file) && HoldRegistered(s)
    requires GrownFrom(names, base, s.pool) && GrownFrom(names, celBase, s.cel)
    ensures var w := Collect(outcomes, s, at, file);
            GrownFrom(names, base, w.s.pool) && GrownFrom(names, celBase, w.s.cel)
  {
    CollectFills(outcomes, s, at, file);
    var w := Collect(outcomes, s, at, file);
    FilledCoherent(names, s.pool, w.s.pool, file);
    FilledCoherent(names, s.cel, w.s.cel, file);
  }

  /** `base` has nothing else under a name of the tree. */
  ghost predicate Agrees(base: map<string, File>, f: File) {
    forall g :: InTree(g, f) && g.name in base ==> base[g.name] == g
  }

  /** At any later time: a pool holds a registered file's tree if and only if its base agrees with it. */
  lemma {:induction false} HoldsRegistered(names: map<string, File>, base: map<string, File>, pool: map<string, File>,
                                           s: Stores, f: File)
    requires Valid(s) && AllCoherent(names, s.log) && Coherent(names, f) && f.name in s.registered
    requires (pool == s.pool || pool == s.cel) && GrownFrom(names, base, pool)
    ensures HoldsTree(pool, f) <==> Agrees(base, f)
  {
    ImportClosed(names, s, f);
    forall g | InTree(g, f) ensures g.name in pool && pool[g.name] == if g.name in base then base[g.name] else g {
      TreeCoherent(names, g, f);
      assert g.name in s.registered;
    }
  }

  /** So the two pools hold the same files of it if and only if what they started with, and the tree, agree. */
  lemma {:induction false} SameRegistered(names: map<string, File>, base: Stores, s: Stores, f: File)
    requires Valid(s) && AllCoherent(names, s.log) && Coherent(names, f) && f.name in s.registered
    requires GrownFrom(names, base.pool, s.pool) && GrownFrom(names, base.cel, s.cel)
    ensures (forall g :: InTree(g, f) ==> BothHold(s, g.name))
            <==> forall g :: InTree(g, f) ==> Under(base.pool, g) == Under(base.cel, g)
  {
    ImportClosed(names, s, f);
    forall g | InTree(g, f) ensures BothHold(s, g.name) <==> Under(base.pool, g) == Under(base.cel, g) {
      TreeCoherent(names, g, f);
      assert g.name in s.registered;
    }
  }

  /** And the lookup of a type that only `g` declares finds it exactly when the base's file of that name has it too. */
  lemma {:induction false} TypeFound(names: map<string, File>, base: map<string, File>, pool: map<string, File>,
                                     s: Stores, f: File, g: File, t: string)
    requires Valid(s) && AllCoherent(names, s.log) && Coherent(names, f) && f.name in s.registered
    requires (pool == s.pool || pool == s.cel) && GrownFrom(names, base, pool)
    requires InTree(g, f) && t in g.messages
    requires forall name :: name in pool && name != g.name ==> t !in pool[name].messages
    ensures Declared(pool, t) <==> (g.name in base ==> t in base[g.name].messages)
  {
    ImportClosed(names, s, f);
    TreeCoherent(names, g, f);
    assert g.name in s.registered && g.name in pool;
  }

  /**
   When its tree is held as it is, neither the lookup of a type the file declares nor
   that of any type its fields reach misses.
   */
  lemma {:induction false} LookupCannotMiss(pool: map<string, File>, f: File, types: seq<string>)
    requires HoldsTree(pool, f) && TreeLinks(f) && TypeWalk(f, types)
    ensures Declared(pool, types[|types| - 1])
  {
    DeclaredInTree(f, types);
    var g :| InTree(g, f) && types[|types| - 1] in g.messages;
    assert g.name in pool && pool[g.name] == g;
  }

  // ------------------------------------------------------------------- the engine

  /** Everything the engine calls: Python, parsers and linkers. */
  class Outside {
    const outcomes: Outcomes
    var at: nat

    constructor (o: Outcomes)
      ensures outcomes == o && at == 0
    {
      outcomes := o;
      at := 0;
    }

    method Try() returns (ok: bool)
      modifies this
      ensures ok == outcomes(old(at)) && at == old(at) + 1
    {
      ok := outcomes(at);
      at := at + 1;
    }
  }

  class Engine {
    var registered: set<string>
    var pool: map<string, File>
    var cel: map<string, File>
    var registry: Option<set<string>>
    ghost var log: seq<File>

    ghost function View(): Stores
      reads this
    {
      Stores(registered, pool, cel, registry, log)
    }

    /** The embedded schema and its imports, which CEL is given after the well-known types it comes with. */
    constructor (base: map<string, File>, celBase: map<string, File>, withRegistry: bool)
      ensures Fresh(View()) && pool == base && cel == celBase && (registry.Some? <==> withRegistry)
    {
      registered := {};
      pool := base;
      cel := celBase;
      registry := if withRegistry then Some({}) else None;
      log := [];
    }

    method AddFileDescriptorBytes(file: File, outside: Outside) returns (ok: bool)
      modifies `pool, `cel, outside
      ensures Progress(View(), outside.at, ok) == AddBytes(outside.outcomes, old(View()), old(outside.at), file)
    {
      ok := outside.Try();
      if !ok {
        return false;
      }
      if file.name !in pool {
        if !ImportsIn(file, pool.Keys) {
          return false;
        }
        ok := outside.Try();
        if !ok {
          return false;
        }
        pool := pool[file.name := file];
      }
      ok := outside.Try();
      if !ok {
        return false;
      }
      if file.name !in cel {
        if !ImportsIn(file, cel.Keys) {
          return false;
        }
        ok := outside.Try();
        if !ok {
          return false;
        }
        cel := cel[file.name := file];
      }
    }

    method AddFile(file: File, outside: Outside) returns (ok: bool)
      modifies `pool, `cel, `registry, outside
      ensures Progress(View(), outside.at, ok) == Add(outside.outcomes, old(View()), old(outside.at), file)
    {
      ok := AddFileDescriptorBytes(file, outside);
      if ok && registry.Some? {
        ok := outside.Try();
        if ok {
          registry := Some(registry.value + {file.name});
        }
      }
    }

    method CollectFiles(file: File, outside: Outside) returns (ok: bool)
      modifies this, outside
      ensures Progress(View(), outside.at, ok) == Collect(outside.outcomes, old(View()), old(outside.at), file)
      decreases file, 1
    {
      ok := outside.Try();
      if !ok || file.name in registered {
        return;
      }
      ok := CollectEach(file.imports, outside);
      if ok {
        ok := FinishFile(file, outside);
      }
    }

    method FinishFile(file: File, outside: Outside) returns (ok: bool)
      modifies this, outside
      ensures Progress(View(), outside.at, ok)
           == Finish(outside.outcomes, Progress(old(View()), old(outside.at), true), file)
    {
      ok := outside.Try();
      if !ok {
        return;
      }
      ok := AddFile(file, outside);
      if ok {
        registered := registered + {file.name};
        log := log + [file];
      }
    }

    /** The loop over a file's imports. */
    method CollectEach(imports: seq<File>, outside: Outside) returns (ok: bool)
      modifies this, outside
      ensures Progress(View(), outside.at, ok)
              == CollectImports(outside.outcomes, old(View()), old(outside.at), imports, 0)
      decreases imports, 0
    {
      var i := 0;
      ok := outside.Try();
      ghost var spec := CollectImports(outside.outcomes, old(View()), old(outside.at), imports, 0);
      while ok && i < |imports|
        invariant 0 <= i <= |imports| && outside.at > 0
        invariant ok == outside.outcomes(outside.at - 1)
        invariant spec == CollectImports(outside.outcomes, View(), outside.at - 1, imports, i)
        decreases |imports| - i
      {
        ok := CollectFiles(imports[i], outside);
        if !ok {
          return false;
        }
        i := i + 1;
        ok := outside.Try();
      }
    }

    method Register(file: File, outside: Outside) returns (ok: bool)
      modifies this, outside
      ensures Progress(View(), outside.at, ok) == RegisterFile(outside.outcomes, old(View()), old(outside.at), file)
    {
      ok := outside.Try();
      if !ok || file.name in registered {
        return;
      }
      ok := CollectFiles(file, outside);
    }
  }
}
