/**
 Threads checking messages, as a protocol over four locks and the Python interpreter,
 which a thread gives up to wait for two of them. Registration is double checked: a
 file is looked for under the shared `registered` lock, and collected under both
 exclusive locks, where the walk looks again.
 */
module Locks {
  import opened Wrappers
  import opened Registration

  // --------------------------------------------------------------------- the locks

  datatype Lock = Registered | Core | Interpreter | Env | Cache

  datatype Mode = Shared | Exclusive

  /** Locks are taken in rank order; the last two are never held together. */
  function Rank(l: Lock): nat {
    match l
    case Registered => 0
    case Core => 1
    case Interpreter => 2
    case Env => 3
    case Cache => 3
  }

  /** Where a thread is in a check. */
  datatype Pc =
    | Idle
    | Check               // the name is read; wants `registered`, shared
    | Checked
    | Upgrade             // not registered; wants `registered`, exclusive
    | Upgraded            // wants `core`, exclusive
    | Collecting
    | Collected(ok: bool) // `core` is released, `registered` not yet
    | Enter               // wants `core`, shared
    | LookUp
    | Snapshot            // wants `cache`, shared
    | Snapshotting
    | Resolving
    | Build               // wants `env`, exclusive
    | Building
    | Merge               // wants `cache`, exclusive
    | Merging
    | Walking
    | Parse               // a rule binds the message; wants `env`, shared
    | Parsing
    | Refused             // registration failed
    | Unknown             // the message's type was not found
    | Finished

  predicate Resting(pc: Pc) {
    pc.Idle? || pc.Refused? || pc.Unknown? || pc.Finished?
  }

  /** The lock that the thread takes next. */
  function LockAt(pc: Pc): Option<(Lock, Mode)> {
    match pc
    case Check => Some((Registered, Shared))
    case Upgrade => Some((Registered, Exclusive))
    case Upgraded => Some((Core, Exclusive))
    case Enter => Some((Core, Shared))
    case Snapshot => Some((Cache, Shared))
    case Build => Some((Env, Exclusive))
    case Merge => Some((Cache, Exclusive))
    case Parse => Some((Env, Shared))
    case _ => None
  }

  /** `registered` and `core` are waited for without the interpreter. */
  predicate LetsGo(pc: Pc) {
    LockAt(pc).Some? && (LockAt(pc).value.0 == Registered || LockAt(pc).value.0 == Core)
  }

  /** Python runs here, and may switch threads. */
  predicate RunsPython(pc: Pc) {
    Resting(pc) || pc.Collecting? || pc.Enter? || pc.Resolving? || pc.Walking?
  }

  /** Validating: from the lookup of the type to the end of the walk. */
  predicate Inside(pc: Pc) {
    pc.LookUp? || pc.Snapshot? || pc.Snapshotting? || pc.Resolving? || pc.Build? || pc.Building? || pc.Merge?
    || pc.Merging? || pc.Walking? || pc.Parse? || pc.Parsing?
  }

  function Granted(pc: Pc): Pc
    requires LockAt(pc).Some?
  {
    match pc
    case Check => Checked
    case Upgrade => Upgraded
    case Upgraded => Collecting
    case Enter => LookUp
    case Snapshot => Snapshotting
    case Build => Building
    case Merge => Merging
    case Parse => Parsing
  }

  /** The mode in which a thread holds a lock other than the interpreter. */
  function HeldAt(pc: Pc, l: Lock): Option<Mode> {
    match l
    case Registered =>
      if pc.Checked? then Some(Shared)
      else if pc.Upgraded? || pc.Collecting? || pc.Collected? then Some(Exclusive)
      else None
    case Core =>
      if pc.Collecting? then Some(Exclusive)
      else if Inside(pc) then Some(Shared)
      else None
    case Interpreter => None
    case Env =>
      if pc.Building? then Some(Exclusive) else if pc.Parsing? then Some(Shared) else None
    case Cache =>
      if pc.Merging? then Some(Exclusive) else if pc.Snapshotting? then Some(Shared) else None
  }

  // -------------------------------------------------------------------- the machine

  type Tid = nat

  /**
   A thread has the interpreter, has given it up to wait for the next lock, or has to
   get it back before it goes on.
   */
  datatype Python = Attached | Suspended | Away

  /** A thread checks a message of type `root`, which `file` declares. */
  datatype Thread = Thread(file: File, root: string, pc: Pc, python: Python)

  /** With `gil` one thread at a time has the interpreter; a free-threaded build lets all have it. */
  datatype State = State(gil: bool, stores: Stores, at: nat, threads: map<Tid, Thread>)

  function InterpreterMode(gil: bool): Mode {
    if gil then Exclusive else Shared
  }

  /** What a thread waits for. A lock that is waited for without the interpreter is first tried with it. */
  function Wants(gil: bool, t: Thread): Option<(Lock, Mode)> {
    if Resting(t.pc) then None
    else
      match t.python
      case Away => Some((Interpreter, InterpreterMode(gil)))
      case Suspended => LockAt(t.pc)
      case Attached => if LetsGo(t.pc) then None else LockAt(t.pc)
  }

  function Holds(gil: bool, t: Thread, l: Lock): Option<Mode> {
    if l.Interpreter? then if t.python.Attached? then Some(InterpreterMode(gil)) else None
    else HeldAt(t.pc, l)
  }

  /** A lock that was waited for without the interpreter is held when the wait for that begins. */
  function Served(gil: bool, t: Thread): Thread
    requires Wants(gil, t).Some?
  {
    match t.python
    case Away => t.(python := Attached)
    case Suspended => t.(pc := Granted(t.pc), python := Away)
    case Attached => t.(pc := Granted(t.pc))
  }

  /** No other thread's hold on the lock is in the way. */
  ghost predicate Free(s: State, i: Tid, l: Lock, m: Mode) {
    forall j :: j in s.threads && j != i && Holds(s.gil, s.threads[j], l).Some? ==>
      m == Shared && Holds(s.gil, s.threads[j], l) == Some(Shared)
  }

  /** A lock that makes readers queue behind a waiting writer grants less. */
  ghost predicate FreeInTurn(s: State, i: Tid, l: Lock, m: Mode) {
    && Free(s, i, l, m)
    && (m == Shared ==> forall j :: j in s.threads ==> Wants(s.gil, s.threads[j]) != Some((l, Exclusive)))
  }

  ghost predicate MayCheck(names: map<string, File>, file: File, root: string) {
    Coherent(names, file) && TreeLinks(file) && root in file.messages
  }

  /** What a thread that has the interpreter does between its requests for locks. */
  ghost predicate Proceeds(outcomes: Outcomes, s: State, t: Thread, s': State, t': Thread) {
    && t' == t.(pc := t'.pc)
    && (!t.pc.Collecting? ==> s'.stores == s.stores)
    && match t.pc
       case Checked => t'.pc == if t.file.name in s.stores.registered then Enter else Upgrade
       case Collecting =>
         var w := Collect(outcomes, s.stores, s.at, t.file);
         s'.stores == w.s && s'.at == w.at && t'.pc == Collected(w.ok)
       case Collected(ok) => t'.pc == if ok then Enter else Refused
       case LookUp => t'.pc == if Declared(s.stores.pool, t.root) then Snapshot else Unknown
       case Snapshotting => t'.pc == Walking || t'.pc == Resolving
       case Resolving => t'.pc == Build || t'.pc == Finished
       case Building => t'.pc == Merge
       case Merging => t'.pc == Walking
       case Walking => t'.pc == Parse || t'.pc == Finished
       case Parsing => t'.pc == Walking
       case _ => false
  }

  /** A lock that is free is taken at once; otherwise the interpreter is given up to wait for it. */
  ghost predicate Tries(s: State, i: Tid, t: Thread, t': Thread)
    requires LockAt(t.pc).Some?
  {
    || (Free(s, i, LockAt(t.pc).value.0, LockAt(t.pc).value.1) && t' == t.(pc := Granted(t.pc)))
    || t' == t.(python := Suspended)
  }

  /** Outside a check a thread comes by the interpreter as others do, and may begin one. */
  ghost predicate BetweenChecks(names: map<string, File>, s: State, i: Tid, t: Thread, t': Thread) {
    || (t.python.Attached? && t'.python.Attached? && t'.pc == Check && MayCheck(names, t'.file, t'.root))
    || (!t.python.Attached? && Free(s, i, Interpreter, InterpreterMode(s.gil)) && t' == t.(python := Attached))
  }

  ghost predicate Step(names: map<string, File>, outcomes: Outcomes, s: State, i: Tid, s': State) {
    && i in s.threads && i in s'.threads && s'.gil == s.gil && s'.threads == s.threads[i := s'.threads[i]]
    && var t, t' := s.threads[i], s'.threads[i];
       match Wants(s.gil, t)
       case Some((l, m)) => Free(s, i, l, m) && s'.stores == s.stores && t' == Served(s.gil, t)
       case None =>
         || (RunsPython(t.pc) && s'.stores == s.stores && t' == t.(python := Away))
         || (if Resting(t.pc) then s'.stores == s.stores && BetweenChecks(names, s, i, t, t')
             else if LetsGo(t.pc) then s'.stores == s.stores && Tries(s, i, t, t')
             else Proceeds(outcomes, s, t, s', t'))
  }

  // ------------------------------------------------------------------ the invariant

  /** A lock held exclusively has one holder. */
  ghost predicate Exclusion(s: State) {
    forall i, j, l ::
      i in s.threads && j in s.threads && i != j
      && Holds(s.gil, s.threads[i], l).Some? && Holds(s.gil, s.threads[j], l).Some?
      ==> Holds(s.gil, s.threads[i], l) == Some(Shared)
  }

  /** A thread without the interpreter waits for a lock, runs Python, or has just got the lock it waited for. */
  predicate PythonOk(t: Thread) {
    match t.python
    case Attached => true
    case Suspended => LetsGo(t.pc)
    case Away => RunsPython(t.pc) || t.pc.Checked? || t.pc.Upgraded? || t.pc.LookUp?
  }

  /** Past registration: the check has seen the file registered. */
  predicate Past(pc: Pc) {
    pc in PAST
  }

  const PAST := {
    Collected(true), Enter, LookUp, Snapshot, Snapshotting, Resolving, Build, Building, Merge, Merging, Walking, Parse,
    Parsing, Unknown, Finished}

  /** And past the lookup of the message's type. */
  const KNOWN := {
    Snapshot, Snapshotting, Resolving, Build, Building, Merge, Merging, Walking, Parse, Parsing, Finished}

  /** A type is looked up in vain only where the pool started with another file of a name of the tree. */
  ghost predicate ThreadOk(names: map<string, File>, base: Stores, stores: Stores, t: Thread) {
    && (!t.pc.Idle? ==> MayCheck(names, t.file, t.root))
    && (Past(t.pc) ==> t.file.name in stores.registered)
    && (t.pc in KNOWN ==> Declared(stores.pool, t.root))
    && (t.pc.Unknown? ==> !Agrees(base.pool, t.file))
    && PythonOk(t)
  }

  /** The stores are valid, and both pools grew from those of `base` by known files. */
  ghost predicate StoresOk(names: map<string, File>, base: Stores, stores: Stores) {
    && Valid(stores) && AllCoherent(names, stores.log)
    && GrownFrom(names, base.pool, stores.pool) && GrownFrom(names, base.cel, stores.cel)
  }

  ghost predicate Inv(names: map<string, File>, base: Stores, s: State) {
    && StoresOk(names, base, s.stores)
    && Exclusion(s)
    && forall i :: i in s.threads ==> ThreadOk(names, base, s.stores, s.threads[i])
  }

  /** Any files may have been registered before the first check. */
  ghost predicate Init(names: map<string, File>, s: State) {
    && Valid(s.stores) && AllCoherent(names, s.stores.log)
    && Exclusion(s)
    && forall i :: i in s.threads ==> s.threads[i].pc.Idle? && !s.threads[i].python.Suspended?
  }

  lemma {:induction false} InitInv(names: map<string, File>, s: State)
    requires Init(names, s)
    ensures Inv(names, s.stores, s)
  {
  }

  /** A thread asks only for a lock above every lock it holds. */
  lemma {:induction false} RankRises(gil: bool, t: Thread, l: Lock)
    requires PythonOk(t) && Wants(gil, t).Some? && Holds(gil, t, l).Some?
    ensures Rank(l) < Rank(Wants(gil, t).value.0)
  {
  }

  lemma {:induction false} ProceedsHolds(outcomes: Outcomes, s: State, t: Thread, s': State, t': Thread, l: Lock)
    requires Proceeds(outcomes, s, t, s', t')
    ensures HeldAt(t'.pc, l) == HeldAt(t.pc, l) || HeldAt(t'.pc, l) == None
  {
  }

  lemma {:induction false} GrantedHolds(pc: Pc, l: Lock)
    requires LockAt(pc).Some?
    ensures HeldAt(Granted(pc), l) == if l == LockAt(pc).value.0 then Some(LockAt(pc).value.1) else HeldAt(pc, l)
  {
  }

  /** After a step a thread holds what it held, less what it let go of, and what it was granted. */
  lemma {:induction false} HoldsAfter(names: map<string, File>, outcomes: Outcomes, s: State, i: Tid, s': State,
                                      l: Lock)
    requires Step(names, outcomes, s, i, s')
    ensures var now, was := Holds(s.gil, s'.threads[i], l), Holds(s.gil, s.threads[i], l);
            now == was || now == None || Free(s, i, l, now.value)
  {
    var t, t' := s.threads[i], s'.threads[i];
    if LockAt(t.pc).Some? {
      GrantedHolds(t.pc, l);
    } else if Wants(s.gil, t).None? && Proceeds(outcomes, s, t, s', t') {
      ProceedsHolds(outcomes, s, t, s', t', l);
    }
  }

  lemma {:induction false} ExclusionKept(names: map<string, File>, outcomes: Outcomes, s: State, i: Tid, s': State)
    requires Exclusion(s) && Step(names, outcomes, s, i, s')
    ensures Exclusion(s')
  {
    forall a, b, l | a in s'.threads && b in s'.threads && a != b
                     && Holds(s.gil, s'.threads[a], l).Some? && Holds(s.gil, s'.threads[b], l).Some?
      ensures Holds(s.gil, s'.threads[a], l) == Some(Shared)
    {
      HoldsAfter(names, outcomes, s, i, s', l);
      assert a != i ==> s'.threads[a] == s.threads[a];
      assert b != i ==> s'.threads[b] == s.threads[b];
    }
  }

  lemma {:induction false} CollectOk(names: map<string, File>, outcomes: Outcomes, base: Stores, stores: Stores,
                                     at: nat, file: File)
    requires StoresOk(names, base, stores) && Coherent(names, file)
    ensures var w := Collect(outcomes, stores, at, file);
            && StoresOk(names, base, w.s) && Grows(stores, w.s)
            && (w.ok ==> file.name in w.s.registered)
  {
    var w := Collect(outcomes, stores, at, file);
    CollectKeeps(names, outcomes, stores, at, file);
    LogCoherent(names, stores, w.s, file);
    CollectGrownFrom(names, base.pool, base.cel, outcomes, stores, at, file);
  }

  /** The stores change only where files are collected. */
  lemma {:induction false} StoresStep(names: map<string, File>, outcomes: Outcomes, s: State, i: Tid, s': State)
    requires Step(names, outcomes, s, i, s')
    ensures var t, t' := s.threads[i], s'.threads[i];
            || (s'.stores == s.stores && (t'.pc == Collected(true) ==> t.pc == t'.pc && t.file == t'.file))
            || (var w := Collect(outcomes, s.stores, s.at, t.file);
                t.pc.Collecting? && s'.stores == w.s && t'.pc == Collected(w.ok) && t'.file == t.file)
  {
  }

  lemma {:induction false} StoresKept(names: map<string, File>, outcomes: Outcomes, base: Stores, s: State, i: Tid,
                                      s': State)
    requires StoresOk(names, base, s.stores) && Step(names, outcomes, s, i, s')
    requires ThreadOk(names, base, s.stores, s.threads[i])
    ensures StoresOk(names, base, s'.stores) && Grows(s.stores, s'.stores)
    ensures s'.threads[i].pc == Collected(true) ==> s'.threads[i].file.name in s'.stores.registered
  {
    StoresStep(names, outcomes, s, i, s');
    if s.threads[i].pc.Collecting? {
      CollectOk(names, outcomes, base, s.stores, s.at, s.threads[i].file);
    }
  }

  /** Where the pool started with nothing else under a name of the tree, the type is found. */
  lemma {:induction false} RootFound(names: map<string, File>, base: Stores, stores: Stores, t: Thread)
    requires StoresOk(names, base, stores) && MayCheck(names, t.file, t.root)
    requires t.file.name in stores.registered && Agrees(base.pool, t.file)
    ensures Declared(stores.pool, t.root)
  {
    HoldsRegistered(names, base.pool, stores.pool, stores, t.file);
    assert TypeWalk(t.file, [t.root]);
    LookupCannotMiss(stores.pool, t.file, [t.root]);
  }

  lemma {:induction false} PythonKept(names: map<string, File>, outcomes: Outcomes, s: State, i: Tid, s': State)
    requires Step(names, outcomes, s, i, s') && PythonOk(s.threads[i])
    ensures PythonOk(s'.threads[i])
  {
  }

  /** A thread changes its file only to begin a check. */
  lemma {:induction false} SameFile(names: map<string, File>, outcomes: Outcomes, s: State, i: Tid, s': State)
    requires Step(names, outcomes, s, i, s')
    ensures var t, t' := s.threads[i], s'.threads[i];
            if t.pc == t'.pc || !Resting(t.pc) then t'.file == t.file && t'.root == t.root
            else t'.pc == Check && MayCheck(names, t'.file, t'.root)
  {
  }

  /** It passes registration only with the file registered, and gives up only where the lookup misses. */
  lemma {:induction false} ProceedsPast(outcomes: Outcomes, s: State, t: Thread, s': State, t': Thread)
    requires Proceeds(outcomes, s, t, s', t')
    ensures !t'.pc.Idle?
    ensures Past(t'.pc) && !Past(t.pc) ==>
              t'.pc == Collected(true) || (t.pc.Checked? && t.file.name in s.stores.registered)
    ensures t'.pc.Unknown? ==> t.pc.LookUp? && !Declared(s.stores.pool, t.root)
    ensures t'.pc in KNOWN ==> t.pc in KNOWN || (t.pc.LookUp? && Declared(s.stores.pool, t.root))
  {
  }

  lemma {:induction false} StepsPast(names: map<string, File>, outcomes: Outcomes, s: State, i: Tid, s': State)
    requires Step(names, outcomes, s, i, s')
    ensures var t, t' := s.threads[i], s'.threads[i];
            && (t'.pc.Idle? ==> t.pc.Idle?)
            && (Past(t'.pc) && !Past(t.pc) ==>
                  t'.pc == Collected(true) || (t.pc.Checked? && t.file.name in s.stores.registered))
            && (t'.pc.Unknown? && !t.pc.Unknown? ==> t.pc.LookUp? && !Declared(s.stores.pool, t.root))
            && (t'.pc in KNOWN && t.pc !in KNOWN ==> t.pc.LookUp? && Declared(s.stores.pool, t.root))
  {
    var t, t' := s.threads[i], s'.threads[i];
    if Proceeds(outcomes, s, t, s', t') {
      ProceedsPast(outcomes, s, t, s', t');
    }
  }

  lemma {:induction false} ThreadKept(names: map<string, File>, outcomes: Outcomes, base: Stores, s: State, i: Tid,
                                      s': State)
    requires Step(names, outcomes, s, i, s') && ThreadOk(names, base, s.stores, s.threads[i])
    requires s.stores.registered <= s'.stores.registered && Extends(s.stores.pool, s'.stores.pool)
    requires s'.threads[i].pc == Collected(true) ==> s'.threads[i].file.name in s'.stores.registered
    requires s.threads[i].pc.LookUp? && Agrees(base.pool, s.threads[i].file) ==>
               Declared(s.stores.pool, s.threads[i].root)
    ensures ThreadOk(names, base, s'.stores, s'.threads[i])
  {
    PythonKept(names, outcomes, s, i, s');
    SameFile(names, outcomes, s, i, s');
    StepsPast(names, outcomes, s, i, s');
    StillDeclared(s.stores.pool, s'.stores.pool, s.threads[i].root);
  }

  lemma {:induction false} StillDeclared(pool: map<string, File>, more: map<string, File>, t: string)
    requires Extends(pool, more)
    ensures Declared(pool, t) ==> Declared(more, t)
  {
    if name :| name in pool && t in pool[name].messages {
      assert name in more && t in more[name].messages;
    }
  }

  lemma {:induction false} StepKeeps(names: map<string, File>, outcomes: Outcomes, base: Stores, s: State, i: Tid,
                                     s': State)
    requires Inv(names, base, s) && Step(names, outcomes, s, i, s')
    ensures Inv(names, base, s') && Grows(s.stores, s'.stores)
  {
    ExclusionKept(names, outcomes, s, i, s');
    StoresKept(names, outcomes, base, s, i, s');
    if s.threads[i].pc.LookUp? && Agrees(base.pool, s.threads[i].file) {
      RootFound(names, base, s.stores, s.threads[i]);
    }
    ThreadKept(names, outcomes, base, s, i, s');
    forall j | j in s'.threads ensures ThreadOk(names, base, s'.stores, s'.threads[j]) {
      if j != i {
        assert s'.threads[j] == s.threads[j];
        StillDeclared(s.stores.pool, s'.stores.pool, s.threads[j].root);
      }
    }
  }

  // -------------------------------------------------------------------- whole runs

  ghost predicate Next(names: map<string, File>, outcomes: Outcomes, s: State, s': State) {
    exists i :: i in s.threads && Step(names, outcomes, s, i, s')
  }

  ghost predicate Run(names: map<string, File>, outcomes: Outcomes, run: seq<State>) {
    && run != [] && Init(names, run[0])
    && forall k :: 0 <= k < |run| - 1 ==> Next(names, outcomes, run[k], run[k + 1])
  }

  lemma {:induction false} RunKeeps(names: map<string, File>, outcomes: Outcomes, run: seq<State>, i: nat, k: nat)
    requires Run(names, outcomes, run) && i <= k < |run|
    ensures Inv(names, run[0].stores, run[k]) && Grows(run[i].stores, run[k].stores)
    decreases k
  {
    if k == 0 {
      InitInv(names, run[0]);
    } else {
      RunKeeps(names, outcomes, run, if i == k then k - 1 else i, k - 1);
      assert Next(names, outcomes, run[k - 1], run[(k - 1) + 1]);
      var j :| j in run[k - 1].threads && Step(names, outcomes, run[k - 1], j, run[k]);
      StepKeeps(names, outcomes, run[0].stores, run[k - 1], j, run[k]);
    }
  }

  /**
   In every interleaving no file is ever added twice, or dropped, or added before an
   import, and whatever the CEL pool took since the start the descriptor pool has.
   */
  lemma {:induction false} AddedOnce(names: map<string, File>, outcomes: Outcomes, run: seq<State>, i: nat, k: nat)
    requires Run(names, outcomes, run) && i <= k < |run|
    ensures InOrder(run[k].stores.log) && run[i].stores.log <= run[k].stores.log && InStep(run[k].stores)
    ensures run[k].stores.cel.Keys - run[0].stores.cel.Keys <= run[k].stores.pool.Keys
  {
    RunKeeps(names, outcomes, run, i, k);
    RunKeeps(names, outcomes, run, 0, k);
  }

  lemma {:induction false} RegisteredStays(names: map<string, File>, outcomes: Outcomes, run: seq<State>, i: nat,
                                           k: nat)
    requires Run(names, outcomes, run) && i <= k < |run|
    ensures run[i].stores.registered <= run[k].stores.registered
  {
    RunKeeps(names, outcomes, run, i, k);
  }

  lemma {:induction false} StoresOfRun(names: map<string, File>, outcomes: Outcomes, run: seq<State>, k: nat)
    requires Run(names, outcomes, run) && k < |run|
    ensures StoresOk(names, run[0].stores, run[k].stores)
  {
    RunKeeps(names, outcomes, run, k, k);
  }

  lemma {:induction false} PastNow(names: map<string, File>, outcomes: Outcomes, run: seq<State>, i: nat, j: Tid)
    requires Run(names, outcomes, run) && i < |run| && j in run[i].threads && Past(run[i].threads[j].pc)
    ensures var t := run[i].threads[j];
            MayCheck(names, t.file, t.root) && t.file.name in run[i].stores.registered
  {
    RunKeeps(names, outcomes, run, i, i);
    assert ThreadOk(names, run[0].stores, run[i].stores, run[i].threads[j]);
  }

  lemma {:induction false} PastStays(names: map<string, File>, outcomes: Outcomes, run: seq<State>, i: nat, k: nat,
                                     j: Tid)
    requires Run(names, outcomes, run) && i <= k < |run| && j in run[i].threads && Past(run[i].threads[j].pc)
    ensures StoresOk(names, run[0].stores, run[k].stores)
    ensures var t := run[i].threads[j];
            MayCheck(names, t.file, t.root) && t.file.name in run[k].stores.registered
  {
    PastNow(names, outcomes, run, i, j);
    RegisteredStays(names, outcomes, run, i, k);
    StoresOfRun(names, outcomes, run, k);
  }

  lemma {:induction false} FileHeld(names: map<string, File>, base: Stores, stores: Stores, file: File)
    requires StoresOk(names, base, stores) && Coherent(names, file) && file.name in stores.registered
    ensures TreeRegistered(stores, file)
    ensures HoldsTree(stores.pool, file) <==> Agrees(base.pool, file)
    ensures HoldsTree(stores.cel, file) <==> Agrees(base.cel, file)
  {
    ImportClosed(names, stores, file);
    HoldsRegistered(names, base.pool, stores.pool, stores, file);
    HoldsRegistered(names, base.cel, stores.cel, stores, file);
  }

  /**
   Once a check is past registration, its file and all that it imports stay registered,
   and from then on each pool holds them as they are if and only if it started with
   nothing else under one of their names.
   */
  lemma {:induction false} StaysRegistered(names: map<string, File>, outcomes: Outcomes, run: seq<State>, i: nat,
                                           k: nat, j: Tid)
    requires Run(names, outcomes, run) && i <= k < |run| && j in run[i].threads && Past(run[i].threads[j].pc)
    ensures TreeRegistered(run[k].stores, run[i].threads[j].file)
    ensures HoldsTree(run[k].stores.pool, run[i].threads[j].file)
            <==> Agrees(run[0].stores.pool, run[i].threads[j].file)
    ensures HoldsTree(run[k].stores.cel, run[i].threads[j].file) <==> Agrees(run[0].stores.cel, run[i].threads[j].file)
  {
    PastStays(names, outcomes, run, i, k, j);
    FileHeld(names, run[0].stores, run[k].stores, run[i].threads[j].file);
  }

  /** From then on the two pools hold the same files of its tree if and only if those they started with agree. */
  lemma {:induction false} PoolsAgree(names: map<string, File>, outcomes: Outcomes, run: seq<State>, i: nat, k: nat,
                                      j: Tid)
    requires Run(names, outcomes, run) && i <= k < |run| && j in run[i].threads && Past(run[i].threads[j].pc)
    ensures (forall g :: InTree(g, run[i].threads[j].file) ==> BothHold(run[k].stores, g.name))
            <==> forall g :: InTree(g, run[i].threads[j].file) ==>
                   Under(run[0].stores.pool, g) == Under(run[0].stores.cel, g)
  {
    PastStays(names, outcomes, run, i, k, j);
    SameRegistered(names, run[0].stores, run[k].stores, run[i].threads[j].file);
  }

  /** Then no later lookup, of the message's type or of any type its fields reach, misses. */
  lemma {:induction false} LookupsHit(names: map<string, File>, outcomes: Outcomes, run: seq<State>, i: nat, k: nat,
                                      j: Tid, types: seq<string>)
    requires Run(names, outcomes, run) && i <= k < |run| && j in run[i].threads && Past(run[i].threads[j].pc)
    requires Agrees(run[0].stores.pool, run[i].threads[j].file) && TypeWalk(run[i].threads[j].file, types)
    ensures Declared(run[k].stores.pool, types[|types| - 1])
  {
    PastStays(names, outcomes, run, i, k, j);
    FileHeld(names, run[0].stores, run[k].stores, run[i].threads[j].file);
    LookupCannotMiss(run[k].stores.pool, run[i].threads[j].file, types);
  }

  /**
   A check that reaches the lookup of a type that no other file declares finds it exactly
   when the pool did not start with a file of that name, or started with one that declares it.
   */
  lemma {:induction false} LookupOutcome(names: map<string, File>, outcomes: Outcomes, run: seq<State>, k: nat, j: Tid)
    requires Run(names, outcomes, run) && k < |run| && j in run[k].threads && run[k].threads[j].pc.LookUp?
    requires var t := run[k].threads[j];
             forall name :: name in run[k].stores.pool && name != t.file.name ==>
               t.root !in run[k].stores.pool[name].messages
    ensures var t, base := run[k].threads[j], run[0].stores.pool;
            Declared(run[k].stores.pool, t.root) <==> (t.file.name in base ==> t.root in base[t.file.name].messages)
  {
    RunKeeps(names, outcomes, run, k, k);
    var t := run[k].threads[j];
    assert ThreadOk(names, run[0].stores, run[k].stores, t);
    TypeFound(names, run[0].stores.pool, run[k].stores.pool, run[k].stores, t.file, t.file, t.root);
  }

  /** Where files may be looked up, or their types: between taking `registered` or `core` and letting it go. */
  const UNDER_A_STORE := {
    Checked, Upgraded, Collecting, Collected(true), Collected(false), LookUp, Snapshot, Snapshotting, Resolving, Build,
    Building, Merge, Merging, Walking, Parse, Parsing}

  /** Files are collected by one thread at a time, while none looks for a file or validates. */
  lemma {:induction false} CollectsAlone(names: map<string, File>, outcomes: Outcomes, run: seq<State>, k: nat,
                                         i: Tid, j: Tid)
    requires Run(names, outcomes, run) && k < |run| && i != j && i in run[k].threads && j in run[k].threads
    requires run[k].threads[i].pc.Collecting?
    ensures run[k].threads[j].pc !in UNDER_A_STORE
  {
    RunKeeps(names, outcomes, run, k, k);
    assert Holds(run[k].gil, run[k].threads[i], Core) == Some(Exclusive);
    assert Holds(run[k].gil, run[k].threads[i], Registered) == Some(Exclusive);
  }

  /** Rules are compiled by one thread at a time, while none binds a message to its rules. */
  lemma {:induction false} CompilesAlone(names: map<string, File>, outcomes: Outcomes, run: seq<State>, k: nat,
                                         i: Tid, j: Tid)
    requires Run(names, outcomes, run) && k < |run| && i != j && i in run[k].threads && j in run[k].threads
    requires run[k].threads[i].pc.Building?
    ensures run[k].threads[j].pc !in {Building, Parsing}
  {
    RunKeeps(names, outcomes, run, k, k);
    assert Holds(run[k].gil, run[k].threads[i], Env) == Some(Exclusive);
  }

  /** Rules are merged into the cache by one thread at a time, while none takes a snapshot. */
  lemma {:induction false} MergesAlone(names: map<string, File>, outcomes: Outcomes, run: seq<State>, k: nat,
                                       i: Tid, j: Tid)
    requires Run(names, outcomes, run) && k < |run| && i != j && i in run[k].threads && j in run[k].threads
    requires run[k].threads[i].pc.Merging?
    ensures run[k].threads[j].pc !in {Merging, Snapshotting}
  {
    RunKeeps(names, outcomes, run, k, k);
    assert Holds(run[k].gil, run[k].threads[i], Cache) == Some(Exclusive);
  }

  /** A check that is past the lookup has found the type, and from then on so does every lookup of it. */
  lemma {:induction false} ValidatesKnown(names: map<string, File>, outcomes: Outcomes, run: seq<State>, i: nat,
                                          k: nat, j: Tid)
    requires Run(names, outcomes, run) && i <= k < |run| && j in run[i].threads && run[i].threads[j].pc in KNOWN
    ensures run[i].threads[j].file.name in run[k].stores.registered
    ensures Declared(run[k].stores.pool, run[i].threads[j].root)
  {
    RunKeeps(names, outcomes, run, i, i);
    RunKeeps(names, outcomes, run, i, k);
    assert ThreadOk(names, run[0].stores, run[i].stores, run[i].threads[j]);
    StillDeclared(run[i].stores.pool, run[k].stores.pool, run[i].threads[j].root);
  }

  /** The part of a check that registers a file, which takes locks exclusively. */
  const REGISTERING := {Upgrade, Upgraded, Collecting, Collected(true), Collected(false), Refused}

  lemma {:induction false} KnownStep(names: map<string, File>, outcomes: Outcomes, s: State, i: Tid, s': State)
    requires Step(names, outcomes, s, i, s') && s.threads[i].file.name in s.stores.registered
    requires s.threads[i].pc !in REGISTERING && !Resting(s.threads[i].pc)
    ensures s'.threads[i].pc !in REGISTERING && s'.threads[i].file == s.threads[i].file
  {
    var t, t' := s.threads[i], s'.threads[i];
    if LockAt(t.pc).None? && Proceeds(outcomes, s, t, s', t') {
      assert t'.pc !in REGISTERING;
    }
  }

  lemma {:induction false} KnownNext(names: map<string, File>, outcomes: Outcomes, s: State, s': State, j: Tid)
    requires Next(names, outcomes, s, s') && j in s.threads && s.threads[j].file.name in s.stores.registered
    requires s.threads[j].pc !in REGISTERING && !Resting(s.threads[j].pc)
    ensures j in s'.threads && s'.threads[j].pc !in REGISTERING && s'.threads[j].file == s.threads[j].file
  {
    var i :| i in s.threads && Step(names, outcomes, s, i, s');
    if i == j {
      KnownStep(names, outcomes, s, j, s');
    }
  }

  lemma {:induction false} StepTaken(names: map<string, File>, outcomes: Outcomes, run: seq<State>, k: nat)
    requires Run(names, outcomes, run) && 0 < k < |run|
    ensures Next(names, outcomes, run[k - 1], run[k])
  {
    assert Next(names, outcomes, run[k - 1], run[(k - 1) + 1]);
  }

  /** A check of a file that was registered when it began only shares `registered` and `core`, to its end. */
  lemma {:induction false} KnownSkips(names: map<string, File>, outcomes: Outcomes, run: seq<State>, i: nat, k: nat,
                                      j: Tid)
    requires Run(names, outcomes, run) && i <= k < |run| && j in run[i].threads && run[i].threads[j].pc.Check?
    requires run[i].threads[j].file.name in run[i].stores.registered
    requires forall n :: i <= n < k && j in run[n].threads ==> !Resting(run[n].threads[j].pc)
    ensures j in run[k].threads && run[k].threads[j].file == run[i].threads[j].file
    ensures run[k].threads[j].pc !in REGISTERING
    decreases k
  {
    if i < k {
      KnownSkips(names, outcomes, run, i, k - 1, j);
      RegisteredStays(names, outcomes, run, i, k - 1);
      StepTaken(names, outcomes, run, k);
      KnownNext(names, outcomes, run[k - 1], run[k], j);
    }
  }

  // ---------------------------------------------------------------------- progress

  ghost predicate Waits(s: State, i: Tid) {
    i in s.threads && Wants(s.gil, s.threads[i]).Some?
  }

  /** Thread `j` is in the way of `i`: by what it holds, or as a writer queued ahead of a reader. */
  ghost predicate Blocks(s: State, j: Tid, i: Tid)
    requires Waits(s, i) && Waits(s, j)
  {
    var (l, m) := Wants(s.gil, s.threads[i]).value;
    var held := Holds(s.gil, s.threads[j], l);
    && i != j
    && (|| (held.Some? && (m == Exclusive || held == Some(Exclusive)))
        || (m == Shared && Wants(s.gil, s.threads[j]) == Some((l, Exclusive))))
  }

  /** Locks in rank order, and of those who want one lock the writers last. */
  ghost function Height(s: State, i: Tid): nat
    requires Waits(s, i)
  {
    var (l, m) := Wants(s.gil, s.threads[i]).value;
    2 * Rank(l) + if m == Exclusive then 1 else 0
  }

  lemma {:induction false} BlockerIsHigher(s: State, j: Tid, i: Tid)
    requires Waits(s, i) && Waits(s, j) && Blocks(s, j, i) && PythonOk(s.threads[j])
    ensures Height(s, i) < Height(s, j)
  {
    var l := Wants(s.gil, s.threads[i]).value.0;
    if Holds(s.gil, s.threads[j], l).Some? {
      RankRises(s.gil, s.threads[j], l);
    }
  }

  lemma {:induction false} Highest(s: State, waiting: set<Tid>) returns (i: Tid)
    requires waiting != {} && forall j :: j in waiting ==> Waits(s, j)
    ensures i in waiting && forall j :: j in waiting ==> Height(s, j) <= Height(s, i)
    decreases |waiting|
  {
    i :| i in waiting;
    if waiting != {i} {
      var other := Highest(s, waiting - {i});
      if Height(s, i) < Height(s, other) {
        i := other;
      }
    }
  }

  lemma {:induction false} OneUnblocked(s: State, waiting: set<Tid>) returns (i: Tid)
    requires waiting != {} && forall j :: j in waiting ==> Waits(s, j) && PythonOk(s.threads[j])
    ensures i in waiting && forall j :: j in waiting ==> !Blocks(s, j, i)
  {
    i := Highest(s, waiting);
    forall j | j in waiting ensures !Blocks(s, j, i) {
      if Blocks(s, j, i) {
        BlockerIsHigher(s, j, i);
      }
    }
  }

  /**
   No deadlock: in every run, whatever others do, no set of checks waits on itself. Of
   any waiting checks, for a lock or for the interpreter, one is blocked by none of the
   rest, neither by what it holds nor by a writer queued ahead of a reader.
   */
  lemma {:induction false} NoDeadlock(names: map<string, File>, outcomes: Outcomes, run: seq<State>, k: nat,
                                      waiting: set<Tid>)
    returns (i: Tid)
    requires Run(names, outcomes, run) && k < |run|
    requires waiting != {} && forall j :: j in waiting ==> Waits(run[k], j)
    ensures i in waiting && forall j :: j in waiting ==> !Blocks(run[k], j, i)
  {
    RunKeeps(names, outcomes, run, k, k);
    i := OneUnblocked(run[k], waiting);
  }

  /** Where one thread at a time has the interpreter, `env` and `cache` are always free when asked for. */
  lemma {:induction false} KeptWaitsAreShort(names: map<string, File>, outcomes: Outcomes, run: seq<State>, k: nat,
                                             i: Tid)
    requires Run(names, outcomes, run) && k < |run| && run[k].gil && Waits(run[k], i)
    requires Wants(run[k].gil, run[k].threads[i]).value.0 in {Env, Cache}
    ensures Free(run[k], i, Wants(run[k].gil, run[k].threads[i]).value.0, Wants(run[k].gil, run[k].threads[i]).value.1)
  {
    RunKeeps(names, outcomes, run, k, k);
    assert forall j :: j in run[k].threads ==> PythonOk(run[k].threads[j]);
    AloneInside(run[k], i, Wants(run[k].gil, run[k].threads[i]).value.0);
  }

  lemma {:induction false} AloneInside(s: State, i: Tid, l: Lock)
    requires s.gil && Exclusion(s) && (forall j :: j in s.threads ==> PythonOk(s.threads[j])) && i in s.threads
    requires Wants(s.gil, s.threads[i]).Some? && Wants(s.gil, s.threads[i]).value.0 == l && l in {Env, Cache}
    ensures forall j :: j in s.threads && j != i ==> Holds(s.gil, s.threads[j], l).None?
  {
    assert Holds(s.gil, s.threads[i], Interpreter) == Some(Exclusive);
    forall j | j in s.threads && j != i ensures Holds(s.gil, s.threads[j], l).None? {
      assert Holds(s.gil, s.threads[j], Interpreter).None?;
    }
  }

  ghost predicate CanStep(names: map<string, File>, outcomes: Outcomes, s: State, i: Tid) {
    && i in s.threads && !Resting(s.threads[i].pc)
    && (Waits(s, i) ==>
          FreeInTurn(s, i, Wants(s.gil, s.threads[i]).value.0, Wants(s.gil, s.threads[i]).value.1))
    && exists s' :: Step(names, outcomes, s, i, s')
  }

  lemma {:induction false} GrantedStep(names: map<string, File>, outcomes: Outcomes, s: State, i: Tid)
    requires Waits(s, i)
    requires FreeInTurn(s, i, Wants(s.gil, s.threads[i]).value.0, Wants(s.gil, s.threads[i]).value.1)
    ensures CanStep(names, outcomes, s, i)
  {
    var s' := s.(threads := s.threads[i := Served(s.gil, s.threads[i])]);
    assert Step(names, outcomes, s, i, s');
  }

  /** What an active thread that waits for nothing does next. */
  function NextPc(pc: Pc, found: bool, ok: bool): Pc {
    match pc
    case Checked => if found then Enter else Upgrade
    case Collecting => Collected(ok)
    case Collected(done) => if done then Enter else Refused
    case LookUp => if found then Snapshot else Unknown
    case Snapshotting => Walking
    case Resolving => Finished
    case Building => Merge
    case Merging => Walking
    case Walking => Finished
    case Parsing => Walking
    case _ => pc
  }

  lemma {:induction false} FreeStep(names: map<string, File>, outcomes: Outcomes, s: State, i: Tid)
    requires i in s.threads && !Resting(s.threads[i].pc) && !Waits(s, i) && PythonOk(s.threads[i])
    ensures CanStep(names, outcomes, s, i)
  {
    var t := s.threads[i];
    if LetsGo(t.pc) {
      var s' := s.(threads := s.threads[i := t.(python := Suspended)]);
      assert Step(names, outcomes, s, i, s');
    } else {
      var w := Collect(outcomes, s.stores, s.at, t.file);
      var found := if t.pc.LookUp? then Declared(s.stores.pool, t.root) else t.file.name in s.stores.registered;
      var threads := s.threads[i := t.(pc := NextPc(t.pc, found, w.ok))];
      var s' := if t.pc.Collecting? then State(s.gil, w.s, w.at, threads) else s.(threads := threads);
      assert Step(names, outcomes, s, i, s');
    }
  }

  /** A thread outside any check has the interpreter, which it gives up as Python sees fit. */
  ghost predicate Elsewhere(s: State) {
    exists j :: j in s.threads && Resting(s.threads[j].pc) && s.threads[j].python.Attached?
  }

  /** In every run, while checks are under way one of them can take a step, unless the interpreter is elsewhere. */
  lemma {:induction false} SomeoneSteps(names: map<string, File>, outcomes: Outcomes, run: seq<State>, k: nat,
                                        active: Tid)
    returns (i: Tid)
    requires Run(names, outcomes, run) && k < |run|
    requires active in run[k].threads && !Resting(run[k].threads[active].pc) && !Elsewhere(run[k])
    ensures CanStep(names, outcomes, run[k], i)
  {
    RunKeeps(names, outcomes, run, k, k);
    var s := run[k];
    assert forall j :: j in s.threads ==> PythonOk(s.threads[j]);
    if j :| j in s.threads && !Resting(s.threads[j].pc) && !Waits(s, j) {
      FreeStep(names, outcomes, s, j);
      return j;
    }
    i := Unblocked(s, active);
    GrantedStep(names, outcomes, s, i);
  }

  lemma {:induction false} Unblocked(s: State, active: Tid) returns (i: Tid)
    requires active in s.threads && !Resting(s.threads[active].pc) && !Elsewhere(s)
    requires forall j :: j in s.threads ==> PythonOk(s.threads[j]) && (!Resting(s.threads[j].pc) ==> Waits(s, j))
    ensures Waits(s, i) && FreeInTurn(s, i, Wants(s.gil, s.threads[i]).value.0, Wants(s.gil, s.threads[i]).value.1)
  {
    var waiting := set j | j in s.threads && Waits(s, j);
    assert active in waiting;
    i := OneUnblocked(s, waiting);
    var (l, m) := Wants(s.gil, s.threads[i]).value;
    forall j | j in s.threads && j != i && Holds(s.gil, s.threads[j], l).Some?
      ensures m == Shared && Holds(s.gil, s.threads[j], l) == Some(Shared)
    {
      assert j in waiting && !Blocks(s, j, i);
    }
    forall j | j in s.threads && m == Shared ensures Wants(s.gil, s.threads[j]) != Some((l, Exclusive)) {
      if Waits(s, j) && j != i {
        assert j in waiting && !Blocks(s, j, i);
      }
    }
  }

  // ------------------------------------------------- why the interpreter is given up

  /** Two threads, of which one at a time has the interpreter. */
  ghost function Two(stores: Stores, first: Thread, second: Thread): State {
    State(true, stores, 0, map[0 := first, 1 := second])
  }

  ghost predicate Reached(names: map<string, File>, outcomes: Outcomes, s: State) {
    exists run :: Run(names, outcomes, run) && run[|run| - 1] == s
  }

  lemma {:induction false} ReachedNext(names: map<string, File>, outcomes: Outcomes, run: seq<State>, s': State)
    requires Run(names, outcomes, run) && Next(names, outcomes, run[|run| - 1], s')
    ensures Run(names, outcomes, run + [s']) && Reached(names, outcomes, s')
  {
    var longer := run + [s'];
    forall k | 0 <= k < |longer| - 1 ensures Next(names, outcomes, longer[k], longer[k + 1]) {
      assert longer[k] == run[k];
    }
    assert longer[0] == run[0] && longer[|longer| - 1] == s';
  }

  /** A lock that the other thread does not hold, or that both share. */
  predicate Grantable(other: Pc, l: Lock, m: Mode) {
    HeldAt(other, l).None? || (m.Shared? && HeldAt(other, l) == Some(Shared))
  }

  /** A step of `t`, next to `other`, that leaves the stores alone. */
  ghost predicate Moves(names: map<string, File>, stores: Stores, t: Thread, other: Thread, t': Thread) {
    || (t.pc.Idle? && t.python.Attached? && t' == t.(pc := Check) && MayCheck(names, t.file, t.root))
    || (t.python.Attached? && LockAt(t.pc).Some? && Grantable(other.pc, LockAt(t.pc).value.0, LockAt(t.pc).value.1)
        && t' == t.(pc := Granted(t.pc)))
    || (t.python.Attached? && t.pc.Checked?
        && t' == t.(pc := if t.file.name in stores.registered then Enter else Upgrade))
    || (t.python.Attached? && t.pc.LookUp? && Declared(stores.pool, t.root) && t' == t.(pc := Snapshot))
    || (t.python.Attached? && t.pc.Snapshotting? && t' == t.(pc := Walking))
    || (t.python.Attached? && RunsPython(t.pc) && t' == t.(python := Away))
    || (t.python.Away? && !other.python.Attached? && t' == t.(python := Attached))
  }

  lemma {:induction false} FirstSteps(names: map<string, File>, outcomes: Outcomes, stores: Stores, t: Thread,
                                      other: Thread, t': Thread)
    requires Moves(names, stores, t, other, t')
    ensures Next(names, outcomes, Two(stores, t, other), Two(stores, t', other))
  {
    var s, s' := Two(stores, t, other), Two(stores, t', other);
    assert s'.threads == s.threads[0 := t'];
    assert Step(names, outcomes, s, 0, s');
  }

  lemma {:induction false} FirstMoves(names: map<string, File>, outcomes: Outcomes, stores: Stores, t: Thread,
                                      other: Thread, t': Thread)
    requires Reached(names, outcomes, Two(stores, t, other)) && Moves(names, stores, t, other, t')
    ensures Reached(names, outcomes, Two(stores, t', other))
  {
    FirstSteps(names, outcomes, stores, t, other, t');
    var run :| Run(names, outcomes, run) && run[|run| - 1] == Two(stores, t, other);
    ReachedNext(names, outcomes, run, Two(stores, t', other));
  }

  lemma {:induction false} SecondSteps(names: map<string, File>, outcomes: Outcomes, stores: Stores, t: Thread,
                                       other: Thread, t': Thread)
    requires Moves(names, stores, t, other, t')
    ensures Next(names, outcomes, Two(stores, other, t), Two(stores, other, t'))
  {
    var s, s' := Two(stores, other, t), Two(stores, other, t');
    assert s'.threads == s.threads[1 := t'];
    assert Step(names, outcomes, s, 1, s');
  }

  lemma {:induction false} SecondMoves(names: map<string, File>, outcomes: Outcomes, stores: Stores, t: Thread,
                                       other: Thread, t': Thread)
    requires Reached(names, outcomes, Two(stores, other, t)) && Moves(names, stores, t, other, t')
    ensures Reached(names, outcomes, Two(stores, other, t'))
  {
    SecondSteps(names, outcomes, stores, t, other, t');
    var run :| Run(names, outcomes, run) && run[|run| - 1] == Two(stores, other, t);
    ReachedNext(names, outcomes, run, Two(stores, other, t'));
  }

  /** One thread checks a message of a registered file, the other of a file that is not registered. */
  ghost predicate OneKnown(names: map<string, File>, stores: Stores, a: Thread, b: Thread) {
    && Valid(stores) && AllCoherent(names, stores.log)
    && MayCheck(names, a.file, a.root) && a.file.name in stores.registered
    && MayCheck(names, b.file, b.root) && b.file.name !in stores.registered
  }

  lemma {:induction false} FirstEnters(names: map<string, File>, outcomes: Outcomes, stores: Stores, a: Thread,
                                       b: Thread)
    requires OneKnown(names, stores, a, b)
    ensures Reached(names, outcomes, Two(stores, a.(pc := Enter, python := Away), b.(pc := Idle, python := Away)))
  {
    var b0, a0 := b.(pc := Idle, python := Away), a.(python := Attached);
    var start := Two(stores, a0.(pc := Idle), b0);
    assert Run(names, outcomes, [start]) && [start][|[start]| - 1] == start;
    FirstMoves(names, outcomes, stores, a0.(pc := Idle), b0, a0.(pc := Check));
    FirstMoves(names, outcomes, stores, a0.(pc := Check), b0, a0.(pc := Checked));
    FirstMoves(names, outcomes, stores, a0.(pc := Checked), b0, a0.(pc := Enter));
    FirstMoves(names, outcomes, stores, a0.(pc := Enter), b0, a.(pc := Enter, python := Away));
  }

  lemma {:induction false} SecondUpgrades(names: map<string, File>, outcomes: Outcomes, stores: Stores, a: Thread,
                                          b: Thread)
    requires OneKnown(names, stores, a, b)
    ensures Reached(names, outcomes,
                    Two(stores, a.(pc := Enter, python := Away), b.(pc := Upgrade, python := Attached)))
  {
    var a0, b0 := a.(pc := Enter, python := Away), b.(python := Attached);
    FirstEnters(names, outcomes, stores, a, b);
    SecondMoves(names, outcomes, stores, b.(pc := Idle, python := Away), a0, b0.(pc := Idle));
    SecondMoves(names, outcomes, stores, b0.(pc := Idle), a0, b0.(pc := Check));
    SecondMoves(names, outcomes, stores, b0.(pc := Check), a0, b0.(pc := Checked));
    SecondMoves(names, outcomes, stores, b0.(pc := Checked), a0, b.(pc := Upgrade, python := Attached));
  }

  lemma {:induction false} SecondCollects(names: map<string, File>, outcomes: Outcomes, stores: Stores, a: Thread,
                                          b: Thread)
    requires OneKnown(names, stores, a, b)
    ensures Reached(names, outcomes, Two(stores, a.(pc := Enter, python := Away), b.(pc := Collecting, python := Away)))
  {
    var a0, b0 := a.(pc := Enter, python := Away), b.(python := Attached);
    SecondUpgrades(names, outcomes, stores, a, b);
    SecondMoves(names, outcomes, stores, b0.(pc := Upgrade), a0, b0.(pc := Upgraded));
    SecondMoves(names, outcomes, stores, b0.(pc := Upgraded), a0, b0.(pc := Collecting));
    SecondMoves(names, outcomes, stores, b0.(pc := Collecting), a0, b.(pc := Collecting, python := Away));
  }

  /**
   Why waits for `core` give the interpreter up. A check can come to ask for `core`, with
   the interpreter, while the thread that collects under `core` has to get it back: a
   wait that kept it would leave neither able to go on. Given up, it is there for the other.
   */
  lemma {:induction false} KeepingItWouldDeadlock(names: map<string, File>, outcomes: Outcomes, stores: Stores,
                                                  a: Thread, b: Thread)
    requires OneKnown(names, stores, a, b)
    ensures var s := Two(stores, a.(pc := Enter, python := Attached), b.(pc := Collecting, python := Away));
            && Reached(names, outcomes, s)
            && !Free(s, 0, Core, Shared) && !Free(s, 1, Interpreter, Exclusive)
            && Free(Two(stores, a.(pc := Enter, python := Suspended), s.threads[1]), 1, Interpreter, Exclusive)
  {
    SecondCollects(names, outcomes, stores, a, b);
    var s := Two(stores, a.(pc := Enter, python := Attached), b.(pc := Collecting, python := Away));
    FirstMoves(names, outcomes, stores, a.(pc := Enter, python := Away), s.threads[1], s.threads[0]);
    assert Holds(true, s.threads[1], Core) == Some(Exclusive);
    assert Holds(true, s.threads[0], Interpreter) == Some(Exclusive);
  }

  /** A thread that checks a message of a registered file, whose type the pool declares. */
  ghost predicate Ready(names: map<string, File>, stores: Stores, t: Thread) {
    MayCheck(names, t.file, t.root) && t.file.name in stores.registered && Declared(stores.pool, t.root)
  }

  lemma {:induction false} FirstLooks(names: map<string, File>, outcomes: Outcomes, stores: Stores, t: Thread,
                                      other: Thread)
    requires Ready(names, stores, t) && t.python.Attached? && other.python.Away? && other.pc.Idle?
    requires Reached(names, outcomes, Two(stores, t.(pc := Idle), other))
    ensures Reached(names, outcomes, Two(stores, t.(pc := LookUp), other))
  {
    FirstMoves(names, outcomes, stores, t.(pc := Idle), other, t.(pc := Check));
    FirstMoves(names, outcomes, stores, t.(pc := Check), other, t.(pc := Checked));
    FirstMoves(names, outcomes, stores, t.(pc := Checked), other, t.(pc := Enter));
    FirstMoves(names, outcomes, stores, t.(pc := Enter), other, t.(pc := LookUp));
  }

  lemma {:induction false} FirstWalks(names: map<string, File>, outcomes: Outcomes, stores: Stores, t: Thread,
                                      other: Thread)
    requires Ready(names, stores, t) && t.python.Attached? && other.python.Away? && other.pc.Idle?
    requires Reached(names, outcomes, Two(stores, t.(pc := LookUp), other))
    ensures Reached(names, outcomes, Two(stores, t.(pc := Walking), other))
  {
    FirstMoves(names, outcomes, stores, t.(pc := LookUp), other, t.(pc := Snapshot));
    FirstMoves(names, outcomes, stores, t.(pc := Snapshot), other, t.(pc := Snapshotting));
    FirstMoves(names, outcomes, stores, t.(pc := Snapshotting), other, t.(pc := Walking));
  }

  lemma {:induction false} SecondLooks(names: map<string, File>, outcomes: Outcomes, stores: Stores, t: Thread,
                                       other: Thread)
    requires Ready(names, stores, t) && t.python.Attached? && other.python.Away? && other.pc.Walking?
    requires Reached(names, outcomes, Two(stores, other, t.(pc := Idle)))
    ensures Reached(names, outcomes, Two(stores, other, t.(pc := LookUp)))
  {
    SecondMoves(names, outcomes, stores, t.(pc := Idle), other, t.(pc := Check));
    SecondMoves(names, outcomes, stores, t.(pc := Check), other, t.(pc := Checked));
    SecondMoves(names, outcomes, stores, t.(pc := Checked), other, t.(pc := Enter));
    SecondMoves(names, outcomes, stores, t.(pc := Enter), other, t.(pc := LookUp));
  }

  lemma {:induction false} SecondWalks(names: map<string, File>, outcomes: Outcomes, stores: Stores, t: Thread,
                                       other: Thread)
    requires Ready(names, stores, t) && t.python.Attached? && other.python.Away? && other.pc.Walking?
    requires Reached(names, outcomes, Two(stores, other, t.(pc := LookUp)))
    ensures Reached(names, outcomes, Two(stores, other, t.(pc := Walking)))
  {
    SecondMoves(names, outcomes, stores, t.(pc := LookUp), other, t.(pc := Snapshot));
    SecondMoves(names, outcomes, stores, t.(pc := Snapshot), other, t.(pc := Snapshotting));
    SecondMoves(names, outcomes, stores, t.(pc := Snapshotting), other, t.(pc := Walking));
  }

  /** Two messages of registered files can be validated at once, one of them past its lookup in Python's time. */
  lemma {:induction false} ValidateTogether(names: map<string, File>, outcomes: Outcomes, stores: Stores, a: Thread,
                                            b: Thread)
    requires Valid(stores) && AllCoherent(names, stores.log) && Ready(names, stores, a) && Ready(names, stores, b)
    ensures Reached(names, outcomes,
                    Two(stores, a.(pc := Walking, python := Away), b.(pc := Walking, python := Attached)))
  {
    var a0, b0 := a.(python := Attached), b.(python := Attached);
    var start := Two(stores, a0.(pc := Idle), b.(pc := Idle, python := Away));
    assert Run(names, outcomes, [start]) && [start][|[start]| - 1] == start;
    FirstLooks(names, outcomes, stores, a0, b.(pc := Idle, python := Away));
    FirstWalks(names, outcomes, stores, a0, b.(pc := Idle, python := Away));
    var away := a.(pc := Walking, python := Away);
    FirstMoves(names, outcomes, stores, a0.(pc := Walking), b.(pc := Idle, python := Away), away);
    SecondMoves(names, outcomes, stores, b.(pc := Idle, python := Away), away, b0.(pc := Idle));
    SecondLooks(names, outcomes, stores, b0, away);
    SecondWalks(names, outcomes, stores, b0, away);
  }
}
