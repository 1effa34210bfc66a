/** Any number of server instances migrating one database at once, crashing anywhere. */
module MigrationRun {
  import opened Wrappers
  import opened Migration

  /** What an open transaction would commit. */
  datatype Tx = Tx(effects: seq<string>, records: seq<string>)

  /** Where an instance stands in Migrate; the number is the file it is at. */
  datatype Pc =
    | Start
    | Waiting // holds its lock connection, waits for the advisory lock
    | Locked // about to create the bookkeeping table
    | Check(k: nat)
    | Begin(k: nat)
    | Exec(k: nat)
    | Record(k: nat)
    | Commit(k: nat)
    | Unlocking(ok: bool)
    | Finished(ok: bool)
    | Crashed

  /** An instance ships the first `files` migrations and has a pool of `capacity` connections. */
  datatype Instance = Instance(files: nat, capacity: nat, pc: Pc, tx: Option<Tx>)

  datatype Cluster = Cluster(all: seq<string>, recorded: seq<string>, effects: seq<string>,
                             holder: Option<nat>, instances: seq<Instance>)

  datatype Step =
    | Advance(i: nat)
    | Fail(i: nat) // a statement reports an error
    | Crash(i: nat)
    | DropSession(i: nat) // the server ends the session that holds the lock

  /** Between acquiring the lock and releasing it. */
  predicate Inside(pc: Pc) {
    pc.Locked? || pc.Check? || pc.Begin? || pc.Exec? || pc.Record? || pc.Commit? || pc.Unlocking?
  }

  /** Another open transaction has inserted this version, so the insert waits for its outcome. */
  ghost predicate Claimed(c: Cluster, i: nat, name: string) {
    exists j | 0 <= j < |c.instances| ::
      j != i && c.instances[j].tx.Some? && name in c.instances[j].tx.value.records
  }

  /** Work needs a second connection while the first stays checked out for the lock. */
  ghost predicate CanAdvance(c: Cluster, i: nat)
    requires i < |c.instances|
  {
    var it := c.instances[i];
    match it.pc
    case Start => it.capacity >= 1
    case Waiting => c.holder == None
    case Locked => it.capacity >= 2
    case Check(k) => k == it.files || (k < |c.all| && it.capacity >= 2)
    case Begin(k) => it.capacity >= 2
    case Exec(k) => k < |c.all|
    case Record(k) => k < |c.all| && it.tx.Some? && !Claimed(c, i, c.all[k])
    case Commit(k) => it.tx.Some?
    case Unlocking(ok) => true
    case Finished(ok) => false
    case Crashed => false
  }

  function At(c: Cluster, i: nat, pc: Pc, tx: Option<Tx>): Cluster
    requires i < |c.instances|
  {
    c.(instances := c.instances[i := c.instances[i].(pc := pc, tx := tx)])
  }

  ghost function Moved(c: Cluster, i: nat): Cluster
    requires i < |c.instances| && CanAdvance(c, i)
  {
    var it := c.instances[i];
    match it.pc
    case Start => At(c, i, Waiting, None)
    case Waiting => At(c, i, Locked, None).(holder := Some(i))
    case Locked => At(c, i, Check(0), None)
    case Check(k) =>
      if k == it.files then At(c, i, Unlocking(true), None)
      else if c.all[k] in c.recorded then At(c, i, Check(k + 1), None)
      else At(c, i, Begin(k), None)
    case Begin(k) => At(c, i, Exec(k), Some(Tx([], [])))
    case Exec(k) => At(c, i, Pc.Record(k), Some(Tx([c.all[k]], [])))
    case Record(k) =>
      if c.all[k] in c.recorded then At(c, i, Unlocking(false), None) // primary-key violation
      else At(c, i, Commit(k), Some(it.tx.value.(records := [c.all[k]])))
    case Commit(k) =>
      At(c, i, Check(k + 1), None).(recorded := c.recorded + it.tx.value.records,
          effects := c.effects + it.tx.value.effects)
    case Unlocking(ok) => At(c, i, Finished(ok), None).(holder := if c.holder == Some(i) then None else c.holder)
  }

  /** A failed unlock is only logged: the instance returns what it would have, and its session, now back in the
      pool, goes on holding the lock. */
  function AfterFailure(pc: Pc): Pc {
    if pc.Unlocking? then Finished(pc.ok) else if Inside(pc) then Unlocking(false) else Finished(false)
  }

  ghost predicate Enabled(c: Cluster, st: Step) {
    match st
    case Advance(i) => i < |c.instances| && CanAdvance(c, i)
    case Fail(i) =>
      i < |c.instances| && (c.instances[i].pc in {Start, Waiting} || Inside(c.instances[i].pc))
    case Crash(i) => i < |c.instances| && !c.instances[i].pc.Finished?
    case DropSession(i) => c.holder == Some(i)
  }

  ghost function Next(c: Cluster, st: Step): Cluster
    requires Enabled(c, st)
  {
    match st
    case Advance(i) => Moved(c, i)
    case Fail(i) => At(c, i, AfterFailure(c.instances[i].pc), None)
    case Crash(i) => At(c, i, Crashed, None)
    case DropSession(i) => c.(holder := None)
  }

  ghost predicate Init(c: Cluster) {
    && Ordered(c.all) && c.recorded == [] && c.effects == [] && c.holder == None
    && forall i | 0 <= i < |c.instances| ::
         c.instances[i].pc == Start && c.instances[i].tx == None && c.instances[i].files <= |c.all|
  }

  ghost predicate Run(c: Cluster, sts: seq<Step>, c': Cluster)
    decreases |sts|
  {
    if sts == [] then c' == c
    else Enabled(c, sts[0]) && Run(Next(c, sts[0]), sts[1..], c')
  }

  // ---------- safety ----------

  /** The recorded versions are exactly the committed effects: the first so many files in lexical order. */
  ghost predicate PrefixRecorded(c: Cluster) {
    |c.recorded| <= |c.all| && c.recorded == c.all[..|c.recorded|] && c.effects == c.recorded
  }

  /** An instance at file `k` has seen all earlier files recorded, and its transaction holds just that file. */
  ghost predicate InstanceInv(c: Cluster, i: nat)
    requires i < |c.instances|
  {
    var it, r := c.instances[i], |c.recorded|;
    && it.files <= |c.all|
    && match it.pc
       case Check(k) => k <= it.files && k <= r && it.tx == None
       case Begin(k) => k < it.files && k <= r && it.tx == None
       case Exec(k) => k < it.files && k <= r && it.tx == Some(Tx([], []))
       case Record(k) => k < it.files && k <= r && it.tx == Some(Tx([c.all[k]], []))
       case Commit(k) => k < it.files && k == r && it.tx == Some(Tx([c.all[k]], [c.all[k]]))
       case _ => it.tx == None
  }

  /** The primary key lets at most one transaction at a time claim the next version. */
  ghost predicate OneCommitter(c: Cluster) {
    forall i, j | 0 <= i < |c.instances| && 0 <= j < |c.instances|
                  && c.instances[i].pc.Commit? && c.instances[j].pc.Commit? ::
      i == j
  }

  ghost predicate SafetyInv(c: Cluster) {
    && Ordered(c.all) && PrefixRecorded(c) && OneCommitter(c)
    && forall i | 0 <= i < |c.instances| :: InstanceInv(c, i)
  }

  lemma OthersUndisturbed(c: Cluster, c': Cluster, i: nat)
    requires SafetyInv(c) && i < |c.instances| == |c'.instances| && c'.all == c.all
    requires c'.recorded == c.recorded
    requires forall j | 0 <= j < |c.instances| && j != i :: c'.instances[j] == c.instances[j]
    requires InstanceInv(c', i)
    ensures forall j | 0 <= j < |c'.instances| :: InstanceInv(c', j)
  {
    forall j | 0 <= j < |c'.instances| ensures InstanceInv(c', j) {
      assert InstanceInv(c, j);
    }
  }

  lemma RecordIsSafe(c: Cluster, i: nat)
    requires SafetyInv(c) && i < |c.instances| && c.instances[i].pc.Record? && CanAdvance(c, i)
    ensures SafetyInv(Moved(c, i))
  {
    var c', k, r := Moved(c, i), c.instances[i].pc.k, |c.recorded|;
    assert InstanceInv(c, i);
    InPrefix(c.all, r, k);
    OthersUndisturbed(c, c', i);
    forall j | 0 <= j < |c.instances| && j != i && c.instances[j].pc.Commit? ensures c.all[k] in c.recorded {
      assert InstanceInv(c, j);
      assert c.all[c.instances[j].pc.k] in c.instances[j].tx.value.records;
    }
  }

  lemma CommitIsSafe(c: Cluster, i: nat)
    requires SafetyInv(c) && i < |c.instances| && c.instances[i].pc.Commit? && CanAdvance(c, i)
    ensures SafetyInv(Moved(c, i))
  {
    var c', k := Moved(c, i), c.instances[i].pc.k;
    assert InstanceInv(c, i);
    assert c'.recorded == c.all[..k + 1] && c'.effects == c.all[..k + 1];
    forall j | 0 <= j < |c'.instances| ensures InstanceInv(c', j) {
      assert InstanceInv(c, j);
    }
  }

  lemma AdvanceIsSafe(c: Cluster, i: nat)
    requires SafetyInv(c) && i < |c.instances| && CanAdvance(c, i)
    ensures SafetyInv(Moved(c, i))
  {
    assert InstanceInv(c, i);
    var pc := c.instances[i].pc;
    if pc.Record? {
      RecordIsSafe(c, i);
    } else if pc.Commit? {
      CommitIsSafe(c, i);
    } else {
      if pc.Check? && pc.k < c.instances[i].files {
        InPrefix(c.all, |c.recorded|, pc.k);
      }
      OthersUndisturbed(c, Moved(c, i), i);
    }
  }

  lemma StepIsSafe(c: Cluster, st: Step)
    requires SafetyInv(c) && Enabled(c, st)
    ensures SafetyInv(Next(c, st))
  {
    match st
    case Advance(i) => AdvanceIsSafe(c, i);
    case Fail(i) =>
      assert InstanceInv(c, i);
      OthersUndisturbed(c, Next(c, st), i);
    case Crash(i) =>
      assert InstanceInv(c, i);
      OthersUndisturbed(c, Next(c, st), i);
    case DropSession(i) =>
      forall j | 0 <= j < |c.instances| ensures InstanceInv(Next(c, st), j) {
        assert InstanceInv(c, j);
      }
  }

  lemma {:induction false} RunIsSafe(c: Cluster, sts: seq<Step>, c': Cluster)
    requires SafetyInv(c) && Run(c, sts, c')
    ensures SafetyInv(c')
    decreases |sts|
  {
    if sts != [] {
      StepIsSafe(c, sts[0]);
      RunIsSafe(Next(c, sts[0]), sts[1..], c');
    }
  }

  /** Migration safety. Whatever the number of instances, their errors and crashes, and even if lock sessions
      are lost while their instances go on working: what is recorded is what took effect, each migration once,
      always a prefix of the lexical order. */
  lemma MigrationSafety(c: Cluster, sts: seq<Step>, c': Cluster)
    requires Init(c) && Run(c, sts, c')
    ensures c'.effects == c'.recorded && |c'.recorded| <= |c'.all| && c'.recorded == c'.all[..|c'.recorded|]
    ensures forall i, j | 0 <= i < j < |c'.recorded| :: c'.recorded[i] != c'.recorded[j]
  {
    RunIsSafe(c, sts, c');
    forall i, j | 0 <= i < j < |c'.recorded| ensures c'.recorded[i] != c'.recorded[j] {
      if c'.recorded[i] == c'.recorded[j] {
        OrderedIsDistinct(c'.all, i, j);
      }
    }
  }

  /** No instance claims success before every file it ships is recorded. */
  ghost predicate HonestReturns(c: Cluster) {
    forall i | 0 <= i < |c.instances| && c.instances[i].pc in {Unlocking(true), Finished(true)} ::
      c.instances[i].files <= |c.recorded|
  }

  lemma StepKeepsReturnsHonest(c: Cluster, st: Step)
    requires SafetyInv(c) && HonestReturns(c) && Enabled(c, st)
    ensures HonestReturns(Next(c, st))
  {
    if st.Advance? {
      assert InstanceInv(c, st.i);
    }
  }

  lemma {:induction false} ReturnsStayHonest(c: Cluster, sts: seq<Step>, c': Cluster)
    requires SafetyInv(c) && HonestReturns(c) && Run(c, sts, c')
    ensures SafetyInv(c') && HonestReturns(c')
    decreases |sts|
  {
    if sts != [] {
      StepIsSafe(c, sts[0]);
      StepKeepsReturnsHonest(c, sts[0]);
      ReturnsStayHonest(Next(c, sts[0]), sts[1..], c');
    }
  }

  /** An instance that has returned without an error finds all its files applied, in every run, whatever failed,
      crashed or lost its session on the way. */
  lemma SuccessMeansApplied(c: Cluster, sts: seq<Step>, c': Cluster, i: nat)
    requires Init(c) && Run(c, sts, c') && i < |c'.instances| && c'.instances[i].pc == Finished(true)
    ensures c'.instances[i].files <= |c'.recorded| == |c'.effects| <= |c'.all|
    ensures forall k | 0 <= k < c'.instances[i].files :: c'.recorded[k] == c'.effects[k] == c'.all[k]
  {
    ReturnsStayHonest(c, sts, c');
  }

  // ---------- the advisory lock ----------

  /** The lock session of an instance ends only after the instance has crashed or returned. */
  ghost predicate SessionsLive(c: Cluster, st: Step) {
    st.DropSession? && st.i < |c.instances| ==> c.instances[st.i].pc.Crashed? || c.instances[st.i].pc.Finished?
  }

  ghost predicate LockedRun(c: Cluster, sts: seq<Step>, c': Cluster)
    decreases |sts|
  {
    if sts == [] then c' == c
    else Enabled(c, sts[0]) && SessionsLive(c, sts[0]) && LockedRun(Next(c, sts[0]), sts[1..], c')
  }

  /** Only the holder works, and what it is about to apply is not recorded. */
  ghost predicate LockInv(c: Cluster) {
    forall i | 0 <= i < |c.instances| ::
      && (Inside(c.instances[i].pc) ==> c.holder == Some(i))
      && match c.instances[i].pc
         case Begin(k) => k >= |c.recorded|
         case Exec(k) => k >= |c.recorded|
         case Record(k) => k >= |c.recorded|
         case _ => true
  }

  lemma StepKeepsLock(c: Cluster, st: Step)
    requires SafetyInv(c) && LockInv(c) && Enabled(c, st) && SessionsLive(c, st)
    ensures LockInv(Next(c, st))
  {
    if st.Advance? {
      var pc := c.instances[st.i].pc;
      assert InstanceInv(c, st.i);
      if pc.Check? && pc.k < c.instances[st.i].files {
        InPrefix(c.all, |c.recorded|, pc.k);
      }
    }
  }

  lemma {:induction false} LockedRunKeeps(c: Cluster, sts: seq<Step>, c': Cluster)
    requires SafetyInv(c) && LockInv(c) && LockedRun(c, sts, c')
    ensures SafetyInv(c') && LockInv(c')
    decreases |sts|
  {
    if sts != [] {
      StepIsSafe(c, sts[0]);
      StepKeepsLock(c, sts[0]);
      LockedRunKeeps(Next(c, sts[0]), sts[1..], c');
    }
  }

  /** While every lock session lives as long as its instance is at work, no instance ever runs into the primary key of
      schema_migrations, nor waits for another one's insert: whoever is about to record a version finds it
      neither recorded nor claimed. */
  lemma NoPrimaryKeyViolation(c: Cluster, sts: seq<Step>, c': Cluster, i: nat)
    requires Init(c) && LockedRun(c, sts, c') && i < |c'.instances| && c'.instances[i].pc.Record?
    ensures c'.instances[i].pc.k < |c'.all|
    ensures var name := c'.all[c'.instances[i].pc.k];
            name !in c'.recorded && !Claimed(c', i, name)
  {
    LockedRunKeeps(c, sts, c');
    assert InstanceInv(c', i);
    InPrefix(c'.all, |c'.recorded|, c'.instances[i].pc.k);
    forall j | 0 <= j < |c'.instances| && j != i ensures c'.instances[j].tx == None {
      assert InstanceInv(c', j);
    }
  }

  lemma {:induction false} Then(c: Cluster, sts: seq<Step>, m: Cluster, st: Step) returns (sts': seq<Step>, m': Cluster)
    requires Run(c, sts, m) && Enabled(m, st)
    ensures sts' == sts + [st] && m' == Next(m, st) && Run(c, sts', m')
    decreases |sts|
  {
    sts', m' := sts + [st], Next(m, st);
    if sts != [] {
      var rest, end := Then(Next(c, sts[0]), sts[1..], m, st);
      assert sts'[1..] == rest;
    } else {
      assert sts'[1..] == [];
    }
  }

  /** Two instances of one binary with one migration; the first is at the given position. */
  function Pair(name: string, pc0: Pc, tx0: Option<Tx>, pc1: Pc, tx1: Option<Tx>, holder: Option<nat>): Cluster {
    Cluster([name], [], [], holder, [Instance(1, 2, pc0, tx0), Instance(1, 2, pc1, tx1)])
  }

  /** Instance `i` alone goes from the start to the point where it is about to record its file. */
  lemma ReachesRecord(c: Cluster, sts: seq<Step>, m: Cluster, i: nat, name: string)
    returns (sts': seq<Step>, m': Cluster)
    requires Run(c, sts, m) && m.all == [name] && m.recorded == [] && m.holder == None && i < |m.instances|
    requires m.instances[i] == Instance(1, 2, Start, None)
    ensures Run(c, sts', m') && sts' == sts + seq(6, k => Advance(i))
    ensures m' == At(m, i, Pc.Record(0), Some(Tx([name], []))).(holder := Some(i))
  {
    sts', m' := Then(c, sts, m, Advance(i));
    sts', m' := Then(c, sts', m', Advance(i));
    sts', m' := Then(c, sts', m', Advance(i));
    sts', m' := Then(c, sts', m', Advance(i));
    sts', m' := Then(c, sts', m', Advance(i));
    sts', m' := Then(c, sts', m', Advance(i));
    assert m'.instances == m.instances[i := m'.instances[i]];
  }

  /** The lock is needed for that: if the first instance's lock session is dropped while it works, the second
      can be left about to record a version the first one has meanwhile recorded. */
  lemma LostSessionCollides(name: string) returns (sts: seq<Step>, c': Cluster)
    ensures var c := Pair(name, Start, None, Start, None, None);
            Init(c) && Run(c, sts, c')
    ensures |c'.instances| == 2 && c'.instances[1].pc == Pc.Record(0) && c'.all == [name] && name in c'.recorded
  {
    var c := Pair(name, Start, None, Start, None, None);
    sts, c' := ReachesRecord(c, [], c, 0, name);
    sts, c' := Then(c, sts, c', DropSession(0));
    sts, c' := ReachesRecord(c, sts, c', 1, name);
    assert !Claimed(c', 0, name);
    sts, c' := Then(c, sts, c', Advance(0));
    sts, c' := Then(c, sts, c', Advance(0));
  }

  /** After a failed unlock the pooled session keeps the lock: until it is dropped, whatever else happens,
      every instance that waits for the lock goes on waiting. */
  lemma {:induction false} FailedUnlockBlocks(c: Cluster, sts: seq<Step>, c': Cluster, i: nat)
    requires c.holder == Some(i) && i < |c.instances| && c.instances[i].pc.Finished?
    requires Run(c, sts, c') && DropSession(i) !in sts
    ensures c'.holder == Some(i)
    ensures forall j | 0 <= j < |c'.instances| && c'.instances[j].pc.Waiting? :: !CanAdvance(c', j)
    decreases |sts|
  {
    if sts != [] {
      assert sts[0] in sts;
      FailedUnlockBlocks(Next(c, sts[0]), sts[1..], c', i);
    }
  }

  /** Somewhere in the run the unlock of instance `i` fails. */
  ghost predicate UnlockFails(c: Cluster, sts: seq<Step>, i: nat)
    decreases |sts|
  {
    && sts != [] && Enabled(c, sts[0])
    && (|| (sts[0] == Fail(i) && i < |c.instances| && c.instances[i].pc.Unlocking?)
        || UnlockFails(Next(c, sts[0]), sts[1..], i))
  }

  /** What an instance that has not returned yet has to do with the lock. */
  ghost predicate LockOf(c: Cluster, i: nat) {
    && i < |c.instances|
    && (Inside(c.instances[i].pc) ==> c.holder == Some(i))
    && (c.instances[i].pc in {Start, Waiting} ==> c.holder != Some(i))
  }

  /** Over a run in which the session of an instance lives: it ends returned with the lock if it started so or
      if its unlock failed on the way. */
  lemma {:induction false} LockOverRun(c: Cluster, sts: seq<Step>, c': Cluster, i: nat)
    requires LockOf(c, i) && Run(c, sts, c') && DropSession(i) !in sts
    ensures i < |c'.instances|
    ensures c'.instances[i].pc.Finished? ==>
              (c'.holder == Some(i) <==>
                 (c.instances[i].pc.Finished? && c.holder == Some(i)) || UnlockFails(c, sts, i))
    decreases |sts|
  {
    if sts != [] {
      assert sts[0] in sts;
      LockStep(c, sts[0], i);
      LockOverRun(Next(c, sts[0]), sts[1..], c', i);
    }
  }

  lemma LockStep(c: Cluster, st: Step, i: nat)
    requires LockOf(c, i) && Enabled(c, st) && st != DropSession(i)
    ensures LockOf(Next(c, st), i)
    ensures var pc, c' := c.instances[i].pc, Next(c, st);
            && (pc.Finished? ==> c'.instances[i].pc.Finished? && (c'.holder == Some(i) <==> c.holder == Some(i)))
            && (!pc.Finished? && c'.instances[i].pc.Finished? ==>
                  (c'.holder == Some(i) <==> st == Fail(i) && pc.Unlocking?))
            && (st == Fail(i) && pc.Unlocking? ==> c'.instances[i].pc.Finished?)
  {
  }

  /** When the lock comes back: an instance that has returned, with or without an error and whatever the others
      did, still holds the lock if and only if its unlock statement failed. */
  lemma HoldsAfterReturnIff(c: Cluster, sts: seq<Step>, c': Cluster, i: nat)
    requires Init(c) && Run(c, sts, c') && i < |c.instances| && DropSession(i) !in sts
    requires i < |c'.instances| && c'.instances[i].pc.Finished?
    ensures c'.holder == Some(i) <==> UnlockFails(c, sts, i)
  {
    LockOverRun(c, sts, c', i);
  }

  /** It does happen, and then the next instance waits although the first one has returned without an error. */
  lemma FailedUnlockIsReached(name: string) returns (sts: seq<Step>, c': Cluster)
    ensures var c := Pair(name, Start, None, Start, None, None);
            Init(c) && Run(c, sts, c') && DropSession(0) !in sts
    ensures c'.holder == Some(0) && |c'.instances| == 2
    ensures c'.instances[0].pc == Finished(true) && c'.instances[1].pc == Waiting && !CanAdvance(c', 1)
  {
    var c := Pair(name, Start, None, Start, None, None);
    sts, c' := ReachesRecord(c, [], c, 0, name);
    assert !Claimed(c', 0, name);
    sts, c' := Then(c, sts, c', Advance(0));
    sts, c' := Then(c, sts, c', Advance(0));
    sts, c' := Then(c, sts, c', Advance(0));
    sts, c' := Then(c, sts, c', Fail(0));
    sts, c' := Then(c, sts, c', Advance(1));
  }

  // ---------- progress ----------

  /** A crash-free, error-free run in which no session is lost. */
  ghost predicate SmoothRun(c: Cluster, who: seq<nat>, c': Cluster)
    decreases |who|
  {
    if who == [] then c' == c
    else who[0] < |c.instances| && CanAdvance(c, who[0]) && SmoothRun(Moved(c, who[0]), who[1..], c')
  }

  /** Steps an instance still has to take, at most. */
  function Rank(it: Instance): nat {
    var n := it.files;
    match it.pc
    case Start => 5 * n + 6
    case Waiting => 5 * n + 5
    case Locked => 5 * n + 4
    case Check(k) => if k <= n then 5 * (n - k) + 3 else 0
    case Begin(k) => if k < n then 5 * (n - k) + 2 else 0
    case Exec(k) => if k < n then 5 * (n - k) + 1 else 0
    case Record(k) => if k < n then 5 * (n - k) else 0
    case Commit(k) => if k < n then 5 * (n - k) - 1 else 0
    case Unlocking(ok) => 1
    case Finished(ok) => 0
    case Crashed => 0
  }

  function TotalRank(its: seq<Instance>): nat {
    if its == [] then 0 else TotalRank(its[..|its| - 1]) + Rank(its[|its| - 1])
  }

  lemma {:induction false} RankUpdate(its: seq<Instance>, i: nat, it: Instance)
    requires i < |its|
    ensures TotalRank(its[i := it]) + Rank(its[i]) == TotalRank(its) + Rank(it)
  {
    var init := its[..|its| - 1];
    if i < |init| {
      assert its[i := it][..|its| - 1] == init[i := it];
      RankUpdate(init, i, it);
    } else {
      assert its[i := it][..|its| - 1] == init;
    }
  }

  lemma RankFalls(c: Cluster, i: nat)
    requires SafetyInv(c) && i < |c.instances| && CanAdvance(c, i)
    ensures i < |Moved(c, i).instances| && Rank(Moved(c, i).instances[i]) < Rank(c.instances[i])
  {
    assert InstanceInv(c, i);
  }

  lemma AdvanceLowersRank(c: Cluster, i: nat)
    requires SafetyInv(c) && i < |c.instances| && CanAdvance(c, i)
    ensures TotalRank(Moved(c, i).instances) < TotalRank(c.instances)
  {
    RankFalls(c, i);
    OnlyOneMoves(c, i);
    RankUpdate(c.instances, i, Moved(c, i).instances[i]);
  }

  lemma OnlyOneMoves(c: Cluster, i: nat)
    requires i < |c.instances| && CanAdvance(c, i)
    ensures i < |Moved(c, i).instances| && Moved(c, i).instances == c.instances[i := Moved(c, i).instances[i]]
  {
  }

  /** Every smooth run is finite: it takes at most as many steps as the starting instances rank. */
  lemma {:induction false} SmoothRunsAreBounded(c: Cluster, who: seq<nat>, c': Cluster)
    requires SafetyInv(c) && SmoothRun(c, who, c')
    ensures |who| + TotalRank(c'.instances) <= TotalRank(c.instances)
    decreases |who|
  {
    if who != [] {
      StepIsSafe(c, Advance(who[0]));
      AdvanceLowersRank(c, who[0]);
      SmoothRunsAreBounded(Moved(c, who[0]), who[1..], c');
    }
  }

  ghost predicate Stuck(c: Cluster) {
    forall i | 0 <= i < |c.instances| :: !CanAdvance(c, i)
  }

  ghost predicate NoFailures(c: Cluster) {
    && (forall i | 0 <= i < |c.instances| ::
          c.instances[i].pc != Crashed && c.instances[i].pc != Unlocking(false) && c.instances[i].pc != Finished(false)
          && (c.instances[i].pc in {Unlocking(true), Finished(true)} ==> c.instances[i].files <= |c.recorded|))
    && (c.holder.Some? ==> c.holder.value < |c.instances| && Inside(c.instances[c.holder.value].pc))
  }

  /** Everybody returned without an error, the lock is free, and every file anybody ships is applied. */
  ghost predicate AllDone(c: Cluster) {
    && c.holder == None
    && forall i | 0 <= i < |c.instances| :: c.instances[i].pc == Finished(true) && c.instances[i].files <= |c.recorded|
  }

  lemma AdvanceStaysSmooth(c: Cluster, i: nat)
    requires SafetyInv(c) && LockInv(c) && NoFailures(c) && i < |c.instances| && CanAdvance(c, i)
    ensures SafetyInv(Moved(c, i)) && LockInv(Moved(c, i)) && NoFailures(Moved(c, i))
  {
    StepIsSafe(c, Advance(i));
    StepKeepsLock(c, Advance(i));
    assert InstanceInv(c, i);
    var pc := c.instances[i].pc;
    if pc.Record? {
      InPrefix(c.all, |c.recorded|, pc.k);
    }
  }

  /** With two connections each, instances never block one another for good. */
  lemma NoDeadlock(c: Cluster)
    requires SafetyInv(c) && LockInv(c) && NoFailures(c) && Stuck(c)
    requires forall i | 0 <= i < |c.instances| :: c.instances[i].capacity >= 2
    ensures AllDone(c)
  {
    if c.holder.Some? {
      var h := c.holder.value;
      var it := c.instances[h];
      assert InstanceInv(c, h) && !CanAdvance(c, h);
      assert it.pc.Record?;
      forall j | 0 <= j < |c.instances| && j != h ensures c.instances[j].tx == None {
        assert InstanceInv(c, j);
      }
      assert false;
    }
    forall i | 0 <= i < |c.instances| ensures c.instances[i].pc == Finished(true) {
      assert !CanAdvance(c, i);
    }
  }

  lemma {:induction false} SmoothRunKeeps(c: Cluster, who: seq<nat>, c': Cluster)
    requires SafetyInv(c) && LockInv(c) && NoFailures(c) && SmoothRun(c, who, c')
    ensures SafetyInv(c') && LockInv(c') && NoFailures(c')
    ensures |c'.instances| == |c.instances|
    ensures forall i | 0 <= i < |c.instances| ::
              c'.instances[i].capacity == c.instances[i].capacity && c'.instances[i].files == c.instances[i].files
    decreases |who|
  {
    if who != [] {
      AdvanceStaysSmooth(c, who[0]);
      SmoothRunKeeps(Moved(c, who[0]), who[1..], c');
    }
  }

  lemma InitInv(c: Cluster)
    requires Init(c)
    ensures SafetyInv(c) && LockInv(c) && NoFailures(c)
  {
  }

  /** A smooth run can always be carried on until nobody can move. */
  lemma {:induction false} CarryOn(c: Cluster) returns (who: seq<nat>, c': Cluster)
    requires SafetyInv(c)
    ensures SmoothRun(c, who, c') && Stuck(c')
    decreases TotalRank(c.instances)
  {
    if Stuck(c) {
      return [], c;
    }
    var i :| 0 <= i < |c.instances| && CanAdvance(c, i);
    StepIsSafe(c, Advance(i));
    AdvanceLowersRank(c, i);
    var rest, end := CarryOn(Moved(c, i));
    who, c' := [i] + rest, end;
    assert who[1..] == rest;
  }

  /** An instance whose pool has one connection keeps the lock and never gets any further. */
  ghost predicate Wedged(c: Cluster, i: nat) {
    && i < |c.instances| && c.instances[i].capacity < 2
    && (|| (c.instances[i].pc == Start && c.instances[i].capacity < 1)
        || (c.instances[i].pc == Locked && c.holder == Some(i)))
  }

  lemma {:induction false} WedgedForGood(c: Cluster, who: seq<nat>, c': Cluster, i: nat)
    requires SafetyInv(c) && LockInv(c) && Wedged(c, i) && SmoothRun(c, who, c')
    ensures Wedged(c', i)
    decreases |who|
  {
    if who != [] {
      StepIsSafe(c, Advance(who[0]));
      StepKeepsLock(c, Advance(who[0]));
      assert Wedged(Moved(c, who[0]), i);
      WedgedForGood(Moved(c, who[0]), who[1..], c', i);
    }
  }

  /** Every smooth run that can go no further has everything applied and the lock free. */
  ghost predicate AlwaysCompletes(c: Cluster) {
    forall who: seq<nat>, c': Cluster | SmoothRun(c, who, c') && Stuck(c') :: AllDone(c')
  }

  /** Migration progress: every crash-free, error-free run, which SmoothRunsAreBounded shows to be finite,
      completes if and only if every instance has at least two connections. */
  lemma CompletesIffTwoConnections(c: Cluster)
    requires Init(c)
    ensures AlwaysCompletes(c) <==> forall i | 0 <= i < |c.instances| :: c.instances[i].capacity >= 2
  {
    InitInv(c);
    if forall i | 0 <= i < |c.instances| :: c.instances[i].capacity >= 2 {
      forall who: seq<nat>, c': Cluster | SmoothRun(c, who, c') && Stuck(c') ensures AllDone(c') {
        SmoothRunKeeps(c, who, c');
        NoDeadlock(c');
      }
    } else {
      var i :| 0 <= i < |c.instances| && c.instances[i].capacity < 2;
      NeverCompletes(c, i);
    }
  }

  lemma NeverCompletes(c: Cluster, i: nat)
    requires Init(c) && i < |c.instances| && c.instances[i].capacity < 2
    ensures !AlwaysCompletes(c)
  {
    InitInv(c);
    var first: seq<nat> := [];
    var c1 := c;
    if c.instances[i].capacity == 1 {
      var c0 := Moved(c, i);
      AdvanceStaysSmooth(c, i);
      c1 := Moved(c0, i);
      AdvanceStaysSmooth(c0, i);
      first := [i, i];
      assert first[1..] == [i] && first[1..][1..] == [];
      assert SmoothRun(c0, [i], c1);
    }
    assert SmoothRun(c, first, c1) && Wedged(c1, i);
    var rest, c' := CarryOn(c1);
    WedgedForGood(c1, rest, c', i);
    SmoothConcat(c, first, c1, rest, c');
    assert SmoothRun(c, first + rest, c') && Stuck(c') && !AllDone(c');
  }

  lemma {:induction false} SmoothConcat(c: Cluster, a: seq<nat>, m: Cluster, b: seq<nat>, c': Cluster)
    requires SmoothRun(c, a, m) && SmoothRun(m, b, c')
    ensures SmoothRun(c, a + b, c')
    decreases |a|
  {
    if a == [] {
      assert a + b == b;
    } else {
      assert (a + b)[1..] == a[1..] + b;
      SmoothConcat(Moved(c, a[0]), a[1..], m, b, c');
    }
  }
}
