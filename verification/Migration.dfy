/** Schema migrations (db/db.go): what one instance does, and any number of instances starting together. */
module Migration {
  import opened Wrappers

  // ---------- names ----------

  /** Strict lexical order of file names. */
  predicate Before(a: string, b: string) {
    if b == [] then false
    else if a == [] then true
    else a[0] < b[0] || (a[0] == b[0] && Before(a[1..], b[1..]))
  }

  /** The order is the lexical one: the names agree up to a point, where the first ends or has the smaller
      character. */
  ghost predicate DifferAt(a: string, b: string, i: nat) {
    && i <= |a| && i < |b| && a[..i] == b[..i]
    && (i == |a| || (i < |a| && a[i] < b[i]))
  }

  lemma {:induction false} BeforeIsLexical(a: string, b: string)
    ensures Before(a, b) <==> exists i: nat :: DifferAt(a, b, i)
  {
    if b == [] || a == [] {
      if b != [] {
        assert DifferAt(a, b, 0);
      }
    } else {
      BeforeIsLexical(a[1..], b[1..]);
      if a[0] < b[0] {
        assert DifferAt(a, b, 0);
      }
      if a[0] == b[0] && Before(a[1..], b[1..]) {
        var i: nat :| DifferAt(a[1..], b[1..], i);
        assert a[..i + 1] == [a[0]] + a[1..][..i] && b[..i + 1] == [b[0]] + b[1..][..i];
        assert DifferAt(a, b, i + 1);
      }
      if i: nat :| DifferAt(a, b, i) && i > 0 {
        assert a[..i][0] == b[..i][0];
        assert a[1..][..i - 1] == a[..i][1..] && b[1..][..i - 1] == b[..i][1..];
        assert DifferAt(a[1..], b[1..], i - 1);
      }
    }
  }

  lemma {:induction false} BeforeIsStrict(a: string)
    ensures !Before(a, a)
  {
    if a != [] {
      BeforeIsStrict(a[1..]);
    }
  }

  ghost predicate Ordered(names: seq<string>) {
    forall i, j | 0 <= i < j < |names| :: Before(names[i], names[j])
  }

  lemma OrderedIsDistinct(names: seq<string>, i: nat, j: nat)
    requires Ordered(names) && i < |names| && j < |names| && names[i] == names[j]
    ensures i == j
  {
    BeforeIsStrict(names[i]);
  }

  /** In a prefix of an ordered list exactly the positions before its end occur. */
  lemma InPrefix(names: seq<string>, r: nat, k: nat)
    requires Ordered(names) && r <= |names| && k < |names|
    ensures names[k] in names[..r] <==> k < r
  {
    if names[k] in names[..r] {
      var i :| 0 <= i < r && names[..r][i] == names[k];
      OrderedIsDistinct(names, i, k);
    }
  }

  predicate HasSuffix(s: string, suffix: string) {
    |suffix| <= |s| && s[|s| - |suffix|..] == suffix
  }

  datatype Entry = Entry(name: string, isDir: bool)

  /** The entries that are applied: up-migrations, not directories and not the .down files. */
  predicate IsMigration(e: Entry) {
    !e.isDir && HasSuffix(e.name, ".sql") && !HasSuffix(e.name, ".down.sql")
  }

  function Files(entries: seq<Entry>): seq<string> {
    if entries == [] then []
    else
      var e := entries[|entries| - 1];
      Files(entries[..|entries| - 1]) + if IsMigration(e) then [e.name] else []
  }

  /** The last characters of the name, letter by letter: .sql, but not .down.sql. */
  ghost predicate NamesUpMigration(n: string) {
    && |n| >= 4 && n[|n| - 4] == '.' && n[|n| - 3] == 's' && n[|n| - 2] == 'q' && n[|n| - 1] == 'l'
    && !(|n| >= 9 && n[|n| - 9] == '.' && n[|n| - 8] == 'd' && n[|n| - 7] == 'o' && n[|n| - 6] == 'w'
         && n[|n| - 5] == 'n')
  }

  lemma EndsInSql(n: string)
    ensures HasSuffix(n, ".sql") <==>
              |n| >= 4 && n[|n| - 4] == '.' && n[|n| - 3] == 's' && n[|n| - 2] == 'q' && n[|n| - 1] == 'l'
  {
    if |n| >= 4 {
      assert n[|n| - 4..] == [n[|n| - 4], n[|n| - 3], n[|n| - 2], n[|n| - 1]];
    }
  }

  lemma EndsInDownSql(n: string)
    requires HasSuffix(n, ".sql")
    ensures HasSuffix(n, ".down.sql") <==>
              |n| >= 9 && n[|n| - 9] == '.' && n[|n| - 8] == 'd' && n[|n| - 7] == 'o' && n[|n| - 6] == 'w'
              && n[|n| - 5] == 'n'
  {
    if |n| >= 9 {
      assert n[|n| - 9..] == [n[|n| - 9], n[|n| - 8], n[|n| - 7], n[|n| - 6], n[|n| - 5]] + n[|n| - 4..];
      assert ".down.sql" == ['.', 'd', 'o', 'w', 'n'] + ".sql";
    }
  }

  lemma IsMigrationMeaning(e: Entry)
    ensures IsMigration(e) <==> !e.isDir && NamesUpMigration(e.name)
  {
    EndsInSql(e.name);
    if HasSuffix(e.name, ".sql") {
      EndsInDownSql(e.name);
    }
  }

  /** A name is applied if and only if the directory has a file of that name and it ends in .sql, not in
      .down.sql. */
  lemma AppliedNames(entries: seq<Entry>, n: string)
    ensures n in Files(entries) <==> NamesUpMigration(n) && exists e | e in entries :: !e.isDir && e.name == n
  {
    FilesAreListed(entries);
    forall e: Entry {
      IsMigrationMeaning(e);
    }
  }

  lemma {:induction false} FilesAreListed(entries: seq<Entry>)
    ensures forall n :: n in Files(entries) <==> exists e | e in entries :: IsMigration(e) && e.name == n
  {
    if entries != [] {
      var init, e := entries[..|entries| - 1], entries[|entries| - 1];
      assert entries == init + [e];
      FilesAreListed(init);
    }
  }

  /** Skipping entries of a sorted directory leaves a sorted list. */
  lemma {:induction false} FilesOrdered(entries: seq<Entry>)
    requires forall i, j | 0 <= i < j < |entries| :: Before(entries[i].name, entries[j].name)
    ensures Ordered(Files(entries))
  {
    if entries != [] {
      var init, e := entries[..|entries| - 1], entries[|entries| - 1];
      FilesOrdered(init);
      FilesAreListed(init);
      var before := Files(init);
      forall i | 0 <= i < |before| ensures Before(before[i], e.name) {
        assert before[i] in before;
        var x :| x in init && x.name == before[i];
        var n :| 0 <= n < |init| && init[n] == x;
        assert entries[n] == x;
      }
    }
  }

  // ---------- one instance ----------

  datatype Failure = AtCheck | AtRead | AtBegin | AtApply | AtRecord | AtCommit

  /** What a crash-free pass over `names` records on top of `done`. */
  function Applied(done: seq<string>, names: seq<string>): seq<string> {
    if names == [] then done
    else
      var before := Applied(done, names[..|names| - 1]);
      var n := names[|names| - 1];
      if n in before then before else before + [n]
  }

  /** A pass adds exactly the names it goes through. */
  lemma {:induction false} AppliedHas(done: seq<string>, names: seq<string>, n: string)
    ensures n in Applied(done, names) <==> n in done || n in names
  {
    if names != [] {
      var init, last := names[..|names| - 1], names[|names| - 1];
      assert names == init + [last];
      AppliedHas(done, init, n);
    }
  }

  lemma MigratedNames(done: seq<string>, entries: seq<Entry>, j: nat)
    requires j <= |Files(entries)|
    ensures j == |Files(entries)| ==>
              forall e | e in entries && !e.isDir && NamesUpMigration(e.name) ::
                e.name in Applied(done, Files(entries)[..j])
    ensures forall n | n in Applied(done, Files(entries)[..j]) ::
              n in done || (NamesUpMigration(n) && exists e | e in entries :: !e.isDir && e.name == n)
  {
    forall n: string
      ensures n in Applied(done, Files(entries)[..j]) <==> n in done || n in Files(entries)[..j]
      ensures n in Files(entries) <==> NamesUpMigration(n) && exists e | e in entries :: !e.isDir && e.name == n
    {
      AppliedHas(done, Files(entries)[..j], n);
      AppliedNames(entries, n);
    }
    if j == |Files(entries)| {
      assert Files(entries)[..j] == Files(entries);
    }
  }

  class Database {
    var recorded: seq<string> // schema_migrations, in commit order
    var effects: seq<string> // the migrations whose statements are committed

    constructor ()
      ensures recorded == [] && effects == []
    {
      recorded, effects := [], [];
    }

    /** One file in one transaction with its bookkeeping row. */
    method ApplyOne(name: string, failure: Option<Failure>) returns (ok: bool)
      requires recorded == effects
      modifies this
      ensures recorded == effects
      ensures recorded == if ok then Applied(old(recorded), [name]) else old(recorded)
      ensures failure.None? ==> ok
    {
      assert [name][..0] == [];
      if failure == Some(AtCheck) {
        return false;
      }
      if name in recorded {
        return true;
      }
      if failure in {Some(AtRead), Some(AtBegin)} {
        return false;
      }
      var txEffects, txRecorded := effects, recorded;
      if failure == Some(AtApply) {
        return false; // the deferred rollback discards the transaction
      }
      txEffects := txEffects + [name];
      if failure == Some(AtRecord) {
        return false;
      }
      txRecorded := txRecorded + [name];
      if failure == Some(AtCommit) {
        return false;
      }
      effects, recorded := txEffects, txRecorded;
      ok := true;
    }

    /** Applies what is missing in order and stops at the first failure: what is recorded always matches what
        took effect, and is what a pass over the first `j` files would have left, all of them if ok. */
    method Migrate(entries: seq<Entry>, failures: seq<Option<Failure>>) returns (ok: bool, ghost j: nat)
      requires recorded == effects && |failures| == |entries|
      modifies this
      ensures recorded == effects
      ensures j <= |Files(entries)| && recorded == Applied(old(recorded), Files(entries)[..j])
      ensures ok ==> j == |Files(entries)|
      ensures ok ==> forall e | e in entries && !e.isDir && NamesUpMigration(e.name) :: e.name in recorded
      ensures forall n | n in recorded ::
                n in old(recorded)
                || (NamesUpMigration(n) && exists e | e in entries :: !e.isDir && e.name == n)
      ensures (forall f | f in failures :: f.None?) ==> ok
    {
      j := 0;
      assert Files(entries)[..0] == [];
      for i := 0 to |entries|
        invariant recorded == effects && j == |Files(entries[..i])| <= |Files(entries)|
        invariant Files(entries)[..j] == Files(entries[..i])
        invariant recorded == Applied(old(recorded), Files(entries[..i]))
      {
        FilesPrefix(entries, i + 1);
        assert entries[..i + 1][..i] == entries[..i];
        if !IsMigration(entries[i]) {
          continue;
        }
        ghost var names := Files(entries[..i + 1]);
        assert names[..|names| - 1] == Files(entries[..i]) && names[|names| - 1] == entries[i].name;
        ghost var before := recorded;
        var done := ApplyOne(entries[i].name, failures[i]);
        assert [entries[i].name][..0] == [];
        if !done {
          MigratedNames(old(recorded), entries, j);
          return false, j;
        }
        j := j + 1;
      }
      assert entries[..|entries|] == entries;
      MigratedNames(old(recorded), entries, j);
      ok := true;
    }
  }

  lemma {:induction false} FilesPrefix(entries: seq<Entry>, i: nat)
    requires i <= |entries|
    ensures |Files(entries[..i])| <= |Files(entries)| && Files(entries)[..|Files(entries[..i])|] == Files(entries[..i])
    decreases |entries| - i
  {
    if i < |entries| {
      FilesPrefix(entries, i + 1);
      assert entries[..i + 1][..i] == entries[..i];
    } else {
      assert entries[..i] == entries;
    }
  }

  /** Applied to a database that is a prefix of one ordered list, a pass over another prefix leaves the longer
      of the two: migrations of a newer binary are never undone, those of an older one are never repeated. */
  lemma {:induction false} AppliedIsTheLongerPrefix(all: seq<string>, r: nat, n: nat)
    requires Ordered(all) && r <= |all| && n <= |all|
    ensures Applied(all[..r], all[..n]) == all[..if r < n then n else r]
  {
    if n > 0 {
      AppliedIsTheLongerPrefix(all, r, n - 1);
      assert all[..n][..n - 1] == all[..n - 1];
      InPrefix(all, if r < n - 1 then n - 1 else r, n - 1);
    }
  }
}
