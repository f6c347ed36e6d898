/**
 run_migrations: one transaction for the base schema, one per pending file, and what is left when
 the process dies anywhere between or inside them and is started again.

 A file is its version number, in the order `sorted` puts the file names.
*/
module Migrations {
  import opened Prelude

  type Version = int

  /** SELECT MAX(version), over a non-empty schema_version table. */
  function MaxOf(versions: seq<Version>): (max: Version)
    requires versions != []
    ensures max in versions && forall i :: 0 <= i < |versions| ==> versions[i] <= max
  {
    var n := |versions| - 1;
    if n == 0 then versions[0]
    else
      var before := MaxOf(versions[..n]);
      assert before in versions;
      assert forall i :: 0 <= i < n ==> versions[i] == versions[..n][i];
      if versions[n] > before then versions[n] else before
  }

  /** The versions the loop would apply from `current` on: each one above all it has passed. */
  function Pending(current: Version, files: seq<Version>): seq<Version>
    decreases |files|
  {
    if files == [] then []
    else if files[0] <= current then Pending(current, files[1..])
    else [files[0]] + Pending(files[0], files[1..])
  }

  predicate StrictlyIncreasing(versions: seq<Version>) {
    forall i, j :: 0 <= i < j < |versions| ==> versions[i] < versions[j]
  }

  predicate AllAbove(current: Version, versions: seq<Version>) {
    forall i :: 0 <= i < |versions| ==> versions[i] > current
  }

  /** Every transaction an uninterrupted run would commit; a fresh database starts with version 0. */
  function Todo(applied: seq<Version>, files: seq<Version>): seq<Version> {
    if applied == [] then [0] + Pending(0, files) else Pending(MaxOf(applied), files)
  }

  class SchemaDatabase {
    /** The committed transactions in order; schema_version holds the same versions. */
    var applied: seq<Version>

    constructor ()
      ensures applied == []
    {
      applied := [];
    }

    /** One migration transaction: the INSERT fails on the PRIMARY KEY if the version is there. */
    method CommitMigration(version: Version) returns (ok: bool)
      modifies this
      ensures ok <==> version !in old(applied)
      ensures applied == if ok then old(applied) + [version] else old(applied)
    {
      ok := version !in applied;
      if ok {
        applied := applied + [version];
      }
    }

    /** The loop over the files; false when it dies before committing transaction number `budget`. */
    method ApplyPending(files: seq<Version>, budget: nat) returns (finished: bool)
      requires applied != []
      modifies this
      ensures var pending := Pending(MaxOf(old(applied)), files);
              && applied == old(applied) + pending[..Min(budget, |pending|)]
              && (finished <==> budget >= |pending|)
    {
      var current := MaxOf(applied);
      var left := budget;
      ghost var pending := Pending(current, files);
      ghost var done: nat := 0;
      for i := 0 to |files|
        invariant done <= |pending| && done + left == budget
        invariant applied == old(applied) + pending[..done]
        invariant current == MaxOf(applied)
        invariant Pending(current, files[i..]) == pending[done..]
      {
        var version := files[i];
        assert files[i..][1..] == files[i + 1..];
        if version <= current {
          continue;
        }
        NextPending(pending, done, version, Pending(version, files[i + 1..]));
        if left == 0 {
          return false;
        }
        MaxOfAppend(applied, version);
        var ok := CommitMigration(version);
        current := version;
        left, done := left - 1, done + 1;
      }
      assert pending[done..] == [];
      finished := true;
    }

    /**
     One start of the process, which dies before committing transaction number `budget`; a crash
     inside a transaction rolls it back and so is the same.
    */
    method RunMigrations(files: seq<Version>, budget: nat) returns (finished: bool)
      modifies this
      ensures var todo := Todo(old(applied), files);
              && applied == old(applied) + todo[..Min(budget, |todo|)]
              && (finished <==> budget >= |todo|)
    {
      if applied != [] {
        finished := ApplyPending(files, budget);
        return;
      }
      if budget == 0 {
        return false;
      }
      var ok := CommitMigration(0);
      finished := ApplyPending(files, budget - 1);
    }
  }

  lemma NextPending(pending: seq<Version>, done: nat, version: Version, rest: seq<Version>)
    requires done <= |pending| && pending[done..] == [version] + rest
    ensures done < |pending| && pending[done] == version && pending[done + 1..] == rest
  {
    assert pending[done..][1..] == rest;
  }

  lemma MaxOfAppend(versions: seq<Version>, v: Version)
    requires versions != [] && v > MaxOf(versions)
    ensures v !in versions && MaxOf(versions + [v]) == v
  {
    assert (versions + [v])[..|versions|] == versions;
  }

  // ---------------------------------------------------------------------------- resuming

  lemma {:induction false} PendingIncreases(current: Version, files: seq<Version>)
    ensures AllAbove(current, Pending(current, files)) && StrictlyIncreasing(Pending(current, files))
    decreases |files|
  {
    if files != [] {
      var p := Pending(current, files);
      if files[0] <= current {
        PendingIncreases(current, files[1..]);
      } else {
        var rest := Pending(files[0], files[1..]);
        PendingIncreases(files[0], files[1..]);
        assert p == [files[0]] + rest;
      }
    }
  }

  /** Starting again from a version already passed skips everything up to it. */
  lemma {:induction false} PendingResumes(current: Version, files: seq<Version>, k: nat)
    requires k < |Pending(current, files)|
    ensures Pending(Pending(current, files)[k], files) == Pending(current, files)[k + 1..]
    decreases |files|
  {
    var p := Pending(current, files);
    PendingIncreases(current, files);
    assert p[k] > current;
    if files[0] <= current {
      assert Pending(p[k], files) == Pending(p[k], files[1..]);
      PendingResumes(current, files[1..], k);
    } else {
      var rest := Pending(files[0], files[1..]);
      assert p == [files[0]] + rest && p[k + 1..] == rest[k..];
      PendingIncreases(files[0], files[1..]);
      assert p[k] >= files[0];
      assert Pending(p[k], files) == Pending(p[k], files[1..]);
      if k > 0 {
        PendingResumes(files[0], files[1..], k - 1);
      }
    }
  }

  lemma {:induction false} MaxOfIncreasing(versions: seq<Version>, more: seq<Version>)
    requires versions != [] && more != []
    requires AllAbove(MaxOf(versions), more) && StrictlyIncreasing(more)
    ensures MaxOf(versions + more) == more[|more| - 1]
  {
    var all := versions + more;
    var last := more[|more| - 1];
    forall i | 0 <= i < |all|
      ensures all[i] <= last
    {
      if i < |versions| {
        assert all[i] == versions[i] <= MaxOf(versions);
      } else {
        assert all[i] == more[i - |versions|];
      }
    }
    assert all[|all| - 1] == last;
  }

  /** After the first `k` transactions of a run, what is left to do is the rest of them. */
  lemma TodoResumes(applied: seq<Version>, files: seq<Version>, k: nat)
    requires k <= |Todo(applied, files)|
    ensures Todo(applied + Todo(applied, files)[..k], files) == Todo(applied, files)[k..]
  {
    var todo := Todo(applied, files);
    if k == 0 {
      assert applied + todo[..0] == applied;
    } else if applied == [] {
      var pending := Pending(0, files);
      assert applied + todo[..k] == [0] + pending[..k - 1];
      assert todo[k..] == pending[k - 1..];
      ResumeAfter([0], files, k - 1);
    } else {
      ResumeAfter(applied, files, k);
    }
  }

  lemma ResumeAfter(applied: seq<Version>, files: seq<Version>, k: nat)
    requires applied != [] && k <= |Pending(MaxOf(applied), files)|
    ensures Pending(MaxOf(applied + Pending(MaxOf(applied), files)[..k]), files) == Pending(MaxOf(applied), files)[k..]
  {
    var p := Pending(MaxOf(applied), files);
    if k == 0 {
      assert applied + p[..0] == applied;
    } else {
      PendingIncreases(MaxOf(applied), files);
      MaxOfIncreasing(applied, p[..k]);
      PendingResumes(MaxOf(applied), files, k - 1);
    }
  }

  /** The committed transactions after a sequence of starts, each cut off by its own budget. */
  function AfterStarts(applied: seq<Version>, files: seq<Version>, budgets: seq<nat>): seq<Version>
    decreases |budgets|
  {
    if budgets == [] then applied
    else
      var todo := Todo(applied, files);
      AfterStarts(applied + todo[..Min(budgets[0], |todo|)], files, budgets[1..])
  }

  function Sum(budgets: seq<nat>): nat {
    if budgets == [] then 0 else budgets[0] + Sum(budgets[1..])
  }

  lemma TakeTwice(applied: seq<Version>, todo: seq<Version>, k: nat, m: nat)
    requires k + m <= |todo|
    ensures applied + todo[..k] + todo[k..][..m] == applied + todo[..k + m]
  {
  }

  /**
   Crash-resume: however the starts are cut off, together they commit a prefix of what one
   uninterrupted run commits, in the same order, as long as their budgets last.
  */
  lemma {:induction false} CrashesLoseNothing(applied: seq<Version>, files: seq<Version>, budgets: seq<nat>)
    ensures var todo := Todo(applied, files);
            AfterStarts(applied, files, budgets) == applied + todo[..Min(Sum(budgets), |todo|)]
    decreases |budgets|
  {
    var todo := Todo(applied, files);
    if budgets == [] {
      assert applied + todo[..0] == applied;
    } else {
      var k := Min(budgets[0], |todo|);
      var rest := budgets[1..];
      var after := applied + todo[..k];
      TodoResumes(applied, files, k);
      assert Todo(after, files) == todo[k..];
      CrashesLoseNothing(after, files, rest);
      assert AfterStarts(applied, files, budgets) == AfterStarts(after, files, rest);
      TakeTwice(applied, todo, k, Min(Sum(rest), |todo| - k));
    }
  }

  /** Once a run has finished, running again does nothing. */
  lemma RerunIsNoOp(applied: seq<Version>, files: seq<Version>)
    ensures Todo(applied + Todo(applied, files), files) == []
  {
    var todo := Todo(applied, files);
    TodoResumes(applied, files, |todo|);
    assert todo[..|todo|] == todo;
  }

  predicate NoRepeats(versions: seq<Version>) {
    forall i, j :: 0 <= i < j < |versions| ==> versions[i] != versions[j]
  }

  /** No version is applied twice, whatever the crashes: the PRIMARY KEY never fires. */
  lemma NoVersionTwice(applied: seq<Version>, files: seq<Version>, budgets: seq<nat>)
    requires NoRepeats(applied)
    ensures NoRepeats(AfterStarts(applied, files, budgets))
  {
    CrashesLoseNothing(applied, files, budgets);
    TodoAddsNew(applied, files);
    var todo := Todo(applied, files);
    var k := Min(Sum(budgets), |todo|);
    assert applied + todo[..k] == (applied + todo)[..|applied| + k];
  }

  lemma TodoAddsNew(applied: seq<Version>, files: seq<Version>)
    requires NoRepeats(applied)
    ensures NoRepeats(applied + Todo(applied, files))
  {
    if applied == [] {
      PendingIncreases(0, files);
      assert StrictlyIncreasing(Todo(applied, files));
    } else {
      var pending := Pending(MaxOf(applied), files);
      PendingIncreases(MaxOf(applied), files);
      forall i, j | 0 <= i < j < |applied + pending|
        ensures (applied + pending)[i] != (applied + pending)[j]
      {
        if i < |applied| <= j {
          assert applied[i] <= MaxOf(applied) < pending[j - |applied|];
        }
      }
    }
  }

  // ------------------------------------------------------------------ which files are applied

  function Above(current: Version, files: seq<Version>): seq<Version> {
    if files == [] then []
    else if files[0] > current then [files[0]] + Above(current, files[1..])
    else Above(current, files[1..])
  }

  lemma {:induction false} AboveTwice(low: Version, high: Version, files: seq<Version>)
    requires low <= high && AllAbove(high, Above(low, files))
    ensures Above(high, files) == Above(low, files)
  {
    if files != [] {
      var a := Above(low, files);
      assert files[0] > low ==> a[0] == files[0] && a[1..] == Above(low, files[1..]);
      AboveTwice(low, high, files[1..]);
    }
  }

  lemma {:induction false} IncreasingIsApplied(current: Version, files: seq<Version>)
    requires StrictlyIncreasing(Above(current, files))
    ensures Pending(current, files) == Above(current, files)
    decreases |files|
  {
    if files != [] {
      var a := Above(current, files);
      if files[0] > current {
        assert a[1..] == Above(current, files[1..]);
        assert forall i :: 0 <= i < |a[1..]| ==> a[1..][i] == a[i + 1] > a[0];
        AboveTwice(current, files[0], files[1..]);
        IncreasingIsApplied(files[0], files[1..]);
      } else {
        IncreasingIsApplied(current, files[1..]);
      }
    }
  }

  /**
   Every file above the starting version is applied, in order, exactly when those files' versions
   strictly increase in file-name order.
  */
  lemma AllAppliedIffIncreasing(current: Version, files: seq<Version>)
    ensures Pending(current, files) == Above(current, files) <==> StrictlyIncreasing(Above(current, files))
  {
    PendingIncreases(current, files);
    if StrictlyIncreasing(Above(current, files)) {
      IncreasingIsApplied(current, files);
    }
  }

  /** "10_b.sql" sorts before "9_a.sql": version 9 is then skipped for good. */
  lemma UnpaddedNamesAreSkipped()
    ensures Todo([], [10, 9]) == [0, 10] && Todo([0, 10], [10, 9]) == []
  {
    assert Pending(0, [10, 9]) == [10] + Pending(10, [9]);
    assert [10, 9][1..] == [9];
    assert MaxOf([0, 10]) == 10;
    assert [9][1..] == [];
  }
}
