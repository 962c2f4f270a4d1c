/** The restore drill: a temporary database is created, restored into, inspected and
    dropped, with a guard that drops it on every other way out, and a sweep at the next
    start for what even the guard could not drop. */
module RestoreDrill {
  import opened Text

  type Name = string

  const TEMP_DB_PREFIX := "stockiha_restore_proof_"

  predicate IsNameChar(c: char) { 'a' <= c <= 'z' || IsDigit(c) || c == '_' }

  /** `validate_generated_database_name`, asked before every creation and every drop. */
  predicate WellFormed(name: Name)
  {
    StartsWith(name, TEMP_DB_PREFIX) && forall i :: 0 <= i < |name| ==> IsNameChar(name[i])
  }

  /** `generate_temp_db_name` for the drill. */
  function GeneratedName(processId: nat, nanos: nat, counter: nat): Name
  {
    TEMP_DB_PREFIX + "verify_" + NatText(processId) + "_" + NatText(nanos) + "_" + NatText(counter)
  }

  /** Every generated name passes the check that drops are subject to, so no database the
      drill creates can escape its guard or the sweep. */
  lemma GeneratedIsWellFormed(processId: nat, nanos: nat, counter: nat)
    ensures WellFormed(GeneratedName(processId, nanos, counter))
  {
    var head := TEMP_DB_PREFIX + "verify_";
    var name := GeneratedName(processId, nanos, counter);
    assert name[..|TEMP_DB_PREFIX|] == TEMP_DB_PREFIX;
    assert forall i :: 0 <= i < |head| ==> IsNameChar(head[i]);
    NameChars(head, NatText(processId));
    NameChars(head + NatText(processId), "_");
    NameChars(head + NatText(processId) + "_", NatText(nanos));
    NameChars(head + NatText(processId) + "_" + NatText(nanos), "_");
    NameChars(head + NatText(processId) + "_" + NatText(nanos) + "_", NatText(counter));
  }

  lemma NameChars(a: string, b: string)
    requires forall i :: 0 <= i < |a| ==> IsNameChar(a[i])
    requires AllDigits(b) || b == "_"
    ensures forall i :: 0 <= i < |a + b| ==> IsNameChar((a + b)[i])
  {
  }

  /** The check lets exactly those names through that begin with the prefix and are made of
      these characters. */
  lemma WellFormedIs(name: Name)
    ensures WellFormed(name) <==>
            "stockiha_restore_proof_" <= name && forall c :: c in name ==> c in "abcdefghijklmnopqrstuvwxyz0123456789_"
  {
    forall i | 0 <= i < |name| ensures IsNameChar(name[i]) <==> name[i] in "abcdefghijklmnopqrstuvwxyz0123456789_" {
      NameCharIs(name[i]);
    }
  }

  lemma LetterIs(c: char)
    ensures 'a' <= c <= 'z' <==> c in "abcdefghijklmnopqrstuvwxyz"
  {
    var letters := "abcdefghijklmnopqrstuvwxyz";
    assert forall i :: 0 <= i < 26 ==> letters[i] as int == 'a' as int + i;
    if 'a' <= c <= 'z' { assert letters[c as int - 'a' as int] == c; }
  }

  lemma NameCharIs(c: char)
    ensures IsNameChar(c) <==> c in "abcdefghijklmnopqrstuvwxyz0123456789_"
  {
    var rest := "0123456789_";
    LetterIs(c);
    assert c in rest <==> IsDigit(c) || c == '_' by {
      if IsDigit(c) { assert rest[c as int - '0' as int] == c; }
      assert rest[10] == '_';
    }
    assert "abcdefghijklmnopqrstuvwxyz0123456789_" == "abcdefghijklmnopqrstuvwxyz" + rest;
  }

  lemma CutFirst(a: string, x: string, b: string, y: string)
    requires '_' !in a && '_' !in b && a + "_" + x == b + "_" + y
    ensures a == b && x == y
  {
    var s, t := a + "_" + x, b + "_" + y;
    assert s[|a|] == '_' && t[|b|] == '_';
    assert (forall i :: 0 <= i < |a| ==> s[i] == a[i]) && (forall i :: 0 <= i < |b| ==> t[i] == b[i]);
    assert |a| == |b|;
    assert s[..|a|] == a && t[..|b|] == b && s[|a| + 1..] == x && t[|b| + 1..] == y;
  }

  /** The name of a drill begins as it should, and drills of different processes, times or
      counts have different names. */
  lemma GeneratedNamesDiffer(p: nat, n: nat, c: nat, q: nat, m: nat, d: nat)
    ensures "stockiha_restore_proof_verify_" <= GeneratedName(p, n, c)
    ensures GeneratedName(p, n, c) == GeneratedName(q, m, d) <==> p == q && n == m && c == d
  {
    var head := TEMP_DB_PREFIX + "verify_";
    var x, y := NatText(p) + "_" + (NatText(n) + "_" + NatText(c)), NatText(q) + "_" + (NatText(m) + "_" + NatText(d));
    assert GeneratedName(p, n, c) == head + x && GeneratedName(q, m, d) == head + y;
    if GeneratedName(p, n, c) == GeneratedName(q, m, d) {
      assert x == (head + x)[|head|..] == (head + y)[|head|..] == y;
      CutFirst(NatText(p), NatText(n) + "_" + NatText(c), NatText(q), NatText(m) + "_" + NatText(d));
      CutFirst(NatText(n), NatText(c), NatText(m), NatText(d));
      NatTextValue(p);
      NatTextValue(q);
      NatTextValue(n);
      NatTextValue(m);
      NatTextValue(c);
      NatTextValue(d);
    }
  }

  datatype Error = CreateFailed | DropFailed | Operation(code: int) | Panicked

  datatype Outcome = Verified | Failed(error: Error)

  /** The listing of the sweep: each database with the prefix, once. */
  ghost predicate ListsPrefixed(candidates: seq<Name>, databases: set<Name>)
  {
    && (forall n :: n in candidates <==> n in databases && StartsWith(n, TEMP_DB_PREFIX))
    && (forall i, k :: 0 <= i < k < |candidates| ==> candidates[i] != candidates[k])
  }

  class DrillProcess {
    /** The databases on the server. */
    var databases: set<Name>
    /** The drops that guards have scheduled and that have not run yet. */
    var pending: set<Name>
    /** Whether a guard finds a runtime to schedule its drop on. */
    const runtime: bool
    /** The server does what it is told and its answers arrive. */
    const faultless: bool

    constructor (databases: set<Name>, runtime: bool, faultless: bool)
      ensures this.databases == databases && this.pending == {}
      ensures this.runtime == runtime && this.faultless == faultless
    {
      this.databases, this.pending, this.runtime, this.faultless := databases, {}, runtime, faultless;
    }

    /** `CREATE DATABASE`: a success can be lost on its way back. */
    method CreateDatabase(name: Name) returns (ok: bool)
      requires WellFormed(name)
      modifies this`databases
      ensures ok ==> name !in old(databases) && databases == old(databases) + {name}
      ensures !ok ==> databases == old(databases) || databases == old(databases) + {name}
      ensures faultless ==> (ok <==> name !in old(databases))
    {
      ok := *;
      ok := ok || faultless;
      if name in databases {
        ok := false;
      } else {
        var created: bool := *;
        if ok || created {
          databases := databases + {name};
        }
      }
    }

    /** `DROP DATABASE IF EXISTS ... WITH (FORCE)`: a failure may come before or after the
        drop took effect. A name that is not well-formed is refused. */
    method DropDatabase(name: Name) returns (ok: bool)
      modifies this`databases
      ensures ok ==> WellFormed(name) && databases == old(databases) - {name}
      ensures databases == old(databases) || (WellFormed(name) && databases == old(databases) - {name})
      ensures faultless ==> (ok <==> WellFormed(name))
    {
      if !WellFormed(name) {
        return false;
      }
      ok := *;
      ok := ok || faultless;
      var done: bool := *;
      if ok || done {
        databases := databases - {name};
      }
    }

    /** The guard's `Drop`. */
    method DropGuard(name: Name, cleaned: bool)
      modifies this`pending
      ensures pending == if cleaned || !runtime then old(pending) else old(pending) + {name}
    {
      if !cleaned && runtime {
        pending := pending + {name};
      }
    }

    /** `verify_operator_backup_restore_runtime` from the creation of the database on. The
        second result is what the restore and the inspection came to, if they were begun.
        Success means that the database is gone; what went wrong with the restore is
        never hidden by what went wrong with the clean-up; and a database that survives
        has a drop scheduled, unless its creation was reported as failed. */
    method Verify(name: Name) returns (outcome: Outcome, operation: Option<Outcome>)
      requires WellFormed(name)
      modifies this
      ensures outcome.Verified? ==> operation == Some(Verified) && name !in databases
      ensures operation.Some? && operation.value.Failed? ==> outcome == operation.value
      ensures outcome == Failed(DropFailed) ==> operation == Some(Verified)
      ensures operation.None? <==> outcome == Failed(CreateFailed)
      ensures runtime && operation.Some? && name in databases ==> name in pending
      ensures operation == Some(Failed(Panicked)) ==> name in databases
      ensures outcome.Verified? || outcome == Failed(CreateFailed) ==> pending == old(pending)
      ensures name in old(databases) ==> outcome == Failed(CreateFailed) && (faultless ==> name !in databases)
      ensures faultless && name !in old(databases) ==>
                operation.Some? && outcome == operation.value
                && (operation.value != Failed(Panicked) ==> name !in databases)
      ensures forall n :: n != name ==> (n in databases <==> n in old(databases)) && (n in pending <==> n in old(pending))
    {
      var created := CreateDatabase(name);
      if !created {
        var _ := DropDatabase(name);
        return Failed(CreateFailed), None;
      }
      var cleaned := false;
      var result := Restore();
      operation := Some(result);
      if result == Failed(Panicked) {
        DropGuard(name, cleaned);
        return result, operation;
      }
      var dropped := DropDatabase(name);
      if dropped {
        cleaned := true;
      }
      if result.Failed? {
        outcome := result;
      } else if !dropped {
        outcome := Failed(DropFailed);
      } else {
        outcome := Verified;
      }
      DropGuard(name, cleaned);
    }

    /** The restore and the inspection: any result, or a panic. */
    method Restore() returns (result: Outcome)
      ensures result.Failed? ==> result.error.Operation? || result.error.Panicked?
    {
      var good: bool := *;
      var panicked: bool := *;
      var code: int := *;
      result := if good then Verified else if panicked then Failed(Panicked) else Failed(Operation(code));
    }

    /** A scheduled drop runs, on a connection of its own. */
    method RunPending(name: Name)
      requires name in pending
      modifies this
      ensures pending == old(pending) - {name}
      ensures databases == old(databases) || databases == old(databases) - {name}
      ensures faultless && WellFormed(name) ==> name !in databases
    {
      pending := pending - {name};
      var _ := DropDatabase(name);
    }

    /** The process is killed or ends: what was scheduled is forgotten. */
    method Restart()
      modifies this`pending
      ensures pending == {}
    {
      pending := {};
    }

    /** `sweep_orphaned_temp_databases`: ill-formed names are skipped, and the first drop
        that fails ends the sweep. Only well-formed names are ever dropped, what is
        reported as dropped is gone, and a sweep that gets to the end leaves none. */
    method Sweep(candidates: seq<Name>) returns (dropped: seq<Name>, complete: bool)
      requires ListsPrefixed(candidates, databases)
      modifies this`databases
      ensures databases <= old(databases)
      ensures forall n :: n in old(databases) && n !in databases ==> WellFormed(n)
      ensures forall n :: n in dropped ==> n in old(databases) && n !in databases && WellFormed(n)
      ensures complete ==> forall n :: n in databases ==> !WellFormed(n)
      ensures complete ==> forall n :: n in old(databases) && WellFormed(n) ==> n in dropped
      ensures faultless ==> complete
    {
      dropped := [];
      for i := 0 to |candidates|
        invariant databases <= old(databases)
        invariant forall n :: n in old(databases) && n !in databases ==> WellFormed(n) && n in dropped
        invariant forall n :: n in dropped ==> n in old(databases) && n !in databases && WellFormed(n)
        invariant forall k :: 0 <= k < i && WellFormed(candidates[k]) ==> candidates[k] in dropped
      {
        var name := candidates[i];
        if WellFormed(name) {
          var ok := DropDatabase(name);
          if !ok {
            return dropped, false;
          }
          dropped := dropped + [name];
        }
      }
      complete := true;
      forall n | n in old(databases) && WellFormed(n)
        ensures n in dropped
      {
        assert n in candidates;
      }
    }

    /** Whatever a drill came to, and whether or not its guard ever got to run, its
        database is gone after the next start whose sweep gets to the end. */
    method DrillAndNextStart(processId: nat, nanos: nat, counter: nat) returns (complete: bool)
      modifies this
      ensures complete ==> GeneratedName(processId, nanos, counter) !in databases
      ensures forall n :: n in old(databases) && n !in databases ==> WellFormed(n)
      ensures faultless ==> complete
    {
      var name := GeneratedName(processId, nanos, counter);
      GeneratedIsWellFormed(processId, nanos, counter);
      var outcome, operation := Verify(name);
      var runs: bool := *;
      if runs && name in pending {
        RunPending(name);
      }
      Restart();
      var listed := ListDatabases();
      if listed.None? {
        return false;
      }
      var dropped;
      dropped, complete := Sweep(listed.value);
    }

    /** The query for the databases with the prefix; it can fail. */
    method ListDatabases() returns (candidates: Option<seq<Name>>)
      ensures candidates.Some? ==> ListsPrefixed(candidates.value, databases)
      ensures faultless ==> candidates.Some?
    {
      var answered: bool := *;
      if !answered && !faultless {
        return None;
      }
      var rest := set n | n in databases && StartsWith(n, TEMP_DB_PREFIX);
      var names: seq<Name> := [];
      while rest != {}
        invariant forall n :: n in databases && StartsWith(n, TEMP_DB_PREFIX) <==> n in names || n in rest
        invariant forall n :: n in names ==> n !in rest
        invariant forall i, k :: 0 <= i < k < |names| ==> names[i] != names[k]
        decreases |rest|
      {
        var n :| n in rest;
        rest := rest - {n};
        names := names + [n];
      }
      candidates := Some(names);
    }
  }
}
