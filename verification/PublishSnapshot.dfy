/** Publication of the three build products: `atomic_write` and `publish_snapshot`
    of tools/publication.py, under a fault schedule. */
module PublishSnapshot {
  import opened Faults
  import opened Octets
  import opened Lists
  import opened Outcomes

  /** `safe`: a regular file of this user with one link. */
  datatype File = File(data: Bytes, mode: nat, safe: bool)

  /** Octal 0644 and 0777. */
  const PUBLIC_MODE := 420
  const MAX_MODE := 511

  const SNAPSHOT_PRODUCTS: set<string> := {"payload.tar.gz", "payload.manifest", "preseed.cfg"}

  /** How many calls one write makes: to look at its destination, to make the temporary, to
      write and to rename it, and two to check what was published. */
  const WRITE_CALLS := 6

  type Directory = map<string, File>

  function Entry(d: Directory, n: string): Option<File> { if n in d then Some(d[n]) else None }

  /** A mode that `atomic_write` refuses to give a file, such as a set-user-ID bit. */
  predicate SpecialMode(f: Option<File>) { f.Some? && f.value.mode > MAX_MODE }

  predicate Safe(f: Option<File>) { f.Some? ==> f.value.safe }

  datatype Verdict =
    | Returned(changed: nat)
    | Refused
    | RolledBack(failures: set<string>)

  class Publisher {
    const schedule: nat -> Fault
    var clock: nat
    var files: Directory
    ghost var faults: nat

    constructor (schedule: nat -> Fault, files: Directory)
      ensures this.schedule == schedule && this.files == files && clock == faults == 0
    {
      this.schedule, this.files, clock, faults := schedule, files, 0, 0;
    }

    /** The next `n` calls work. */
    ghost predicate Quiet(n: nat)
      reads `clock
    {
      forall k :: clock <= k < clock + n ==> schedule(k) == Works
    }

    /** And the one after them is the first that does not. */
    ghost predicate FirstFault(n: nat)
      reads `clock
    {
      Quiet(n) && schedule(clock + n) != Works
    }

    method Call() returns (f: Fault)
      modifies `clock, `faults
      ensures clock == old(clock) + 1 && f == schedule(old(clock))
      ensures faults == old(faults) + if f == Works then 0 else 1
    {
      f := schedule(clock);
      clock := clock + 1;
      if f != Works {
        faults := faults + 1;
      }
    }

    /** `atomic_write`: the file becomes exactly this one, or stays what it was. */
    method AtomicWrite(n: string, data: Bytes, mode: nat) returns (ok: bool)
      modifies `clock, `files, `faults
      ensures faults >= old(faults) && (ok ==> faults == old(faults))
      ensures files == old(files) || files == old(files)[n := File(data, mode, true)]
      ensures ok ==> files == old(files)[n := File(data, mode, true)]
      ensures faults == old(faults) ==> (ok <==> mode <= MAX_MODE && (n in old(files) ==> old(files)[n].safe))
      ensures ok ==> clock == old(clock) + WRITE_CALLS && old(Quiet(WRITE_CALLS))
      ensures ok <== mode <= MAX_MODE && (n in old(files) ==> old(files)[n].safe) && old(Quiet(WRITE_CALLS))
      ensures mode > MAX_MODE ==> files == old(files)
    {
      if mode > MAX_MODE || (n in files && !files[n].safe) {
        return false;
      }
      // stat of the destination, mkstemp, write and sync of the temporary
      for i := 0 to 3
        invariant faults == old(faults) && files == old(files)
        invariant clock == old(clock) + i && forall k :: old(clock) <= k < clock ==> schedule(k) == Works
      {
        var f := Call();
        if f != Works {
          return false;
        }
      }
      var f := Call();
      if f != FailsBefore {
        files := files[n := File(data, mode, true)];
      }
      ok := f == Works;
      if ok {
        ok := CheckPublication(n, data, mode);
      }
    }

    /** Directory sync, then the postcondition on owner, mode and content. */
    method CheckPublication(n: string, data: Bytes, mode: nat) returns (ok: bool)
      modifies `clock, `faults
      ensures faults >= old(faults) && (ok ==> faults == old(faults))
      ensures faults == old(faults) && Entry(files, n) == Some(File(data, mode, true)) ==> ok
      ensures clock == old(clock) + 2
      ensures (ok ==> old(Quiet(2))) && (old(Quiet(2)) ==> faults == old(faults))
    {
      var synced := Call();
      var read := Call();
      ok := synced == Works && read == Works && Entry(files, n) == Some(File(data, mode, true));
    }

    method Unlink(n: string) returns (ok: bool)
      modifies `clock, `files, `faults
      ensures faults == old(faults) + if ok then 0 else 1
      ensures files == old(files) || files == old(files) - {n}
      ensures ok ==> files == old(files) - {n}
    {
      var f := Call();
      if f != FailsBefore {
        files := files - {n};
      }
      ok := f == Works;
    }

    /** The snapshot of all outputs, and the names whose content or mode differs. */
    method TakeSnapshot(order: seq<string>, products: map<string, Bytes>)
        returns (ok: bool, previous: map<string, Option<File>>, changed: seq<string>)
      requires Distinct(order) && forall n :: n in order ==> n in products
      modifies `clock, `faults
      ensures faults >= old(faults) && (ok ==> faults == old(faults))
      ensures ok ==> forall n :: n in order ==>
                n in previous && previous[n] == Entry(files, n) && (n in files ==> files[n].safe)
      ensures ok ==> changed == Differing(files, products, order)
      ensures faults == old(faults) && (forall n :: n in order && n in files ==> files[n].safe) ==> ok
      ensures forall k: nat :: old(FirstFault(k)) && |order| <= k ==>
                faults == old(faults) && (ok ==> FirstFault(k - |order|))
    {
      previous, changed := map[], [];
      for i := 0 to |order|
        invariant faults == old(faults)
        invariant forall n :: n in order[..i] ==>
                    n in previous && previous[n] == Entry(files, n) && (n in files ==> files[n].safe)
        invariant changed == Differing(files, products, order[..i])
        invariant clock == old(clock) + i
      {
        var n := order[i];
        assert n !in order[..i] && order[..i + 1] == order[..i] + [n] && order[..i + 1][..i] == order[..i];
        if n in files && !files[n].safe {
          return false, previous, changed;
        }
        var f := Call();
        if f != Works {
          return false, previous, changed;
        }
        previous := previous[n := Entry(files, n)];
        if !Current(files, n, products[n]) {
          changed := changed + [n];
        }
      }
      assert order[..|order|] == order;
      ok := true;
    }

    method UndoOne(n: string, previous: Option<File>) returns (ok: bool)
      requires Safe(Entry(files, n)) && Safe(previous)
      modifies `clock, `files, `faults
      ensures faults >= old(faults) && (ok ==> faults == old(faults) && Entry(files, n) == previous)
      ensures forall m :: m != n ==> Entry(files, m) == Entry(old(files), m)
      ensures Safe(Entry(files, n))
      ensures faults == old(faults) ==> (ok <==> !SpecialMode(previous))
      ensures SpecialMode(previous) ==> !ok && files == old(files)
    {
      match previous {
        case None => ok := Unlink(n);
        case Some(old_) => ok := AtomicWrite(n, old_.data, old_.mode);
      }
    }

    /** The rollback loop over the attempted names, last first; it notes failures and goes on. */
    method Rollback(attempted: seq<string>, previous: map<string, Option<File>>, ghost before: Directory)
        returns (failures: set<string>)
      requires Distinct(attempted)
      requires forall n :: n in attempted ==> n in previous && previous[n] == Entry(before, n)
      requires forall n :: n !in attempted ==> Entry(files, n) == Entry(before, n)
      requires forall n :: n in attempted ==> Safe(Entry(files, n)) && Safe(Entry(before, n))
      modifies `clock, `files, `faults
      ensures faults >= old(faults) && failures <= Elements(attempted)
      ensures forall n :: n !in failures ==> Entry(files, n) == Entry(before, n)
      ensures forall n :: n in attempted && SpecialMode(Entry(before, n)) ==>
                n in failures && Entry(files, n) == Entry(old(files), n)
      ensures faults == old(faults) ==> forall n :: n in failures ==> SpecialMode(Entry(before, n))
    {
      failures := {};
      var k := |attempted|;
      while k > 0
        invariant 0 <= k <= |attempted| && faults >= old(faults)
        invariant failures <= Elements(attempted) && forall j :: 0 <= j < k ==> attempted[j] !in failures
        invariant forall j :: 0 <= j < |attempted| ==> Safe(Entry(files, attempted[j]))
        invariant forall n :: n !in attempted ==> Entry(files, n) == Entry(before, n)
        invariant forall j :: k <= j < |attempted| && attempted[j] !in failures ==>
                    Entry(files, attempted[j]) == Entry(before, attempted[j])
        invariant forall j :: 0 <= j < |attempted| && (j < k || SpecialMode(Entry(before, attempted[j]))) ==>
                    Entry(files, attempted[j]) == Entry(old(files), attempted[j])
        invariant forall j :: k <= j < |attempted| && SpecialMode(Entry(before, attempted[j])) ==>
                    attempted[j] in failures
        invariant faults == old(faults) ==> forall n :: n in failures ==> SpecialMode(Entry(before, n))
      {
        k := k - 1;
        var n := attempted[k];
        var ok := UndoOne(n, previous[n]);
        if !ok {
          failures := failures + {n};
        }
      }
    }

    /** The forward loop; `attempted` ends with the name whose write failed, if one did. */
    method Install(changed: seq<string>, products: map<string, Bytes>) returns (ok: bool, attempted: seq<string>)
      requires Distinct(changed) && forall n :: n in changed ==> n in products
      modifies `clock, `files, `faults
      ensures faults >= old(faults) && (ok ==> faults == old(faults) && attempted == changed)
      ensures faults == old(faults) && (forall n :: n in changed && n in old(files) ==> old(files)[n].safe) ==> ok
      ensures attempted <= changed && Distinct(attempted) && (!ok ==> |attempted| > 0)
      ensures forall n :: n !in attempted ==> Entry(files, n) == Entry(old(files), n)
      ensures forall n :: n in attempted ==>
                Entry(files, n) == Some(File(products[n], PUBLIC_MODE, true))
                    || (!ok && Entry(files, n) == Entry(old(files), n))
      ensures forall i :: 0 <= i < |attempted| - 1 ==>
                Entry(files, attempted[i]) == Some(File(products[attempted[i]], PUBLIC_MODE, true))
      ensures forall k: nat :: old(FirstFault(k)) && k < WRITE_CALLS * |changed|
                && (forall n :: n in changed && n in old(files) ==> old(files)[n].safe)
                ==> !ok && |attempted| == k / WRITE_CALLS + 1
    {
      attempted := [];
      while |attempted| < |changed|
        invariant |attempted| <= |changed| && attempted == changed[..|attempted|] && faults == old(faults)
        invariant forall n :: n !in attempted ==> Entry(files, n) == Entry(old(files), n)
        invariant forall n :: n in attempted ==> Entry(files, n) == Some(File(products[n], PUBLIC_MODE, true))
        invariant clock == old(clock) + WRITE_CALLS * |attempted|
        invariant forall k :: old(clock) <= k < clock ==> schedule(k) == Works
      {
        var n := changed[|attempted|];
        assert n !in attempted;
        attempted := attempted + [n];
        ok := AtomicWrite(n, products[n], PUBLIC_MODE);
        if !ok {
          return;
        }
      }
      ok := true;
    }

    /** `publish_snapshot`. `order` is the iteration order of the products; `attempted` are the
        names that the forward loop came to. */
    method Publish(order: seq<string>, products: map<string, Bytes>)
        returns (verdict: Verdict, ghost attempted: seq<string>)
      requires Distinct(order) && products.Keys == Elements(order)
      modifies `clock, `files, `faults
      ensures products.Keys != SNAPSHOT_PRODUCTS ==> verdict == Refused
      ensures verdict.Refused? ==> files == old(files)
      ensures forall n :: n !in products ==> Entry(files, n) == Entry(old(files), n)
      // Success publishes all three and counts what it had to change.
      ensures verdict.Returned? ==>
                && (forall n :: n in products ==> Current(files, n, products[n]))
                && verdict.changed == |set n | n in products && !Current(old(files), n, products[n])|
      // A failure restores every product whose rollback is not reported as failed.
      ensures verdict.RolledBack? ==> forall n :: n !in verdict.failures ==> Entry(files, n) == Entry(old(files), n)
      // It came to a part of what differs, and what it replaced stays replaced where the mode is special.
      ensures verdict.RolledBack? ==> attempted <= Differing(old(files), products, order) && |attempted| > 0
      ensures verdict.RolledBack? ==>
                forall n :: n in attempted && SpecialMode(Entry(old(files), n)) ==> n in verdict.failures
      ensures verdict.RolledBack? ==>
                forall i :: 0 <= i < |attempted| - 1 && SpecialMode(Entry(old(files), attempted[i])) ==>
                  attempted[i] in products
                      && Entry(files, attempted[i]) == Some(File(products[attempted[i]], PUBLIC_MODE, true))
      // One fault is undone for exactly the products whose mode is not special.
      ensures verdict.RolledBack? && faults <= old(faults) + 1 ==>
                verdict.failures == set n | n in attempted && SpecialMode(Entry(old(files), n))
      ensures faults == old(faults) && products.Keys == SNAPSHOT_PRODUCTS
              && (forall n :: n in products && n in old(files) ==> old(files)[n].safe)
              ==> verdict.Returned?
      // When the first fault comes during the writes, it decides how far they come.
      ensures products.Keys == SNAPSHOT_PRODUCTS
              && (forall n :: n in products && n in old(files) ==> old(files)[n].safe) ==>
                forall k: nat ::
                  && old(FirstFault(k))
                  && |order| <= k < |order| + WRITE_CALLS * |Differing(old(files), products, order)|
                  ==> verdict.RolledBack? && |attempted| == (k - |order|) / WRITE_CALLS + 1
    {
      attempted := [];
      if products.Keys != SNAPSHOT_PRODUCTS {
        return Refused, [];
      }
      ghost var before := files;
      var ok, previous, changed := TakeSnapshot(order, products);
      if !ok {
        return Refused, [];
      }
      DifferingMeans(files, products, order);
      verdict, attempted := InstallOrUndo(changed, products, previous);
      DifferingCount(before, products, order);
    }

    /** The forward loop and its exception handler. */
    method InstallOrUndo(changed: seq<string>, products: map<string, Bytes>, previous: map<string, Option<File>>)
        returns (verdict: Verdict, ghost attempted: seq<string>)
      requires Distinct(changed)
      requires forall n :: n in changed ==> n in products && n in previous && previous[n] == Entry(files, n)
      requires forall n :: n in changed && n in files ==> files[n].safe
      modifies `clock, `files, `faults
      ensures !verdict.Refused? && (faults == old(faults) ==> verdict.Returned?)
      ensures forall n :: n !in changed ==> Entry(files, n) == Entry(old(files), n)
      ensures verdict.Returned? ==>
                && verdict.changed == |changed|
                && forall n :: n in changed ==> Entry(files, n) == Some(File(products[n], PUBLIC_MODE, true))
      ensures verdict.RolledBack? ==>
                && attempted <= changed && |attempted| > 0
                && (forall n :: n !in verdict.failures ==> Entry(files, n) == Entry(old(files), n))
                && (forall n :: n in attempted && SpecialMode(Entry(old(files), n)) ==> n in verdict.failures)
                && (forall i :: 0 <= i < |attempted| - 1 && SpecialMode(Entry(old(files), attempted[i])) ==>
                      Entry(files, attempted[i]) == Some(File(products[attempted[i]], PUBLIC_MODE, true)))
                && (faults <= old(faults) + 1 ==>
                     verdict.failures == set n | n in attempted && SpecialMode(Entry(old(files), n)))
      ensures forall k: nat :: old(FirstFault(k)) && k < WRITE_CALLS * |changed| ==>
                verdict.RolledBack? && |attempted| == k / WRITE_CALLS + 1
    {
      ghost var before := files;
      var ok, tried := Install(changed, products);
      attempted := tried;
      if ok {
        return Returned(|changed|), attempted;
      }
      var failures := Rollback(tried, previous, before);
      verdict := RolledBack(failures);
    }
  }

  /** The comparison `old == (data, 0o644)`, on an output that was found safe. */
  predicate Current(files: Directory, n: string, data: Bytes) {
    n in files && files[n].data == data && files[n].mode == PUBLIC_MODE
  }

  /** The names whose output is not current, in order. */
  function Differing(files: Directory, products: map<string, Bytes>, order: seq<string>): seq<string>
    requires forall n :: n in order ==> n in products
  {
    if order == [] then [] else
      var front, n := Differing(files, products, order[..|order| - 1]), order[|order| - 1];
      if Current(files, n, products[n]) then front else front + [n]
  }

  lemma {:induction false} DifferingMeans(files: Directory, products: map<string, Bytes>, order: seq<string>)
    requires Distinct(order) && forall n :: n in order ==> n in products
    ensures Distinct(Differing(files, products, order))
    ensures forall n :: n in Differing(files, products, order) <==> n in order && !Current(files, n, products[n])
  {
    if order != [] {
      DifferingMeans(files, products, order[..|order| - 1]);
    }
  }

  lemma DifferingCount(files: Directory, products: map<string, Bytes>, order: seq<string>)
    requires Distinct(order) && products.Keys == Elements(order)
    ensures |Differing(files, products, order)| == |set n | n in products && !Current(files, n, products[n])|
  {
    DifferingMeans(files, products, order);
    CountDistinct(Differing(files, products, order));
    assert Elements(Differing(files, products, order)) == set n | n in products && !Current(files, n, products[n]);
  }

  lemma {:induction false} AllDiffer(files: Directory, products: map<string, Bytes>, order: seq<string>)
    requires forall n :: n in order ==> n in products && !Current(files, n, products[n])
    ensures Differing(files, products, order) == order
  {
    if order != [] {
      AllDiffer(files, products, order[..|order| - 1]);
    }
  }

  /** Octal 4755. */
  const SET_USER_ID := 2541

  /** One fault, in the second write, leaves the first product replaced when it was set-user-ID. */
  method LeaveReplaced(old_: Bytes, new_: Bytes) returns (p: Publisher)
    ensures Entry(p.files, "payload.tar.gz") == Some(File(new_, PUBLIC_MODE, true))
    ensures forall k :: p.schedule(k) != Works <==> k == 9
  {
    var order := ["payload.tar.gz", "payload.manifest", "preseed.cfg"];
    var products := map n | n in SNAPSHOT_PRODUCTS :: new_;
    var files := map["payload.tar.gz" := File(old_, SET_USER_ID, true)];
    p := new Publisher(k => if k == 9 then FailsBefore else Works, files);
    assert p.FirstFault(9);
    AllDiffer(files, products, order);
    var verdict, attempted := p.Publish(order, products);
    assert attempted == order[..2];
    assert SpecialMode(Entry(files, attempted[0]));
  }
}
