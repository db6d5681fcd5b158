/** Single-product publication: `atomic_write`, `publication_state`, `publish_single`
    and `generation_lock` of tools/inventory.py.

    Every system call consults a fault schedule (it works, fails without effect, or
    takes effect and fails) and is preceded by whatever a foreign process does to
    the product at that moment. */
module PublishSingle {
  import opened Faults
  import opened Octets
  import opened Outcomes

  const MAX_JSON: nat := 128 * 1024 * 1024

  /** `safe`: a regular file of this user with one link. */
  datatype File = File(inode: nat, mode: nat, data: Bytes, mtime: nat, ctime: nat, safe: bool) {
    /** `file_identity(...)[:5]`, which survives a rename. */
    function Core(): Stable { Stable(inode, mode, |data|, mtime) }

    /** `file_identity`. */
    function Identity(): Id { Id(Core(), ctime) }
  }

  datatype Stable = Stable(inode: nat, mode: nat, size: nat, mtime: nat)

  datatype Id = Id(core: Stable, ctime: nat)

  datatype Expectation = Unspecified | Exactly(identity: Option<Id>)

  /** Where `atomic_write` writes: the product, or a file of the recovery directory. */
  datatype Target = Product | Recovery(name: string)

  const SAVED := "inventory.json"
  const NOTE := "state.json"

  function IdentityOf(f: Option<File>): Option<Id> {
    match f
    case None => None
    case Some(v) => Some(v.Identity())
  }

  function InodeOf(f: Option<File>): set<nat> { if f.Some? then {f.value.inode} else {} }

  predicate HasContent(f: Option<File>, data: Bytes, mode: nat) {
    f.Some? && f.value.data == data && f.value.mode == mode && f.value.safe
  }

  /** The file under a name is this temporary, up to its ctime. */
  predicate Installed(f: Option<File>, temporary: File) {
    f.Some? && f.value.(ctime := 0) == temporary.(ctime := 0)
  }

  /** What `atomic_write` demands of its destination. */
  predicate Acceptable(f: Option<File>, expected: Expectation) {
    && (f.Some? ==> f.value.safe)
    && (expected.Exactly? ==> expected.identity == IdentityOf(f))
  }

  function ExpectedInode(identity: Option<Id>): set<nat> {
    if identity.Some? then {identity.value.core.inode} else {}
  }

  /** What `publication_state` accepts. */
  predicate Publishable(f: Option<File>) { f.Some? ==> f.value.safe && |f.value.data| <= MAX_JSON }

  /** The recovery directory holds the previous bytes, if there were any. */
  predicate Holds(recovery: map<string, File>, previous: Option<File>) {
    previous.Some? ==> SAVED in recovery && recovery[SAVED].data == previous.value.data
  }

  ghost predicate OnlyChanged(before: map<string, File>, after: map<string, File>, name: string) {
    forall n :: n != name ==> (n in after <==> n in before) && (n in before ==> after[n] == before[n])
  }

  /** The bytes and the mode, or the absence, that `previous` had. */
  predicate SameContent(f: Option<File>, previous: Option<File>) {
    match previous
    case None => f == None
    case Some(p) => HasContent(f, p.data, p.mode)
  }

  datatype Verdict = Published | AlreadyCurrent | Failed | Unknown

  class Store {
    const schedule: nat -> Fault
    /** What a foreign process turns the product into right before a call, if anything. */
    const foreign: nat -> Option<Option<File>>
    var clock: nat
    var product: Option<File>
    var recoveryExists: bool
    var recovery: map<string, File>
    var recoveryTemporaries: set<nat>
    var unusedInode: nat
    ghost var faults: nat
    /** Foreign changes so far. */
    ghost var changes: nat
    /** Inodes this process created, and inodes it displaced from the product's name. */
    ghost var created: set<nat>
    ghost var displaced: set<nat>
    /** Those among the displaced ones that a foreign change put there after the check that the
        displacing call relies on. */
    ghost var lost: set<nat>

    constructor (schedule: nat -> Fault, foreign: nat -> Option<Option<File>>, product: Option<File>)
      ensures this.schedule == schedule && this.foreign == foreign && this.product == product && clock == 0
      ensures !recoveryExists && Settled() && LostIsForeign() && displaced == lost == created == {}
              && faults == changes == 0
    {
      this.schedule, this.foreign, this.product, clock := schedule, foreign, product, 0;
      recoveryExists, recovery, recoveryTemporaries := false, map[], {};
      unusedInode := if product.Some? then product.value.inode + 1 else 0;
      faults, changes, created, displaced, lost := 0, 0, {}, {}, {};
    }

    /** Without a recovery directory there is nothing in it. */
    ghost predicate Settled()
      reads this
    {
      !recoveryExists ==> recovery == map[] && recoveryTemporaries == {}
    }

    /** The inodes of the files that foreign changes bring. */
    ghost function Strangers(): iset<nat> {
      iset t: nat | foreign(t).Some? && foreign(t).value.Some? :: foreign(t).value.value.inode
    }

    /** What was lost had been brought by foreign changes. */
    ghost predicate LostIsForeign()
      reads `lost, `displaced
    {
      lost <= displaced && forall i :: i in lost ==> i in Strangers()
    }

    /** The next `n` calls work, and no foreign change comes before them. */
    ghost predicate Quiet(n: nat)
      reads `clock
    {
      forall k :: clock <= k < clock + n ==> schedule(k) == Works && foreign(k) == None
    }

    // ------------------------------------------------------------ system calls

    /** The file that the rename at this time meets is displaced, and lost if it was not there before. */
    ghost predicate AtRename(time: nat, before: Option<File>)
      reads `displaced, `lost
    {
      InodeOf(Met(time, before)) <= displaced && InodeOf(Met(time, before)) - InodeOf(before) <= lost
    }

    /** What the call at this time finds under the product's name. */
    function Met(time: nat, file: Option<File>): Option<File> {
      match foreign(time)
      case None => file
      case Some(other) => other
    }

    method Call() returns (f: Fault)
      modifies `clock, `product, `faults, `changes
      ensures clock == old(clock) + 1 && f == schedule(old(clock)) && product == Met(old(clock), old(product))
      ensures faults == old(faults) + if f == Works then 0 else 1
      ensures changes == old(changes) + if foreign(old(clock)) == None then 0 else 1
    {
      match foreign(clock) {
        case None =>
        case Some(file) =>
          product, changes := file, changes + 1;
      }
      f := schedule(clock);
      if f != Works {
        faults := faults + 1;
      }
      clock := clock + 1;
    }

    /** A rename or an unlink at the product's name, right after a check of what is there. */
    method GuardedCall() returns (f: Fault)
      modifies `clock, `product, `faults, `changes, `displaced, `lost
      ensures clock == old(clock) + 1 && f == schedule(old(clock)) && product == Met(old(clock), old(product))
      ensures faults == old(faults) + if f == Works then 0 else 1
      ensures changes == old(changes) + if foreign(old(clock)) == None then 0 else 1
      ensures f == FailsBefore ==> displaced == old(displaced) && lost == old(lost)
      ensures f != FailsBefore ==>
                displaced == old(displaced) + InodeOf(product)
                    && lost == old(lost) + (InodeOf(product) - InodeOf(old(product)))
      ensures old(LostIsForeign()) ==> LostIsForeign()
    {
      f := Call();
      if f != FailsBefore {
        displaced := displaced + InodeOf(product);
        lost := lost + (InodeOf(product) - InodeOf(old(product)));
      }
    }

    method Sync() returns (ok: bool)
      modifies `clock, `product, `faults, `changes
      ensures clock == old(clock) + 1 && ok == (schedule(old(clock)) == Works)
      ensures faults == old(faults) + if ok then 0 else 1
      ensures changes == old(changes) + if foreign(old(clock)) == None then 0 else 1
      ensures changes == old(changes) ==> product == old(product)
    {
      var f := Call();
      ok := f == Works;
    }

    function Entry(t: Target): Option<File>
      reads `product, `recovery
    {
      match t
      case Product => product
      case Recovery(name) => if name in recovery then Some(recovery[name]) else None
    }

    method Lstat(t: Target) returns (r: Result<Option<File>>)
      modifies `clock, `product, `faults, `changes
      ensures clock == old(clock) + 1 && r.Ok? == (schedule(old(clock)) == Works)
      ensures faults == old(faults) + if r.Ok? then 0 else 1
      ensures changes == old(changes) + if foreign(old(clock)) == None then 0 else 1
      ensures changes == old(changes) ==> product == old(product)
      ensures r.Ok? ==> r.value == Entry(t)
    {
      var f := Call();
      r := if f == Works then Ok(Entry(t)) else Raised("lstat");
    }

    /** `read_file(path, MAX_JSON)`. */
    method Read(t: Target) returns (r: Result<Bytes>)
      modifies `clock, `product, `faults, `changes
      ensures clock == old(clock) + 1
      ensures faults == old(faults) + if schedule(old(clock)) == Works then 0 else 1
      ensures changes == old(changes) + if foreign(old(clock)) == None then 0 else 1
      ensures (r.Ok? ==> faults == old(faults)) && (changes == old(changes) ==> product == old(product))
      ensures r.Ok? ==> Entry(t).Some? && r.value == Entry(t).value.data && |r.value| <= MAX_JSON
      ensures faults == old(faults) && Entry(t).Some? && |Entry(t).value.data| <= MAX_JSON ==> r.Ok?
    {
      var f := Call();
      r := if f == Works && Entry(t).Some? && |Entry(t).value.data| <= MAX_JSON
      then Ok(Entry(t).value.data)
      else Raised("read");
    }

    /** os.replace of a temporary onto its target. A rename may change the ctime of the file. */
    method Replace(temporary: File, t: Target) returns (ok: bool, moved: bool)
      modifies `clock, `product, `recovery, `recoveryTemporaries, `faults, `changes, `displaced, `lost
      ensures clock == old(clock) + 1 && ok == (schedule(old(clock)) == Works)
              && moved == (schedule(old(clock)) != FailsBefore)
      ensures faults == old(faults) + if ok then 0 else 1
      ensures changes == old(changes) + if foreign(old(clock)) == None then 0 else 1
      ensures old(lost) <= lost && old(displaced) <= displaced
      ensures moved ==> Installed(Entry(t), temporary)
      ensures !moved ==> recovery == old(recovery) && recoveryTemporaries == old(recoveryTemporaries)
      ensures !moved && changes == old(changes) ==> product == old(product)
      ensures t == Product ==> recovery == old(recovery) && recoveryTemporaries == old(recoveryTemporaries)
      ensures displaced <= old(displaced) + InodeOf(old(product)) + lost && (old(LostIsForeign()) ==> LostIsForeign())
      ensures t == Product && moved ==> AtRename(old(clock), old(product))
      ensures t != Product ==> displaced == old(displaced) && (changes == old(changes) ==> product == old(product))
      ensures t != Product ==> lost == old(lost) && OnlyChanged(old(recovery), recovery, t.name)
      ensures t != Product && moved ==> recoveryTemporaries == old(recoveryTemporaries) - {temporary.inode}
    {
      var f;
      if t == Product {
        f := GuardedCall();
      } else {
        f := Call();
      }
      if f == FailsBefore {
        return false, false;
      }
      var file := temporary.(ctime := clock);
      match t {
        case Product =>
          product := Some(file);
        case Recovery(name) =>
          recovery := recovery[name := file];
          recoveryTemporaries := recoveryTemporaries - {temporary.inode};
      }
      ok, moved := f == Works, true;
    }

    method UnlinkProduct() returns (ok: bool)
      modifies `clock, `product, `faults, `changes, `displaced, `lost
      ensures faults >= old(faults) && faults <= old(faults) + 1 && (ok ==> faults == old(faults))
      ensures changes >= old(changes) && old(lost) <= lost && old(displaced) <= displaced
      ensures faults == old(faults) && changes == old(changes) && old(product).Some? ==> ok
      ensures displaced <= old(displaced) + InodeOf(old(product)) + lost && (old(LostIsForeign()) ==> LostIsForeign())
      ensures ok ==> product == None
      ensures changes == old(changes) ==> product in {old(product), None}
    {
      var f := GuardedCall();
      if f == FailsBefore || product == None {
        return false;
      }
      product := None;
      ok := f == Works;
    }

    // --------------------------------------------------------------- atomic_write

    /** mkstemp, then write, fchmod, flush, fsync and fstat of the temporary. */
    method WriteTemporary(t: Target, data: Bytes, mode: nat) returns (r: Result<File>)
      modifies `clock, `product, `recoveryTemporaries, `unusedInode, `created, `faults, `changes
      ensures faults == old(faults) + if r.Ok? then 0 else 1
      ensures changes >= old(changes) && (changes == old(changes) ==> product == old(product))
      ensures old(created) <= created
      ensures r.Ok? ==> r.value.data == data && r.value.mode == mode && r.value.safe && r.value.inode in created
      ensures t == Product ==> recoveryTemporaries == old(recoveryTemporaries)
      ensures old(Quiet(2)) ==> r.Ok? && clock == old(clock) + 2 && changes == old(changes)
    {
      var f := Call();
      if f == FailsBefore {
        return Raised("mkstemp");
      }
      var inode := unusedInode;
      unusedInode, created := unusedInode + 1, created + {inode};
      if t != Product {
        recoveryTemporaries := recoveryTemporaries + {inode};
      }
      if f == FailsAfter {
        return Raised("mkstemp");
      }
      var written := Sync();
      if !written {
        return Raised("write");
      }
      return Ok(File(inode, mode, data, clock, clock, true));
    }

    /** Compares the destination with `before` again, renames, and checks what was published. */
    method Commit(t: Target, temporary: File, before: Option<File>) returns (ok: bool)
      requires temporary.safe
      modifies `clock, `product, `recovery, `recoveryTemporaries, `faults, `changes, `displaced, `lost
      ensures faults >= old(faults) && changes >= old(changes) && old(lost) <= lost && old(displaced) <= displaced
      ensures ok ==> faults == old(faults)
      ensures faults == old(faults) && changes == old(changes)
              && |temporary.data| <= MAX_JSON && before == old(Entry(t))
              ==> ok
      ensures ok && (changes == old(changes) || t != Product) ==> Installed(Entry(t), temporary)
      ensures changes == old(changes) || t != Product ==> Entry(t) == old(Entry(t)) || Installed(Entry(t), temporary)
      ensures t == Product ==> recovery == old(recovery) && recoveryTemporaries == old(recoveryTemporaries)
      ensures t != Product ==> displaced == old(displaced) && lost == old(lost)
      ensures t != Product && changes == old(changes) ==> product == old(product)
      ensures t != Product ==> OnlyChanged(old(recovery), recovery, t.name)
      ensures t == Product && before == old(product) && old(Quiet(1)) && schedule(old(clock) + 1) != FailsBefore ==>
                AtRename(old(clock) + 1, old(product))
      ensures t != Product && before == old(Entry(t)) && |temporary.data| <= MAX_JSON && old(Quiet(5)) ==>
                clock == old(clock) + 5 && faults == old(faults) && changes == old(changes)
      ensures displaced <= old(displaced) + InodeOf(before) + lost && (old(LostIsForeign()) ==> LostIsForeign())
    {
      var now := Lstat(t);
      if now.Raised? || IdentityOf(before) != IdentityOf(now.value) {
        return false;
      }
      var moved;
      ok, moved := Replace(temporary, t);
      if ok {
        ok := Sync();
      }
      if ok {
        ok := Verify(t, temporary);
      }
    }

    method Verify(t: Target, temporary: File) returns (ok: bool)
      modifies `clock, `product, `faults, `changes
      ensures faults >= old(faults) && changes >= old(changes) && (ok ==> faults == old(faults))
      ensures changes == old(changes) ==> product == old(product)
      ensures faults == old(faults) && changes == old(changes) && |temporary.data| <= MAX_JSON
              && Installed(old(Entry(t)), temporary) && temporary.safe
              ==> ok
      ensures old(Quiet(2)) && Installed(old(Entry(t)), temporary) && temporary.safe ==>
                clock == old(clock) + 2 && faults == old(faults) && changes == old(changes)
    {
      var after := Lstat(t);
      ok := after.Ok? && after.value.Some? && after.value.value.safe
      && after.value.value.inode == temporary.inode && after.value.value.mode == temporary.mode
      && |after.value.value.data| == |temporary.data|;
      if ok {
        var read := Read(t);
        ok := read.Ok? && read.value == temporary.data;
      }
    }

    /** `atomic_write`. `candidate` is the receipt: the identity of the temporary, once known. */
    method AtomicWrite(t: Target, data: Bytes, mode: nat, expected: Expectation)
        returns (ok: bool, candidate: Option<Stable>)
      modifies `clock, `product, `recovery, `recoveryTemporaries, `unusedInode, `created, `faults, `changes,
               `displaced, `lost
      ensures faults >= old(faults) && changes >= old(changes) && old(created) <= created
      ensures old(lost) <= lost && old(displaced) <= displaced
      ensures ok ==> faults == old(faults)
      ensures && faults == old(faults) && changes == old(changes) && |data| <= MAX_JSON
              && Acceptable(old(Entry(t)), expected)
              ==> ok
      // What it leaves at its destination.
      ensures ok && (changes == old(changes) || t != Product) ==> HasContent(Entry(t), data, mode)
      ensures changes == old(changes) || t != Product ==>
                || Entry(t) == old(Entry(t))
                || (&& HasContent(Entry(t), data, mode) && candidate == Some(Entry(t).value.Core())
                    && Entry(t).value.inode in created)
      // What it leaves alone.
      ensures t == Product ==> recovery == old(recovery) && recoveryTemporaries == old(recoveryTemporaries)
      ensures t != Product ==> displaced == old(displaced) && lost == old(lost)
      ensures t != Product && changes == old(changes) ==> product == old(product)
      ensures t != Product ==> OnlyChanged(old(recovery), recovery, t.name)
      // What it displaces: in a quiet time, the file that the rename meets.
      ensures expected.Exactly? ==> displaced <= old(displaced) + ExpectedInode(expected.identity) + lost
      ensures old(LostIsForeign()) ==> LostIsForeign()
      ensures t == Product && Acceptable(old(product), expected) && old(Quiet(4))
              && schedule(old(clock) + 4) != FailsBefore ==>
                AtRename(old(clock) + 4, old(product))
      ensures t != Product && Acceptable(old(Entry(t)), expected) && |data| <= MAX_JSON && old(Quiet(9)) ==>
                clock == old(clock) + 9 && faults == old(faults) && changes == old(changes)
      ensures candidate.Some? ==> candidate.value.inode in created
    {
      var before := Lstat(t);
      if before.Raised? || (before.value.Some? && !before.value.value.safe) {
        return false, None;
      }
      if expected.Exactly? && expected.identity != IdentityOf(before.value) {
        return false, None;
      }
      ok, candidate := WriteOver(t, data, mode, before.value);
    }

    /** Its second half, from the temporary file to the removal of what is left of it. */
    method WriteOver(t: Target, data: Bytes, mode: nat, before: Option<File>)
        returns (ok: bool, candidate: Option<Stable>)
      modifies `clock, `product, `recovery, `recoveryTemporaries, `unusedInode, `created, `faults, `changes,
               `displaced, `lost
      ensures faults >= old(faults) && changes >= old(changes) && old(created) <= created
      ensures old(lost) <= lost && old(displaced) <= displaced
      ensures ok ==> faults == old(faults)
      ensures faults == old(faults) && changes == old(changes) && |data| <= MAX_JSON && before == old(Entry(t)) ==> ok
      ensures ok && (changes == old(changes) || t != Product) ==> HasContent(Entry(t), data, mode)
      ensures changes == old(changes) || t != Product ==>
                || Entry(t) == old(Entry(t))
                || (&& HasContent(Entry(t), data, mode) && candidate == Some(Entry(t).value.Core())
                    && Entry(t).value.inode in created)
      ensures t == Product ==> recovery == old(recovery) && recoveryTemporaries == old(recoveryTemporaries)
      ensures t != Product ==> displaced == old(displaced) && lost == old(lost)
      ensures t != Product && changes == old(changes) ==> product == old(product)
      ensures t != Product ==> OnlyChanged(old(recovery), recovery, t.name)
      ensures displaced <= old(displaced) + InodeOf(before) + lost && (old(LostIsForeign()) ==> LostIsForeign())
      ensures t == Product && before == old(product) && old(Quiet(3)) && schedule(old(clock) + 3) != FailsBefore ==>
                AtRename(old(clock) + 3, old(product))
      ensures t != Product && before == old(Entry(t)) && |data| <= MAX_JSON && old(Quiet(8)) ==>
                clock == old(clock) + 8 && faults == old(faults) && changes == old(changes)
      ensures candidate.Some? ==> candidate.value.inode in created
    {
      var temporary := WriteTemporary(t, data, mode);
      if temporary.Raised? {
        return false, None;
      }
      candidate := Some(temporary.value.Core());
      ok := Commit(t, temporary.value, before);
      var dropped := Drop(t, temporary.value.inode);
      ok := ok && dropped;
    }

    /** finally: temporary.unlink(missing_ok=True) */
    method Drop(t: Target, inode: nat) returns (ok: bool)
      modifies `clock, `product, `recoveryTemporaries, `faults, `changes
      ensures clock == old(clock) + 1 && ok == (schedule(old(clock)) == Works)
      ensures faults == old(faults) + if ok then 0 else 1
      ensures changes == old(changes) + if foreign(old(clock)) == None then 0 else 1
      ensures changes == old(changes) ==> product == old(product)
      ensures t == Product ==> recoveryTemporaries == old(recoveryTemporaries)
    {
      var f := Call();
      if f != FailsBefore && t != Product {
        recoveryTemporaries := recoveryTemporaries - {inode};
      }
      ok := f == Works;
    }

    // ----------------------------------------------------------- publish_single

    /** How many calls a snapshot takes. */
    function SnapshotCalls(f: Option<File>): nat { if f.Some? then 3 else 1 }

    /** How many calls it takes to save it. */
    function SavingCalls(f: Option<File>): nat { if f.Some? then 20 else 11 }

    /** How many calls come before the rename of the new product. */
    function RenameTime(f: Option<File>): nat { SnapshotCalls(f) + 1 + SavingCalls(f) + 4 }

    method PublicationState() returns (r: Result<Option<File>>)
      modifies `clock, `product, `faults, `changes
      ensures faults >= old(faults) && changes >= old(changes) && (r.Ok? ==> faults == old(faults))
      ensures changes == old(changes) ==> product == old(product) && (r.Ok? ==> r.value == product)
      ensures faults == old(faults) && changes == old(changes) && Publishable(old(product)) ==> r.Ok?
      ensures r.Ok? ==> Publishable(r.value)
      ensures Publishable(old(product)) && old(Quiet(SnapshotCalls(product))) ==>
                clock == old(clock) + SnapshotCalls(old(product)) && faults == old(faults) && changes == old(changes)
    {
      var info := Lstat(Product);
      if info.Raised? || info.value == None {
        return info;
      }
      if !info.value.value.safe {
        return Raised("unsafe inventory output");
      }
      var data := Read(Product);
      if data.Raised? {
        return Raised(data.reason);
      }
      var again := Lstat(Product);
      if again.Raised? || IdentityOf(info.value) != IdentityOf(again.value) {
        return Raised("inventory output changed while taking its snapshot");
      }
      return Ok(Some(info.value.value.(data := data.value)));
    }

    /** The body of the exception handler: prove that the old state stands, or restore it. */
    method Restore(previous: Option<File>, data: Bytes, candidate: Option<Stable>) returns (ok: bool)
      requires Publishable(previous)
      modifies `clock, `product, `recovery, `recoveryTemporaries, `unusedInode, `created, `faults, `changes,
               `displaced, `lost
      ensures faults >= old(faults) && changes >= old(changes) && old(created) <= created
      ensures old(lost) <= lost && old(displaced) <= displaced
      ensures faults == old(faults) && changes == old(changes) && |data| <= MAX_JSON
              && (|| old(product) == previous
                  || (HasContent(old(product), data, 420) && candidate == Some(old(product).value.Core())))
              ==> ok
      ensures ok && changes == old(changes) ==> SameContent(product, previous)
      ensures changes == old(changes) ==> product == old(product) || SameContent(product, previous)
      ensures recovery == old(recovery)
      ensures displaced <= old(displaced) + (if candidate.Some? then {candidate.value.inode} else {}) + lost
              && (old(LostIsForeign()) ==> LostIsForeign())
    {
      var current := PublicationState();
      if current.Raised? {
        return false;
      }
      if current.value == previous {
        return true;
      }
      if current.value == None || current.value.value.data != data || Some(current.value.value.Core()) != candidate {
        return false;
      }
      if previous == None {
        ok := Withdraw(current.value.value);
      } else {
        var receipt;
        ok, receipt := AtomicWrite(Product, previous.value.data, previous.value.mode,
            Exactly(IdentityOf(current.value)));
      }
      if ok {
        var restored := PublicationState();
        ok := restored.Ok? && SameContent(restored.value, previous);
      }
    }

    /** Removes this run's own publication after restating its identity. */
    method Withdraw(current: File) returns (ok: bool)
      modifies `clock, `product, `faults, `changes, `displaced, `lost
      ensures faults >= old(faults) && changes >= old(changes) && old(lost) <= lost && old(displaced) <= displaced
      ensures faults == old(faults) && changes == old(changes) && old(product) == Some(current) ==> ok
      ensures ok ==> changes == old(changes) ==> product == None
      ensures changes == old(changes) ==> product in {old(product), None}
      ensures displaced <= old(displaced) + {current.inode} + lost && (old(LostIsForeign()) ==> LostIsForeign())
    {
      var info := Lstat(Product);
      if info.Raised? || IdentityOf(info.value) != Some(current.Identity()) {
        return false;
      }
      ok := UnlinkProduct();
      if ok {
        ok := Sync();
      }
      if ok {
        ok := Sync();
      }
    }

    /** Everything between mkdtemp and the first write to the product. */
    method SavePrevious(previous: Option<File>, note: Bytes) returns (ok: bool)
      requires Publishable(previous) && |note| <= MAX_JSON && recovery == map[]
      modifies `clock, `product, `recovery, `recoveryTemporaries, `unusedInode, `created, `faults, `changes,
               `displaced, `lost
      ensures faults >= old(faults) && changes >= old(changes) && old(created) <= created
      ensures displaced == old(displaced) && lost == old(lost)
      ensures changes == old(changes) ==> product == old(product)
      ensures ok ==> faults == old(faults) && Holds(recovery, previous)
      ensures faults == old(faults) && changes == old(changes) ==> ok
      ensures old(Quiet(SavingCalls(previous))) ==>
                clock == old(clock) + SavingCalls(previous) && faults == old(faults) && changes == old(changes)
    {
      ok := true;
      var receipt;
      if previous.Some? {
        ok, receipt := AtomicWrite(Recovery(SAVED), previous.value.data, 384, Unspecified);
      }
      if ok {
        ok, receipt := AtomicWrite(Recovery(NOTE), note, 384, Unspecified);
      }
      if ok {
        ok := Sync();
      }
      if ok {
        ok := Sync();
      }
    }

    /** The finally clause of a run that retains nothing. */
    method Discard() returns (ok: bool)
      modifies `clock, `product, `recovery, `recoveryTemporaries, `recoveryExists, `faults, `changes
      ensures faults >= old(faults) && changes >= old(changes) && (ok <==> faults == old(faults))
      ensures changes == old(changes) ==> product == old(product)
      ensures ok ==> !recoveryExists
      ensures old(recoveryExists) ==> Settled()
    {
      while recovery != map[] || recoveryTemporaries != {}
        invariant faults == old(faults) && changes >= old(changes) && recoveryExists == old(recoveryExists)
        invariant changes == old(changes) ==> product == old(product)
        decreases |recovery| + |recoveryTemporaries|
      {
        var f := Call();
        if f == FailsBefore {
          return false;
        }
        if recovery != map[] {
          var name :| name in recovery;
          recovery := recovery - {name};
        } else {
          var inode :| inode in recoveryTemporaries;
          recoveryTemporaries := recoveryTemporaries - {inode};
        }
        if f == FailsAfter {
          return false;
        }
      }
      var f := Call();
      if f != FailsBefore {
        recoveryExists := false;
      }
      if f != Works {
        return false;
      }
      ok := Sync();
    }

    /** `publish_single`. `previous` is the snapshot it took; octal 0644 is 420. */
    method PublishSingle(data: Bytes, note: Bytes) returns (verdict: Verdict, ghost previous: Option<File>)
      requires !recoveryExists && Settled() && LostIsForeign()
      requires |note| <= MAX_JSON
      modifies this
      ensures faults >= old(faults) && changes >= old(changes) && old(created) <= created
      ensures old(lost) <= lost && old(displaced) <= displaced
      ensures verdict == Unknown ==> recoveryExists && Holds(recovery, previous)
      ensures Settled() && LostIsForeign() && (verdict in {Published, AlreadyCurrent} ==> !recoveryExists)
      // Without foreign changes the product is exactly the new bytes or exactly the previous state.
      ensures changes == old(changes) ==>
                HasContent(product, data, 420) || SameContent(product, old(product)) || product == old(product)
      ensures changes == old(changes) && verdict in {Published, AlreadyCurrent} ==> HasContent(product, data, 420)
      ensures changes == old(changes) && verdict == Unknown ==> previous == old(product)
      // A file that is neither the previous one nor this process's own is displaced exactly when a
      // foreign change put it there between a check and the rename or unlink that relies on it.
      ensures forall i :: i !in old(displaced) + InodeOf(previous) + created ==> (i in displaced <==> i in lost)
      // At the rename that happens to whatever file appears there.
      ensures var time := old(clock) + RenameTime(old(product));
              && Publishable(old(product)) && !HasContent(old(product), data, 420) && |data| <= MAX_JSON
              && old(Quiet(RenameTime(product))) && schedule(time) != FailsBefore
              ==> AtRename(time, old(product))
      // Progress, and recovery from any single fault.
      ensures changes == old(changes) && Publishable(old(product)) && |data| <= MAX_JSON ==>
                && (faults == old(faults) ==> verdict in {Published, AlreadyCurrent})
                && (faults <= old(faults) + 1 ==> verdict != Unknown)
    {
      previous := None;
      if |data| > MAX_JSON {
        return Failed, None;
      }
      var snapshot := PublicationState();
      if snapshot.Raised? {
        return Failed, None;
      }
      previous := snapshot.value;
      if HasContent(snapshot.value, data, 420) {
        return AlreadyCurrent, previous;
      }
      var f := Call();
      recoveryExists := f != FailsBefore;
      if f != Works {
        return Failed, previous;
      }
      verdict := ReplaceUnderRecovery(snapshot.value, data, note);
    }

    /** All of it once the recovery directory exists. */
    method ReplaceUnderRecovery(previous: Option<File>, data: Bytes, note: Bytes) returns (verdict: Verdict)
      requires recoveryExists && recovery == map[] && LostIsForeign()
      requires Publishable(previous) && |data| <= MAX_JSON && |note| <= MAX_JSON
      modifies this
      ensures faults >= old(faults) && changes >= old(changes) && old(created) <= created && verdict != AlreadyCurrent
      ensures old(lost) <= lost && old(displaced) <= displaced
      ensures Settled() && LostIsForeign() && (verdict == Published ==> !recoveryExists)
      ensures verdict == Unknown ==> recoveryExists && Holds(recovery, previous)
      ensures changes == old(changes) && old(product) == previous ==>
                && (HasContent(product, data, 420) || SameContent(product, previous) || product == previous)
                && (verdict == Published ==> HasContent(product, data, 420))
                && (faults == old(faults) ==> verdict == Published)
                && (faults <= old(faults) + 1 ==> verdict != Unknown)
      ensures displaced <= old(displaced) + InodeOf(previous) + created + lost
      ensures var time := SavingCalls(previous) + 4;
              old(product) == previous && old(Quiet(SavingCalls(previous) + 4))
              && schedule(old(clock) + time) != FailsBefore
              ==> AtRename(old(clock) + time, previous)
    {
      verdict := Published;
      var saved := SavePrevious(previous, note);
      if !saved {
        verdict := Failed;
      } else {
        verdict := ReplaceProduct(previous, data);
      }
      if verdict != Unknown {
        var discarded := Discard();
        if !discarded {
          verdict := Failed;
        }
      }
    }

    /** The publication proper and its exception handler. */
    method ReplaceProduct(previous: Option<File>, data: Bytes) returns (verdict: Verdict)
      requires Publishable(previous) && |data| <= MAX_JSON
      modifies `clock, `product, `recovery, `recoveryTemporaries, `unusedInode, `created, `faults, `changes,
               `displaced, `lost
      ensures faults >= old(faults) && changes >= old(changes) && old(created) <= created
      ensures old(lost) <= lost && old(displaced) <= displaced
      ensures recovery == old(recovery) && verdict != AlreadyCurrent
      ensures changes == old(changes) && old(product) == previous ==>
                && (verdict == Published ==> HasContent(product, data, 420))
                && (verdict == Failed ==> SameContent(product, previous))
                && (HasContent(product, data, 420) || SameContent(product, previous))
                && (faults == old(faults) ==> verdict == Published)
                && (faults <= old(faults) + 1 ==> verdict != Unknown)
      ensures displaced <= old(displaced) + InodeOf(previous) + created + lost
              && (old(LostIsForeign()) ==> LostIsForeign())
      ensures old(product) == previous && old(Quiet(4)) && schedule(old(clock) + 4) != FailsBefore ==>
                AtRename(old(clock) + 4, previous)
    {
      var written, candidate := AtomicWrite(Product, data, 420, Exactly(IdentityOf(previous)));
      if written {
        return Published;
      }
      var restored := Restore(previous, data, candidate);
      verdict := if restored then Failed else Unknown;
    }

    // -------------------------------------------------------------- whole runs

    /** `generation_lock`: with the lock held, refuses to run beside retained recovery material. */
    method GenerationLock() returns (ok: bool)
      modifies `clock, `product, `faults, `changes
      ensures faults >= old(faults) && changes >= old(changes)
      ensures changes == old(changes) ==> product == old(product)
      ensures ok <==> faults == old(faults) && !recoveryExists
    {
      // open, flock, and the scan for .inventory-recovery-*
      for i := 0 to 3
        invariant faults == old(faults) && changes >= old(changes)
        invariant changes == old(changes) ==> product == old(product)
      {
        ok := Sync();
        if !ok {
          return;
        }
      }
      ok := !recoveryExists;
    }

    method Run(data: Bytes, note: Bytes) returns (verdict: Verdict, ghost previous: Option<File>)
      requires Settled() && LostIsForeign() && |note| <= MAX_JSON
      modifies this
      ensures Settled() && LostIsForeign()
      ensures old(recoveryExists) ==>
                verdict == Failed && recoveryExists && recovery == old(recovery) && displaced == old(displaced)
      ensures old(recoveryExists) && changes == old(changes) ==> product == old(product)
      ensures verdict == Unknown ==> recoveryExists && Holds(recovery, previous)
      ensures changes >= old(changes)
      ensures changes == old(changes) ==>
                HasContent(product, data, 420) || SameContent(product, old(product)) || product == old(product)
    {
      previous := None;
      var locked := GenerationLock();
      if !locked {
        return Failed, None;
      }
      verdict, previous := PublishSingle(data, note);
    }

    /** Any sequence of runs: once a run ends uncertain, its recovery material stands and
        every later run is refused. */
    method Runs(batches: seq<Bytes>, note: Bytes) returns (verdicts: seq<Verdict>, ghost snapshots: seq<Option<File>>)
      requires Settled() && LostIsForeign() && |note| <= MAX_JSON
      modifies this
      ensures Settled() && LostIsForeign()
      ensures |verdicts| == |snapshots| == |batches|
      ensures forall i, j :: 0 <= i < j < |verdicts| && verdicts[i] == Unknown ==> verdicts[j] == Failed
      ensures forall i :: 0 <= i < |verdicts| && verdicts[i] == Unknown ==>
                recoveryExists && Holds(recovery, snapshots[i])
    {
      verdicts, snapshots := [], [];
      for i := 0 to |batches|
        invariant |verdicts| == |snapshots| == i && Settled() && LostIsForeign()
        invariant forall i, j :: 0 <= i < j < |verdicts| && verdicts[i] == Unknown ==> verdicts[j] == Failed
        invariant forall i :: 0 <= i < |verdicts| && verdicts[i] == Unknown ==>
                    recoveryExists && Holds(recovery, snapshots[i])
      {
        var verdict, previous := Run(batches[i], note);
        verdicts, snapshots := verdicts + [verdict], snapshots + [previous];
      }
    }
  }

  /** A foreign file that appears right before the rename is lost, although every call works. */
  method LoseForeignFile(previous: Option<File>, stranger: File, data: Bytes, note: Bytes) returns (s: Store)
    requires Publishable(previous) && !HasContent(previous, data, 420) && |data| <= MAX_JSON && |note| <= MAX_JSON
    requires previous.Some? ==> stranger.inode != previous.value.inode
    ensures stranger.inode in s.displaced && stranger.inode in s.lost && forall k :: s.schedule(k) == Works
  {
    var time := if previous.Some? then 28 else 17;
    s := new Store(_ => Works, k => if k == time then Some(Some(stranger)) else None, previous);
    var verdict, snapshot := s.PublishSingle(data, note);
  }
}
