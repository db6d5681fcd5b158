/** Transactional report publication: class `ReportFiles` of the collectors.

    The report directory and the private staging directory are maps from names
    to inode numbers. Every system call consults a fault schedule: it works, it
    fails without effect, or it takes effect and still reports a failure (which
    also stands for an interruption right after it). */
module ReportFiles {
  import opened Faults
  import opened Lists
  import opened Outcomes

  /** Report names are identified with their suffix; these are the staging names. */
  datatype StageName = Fresh(suffix: string) | Backup(suffix: string) | Checkpoint

  type Directory = map<string, nat>

  function Entry(d: Directory, s: string): Option<nat> { if s in d then Some(d[s]) else None }

  /** A new JSON report is never visible beside an old companion report. */
  ghost predicate Coherent(d: Directory, staged: map<string, nat>) {
    "json" in staged && Entry(d, "json") == Some(staged["json"]) ==>
      forall s :: s in staged ==> Entry(d, s) == Some(staged[s])
  }

  ghost predicate AllCoherent(history: seq<Directory>, staged: map<string, nat>) {
    forall i :: 0 <= i < |history| ==> Coherent(history[i], staged)
  }

  /** The previous inode of every report is still linked, by its name or its backup. */
  ghost predicate Recoverable(before: Directory, root: Directory, stage: map<StageName, nat>) {
    forall s :: s in before ==>
        Entry(root, s) == Some(before[s]) || (Backup(s) in stage && stage[Backup(s)] == before[s])
  }

  /** Nothing but faults can stop these reports from being backed up and replaced. */
  ghost predicate Replaceable(root: Directory, stage: map<StageName, nat>, refused: set<nat>, suffixes: seq<string>) {
    && Distinct(suffixes)
    && forall s :: s in suffixes ==> Backup(s) !in stage && (s in root ==> SoleLink(root, stage, refused, s))
  }

  /** Backing up one replaceable report leaves the rest replaceable. */
  lemma NextReplaceable(root: Directory, stage: map<StageName, nat>, refused: set<nat>, suffixes: seq<string>)
    requires suffixes != [] && Replaceable(root, stage, refused, suffixes)
    ensures Replaceable(root, stage, refused, [suffixes[0]])
    ensures Replaceable(root, stage, refused, suffixes[1..])
    ensures suffixes[0] in root ==>
              Replaceable(root, stage[Backup(suffixes[0]) := root[suffixes[0]]], refused, suffixes[1..])
  {
    var s, rest := suffixes[0], suffixes[1..];
    assert s !in rest;
    assert forall t :: t in rest ==> t in suffixes && t != s;
  }

  /** What `existing` demands of a report: an acceptable inode without a second link. */
  predicate SoleLink(root: Directory, stage: map<StageName, nat>, refused: set<nat>, s: string)
    requires s in root
  {
    && root[s] !in refused
    && (forall t :: t in root && t != s ==> root[t] != root[s])
    && (forall n :: n in stage ==> stage[n] != root[s])
  }

  function Companions(suffixes: seq<string>): (r: seq<string>)
    ensures forall s :: s in r <==> s in suffixes && s != "json"
  {
    if suffixes == [] then []
    else if suffixes[0] == "json" then Companions(suffixes[1..])
    else [suffixes[0]] + Companions(suffixes[1..])
  }

  lemma {:induction false} CompanionsDistinct(suffixes: seq<string>)
    requires Distinct(suffixes)
    ensures Distinct(Companions(suffixes))
    ensures Distinct(Companions(suffixes) + ["json"])
  {
    if suffixes != [] {
      assert forall s :: s in suffixes[1..] ==> exists j :: 1 <= j < |suffixes| && suffixes[j] == s;
      assert suffixes[0] !in suffixes[1..];
      CompanionsDistinct(suffixes[1..]);
      assert forall s :: s in Companions(suffixes[1..]) ==> s in suffixes[1..];
      var c := Companions(suffixes);
      assert forall i :: 0 <= i < |c| ==> c[i] in c;
    }
  }

  /** The order of publication: the companions in their order, then JSON. */
  function PublishOrder(suffixes: seq<string>): (r: seq<string>)
    requires "json" in suffixes
    ensures forall s :: s in r <==> s in suffixes
    ensures r[|r| - 1] == "json"
  {
    Companions(suffixes) + ["json"]
  }

  /** How `publish` ends: normally, raising with the previous reports restored, or
      raising with the recovery material retained. */
  datatype Ending = Complete | Undone | Uncertain

  // ------------------------------------------------------------------ states

  /** All a publication can observe or change. */
  datatype View = View(root: Directory, stage: map<StageName, nat>, owned: set<StageName>, leaked: set<StageName>,
                       history: seq<Directory>, staged: map<string, nat>)

  /** Facts about `before` and the staged inodes that no step changes. */
  ghost predicate Setting(v: View, before: Directory) {
    && "json" in v.staged
    && (forall s, t :: s in v.staged && t in before ==> v.staged[s] != before[t])
    && (forall s :: s !in v.staged ==> Entry(v.root, s) == Entry(before, s))
    && (forall n :: n in v.stage ==> n in v.owned || n in v.leaked)
    && AllCoherent(v.history, v.staged)
  }

  /** The recorded identities of the reports in `done` are those of the staged files. */
  ghost predicate IdentitiesOf(published: map<string, nat>, staged: map<string, nat>, done: set<string>) {
    forall s :: s in done ==> s in published && s in staged && published[s] == staged[s]
  }

  lemma OneIdentityMore(published: map<string, nat>, staged: map<string, nat>, done: set<string>, s: string)
    requires IdentitiesOf(published, staged, done) && s in staged
    ensures IdentitiesOf(published[s := staged[s]], staged, done + {s})
  {
  }

  /** Every backup on record exists. */
  ghost predicate RecordsHold(v: View) { forall s :: Backup(s) in v.owned ==> Backup(s) in v.stage }

  ghost predicate AllNew(v: View) { forall s :: s in v.staged ==> Entry(v.root, s) == Some(v.staged[s]) }

  /** Every report is its previous inode or its new one, and nothing is lost. */
  ghost predicate Midway(v: View, before: Directory) {
    && Setting(v, before)
    && (forall s :: s in v.staged ==> Entry(v.root, s) == Entry(before, s) || Entry(v.root, s) == Some(v.staged[s]))
    && Coherent(v.root, v.staged)
    && Recoverable(before, v.root, v.stage)
  }

  /** The forward loop has published exactly the reports in `done`. */
  ghost predicate Forward(v: View, before: Directory, done: set<string>) {
    && Setting(v, before)
    && (forall s :: s in v.staged ==> Entry(v.root, s) == if s in done then Some(v.staged[s]) else Entry(before, s))
    && (forall s :: s in v.staged && s !in done ==> Fresh(s) in v.stage && v.stage[Fresh(s)] == v.staged[s])
    && (forall s :: s in v.staged && s in before ==> Backup(s) in v.stage && v.stage[Backup(s)] == before[s])
    && ("json" in done ==> v.staged.Keys <= done)
  }

  /** Rollback still has to look at the reports in `left`; every other one is previous. */
  ghost predicate Undoing(v: View, before: Directory, left: set<string>) {
    && Midway(v, before)
    && (forall s :: s in v.staged && s !in left ==> Entry(v.root, s) == Entry(before, s))
  }

  lemma ForwardIsMidway(v: View, before: Directory, done: set<string>)
    requires Forward(v, before, done)
    ensures Undoing(v, before, done)
  {
    if Entry(v.root, "json") == Some(v.staged["json"]) {
      assert "json" in done;
    }
  }

  /** The reports are untouched and those in `done` are backed up. */
  ghost predicate Linking(v: View, before: Directory, done: set<string>) {
    && Setting(v, before) && v.root == before
    && (forall s :: s in v.staged ==> Fresh(s) in v.stage && v.stage[Fresh(s)] == v.staged[s])
    && (forall s :: s in done && s in before ==> Backup(s) in v.stage && v.stage[Backup(s)] == before[s])
  }

  /** A completed backup of one report, if it exists. */
  function Linked(v: View, s: string): View {
    if s in v.root
    then v.(stage := v.stage[Backup(s) := v.root[s]], owned := v.owned + {Backup(s)})
    else v
  }

  /** Nobody has those links on record, and they hold previous reports. */
  ghost predicate LeaksStand(v: View, before: Directory) {
    forall n :: n in v.leaked ==>
      n.Backup? && n !in v.owned && n in v.stage && n.suffix in before && v.stage[n] == before[n.suffix]
  }

  /** The views of the backup loop: what it keeps, and where it may end. */
  ghost function BackedUp(before: Directory, done: set<string>): iset<View> {
    iset v | Linking(v, before, done) && RecordsHold(v) && v.leaked == {}
  }

  ghost function Untouched(before: Directory): iset<View> {
    iset v | Midway(v, before) && RecordsHold(v) && LeaksStand(v, before) && v.root == before
  }

  /** The views in which all reports are staged and nothing has been published. */
  ghost function Prepared(suffixes: seq<string>): iset<View> {
    iset v: View |
      && Linking(v, v.root, {}) && v.leaked == {} && (forall s :: s in v.staged <==> s in suffixes)
      && (forall n :: n in v.stage <==> n in v.owned) && (forall s :: Backup(s) !in v.stage)
  }

  /** The views that a publication may leave: nothing is lost, and leaked links stand. */
  ghost function Midways(before: Directory): iset<View> { iset v | Midway(v, before) && LeaksStand(v, before) }

  /** The views whose leaked links stand. */
  ghost function Leaking(before: Directory): iset<View> { iset v | LeaksStand(v, before) }

  /** Apart from backups there is nothing in this stage that was not in the other one. */
  ghost predicate OnlyBackupsAdded(stage: map<StageName, nat>, later: map<StageName, nat>) {
    forall n :: n in later && !n.Backup? ==> n in stage && later[n] == stage[n]
  }

  /** A backup link whose call reported a failure, so that nobody recorded it. */
  function HalfLinked(v: View, s: string): View {
    if s in v.root
    then v.(stage := v.stage[Backup(s) := v.root[s]], leaked := v.leaked + {Backup(s)})
    else v
  }

  lemma LinkingIsMidway(v: View, before: Directory, done: set<string>)
    requires Linking(v, before, done)
    ensures Midway(v, before)
    ensures v.staged.Keys <= done ==> Forward(v, before, {})
  {
    if "json" in before {
      assert v.staged["json"] != before["json"];
    }
  }

  lemma LinkedKeeps(v: View, before: Directory, done: set<string>, s: string)
    requires Linking(v, before, done)
    ensures Linking(Linked(v, s), before, done + {s}) && Midway(Linked(v, s), before)
    ensures Midway(HalfLinked(v, s), before)
  {
    assert Linking(HalfLinked(v, s), before, done);
    LinkingIsMidway(Linked(v, s), before, done + {s});
    LinkingIsMidway(HalfLinked(v, s), before, done);
  }

  lemma BackupIsUntouched(v: View, before: Directory, done: set<string>, s: string)
    requires v in BackedUp(before, done)
    ensures v in Untouched(before) && Linked(v, s) in Untouched(before) && Linked(v, s) in BackedUp(before, done + {s})
    ensures Backup(s) !in v.stage ==> HalfLinked(v, s) in Untouched(before)
  {
    LinkingIsMidway(v, before, done);
    LinkedKeeps(v, before, done, s);
  }

  lemma ReadyToBackUp(v: View, suffixes: seq<string>)
    requires v in Prepared(suffixes)
    ensures v in BackedUp(v.root, {}) && v in Midways(v.root) && forall s :: s in v.staged <==> s in suffixes
  {
    LinkingIsMidway(v, v.root, {});
  }

  /** Apart from backups nothing is off the record. */
  ghost predicate OnlyBackupsDropped(owned: set<StageName>, later: set<StageName>) {
    forall n :: n in owned && !n.Backup? ==> n in later
  }

  lemma MidwayMeans(v: View, before: Directory)
    requires v in Midways(before)
    ensures AllCoherent(v.history, v.staged) && Recoverable(before, v.root, v.stage) && v in Leaking(before)
  {
  }

  lemma OnlyBackupsMoved(u: View, v: View, w: View)
    requires OnlyBackupsAdded(u.stage, v.stage) && OnlyBackupsAdded(v.stage, w.stage)
    requires u.history <= v.history <= w.history
    ensures OnlyBackupsAdded(u.stage, w.stage) && u.history <= w.history
    ensures u.owned <= v.owned && OnlyBackupsDropped(v.owned, w.owned) ==> OnlyBackupsDropped(u.owned, w.owned)
  {
  }

  /** The effect of one rename of the forward loop. */
  function Published(v: View, s: string): View
    requires Fresh(s) in v.stage
  {
    var root := v.root[s := v.stage[Fresh(s)]];
    v.(root := root, stage := v.stage - {Fresh(s)}, history := v.history + [root])
  }

  lemma PublishedTakes(v: View, s: string)
    requires Fresh(s) in v.stage
    ensures OnlyBackupsAdded(v.stage, v.stage) && OnlyBackupsAdded(v.stage, Published(v, s).stage)
    ensures RecordsHold(v) ==> RecordsHold(Published(v, s)) && RecordsHold(Released(Published(v, s), s))
  {
  }

  function Released(v: View, s: string): View { v.(owned := v.owned - {Fresh(s)}) }

  /** In a duplicate-free list the next element is not among those before it. */
  lemma NextIsNew(order: seq<string>, k: nat)
    requires k < |order| && Distinct(order)
    ensures order[k] !in order[..k] && order[..k + 1] == order[..k] + [order[k]]
  {
  }

  lemma OneElementMore(list: seq<string>, s: string)
    ensures Elements(list + [s]) == Elements(list) + {s}
  {
  }

  /** The next report to publish is new, and JSON comes when all others are done. */
  lemma NextOf(suffixes: seq<string>, replaced: seq<string>)
    requires "json" in suffixes && Distinct(suffixes)
    requires replaced <= PublishOrder(suffixes) && |replaced| < |PublishOrder(suffixes)|
    ensures var s := PublishOrder(suffixes)[|replaced|];
            && s in suffixes && s !in replaced && replaced + [s] <= PublishOrder(suffixes)
            && Elements(replaced + [s]) == Elements(replaced) + {s}
            && (s == "json" ==> forall t :: t in suffixes ==> t in Elements(replaced) + {s})
  {
    var order, k := PublishOrder(suffixes), |replaced|;
    CompanionsDistinct(suffixes);
    NextIsNew(order, k);
    assert replaced == order[..k] && order[k] in order;
    if order[k] == "json" {
      assert k == |order| - 1;
      assert order == replaced + [order[k]];
    }
  }

  /** Undoing a prefix of the publication order from its end meets JSON first. */
  lemma LastOf(suffixes: seq<string>, replaced: seq<string>, k: nat)
    requires "json" in suffixes && Distinct(suffixes) && replaced <= PublishOrder(suffixes)
    requires k < |replaced|
    ensures replaced[k] in suffixes && replaced[k] in replaced
    ensures "json" in replaced[..k + 1] ==> replaced[k] == "json"
    ensures Elements(replaced[..k + 1]) - {replaced[k]} == Elements(replaced[..k])
  {
    var order := PublishOrder(suffixes);
    CompanionsDistinct(suffixes);
    NextIsNew(order, k);
    assert replaced[k] == order[k] && replaced[..k] == order[..k] && order[k] in order;
    assert replaced[..k + 1] == replaced[..k] + [replaced[k]];
  }

  lemma PublishedIsForward(v: View, before: Directory, done: set<string>, s: string)
    requires Forward(v, before, done)
    requires s in v.staged && s !in done
    requires s == "json" ==> v.staged.Keys <= done + {s}
    ensures Forward(Published(v, s), before, done + {s})
    ensures Forward(Released(Published(v, s), s), before, done + {s})
  {
    var w := Published(v, s);
    assert Entry(w.root, "json") == Some(v.staged["json"]) ==> "json" in done + {s};
    assert Coherent(w.root, w.staged);
  }

  /** The effect of restoring one report that was replaced. */
  function Restored(v: View, before: Directory, s: string): View
    requires s in before ==> Backup(s) in v.stage
  {
    var root := if s in before then v.root[s := v.stage[Backup(s)]] else v.root - {s};
    v.(root := root, stage := if s in before then v.stage - {Backup(s)} else v.stage, history := v.history + [root])
  }

  function Recorded(v: View, before: Directory, s: string): View {
    if s in before then v.(owned := v.owned - {Backup(s)}) else v
  }

  lemma RestoredIsUndoing(v: View, before: Directory, left: set<string>, s: string)
    requires Undoing(v, before, left)
    requires s in v.staged && Entry(v.root, s) != Entry(before, s)
    requires "json" in left ==> s == "json"
    ensures s in before ==> Backup(s) in v.stage && v.stage[Backup(s)] == before[s]
    ensures Undoing(Restored(v, before, s), before, left - {s})
    ensures Undoing(Recorded(Restored(v, before, s), before, s), before, left - {s})
  {
    var w := Restored(v, before, s);
    RestoredIsCoherent(v, before, left, s);
    RecordedIsUndoing(w, before, left - {s}, s);
  }

  lemma RestoredIsCoherent(v: View, before: Directory, left: set<string>, s: string)
    requires Undoing(v, before, left)
    requires s in v.staged && Entry(v.root, s) != Entry(before, s)
    requires "json" in left ==> s == "json"
    ensures s in before ==> Backup(s) in v.stage && v.stage[Backup(s)] == before[s]
    ensures Entry(Restored(v, before, s).root, s) == Entry(before, s)
    ensures Coherent(Restored(v, before, s).root, v.staged)
  {
    var w := Restored(v, before, s);
    if "json" in before {
      assert v.staged["json"] != before["json"];
    }
    assert Entry(w.root, "json") == Entry(before, "json");
  }

  lemma RecordedIsUndoing(v: View, before: Directory, left: set<string>, s: string)
    requires Undoing(v, before, left) && (s in before ==> Backup(s) !in v.stage)
    ensures Undoing(Recorded(v, before, s), before, left)
  {
  }

  /** Restoring nothing leaves leaked links alone. */
  lemma LeaksStay(v: View, w: View, before: Directory)
    requires v in Leaking(before) && Midway(w, before) && w.leaked == v.leaked
    requires v.leaked != {} ==> w.stage == v.stage && w.owned == v.owned
    ensures w in Midways(before)
  {
  }

  /** Dropping recorded backups leaves the restored reports and the leaked links alone. */
  lemma DroppedIsMidway(v: View, w: View, before: Directory)
    requires v in Midways(before) && v.root == before && w == v.(stage := w.stage, owned := w.owned)
    requires forall n :: n in w.stage ==> n in v.stage && w.stage[n] == v.stage[n]
    requires forall n :: n in w.stage && n !in w.owned ==> n !in v.owned
    requires forall n :: n in v.stage && n !in v.owned ==> n in w.stage && n !in w.owned
    ensures w in Midways(before)
    ensures (forall s :: Backup(s) !in w.owned) ==> forall s :: Backup(s) in w.stage <==> Backup(s) in w.leaked
  {
  }

  lemma NothingLeft(v: View, before: Directory)
    requires Undoing(v, before, {})
    ensures v.root == before
  {
    forall s ensures Entry(v.root, s) == Entry(before, s) {
      if s in v.staged {
        assert s !in {};
      }
    }
    assert forall s :: s in v.root <==> s in before by {
      forall s ensures s in v.root <==> s in before {
        assert Entry(v.root, s) == Entry(before, s);
      }
    }
    forall s | s in before ensures v.root[s] == before[s] {
      assert Entry(v.root, s) == Entry(before, s);
    }
  }

  /** The given files are staged, with inodes numbered from `base` to `unused`. */
  ghost predicate Opening(v: View, files: seq<string>, base: nat, unused: nat) {
    && v.history == [v.root] && v.leaked == {}
    && (forall s :: s in v.root ==> v.root[s] < base)
    && (forall s :: s in v.staged <==> s in files)
    && (forall n :: n in v.stage <==> n in v.owned)
    && (forall n :: n in v.stage ==> n.Fresh? && n.suffix in v.staged && base <= v.stage[n] < unused)
    && (forall s :: s in v.staged ==> Fresh(s) in v.stage && v.stage[Fresh(s)] == v.staged[s] >= base)
  }

  lemma OpenedOne(v: View, files: seq<string>, base: nat, unused: nat, s: string)
    requires Opening(v, files, base, unused) && s !in files && base <= unused
    ensures Fresh(s) !in v.stage
    ensures var w := v.(stage := v.stage[Fresh(s) := unused], owned := v.owned + {Fresh(s)},
                        staged := v.staged[s := unused]);
            Opening(w, files + [s], base, unused + 1)
  {
  }

  lemma OpenedAll(v: View, suffixes: seq<string>, base: nat, unused: nat, refused: set<nat>)
    requires Opening(v, suffixes, base, unused) && base <= unused && "json" in suffixes
    requires Replaceable(v.root, map[], refused, suffixes)
    ensures v in Prepared(suffixes) && Replaceable(v.root, v.stage, refused, suffixes)
  {
    assert Coherent(v.root, v.staged) by {
      if "json" in v.root {
        assert v.root["json"] < base;
      }
    }
  }

  function Checkpointed(v: View, inode: nat): View {
    v.(stage := v.stage[Checkpoint := inode], owned := v.owned + {Checkpoint})
  }

  /** The views that a checkpoint leaves ready. */
  ghost function Saveable(suffixes: seq<string>, refused: set<nat>, unused: nat): iset<View> {
    iset v: View |
      && v in Prepared(suffixes) && (forall n :: n in v.stage ==> v.stage[n] < unused && n != Checkpoint)
      && Checkpointed(v, unused) in Prepared(suffixes)
      && Replaceable(v.root, Checkpointed(v, unused).stage, refused, suffixes)
  }

  lemma CheckpointKeeps(v: View, suffixes: seq<string>, refused: set<nat>, base: nat, unused: nat)
    requires Opening(v, suffixes, base, unused) && base <= unused
    requires v in Prepared(suffixes) && Replaceable(v.root, v.stage, refused, suffixes)
    ensures v in Saveable(suffixes, refused, unused)
  {
  }

  // ------------------------------------------------------ when a backup link leaks

  /** How many calls the backup of one report takes. */
  function TurnCalls(root: Directory, s: string): nat { if s in root then 3 else 1 }

  /** What leaks in a turn that begins at this time. */
  function LeakOf(schedule: nat -> Fault, time: nat, root: Directory, s: string): set<StageName> {
    if s in root && schedule(time) == Works && schedule(time + 1) == FailsAfter then {Backup(s)} else {}
  }

  function BackupCalls(root: Directory, suffixes: seq<string>): nat {
    if suffixes == [] then 0
    else BackupCalls(root, suffixes[..|suffixes| - 1]) + TurnCalls(root, suffixes[|suffixes| - 1])
  }

  /** The time of the link call of the i-th report, when the backups begin at `start`. */
  function LinkTime(start: nat, root: Directory, suffixes: seq<string>, i: nat): nat
    requires i < |suffixes|
  {
    start + BackupCalls(root, suffixes[..i]) + 1
  }

  /** The first call from `from` on that does not simply work is the link call of the i-th report,
      which exists, and it takes effect. */
  ghost predicate LinkFailsFirst(schedule: nat -> Fault, from: nat, start: nat, root: Directory, suffixes: seq<string>,
                                 i: nat)
    requires i < |suffixes|
  {
    var time := LinkTime(start, root, suffixes, i);
    suffixes[i] in root && Quiet(schedule, from, time) && schedule(time) == FailsAfter
  }

  lemma {:induction false} BackupCallsGrow(root: Directory, suffixes: seq<string>, i: nat, j: nat)
    requires i < j <= |suffixes|
    ensures BackupCalls(root, suffixes[..i]) + TurnCalls(root, suffixes[i]) <= BackupCalls(root, suffixes[..j])
    decreases j
  {
    assert suffixes[..j][..j - 1] == suffixes[..j - 1];
    if i < j - 1 {
      BackupCallsGrow(root, suffixes, i, j - 1);
    }
  }

  lemma CallsOneMore(root: Directory, suffixes: seq<string>, k: nat)
    requires k < |suffixes|
    ensures BackupCalls(root, suffixes[..k + 1]) == BackupCalls(root, suffixes[..k]) + TurnCalls(root, suffixes[k])
  {
    assert suffixes[..k + 1][..k] == suffixes[..k];
  }

  lemma RestReplaceable(root: Directory, stage: map<StageName, nat>, later: map<StageName, nat>, refused: set<nat>,
                        suffixes: seq<string>, k: nat)
    requires k < |suffixes| && Replaceable(root, stage, refused, suffixes[k..])
    ensures Replaceable(root, stage, refused, [suffixes[k]])
    ensures later == stage || (suffixes[k] in root && later == stage[Backup(suffixes[k]) := root[suffixes[k]]]) ==>
              Replaceable(root, later, refused, suffixes[k + 1..])
  {
    NextReplaceable(root, stage, refused, suffixes[k..]);
    assert suffixes[k..][1..] == suffixes[k + 1..];
  }

  /** How many calls come before the backups. */
  function FlushCalls(suffixes: seq<string>): nat { 2 + 2 * |suffixes| }

  /** The calls of `checkpoint`, and of `__enter__`: checks, the staging directory and its files. */
  const SAVE_CALLS := 4

  function EnterCalls(suffixes: seq<string>): nat { 2 * |suffixes| + 1 }

  function CallsBeforeBackups(suffixes: seq<string>): nat { EnterCalls(suffixes) + (SAVE_CALLS + FlushCalls(suffixes)) }

  /** The backup links that the first fault makes leak, when so many calls come before the backups:
      at most one. */
  ghost function TimedLeaks(schedule: nat -> Fault, from: nat, calls: nat, root: Directory, suffixes: seq<string>)
    : set<StageName>
  {
    set i | 0 <= i < |suffixes| && LinkFailsFirst(schedule, from, from + calls, root, suffixes, i)
      :: Backup(suffixes[i])
  }

  /** The turn of the k-th report fails after all before it worked: only its own link can leak. */
  lemma FailedTurn(leaked: set<StageName>, schedule: nat -> Fault, start: nat, clock: nat, root: Directory,
                   suffixes: seq<string>, k: nat)
    requires Distinct(suffixes) && k < |suffixes|
    requires var time := start + BackupCalls(root, suffixes[..k]);
             && FaultsUpTo(schedule, start) == FaultsUpTo(schedule, time) < FaultsUpTo(schedule, clock)
             && time <= clock <= time + TurnCalls(root, suffixes[k])
             && leaked == LeakOf(schedule, time, root, suffixes[k])
    ensures leaked == TimedLeaks(schedule, start, 0, root, suffixes)
  {
    QuietIsFaultless(schedule, start, start + BackupCalls(root, suffixes[..k]));
    QuietIsFaultless(schedule, start, clock);
    forall i | 0 <= i < |suffixes| && LinkFailsFirst(schedule, start, start, root, suffixes, i) ensures i == k {
      if i < k {
        BackupCallsGrow(root, suffixes, i, k);
      } else if k < i {
        BackupCallsGrow(root, suffixes, k, i);
      }
    }
    assert LinkFailsFirst(schedule, start, start, root, suffixes, k) <==> leaked == {Backup(suffixes[k])};
  }

  /** Where all backups work, nothing leaks. */
  lemma NoFailedTurn(schedule: nat -> Fault, start: nat, root: Directory, suffixes: seq<string>)
    requires Quiet(schedule, start, start + BackupCalls(root, suffixes))
    ensures TimedLeaks(schedule, start, 0, root, suffixes) == {}
  {
    assert suffixes[..|suffixes|] == suffixes;
    forall i | 0 <= i < |suffixes| ensures !LinkFailsFirst(schedule, start, start, root, suffixes, i) {
      BackupCallsGrow(root, suffixes, i, |suffixes|);
    }
    assert TimedLeaks(schedule, start, 0, root, suffixes) == {};
  }

  /** A fault before the backups begin leaves nothing to leak. */
  lemma FaultBeforeBackups(schedule: nat -> Fault, from: nat, to: nat, calls: nat, root: Directory,
                           suffixes: seq<string>)
    requires from <= to <= from + calls && !Quiet(schedule, from, to)
    ensures TimedLeaks(schedule, from, calls, root, suffixes) == {}
  {
  }

  /** Calls that work before the backups change nothing about them. */
  lemma LeaksLater(schedule: nat -> Fault, from: nat, later: nat, calls: nat, total: nat, root: Directory,
                   suffixes: seq<string>)
    requires from <= later && Quiet(schedule, from, later) && total == later - from + calls
    ensures TimedLeaks(schedule, later, calls, root, suffixes) == TimedLeaks(schedule, from, total, root, suffixes)
  {
    var start := later + calls;
    assert from + total == start;
    forall i | 0 <= i < |suffixes|
      ensures LinkFailsFirst(schedule, later, start, root, suffixes, i)
              <==> LinkFailsFirst(schedule, from, start, root, suffixes, i)
    {
      assert LinkTime(start, root, suffixes, i) >= start;
    }
  }

  /** The next run, to which this stage is another directory, refuses exactly the reports whose
      backup links leaked. */
  ghost predicate RefusedIfLeaked(v: View, refused: set<nat>, suffixes: seq<string>) {
    forall s :: s in suffixes && s in v.root ==>
      (SoleLink(v.root, map[], refused + v.stage.Values, s) <==> Backup(s) !in v.leaked)
  }

  /** When the previous reports stand, the next run is refused exactly for those with a leaked link. */
  lemma NextRunRefuses(v: View, stage: map<StageName, nat>, refused: set<nat>, suffixes: seq<string>)
    requires v in Midways(v.root) && OnlyBackupsAdded(stage, v.stage) && Replaceable(v.root, stage, refused, suffixes)
    requires forall s :: Backup(s) in v.stage ==> Backup(s) in v.leaked
    ensures RefusedIfLeaked(v, refused, suffixes)
  {
    forall s | s in suffixes && s in v.root
      ensures SoleLink(v.root, map[], refused + v.stage.Values, s) <==> Backup(s) !in v.leaked
    {
      assert SoleLink(v.root, stage, refused, s);
      if Backup(s) in v.leaked {
        assert v.stage[Backup(s)] in v.stage.Values;
      } else {
        forall n | n in v.stage ensures v.stage[n] != v.root[s] {
          if n.Backup? {
            assert n in v.leaked && v.stage[n] == v.root[n.suffix];
          }
        }
      }
    }
  }

  lemma NoLeak(v: View, before: Directory, done: set<string>, schedule: nat -> Fault, start: nat, clock: nat,
               suffixes: seq<string>)
    requires v in BackedUp(before, done) && clock == start + BackupCalls(before, suffixes)
    requires FaultsUpTo(schedule, start) == FaultsUpTo(schedule, clock)
    ensures v.leaked == TimedLeaks(schedule, start, 0, before, suffixes)
  {
    QuietIsFaultless(schedule, start, clock);
    NoFailedTurn(schedule, start, before, suffixes);
  }

  class ReportFiles {
    const suffixes: seq<string>
    /** Inodes `existing` refuses: not regular, foreign-owned, or linked from another directory. */
    const refused: set<nat>
    const schedule: nat -> Fault
    var clock: nat
    var root: Directory
    var stage: map<StageName, nat>
    var stageExists: bool
    var owned: set<StageName>
    var retain: bool
    var unusedInode: nat
    /** Every content the report directory has had. */
    ghost var history: seq<Directory>
    /** Backup links that exist although the link call reported a failure. */
    ghost var leaked: set<StageName>
    /** The inode written for each report. */
    ghost var staged: map<string, nat>

    constructor (suffixes: seq<string>, schedule: nat -> Fault, refused: set<nat>, root: Directory, unusedInode: nat)
      ensures this.suffixes == suffixes && this.schedule == schedule && this.refused == refused
      ensures this.root == root && this.unusedInode == unusedInode && clock == 0
      ensures stage == map[] && !stageExists && owned == {} && !retain
      ensures history == [root] && leaked == {} && staged == map[]
    {
      this.suffixes, this.schedule, this.refused := suffixes, schedule, refused;
      this.root, this.unusedInode, this.clock := root, unusedInode, 0;
      stage, stageExists, owned, retain := map[], false, {}, false;
      history, leaked, staged := [root], {}, map[];
    }

    // ------------------------------------------------------------ system calls

    /** How many calls have not simply worked. */
    ghost function Faults(): nat
      reads `clock
    {
      FaultsUpTo(schedule, clock)
    }

    method NextFault() returns (f: Fault)
      modifies `clock
      ensures f == schedule(old(clock)) && clock == old(clock) + 1
      ensures Faults() == old(Faults()) + if f == Works then 0 else 1
    {
      f := schedule(clock);
      clock := clock + 1;
    }

    /** fsync, flush, handle close: calls whose only visible result is a failure. */
    method Sync() returns (ok: bool)
      modifies `clock
      ensures clock == old(clock) + 1
      ensures Faults() >= old(Faults()) && (ok <==> Faults() == old(Faults()))
    {
      var f := NextFault();
      ok := f == Works;
    }

    method Stat(s: string) returns (r: Result<Option<nat>>)
      modifies `clock
      ensures clock == old(clock) + 1 && (r.Ok? <==> schedule(old(clock)) == Works)
      ensures Faults() >= old(Faults()) && (r.Ok? <==> Faults() == old(Faults()))
      ensures r.Ok? ==> r.value == Entry(root, s)
    {
      var f := NextFault();
      r := if f == Works then Ok(Entry(root, s)) else Raised("stat");
    }

    method StatStage(n: StageName) returns (r: Result<nat>)
      modifies `clock
      ensures clock == old(clock) + 1 && Faults() >= old(Faults())
      ensures r.Ok? <==> Faults() == old(Faults()) && n in stage
      ensures r.Ok? ==> r.value == stage[n]
    {
      var f := NextFault();
      r := if f == Works && n in stage then Ok(stage[n]) else Raised("stat");
    }

    method Existing(s: string) returns (r: Result<Option<nat>>)
      modifies `clock
      ensures clock == old(clock) + 1 && Faults() >= old(Faults())
      ensures s in root && SoleLink(root, stage, refused, s) ==> (r.Ok? <==> schedule(old(clock)) == Works)
      ensures r.Ok? <==> Faults() == old(Faults()) && (s in root ==> SoleLink(root, stage, refused, s))
      ensures r.Ok? ==> r.value == Entry(root, s)
    {
      r := Stat(s);
      if r.Ok? && r.value.Some? && !SoleLink(root, stage, refused, s) {
        r := Raised("Refusing to replace non-regular, foreign-owned or hard-linked report");
      }
    }

    /** os.link of a report into the staging directory. */
    method LinkBackup(s: string) returns (ok: bool)
      modifies `clock, `stage, `leaked
      ensures clock == old(clock) + 1 && Faults() >= old(Faults())
      ensures leaked == if s in root && Backup(s) !in old(stage) && schedule(old(clock)) == FailsAfter
                        then old(leaked) + {Backup(s)} else old(leaked)
      ensures Faults() == old(Faults()) && s in root && Backup(s) !in old(stage) ==> ok
      ensures ok ==> Faults() == old(Faults())
      ensures ok ==> s in root && stage == old(stage)[Backup(s) := root[s]] && leaked == old(leaked)
      ensures !ok ==> (stage == old(stage) && leaked == old(leaked))
                      || (s in root && stage == old(stage)[Backup(s) := root[s]] && leaked == old(leaked) + {Backup(s)})
      ensures Backup(s) in old(stage) ==> stage == old(stage) && !ok
    {
      var f := NextFault();
      if f == FailsBefore || s !in root || Backup(s) in stage {
        return false;
      }
      stage := stage[Backup(s) := root[s]];
      if f == FailsAfter {
        leaked := leaked + {Backup(s)};
      }
      ok := f == Works;
    }

    /** os.replace of a staging entry onto a report name. Between two links of one inode it does nothing. */
    method Replace(n: StageName, s: string) returns (ok: bool)
      requires n in stage
      modifies `clock, `root, `stage, `history
      ensures Faults() >= old(Faults()) && (ok <==> Faults() == old(Faults()))
      ensures s in old(root) && old(root)[s] == old(stage)[n] ==> root == old(root) && stage == old(stage)
      ensures (root == old(root) && stage == old(stage) && history == old(history))
              || (root == old(root)[s := old(stage)[n]] && stage == old(stage) - {n}
                 && history == old(history) + [root])
      ensures ok && Entry(old(root), s) != Some(old(stage)[n]) ==>
                root == old(root)[s := old(stage)[n]] && stage == old(stage) - {n} && history == old(history) + [root]
    {
      var f := NextFault();
      if f == FailsBefore {
        return false;
      }
      if Entry(root, s) != Some(stage[n]) {
        root, stage := root[s := stage[n]], stage - {n};
        history := history + [root];
      }
      ok := f == Works;
    }

    method UnlinkReport(s: string) returns (ok: bool)
      requires s in root
      modifies `clock, `root, `history
      ensures Faults() >= old(Faults()) && (ok <==> Faults() == old(Faults()))
      ensures (root == old(root) && history == old(history))
              || (root == old(root) - {s} && history == old(history) + [root])
      ensures ok ==> root == old(root) - {s} && history == old(history) + [root]
    {
      var f := NextFault();
      if f == FailsBefore {
        return false;
      }
      root := root - {s};
      history := history + [root];
      ok := f == Works;
    }

    /** os.unlink in the staging directory; a missing name is the caller's FileNotFoundError. */
    method UnlinkStage(n: StageName) returns (ok: bool, missing: bool)
      modifies `clock, `stage
      ensures Faults() >= old(Faults())
      ensures Faults() == old(Faults()) ==> ok || missing
      ensures stage == old(stage) || stage == old(stage) - {n}
      ensures ok ==> n in old(stage) && stage == old(stage) - {n}
      ensures missing ==> !ok && n !in old(stage) && stage == old(stage)
    {
      var f := NextFault();
      if f == FailsBefore {
        return false, false;
      }
      if n !in stage {
        return false, true;
      }
      stage := stage - {n};
      ok, missing := f == Works, false;
    }

    ghost function Now(): View
      reads this
    {
      View(root, stage, owned, leaked, history, staged)
    }

    // --------------------------------------------------------------- publish

    /** One turn of the backup loop. */
    method BackupOne(s: string) returns (ok: bool, previous: Option<nat>)
      modifies `clock, `stage, `leaked, `owned
      ensures Faults() >= old(Faults()) && (ok ==> Faults() == old(Faults()))
      ensures Faults() == old(Faults()) && Replaceable(root, old(stage), refused, [s]) ==> ok
      ensures ok ==> previous == Entry(root, s) && Now() == Linked(old(Now()), s)
      ensures !ok ==> Now() in {old(Now()), Linked(old(Now()), s), HalfLinked(old(Now()), s)}
      ensures leaked != old(leaked) ==> !ok && Backup(s) !in old(stage) && Now() == HalfLinked(old(Now()), s)
      ensures old(clock) <= clock <= old(clock) + TurnCalls(root, s)
      ensures ok ==> clock == old(clock) + TurnCalls(root, s)
      ensures Replaceable(root, old(stage), refused, [s]) ==>
                leaked == old(leaked) + LeakOf(schedule, old(clock), root, s)
    {
      var info := Existing(s);
      if info.Raised? {
        return false, None;
      }
      if info.value.Some? {
        var linked := LinkBackup(s);
        if !linked {
          return false, None;
        }
        owned := owned + {Backup(s)};
        // The copy has the identity of the report; only its stat can fail.
        var copied := StatStage(Backup(s));
        if copied.Raised? || Some(copied.value) != info.value {
          return false, None;
        }
      }
      return true, info.value;
    }

    method BackupTurn(s: string, ghost done: set<string>) returns (ok: bool, previous: Option<nat>)
      requires Now() in BackedUp(root, done)
      modifies `clock, `stage, `leaked, `owned
      ensures Faults() >= old(Faults()) && (ok ==> Faults() == old(Faults()))
      ensures Faults() == old(Faults()) && Replaceable(root, old(stage), refused, [s]) ==> ok
      ensures Now() in Untouched(root) && OnlyBackupsAdded(old(stage), stage) && old(owned) <= owned
      ensures ok ==> Now() in BackedUp(root, done + {s}) && previous == Entry(root, s)
      ensures ok ==> stage == old(stage) || (s in root && stage == old(stage)[Backup(s) := root[s]])
      ensures old(clock) <= clock <= old(clock) + TurnCalls(root, s)
      ensures ok ==> clock == old(clock) + TurnCalls(root, s)
      ensures Replaceable(root, old(stage), refused, [s]) ==>
                leaked == LeakOf(schedule, old(clock), root, s)
    {
      BackupIsUntouched(Now(), root, done, s);
      ok, previous := BackupOne(s);
    }

    /** The backup loop: link every existing report into the staging directory. */
    method TakeBackups(ghost clean: bool) returns (ok: bool, previous: map<string, Option<nat>>)
      requires Now() in BackedUp(root, {}) && (clean ==> Replaceable(root, stage, refused, suffixes))
      modifies `clock, `stage, `leaked, `owned
      ensures Faults() >= old(Faults()) && (ok ==> Faults() == old(Faults()))
      ensures Faults() == old(Faults()) && clean ==> ok
      ensures Now() in Untouched(root) && OnlyBackupsAdded(old(stage), stage) && old(owned) <= owned
      ensures ok ==> Now() in BackedUp(root, Elements(suffixes))
      ensures clean ==> leaked == TimedLeaks(schedule, old(clock), 0, root, suffixes)
      ensures ok ==> forall s :: s in suffixes ==> s in previous && previous[s] == Entry(root, s)
    {
      ok, previous := LinkBackups(clean);
      if ok {
        ok := Sync();
      }
      if ok {
        ok := Sync();
      }
    }

    /** The loop that links every previous report. */
    method LinkBackups(ghost clean: bool) returns (ok: bool, previous: map<string, Option<nat>>)
      requires Now() in BackedUp(root, {}) && (clean ==> Replaceable(root, stage, refused, suffixes))
      modifies `clock, `stage, `leaked, `owned
      ensures Faults() >= old(Faults()) && (ok ==> Faults() == old(Faults()))
      ensures Faults() == old(Faults()) && clean ==> ok
      ensures Now() in Untouched(root) && OnlyBackupsAdded(old(stage), stage) && old(owned) <= owned
      ensures ok ==> Now() in BackedUp(root, Elements(suffixes))
      ensures clean ==> leaked == TimedLeaks(schedule, old(clock), 0, root, suffixes)
      ensures ok ==> forall s :: s in suffixes ==> s in previous && previous[s] == Entry(root, s)
    {
      previous := map[];
      ghost var done: set<string> := {};
      assert suffixes[0..] == suffixes;
      for i := 0 to |suffixes|
        invariant done == Elements(suffixes[..i])
        invariant Now() in BackedUp(root, done)
        invariant Faults() == old(Faults()) && clock == old(clock) + BackupCalls(root, suffixes[..i])
        invariant OnlyBackupsAdded(old(stage), stage) && old(owned) <= owned
        invariant clean ==> Replaceable(root, stage, refused, suffixes[i..])
        invariant forall s :: s in done ==> s in previous && previous[s] == Entry(root, s)
      {
        var linked, info := BackupNext(i, done, old(clock), clean);
        if !linked {
          return false, previous;
        }
        OneElementMore(suffixes[..i], suffixes[i]);
        TakeOneMore(suffixes, i);
        previous, done := previous[suffixes[i] := info], done + {suffixes[i]};
      }
      assert suffixes[..|suffixes|] == suffixes;
      NoLeak(Now(), root, done, schedule, old(clock), clock, suffixes);
      BackupIsUntouched(Now(), root, done, "json");
      ok := true;
    }

    /** Its turn for the k-th report. In a clean directory what leaks is decided when it fails. */
    method BackupNext(k: nat, ghost done: set<string>, ghost start: nat, ghost clean: bool)
        returns (ok: bool, previous: Option<nat>)
      requires k < |suffixes| && Now() in BackedUp(root, done)
      requires clock == start + BackupCalls(root, suffixes[..k]) && Faults() == FaultsUpTo(schedule, start)
      requires clean ==> Distinct(suffixes) && Replaceable(root, stage, refused, suffixes[k..])
      modifies `clock, `stage, `leaked, `owned
      ensures Faults() >= old(Faults()) && (ok ==> Faults() == old(Faults()))
      ensures clean && Faults() == old(Faults()) ==> ok
      ensures Now() in Untouched(root) && OnlyBackupsAdded(old(stage), stage) && old(owned) <= owned
      ensures ok ==> Now() in BackedUp(root, done + {suffixes[k]}) && previous == Entry(root, suffixes[k])
      ensures ok ==> clock == start + BackupCalls(root, suffixes[..k + 1])
      ensures ok && clean ==> Replaceable(root, stage, refused, suffixes[k + 1..])
      ensures !ok && clean ==> leaked == TimedLeaks(schedule, start, 0, root, suffixes)
    {
      var s := suffixes[k];
      ghost var stage0 := stage;
      ok, previous := BackupTurn(s, done);
      CallsOneMore(root, suffixes, k);
      if clean {
        RestReplaceable(root, stage0, stage, refused, suffixes, k);
        if !ok {
          FailedTurn(leaked, schedule, start, clock, root, suffixes, k);
        }
      }
    }

    /** One turn of the forward loop: nothing, or exactly one rename. */
    method InstallOne(s: string, previous: Option<nat>) returns (ok: bool, attempted: bool, published: nat)
      requires Fresh(s) in stage && Entry(root, s) != Some(stage[Fresh(s)]) && previous == Entry(root, s)
      modifies `clock, `root, `stage, `owned, `history
      ensures Faults() >= old(Faults()) && (ok <==> Faults() == old(Faults()))
      ensures ok ==> attempted && Now() == Released(Published(old(Now()), s), s)
      ensures !ok ==> Now() == old(Now()) || (attempted && Now() == Published(old(Now()), s))
      ensures attempted ==> published == old(stage)[Fresh(s)]
    {
      var current := Stat(s);
      if current.Raised? || current.value != previous {
        return false, false, 0;
      }
      var stated := StatStage(Fresh(s));
      if stated.Raised? {
        return false, false, 0;
      }
      attempted, published := true, stated.value;
      ok := Replace(Fresh(s), s);
      if ok {
        owned := owned - {Fresh(s)};
      }
    }

    method InstallTurn(s: string, previous: Option<nat>, ghost before: Directory, ghost done: set<string>)
        returns (ok: bool, attempted: bool, published: nat)
      requires Forward(Now(), before, done) && RecordsHold(Now())
      requires s in staged && s !in done && previous == Entry(before, s)
      requires s == "json" ==> staged.Keys <= done + {s}
      modifies `clock, `root, `stage, `owned, `history
      ensures Faults() >= old(Faults()) && (ok <==> Faults() == old(Faults()))
      ensures old(history) <= history
      ensures RecordsHold(Now())
      ensures attempted ==> published == staged[s]
      ensures ok ==> attempted && Forward(Now(), before, done + {s})
      ensures Undoing(Now(), before, if attempted then done + {s} else done)
      ensures OnlyBackupsAdded(old(stage), stage)
    {
      ForwardIsMidway(Now(), before, done);
      PublishedIsForward(Now(), before, done, s);
      ForwardIsMidway(Published(Now(), s), before, done + {s});
      PublishedTakes(Now(), s);
      ok, attempted, published := InstallOne(s, previous);
    }

    /** The forward loop. `replaced` lists every suffix whose rename was attempted. */
    method Install(previous: map<string, Option<nat>>, ghost before: Directory)
        returns (ok: bool, replaced: seq<string>, published: map<string, nat>)
      requires Forward(Now(), before, {}) && RecordsHold(Now())
      requires Distinct(suffixes) && forall s :: s in staged <==> s in suffixes
      requires "json" in suffixes && forall s :: s in suffixes ==> s in previous && previous[s] == Entry(before, s)
      modifies `clock, `root, `stage, `owned, `history
      ensures Faults() >= old(Faults()) && (ok <==> Faults() == old(Faults()))
      ensures Undoing(Now(), before, Elements(replaced))
      ensures old(history) <= history && OnlyBackupsAdded(old(stage), stage)
      ensures RecordsHold(Now())
      ensures ok ==> AllNew(Now())
      ensures replaced <= PublishOrder(suffixes)
      ensures IdentitiesOf(published, staged, Elements(replaced))
    {
      ok, replaced, published := InstallEach(previous, before);
      if ok {
        ok := Sync();
      }
    }

    method InstallEach(previous: map<string, Option<nat>>, ghost before: Directory)
        returns (ok: bool, replaced: seq<string>, published: map<string, nat>)
      requires Forward(Now(), before, {}) && RecordsHold(Now())
      requires Distinct(suffixes) && forall s :: s in staged <==> s in suffixes
      requires "json" in suffixes && forall s :: s in suffixes ==> s in previous && previous[s] == Entry(before, s)
      modifies `clock, `root, `stage, `owned, `history
      ensures Faults() >= old(Faults()) && (ok <==> Faults() == old(Faults()))
      ensures Undoing(Now(), before, Elements(replaced)) && RecordsHold(Now())
      ensures old(history) <= history && OnlyBackupsAdded(old(stage), stage)
      ensures ok ==> AllNew(Now())
      ensures replaced <= PublishOrder(suffixes)
      ensures IdentitiesOf(published, staged, Elements(replaced))
    {
      replaced, published := [], map[];
      var order := PublishOrder(suffixes);
      ghost var done: set<string> := {};
      while |replaced| < |order|
        invariant replaced <= order && done == Elements(replaced)
        invariant Forward(Now(), before, done) && RecordsHold(Now())
        invariant old(history) <= history && Faults() == old(Faults()) && OnlyBackupsAdded(old(stage), stage)
        invariant IdentitiesOf(published, staged, done)
      {
        var s := order[|replaced|];
        NextOf(suffixes, replaced);
        OneIdentityMore(published, staged, done, s);
        var installed, attempted, inode := InstallTurn(s, previous[s], before, done);
        if attempted {
          replaced, published, done := replaced + [s], published[s := inode], done + {s};
        }
        if !installed {
          return false, replaced, published;
        }
      }
      assert replaced == order;
      ForwardIsMidway(Now(), before, done);
      ok := true;
    }

    /** The body of the source's try block: back up, then publish. */
    method Attempt(ghost before: Directory, ghost clean: bool)
        returns (ok: bool, replaced: seq<string>, previous: map<string, Option<nat>>, published: map<string, nat>)
      requires Now() in BackedUp(before, {}) && (clean ==> Replaceable(before, stage, refused, suffixes))
      requires "json" in suffixes && Distinct(suffixes) && forall s :: s in staged <==> s in suffixes
      modifies `clock, `root, `stage, `owned, `leaked, `history
      ensures Faults() >= old(Faults()) && (ok ==> Faults() == old(Faults()))
      ensures Faults() == old(Faults()) && clean ==> ok
      ensures Undoing(Now(), before, Elements(replaced)) && RecordsHold(Now())
      ensures old(history) <= history
      ensures ok ==> AllNew(Now()) && leaked == {}
      ensures Now() in Leaking(before) && (leaked != {} ==> replaced == [] && root == before && old(owned) <= owned)
      ensures OnlyBackupsAdded(old(stage), stage)
      ensures clean ==> leaked == TimedLeaks(schedule, old(clock), 0, before, suffixes)
      ensures replaced <= PublishOrder(suffixes)
      ensures forall s :: s in replaced ==> s in previous && previous[s] == Entry(before, s)
      ensures IdentitiesOf(published, staged, Elements(replaced))
    {
      ok, previous := TakeBackups(clean);
      replaced, published := [], map[];
      if ok {
        LinkingIsMidway(Now(), before, Elements(suffixes));
        ok, replaced, published := Install(previous, before);
      }
    }

    // -------------------------------------------------------------- rollback

    /** One turn of the rollback loop. */
    method RestoreOne(s: string, previous: Option<nat>, published: nat, ghost before: Directory) returns (ok: bool)
      requires previous == Entry(before, s)
      requires previous.Some? && Entry(root, s) != previous ==> Backup(s) in stage && stage[Backup(s)] == previous.value
      requires Entry(root, s) == previous || Entry(root, s) == Some(published)
      modifies `clock, `root, `stage, `owned, `history
      ensures Faults() >= old(Faults()) && (Faults() == old(Faults()) ==> ok)
      ensures Entry(old(root), s) == previous ==> Now() == old(Now())
      ensures Entry(old(root), s) != previous ==>
                var w := Restored(old(Now()), before, s);
                if ok then Now() == Recorded(w, before, s) else Now() in {old(Now()), w}
    {
      var current := Stat(s);
      if current.Raised? {
        return false;
      }
      if current.value == previous {
        return true;  // the attempted rename did not happen
      }
      if current.value != Some(published) {
        return false;
      }
      if previous == None {
        ok := UnlinkReport(s);
      } else {
        ok := Replace(Backup(s), s);
        if ok {
          owned := owned - {Backup(s)};
        }
      }
    }

    method RestoreTurn(s: string, previous: Option<nat>, published: nat, ghost before: Directory,
        ghost left: set<string>)
        returns (ok: bool)
      requires Undoing(Now(), before, left) && RecordsHold(Now())
      requires s in staged && previous == Entry(before, s)
      requires published == staged[s]
      requires "json" in left ==> s == "json"
      modifies `clock, `root, `stage, `owned, `history
      ensures Faults() >= old(Faults()) && (Faults() == old(Faults()) ==> ok)
      ensures old(history) <= history
      ensures if ok then Undoing(Now(), before, left - {s}) else Midway(Now(), before)
      ensures ok ==> RecordsHold(Now())
      ensures OnlyBackupsAdded(old(stage), stage)
    {
      if Entry(root, s) != Entry(before, s) {
        RestoredIsUndoing(Now(), before, left, s);
      }
      ok := RestoreOne(s, previous, published, before);
    }

    method RestoreReports(replaced: seq<string>, previous: map<string, Option<nat>>, published: map<string, nat>,
                          ghost before: Directory) returns (ok: bool)
      requires Undoing(Now(), before, Elements(replaced)) && RecordsHold(Now())
      requires "json" in suffixes && Distinct(suffixes) && replaced <= PublishOrder(suffixes)
      requires forall s :: s in staged <==> s in suffixes
      requires forall s :: s in replaced ==> s in previous && previous[s] == Entry(before, s)
      requires IdentitiesOf(published, staged, Elements(replaced))
      modifies `clock, `root, `stage, `owned, `history
      ensures Faults() >= old(Faults()) && (Faults() == old(Faults()) ==> ok)
      ensures Midway(Now(), before)
      ensures old(history) <= history
      ensures ok ==> root == before
      ensures ok ==> RecordsHold(Now())
      ensures OnlyBackupsAdded(old(stage), stage)
      ensures replaced == [] ==> root == old(root) && stage == old(stage) && owned == old(owned)
    {
      ok := RestoreEach(replaced, previous, published, before);
      if ok {
        ok := Sync();
      }
      if ok {
        ok := Sync();
      }
    }

    method RestoreEach(replaced: seq<string>, previous: map<string, Option<nat>>, published: map<string, nat>,
                       ghost before: Directory) returns (ok: bool)
      requires Undoing(Now(), before, Elements(replaced)) && RecordsHold(Now())
      requires "json" in suffixes && Distinct(suffixes) && replaced <= PublishOrder(suffixes)
      requires forall s :: s in staged <==> s in suffixes
      requires forall s :: s in replaced ==> s in previous && previous[s] == Entry(before, s)
      requires IdentitiesOf(published, staged, Elements(replaced))
      modifies `clock, `root, `stage, `owned, `history
      ensures Faults() >= old(Faults()) && (Faults() == old(Faults()) ==> ok)
      ensures Midway(Now(), before)
      ensures old(history) <= history
      ensures ok ==> root == before
      ensures ok ==> RecordsHold(Now())
      ensures OnlyBackupsAdded(old(stage), stage)
      ensures replaced == [] ==> root == old(root) && stage == old(stage) && owned == old(owned)
    {
      var k := |replaced|;
      ghost var left := Elements(replaced[..k]);
      assert replaced[..k] == replaced;
      while k > 0
        invariant 0 <= k <= |replaced| && left == Elements(replaced[..k])
        invariant Undoing(Now(), before, left)
        invariant RecordsHold(Now())
        invariant old(history) <= history && Faults() >= old(Faults()) && OnlyBackupsAdded(old(stage), stage)
        invariant replaced == [] ==> root == old(root) && stage == old(stage) && owned == old(owned)
      {
        k := k - 1;
        var s := replaced[k];
        LastOf(suffixes, replaced, k);
        var restored := RestoreTurn(s, previous[s], published[s], before, left);
        if !restored {
          return false;
        }
        left := left - {s};
      }
      NothingLeft(Now(), before);
      ok := true;
    }

    /** Unlinks the backups on record once the previous reports are back. */
    method DropBackups() returns (ok: bool)
      requires RecordsHold(Now())
      modifies `clock, `stage, `owned
      ensures Faults() >= old(Faults()) && (Faults() == old(Faults()) ==> ok)
      ensures forall n :: n in stage ==> n in old(stage) && stage[n] == old(stage)[n]
      ensures forall n :: n in stage && n !in owned ==> n in old(stage) && n !in old(owned)
      ensures forall n :: n in old(stage) && n !in old(owned) ==> n in stage && n !in owned
      ensures ok ==> forall s :: Backup(s) !in owned
      ensures OnlyBackupsDropped(old(owned), owned)
    {
      var todo := set n | n in owned && n.Backup?;
      ok := true;
      while todo != {}
        invariant todo <= owned && forall s :: Backup(s) in owned ==> Backup(s) in todo
        invariant forall n :: n in stage ==> n in old(stage) && stage[n] == old(stage)[n]
        invariant forall n :: n in stage && n !in owned ==> n in old(stage) && n !in old(owned)
        invariant OnlyBackupsDropped(old(owned), owned) && (forall n :: n in todo ==> n.Backup?)
        invariant owned <= old(owned) && forall n :: n in old(stage) && n !in old(owned) ==> n in stage
        invariant RecordsHold(Now())
        invariant Faults() >= old(Faults())
      {
        var n :| n in todo;
        var unlinked, missing := UnlinkStage(n);
        if !unlinked {
          return false;
        }
        owned, todo := owned - {n}, todo - {n};
      }
      ok := Sync();
      if ok {
        ok := Sync();
      }
    }

    method Rollback(replaced: seq<string>, previous: map<string, Option<nat>>, published: map<string, nat>,
                    ghost before: Directory) returns (ok: bool)
      requires Undoing(Now(), before, Elements(replaced)) && RecordsHold(Now())
      requires "json" in suffixes && Distinct(suffixes) && replaced <= PublishOrder(suffixes)
      requires forall s :: s in staged <==> s in suffixes
      requires forall s :: s in replaced ==> s in previous && previous[s] == Entry(before, s)
      requires Now() in Leaking(before) && (leaked != {} ==> replaced == [])
      requires IdentitiesOf(published, staged, Elements(replaced))
      modifies `clock, `root, `stage, `owned, `history
      ensures Faults() >= old(Faults()) && (Faults() == old(Faults()) ==> ok)
      ensures Now() in Midways(before)
      ensures old(history) <= history
      ensures OnlyBackupsAdded(old(stage), stage)
      ensures replaced == [] ==> root == old(root) && OnlyBackupsDropped(old(owned), owned)
      ensures ok ==> root == before && forall s :: Backup(s) in stage <==> Backup(s) in leaked
    {
      ok := RestoreReports(replaced, previous, published, before);
      LeaksStay(old(Now()), Now(), before);
      if ok {
        ghost var restored := Now();
        ok := DropBackups();
        DroppedIsMidway(restored, Now(), before);
      }
    }

    // ----------------------------------------------------------- the public calls

    /** What a successful `__enter__` establishes. */
    ghost predicate Ready()
      reads this
    {
      "json" in suffixes && Distinct(suffixes) && stageExists && !retain && leaked == {} && Now() in Prepared(suffixes)
    }

    /** The lock entry and the lock descriptor are compared, then each handle is flushed and synced. */
    method CheckAndFlush() returns (ok: bool)
      modifies `clock
      ensures old(clock) <= clock <= old(clock) + FlushCalls(suffixes)
      ensures ok ==> clock == old(clock) + FlushCalls(suffixes)
      ensures Faults() >= old(Faults()) && (ok <==> Faults() == old(Faults()))
    {
      for i := 0 to 2 + 2 * |suffixes|
        invariant Faults() == old(Faults()) && clock == old(clock) + i
      {
        ok := Sync();
        if !ok {
          return;
        }
      }
      ok := true;
    }

    /** `publish`. So many calls come before the backups, counted from a time since when all worked. */
    method Publish(ghost from: nat, ghost calls: nat) returns (ending: Ending)
      requires Ready()
      requires from <= clock && FaultsUpTo(schedule, from) == Faults() && calls == clock - from + FlushCalls(suffixes)
      modifies `clock, `root, `stage, `owned, `leaked, `history, `retain
      ensures Faults() >= old(Faults()) && old(history) <= history
      ensures Now() in Midways(old(root))
      ensures ending == Complete ==> !retain && AllNew(Now()) && stage.Keys <= owned && leaked == {}
      ensures ending == Undone ==>
                !retain && root == old(root) && forall s :: Backup(s) in stage <==> Backup(s) in leaked
      ensures ending == Uncertain ==> retain
      ensures Replaceable(old(root), old(stage), refused, suffixes) ==>
                && (ending == Complete <==> Faults() == old(Faults()))
                && (ending == Uncertain ==> Faults() >= old(Faults()) + 2)
      // A backup link leaks exactly when its call takes effect as the first that fails, and it stays.
      ensures leaked != {} ==> ending != Complete && root == old(root) && OnlyBackupsDropped(old(owned), owned)
      ensures OnlyBackupsAdded(old(stage), stage)
      ensures Replaceable(old(root), old(stage), refused, suffixes) ==>
                leaked == TimedLeaks(schedule, from, calls, old(root), suffixes)
    {
      ghost var before := root;
      ghost var clean := Replaceable(root, stage, refused, suffixes);
      ReadyToBackUp(Now(), suffixes);
      ending := Undone;
      var flushed := CheckAndFlush();
      QuietIsFaultless(schedule, from, clock);
      if flushed {
        LeaksLater(schedule, from, clock, 0, calls, before, suffixes);
        ending := AttemptOrUndo(before, clean);
        retain := ending == Uncertain;
      } else {
        FaultBeforeBackups(schedule, from, clock, calls, before, suffixes);
      }
    }

    method AttemptOrUndo(ghost before: Directory, ghost clean: bool) returns (ending: Ending)
      requires Now() in BackedUp(before, {}) && (clean ==> Replaceable(before, stage, refused, suffixes))
      requires "json" in suffixes && Distinct(suffixes) && forall s :: s in staged <==> s in suffixes
      modifies `clock, `root, `stage, `owned, `leaked, `history
      ensures Faults() >= old(Faults()) && old(history) <= history
      ensures Now() in Midways(before)
      ensures ending == Complete ==> AllNew(Now()) && stage.Keys <= owned && leaked == {}
      ensures ending == Undone ==> root == before && forall s :: Backup(s) in stage <==> Backup(s) in leaked
      ensures clean ==>
                && (ending == Complete <==> Faults() == old(Faults()))
                && (ending == Uncertain ==> Faults() >= old(Faults()) + 2)
      ensures leaked != {} ==> ending != Complete && root == before && OnlyBackupsDropped(old(owned), owned)
      ensures OnlyBackupsAdded(old(stage), stage)
      ensures clean ==> leaked == TimedLeaks(schedule, old(clock), 0, before, suffixes)
    {
      ending := Complete;
      var ok, replaced, previous, published := Attempt(before, clean);
      if !ok {
        ghost var attempted := Now();
        var recovered := Rollback(replaced, previous, published, before);
        OnlyBackupsMoved(old(Now()), attempted, Now());
        ending := if recovered then Undone else Uncertain;
      }
    }

    /** `close`: closes the handles and, unless told to retain it, empties and removes the staging directory. */
    method Close() returns (ok: bool)
      modifies `clock, `stage, `stageExists, `retain
      ensures Faults() >= old(Faults())
      ensures old(retain) ==> retain && stage == old(stage) && stageExists == old(stageExists)
      ensures !retain ==> ok && !stageExists && (old(stageExists) ==> stage == map[])
      ensures old(!retain && stageExists && stage.Keys <= owned) && Faults() == old(Faults()) ==> ok && !retain
    {
      ok := true;
      for i := 0 to |suffixes|
        invariant Faults() >= old(Faults()) && (Faults() == old(Faults()) ==> ok)
        invariant stage == old(stage) && stageExists == old(stageExists)
        invariant retain == (old(retain) || !ok)
      {
        var closed := Sync();
        if !closed {
          ok, retain := false, true;
        }
      }
      if stageExists && !retain {
        var emptied := EmptyStage();
        if !emptied {
          ok, retain := false, true;
        }
      }
      if stageExists && !retain {
        var f := NextFault();
        if f != FailsBefore && stage == map[] {
          stageExists := false;
        }
        var synced := Sync();
        if f != Works || stageExists || !synced {
          ok, retain := false, true;
        }
      }
    }

    /** Unlinks every recorded staging entry; one that is already gone is no failure. */
    method EmptyStage() returns (ok: bool)
      modifies `clock, `stage
      ensures Faults() >= old(Faults()) && (Faults() == old(Faults()) ==> ok)
      ensures ok ==> forall n :: n in stage <==> n in old(stage) && n !in owned
    {
      var todo := owned;
      while todo != {}
        invariant todo <= owned && Faults() >= old(Faults())
        invariant forall n :: n in stage ==> n in old(stage)
        invariant forall n :: n in old(stage) ==> n in stage || n in owned
        invariant forall n :: n in stage && n in owned ==> n in todo
      {
        var n :| n in todo;
        var unlinked, missing := UnlinkStage(n);
        if !unlinked && !missing {
          return false;
        }
        todo := todo - {n};
      }
      ok := Sync();
    }

    /** Creates one staging file with O_EXCL. A creation reported as failed is not on record. */
    method Create(n: StageName) returns (ok: bool)
      requires forall m :: m in stage ==> stage[m] < unusedInode
      modifies `clock, `stage, `owned, `unusedInode
      ensures Faults() >= old(Faults()) && (ok ==> Faults() == old(Faults()))
      ensures clock == old(clock) + 1
      ensures Faults() == old(Faults()) && n !in old(stage) ==> ok
      ensures unusedInode >= old(unusedInode) && forall m :: m in stage ==> stage[m] < unusedInode
      ensures ok ==> n !in old(stage) && stage == old(stage)[n := old(unusedInode)] && owned == old(owned) + {n}
    {
      var f := NextFault();
      if f == FailsBefore || n in stage {
        return false;
      }
      stage := stage[n := unusedInode];
      unusedInode := unusedInode + 1;
      if f == Works {
        owned := owned + {n};
      }
      ok := f == Works;
    }

    /** `__enter__`, after the lock is held: checks the reports and opens one staging file for each. */
    method Enter() returns (ok: bool)
      requires !stageExists && !retain && Opening(Now(), [], unusedInode, unusedInode)
      requires Distinct(suffixes)
      modifies `clock, `stage, `stageExists, `owned, `unusedInode, `staged, `retain
      ensures Faults() >= old(Faults()) && unusedInode >= old(unusedInode)
      ensures Replaceable(root, map[], refused, suffixes) ==>
                (ok <==> Quiet(schedule, old(clock), old(clock) + EnterCalls(suffixes)))
      ensures ok ==> clock == old(clock) + EnterCalls(suffixes)
      ensures ok <==> Faults() == old(Faults()) && Replaceable(root, map[], refused, suffixes)
      ensures ok ==> stageExists && !retain && Opening(Now(), suffixes, old(unusedInode), unusedInode)
      ensures forall s :: s in staged ==> staged[s] >= old(unusedInode)
    {
      ok := OpenStage();
      QuietIsFaultless(schedule, old(clock), clock);
      if !ok {
        var closed := Close();
      }
    }

    method OpenStage() returns (ok: bool)
      requires !stageExists && !retain && Opening(Now(), [], unusedInode, unusedInode)
      requires Distinct(suffixes)
      modifies `clock, `stage, `stageExists, `owned, `unusedInode, `staged
      ensures Faults() >= old(Faults()) && unusedInode >= old(unusedInode)
      ensures old(clock) <= clock <= old(clock) + EnterCalls(suffixes)
      ensures ok ==> clock == old(clock) + EnterCalls(suffixes)
      ensures ok <==> Faults() == old(Faults()) && Replaceable(root, map[], refused, suffixes)
      ensures ok ==> stageExists && Opening(Now(), suffixes, old(unusedInode), unusedInode)
      ensures forall s :: s in staged ==> staged[s] >= old(unusedInode)
    {
      ok := CheckReports();
      if ok {
        var f := NextFault();
        stageExists := f != FailsBefore;
        ok := f == Works;
      }
      if ok {
        ok := OpenHandles();
      }
    }

    method CheckReports() returns (ok: bool)
      requires stage == map[] && Distinct(suffixes)
      modifies `clock
      ensures Faults() >= old(Faults())
      ensures old(clock) <= clock <= old(clock) + |suffixes| && (ok ==> clock == old(clock) + |suffixes|)
      ensures ok <==> Faults() == old(Faults()) && Replaceable(root, map[], refused, suffixes)
    {
      for i := 0 to |suffixes|
        invariant Faults() == old(Faults()) && clock == old(clock) + i
        invariant forall j :: 0 <= j < i && suffixes[j] in root ==> SoleLink(root, map[], refused, suffixes[j])
      {
        var info := Existing(suffixes[i]);
        if info.Raised? {
          return false;
        }
      }
      ok := true;
    }

    method OpenHandles() returns (ok: bool)
      requires Opening(Now(), [], unusedInode, unusedInode) && Distinct(suffixes)
      modifies `clock, `stage, `owned, `unusedInode, `staged
      ensures Faults() >= old(Faults()) && (ok <==> Faults() == old(Faults())) && unusedInode >= old(unusedInode)
      ensures old(clock) <= clock <= old(clock) + |suffixes| && (ok ==> clock == old(clock) + |suffixes|)
      ensures ok ==> Opening(Now(), suffixes, old(unusedInode), unusedInode)
      ensures forall s :: s in staged ==> staged[s] >= old(unusedInode)
    {
      for i := 0 to |suffixes|
        invariant Faults() == old(Faults()) && unusedInode >= old(unusedInode) && clock == old(clock) + i
        invariant Opening(Now(), suffixes[..i], old(unusedInode), unusedInode)
      {
        NextIsNew(suffixes, i);
        ghost var inode := unusedInode;
        OpenedOne(Now(), suffixes[..i], old(unusedInode), inode, suffixes[i]);
        ok := Create(Fresh(suffixes[i]));
        if !ok {
          return;
        }
        staged := staged[suffixes[i] := inode];
      }
      assert suffixes[..|suffixes|] == suffixes;
      ok := true;
    }

    /** `checkpoint`: saves the raw records beside the staged reports. */
    method WriteCheckpoint() returns (ok: bool)
      requires forall n :: n in stage ==> stage[n] < unusedInode && n != Checkpoint
      modifies `clock, `stage, `owned, `unusedInode
      ensures unusedInode >= old(unusedInode)
      ensures old(clock) <= clock <= old(clock) + SAVE_CALLS && (ok ==> clock == old(clock) + SAVE_CALLS)
      ensures Faults() >= old(Faults()) && (ok <==> Faults() == old(Faults()))
      ensures ok ==> Now() == Checkpointed(old(Now()), old(unusedInode))
    {
      ok := Create(Checkpoint);
      // The file, the staging directory and the report directory are synced.
      if ok {
        ok := Sync();
      }
      if ok {
        ok := Sync();
      }
      if ok {
        ok := Sync();
      }
    }

    /** `__exit__`: a failed run keeps its checkpoint. */
    method Exit(raised: bool) returns (ok: bool)
      modifies `clock, `stage, `stageExists, `retain
      ensures Faults() >= old(Faults())
      ensures old(retain) ==> retain && stage == old(stage) && stageExists == old(stageExists)
      ensures !retain ==> ok && !stageExists && (old(stageExists) ==> stage == map[])
      ensures raised && Checkpoint in owned ==> retain && stage == old(stage) && stageExists == old(stageExists)
      ensures old(!retain && stageExists && stage.Keys <= owned) && !raised && Faults() == old(Faults()) ==>
                ok && !retain
    {
      if raised && Checkpoint in owned {
        retain := true;
      }
      ok := Close();
    }

    /** A whole collection, from `__enter__` to `__exit__`, under any fault schedule. */
    method Collect() returns (raised: bool)
      requires !stageExists && !retain && Opening(Now(), [], unusedInode, unusedInode)
      requires "json" in suffixes && Distinct(suffixes)
      modifies this
      ensures AllCoherent(history, staged) && old(history) <= history
      ensures !raised ==> staged.Keys == Elements(suffixes) && AllNew(Now())
      ensures raised && !retain ==> root == old(root)
      ensures root == old(root)
              || (staged.Keys == Elements(suffixes) && AllNew(Now()))
              || (retain && stageExists && Recoverable(old(root), root, stage))
      ensures Replaceable(old(root), map[], refused, suffixes) && Faults() == old(Faults()) ==> !raised && !stageExists
      ensures !raised ==> Replaceable(old(root), map[], refused, suffixes)
      // The leaked backup links, and where they are left.
      ensures if Replaceable(old(root), map[], refused, suffixes)
              then leaked == TimedLeaks(schedule, old(clock), CallsBeforeBackups(suffixes), old(root), suffixes)
              else leaked == {}
      ensures leaked != {} ==> raised && retain && stageExists && root == old(root) && Now() in Leaking(old(root))
    {
      ghost var from, calls := clock, CallsBeforeBackups(suffixes);
      var entered := Enter();
      if !entered {
        if Replaceable(root, map[], refused, suffixes) {
          FaultBeforeBackups(schedule, from, from + EnterCalls(suffixes), calls, root, suffixes);
        }
        assert leaked == {};
        return true;
      }
      OpenedAll(Now(), suffixes, old(unusedInode), unusedInode, refused);
      CheckpointKeeps(Now(), suffixes, refused, old(unusedInode), unusedInode);
      raised := PublishAndClose(from, calls);
    }

    method PublishAndClose(ghost from: nat, ghost calls: nat) returns (raised: bool)
      requires Ready() && Now() in Saveable(suffixes, refused, unusedInode)
      requires from <= clock && FaultsUpTo(schedule, from) == Faults()
      requires calls == clock - from + SAVE_CALLS + FlushCalls(suffixes)
      modifies this
      ensures AllCoherent(history, staged) && old(history) <= history && staged == old(staged)
      ensures !raised ==> AllNew(Now())
      ensures raised && !retain ==> root == old(root)
      ensures root == old(root) || AllNew(Now()) || (retain && stageExists && Recoverable(old(root), root, stage))
      ensures Faults() >= old(Faults()) && (Faults() == old(Faults()) ==> !raised && !stageExists)
      ensures leaked == TimedLeaks(schedule, from, calls, old(root), suffixes)
      ensures leaked != {} ==> raised && retain && stageExists && root == old(root) && Now() in Leaking(old(root))
    {
      var ending := SaveAndPublish(from, calls);
      var closed := Exit(ending != Complete);
      raised := ending != Complete || !closed;
    }

    method SaveAndPublish(ghost from: nat, ghost calls: nat) returns (ending: Ending)
      requires Ready() && Now() in Saveable(suffixes, refused, unusedInode)
      requires from <= clock && FaultsUpTo(schedule, from) == Faults()
      requires calls == clock - from + SAVE_CALLS + FlushCalls(suffixes)
      modifies `clock, `root, `stage, `owned, `leaked, `history, `retain, `unusedInode
      ensures unusedInode >= old(unusedInode)
      ensures Faults() >= old(Faults()) && (Faults() == old(Faults()) ==> ending == Complete)
      ensures AllCoherent(history, staged) && old(history) <= history
      ensures ending == Complete ==> AllNew(Now()) && !retain && stage.Keys <= owned
      ensures ending == Undone ==> root == old(root)
      ensures ending == Uncertain ==> Faults() >= old(Faults()) + 2
      ensures ending == Uncertain ==> retain && Recoverable(old(root), root, stage)
      ensures leaked == TimedLeaks(schedule, from, calls, old(root), suffixes)
      ensures leaked != {} ==>
                ending != Complete && root == old(root) && Checkpoint in owned && Now() in Leaking(old(root))
    {
      ending := Undone;
      var saved := WriteCheckpoint();
      if saved {
        ending := Publish(from, calls);
        MidwayMeans(Now(), old(root));
      } else {
        QuietIsFaultless(schedule, from, clock);
        FaultBeforeBackups(schedule, from, clock, calls, root, suffixes);
      }
    }
  }

  lemma {:induction false} AtMostOneFault(schedule: nat -> Fault, time: nat, n: nat)
    requires forall k :: k != time ==> schedule(k) == Works
    ensures FaultsUpTo(schedule, n) <= if n <= time then 0 else 1
  {
    if n > 0 {
      AtMostOneFault(schedule, time, n - 1);
    }
  }

  /** One report, and one fault: the link call of its backup takes effect and fails. */
  lemma OneLinkFails(schedule: nat -> Fault, root: Directory)
    requires "json" in root && forall k :: schedule(k) == if k == 12 then FailsAfter else Works
    ensures TimedLeaks(schedule, 0, CallsBeforeBackups(["json"]), root, ["json"]) == {Backup("json")}
  {
    assert ["json"][..0] == [];
    assert LinkFailsFirst(schedule, 0, 11, root, ["json"], 0);
  }

  ghost predicate OneLinkFailing(f: ReportFiles)
    reads f
  {
    && f.suffixes == ["json"] && f.refused == {} && f.root == map["json" := 7]
    && forall k :: f.schedule(k) == if k == 12 then FailsAfter else Works
  }

  method OpenOneReport() returns (f: ReportFiles)
    ensures fresh(f) && OneLinkFailing(f) && f.clock == 3 && f.Faults() == 0 && f.unusedInode >= 8
    ensures f.Ready() && f.Now() in Saveable(f.suffixes, f.refused, f.unusedInode)
  {
    f := new ReportFiles(["json"], k => if k == 12 then FailsAfter else Works, {}, map["json" := 7], 8);
    var entered := f.Enter();
    AtMostOneFault(f.schedule, 12, f.clock);
    OpenedAll(f.Now(), ["json"], 8, f.unusedInode, {});
    CheckpointKeeps(f.Now(), ["json"], {}, 8, f.unusedInode);
  }

  method PublishOneReport(f: ReportFiles) returns (ending: Ending)
    requires OneLinkFailing(f) && f.clock == 3 && f.Faults() == 0 && f.unusedInode >= 8
    requires f.Ready() && f.Now() in Saveable(f.suffixes, f.refused, f.unusedInode)
    modifies f
    ensures ending == Undone && OneLinkFailing(f) && f.retain && f.unusedInode >= 8
    ensures Backup("json") in f.stage && f.stage[Backup("json")] == 7
  {
    OneLinkFails(f.schedule, f.root);
    ending := f.SaveAndPublish(0, CallsBeforeBackups(["json"]));
    assert Backup("json") in f.leaked;
    AtMostOneFault(f.schedule, 12, f.clock);
    var closed := f.Exit(true);
  }

  /** The previous report is restored but keeps a second link, so that the next run is refused
      although all of its calls work. */
  method LeaveSecondLink() returns (first: ReportFiles, ending: Ending, nextRaised: bool)
    ensures ending == Undone && first.root == map["json" := 7] && first.retain
    ensures Backup("json") in first.stage && first.stage[Backup("json")] == 7
    ensures nextRaised
  {
    first := OpenOneReport();
    ending := PublishOneReport(first);
    var next := new ReportFiles(["json"], _ => Works, first.stage.Values, first.root, first.unusedInode);
    nextRaised := next.Collect();
  }
}
