/** Capturing a backup and restoring one, on a disk that may stop between any two
    of its steps (ayq-backup.ts, and the engine's use of it). A rename and an
    atomic write are one step; a copy first leaves a torn file; a recursive
    removal takes one entry after another, in any order. A disk that is not
    faithful may also fail a call, or let a copy land otherwise than it was read. */
module Restore {
  import opened Lists
  import opened BackupSets

  type Tree = map<string, Bytes>

  datatype Phase = Staged | Complete

  datatype Journal = Journal(
    backupId: string,
    phase: Phase,
    liveFolder: string,
    liveStore: bool,
    incomingFolder: string)

  /** The names in the data directory that are not a budget folder's: a set's
      folder may bear one all the same. */
  const RESTORING: string := ".ayq-restore"
  const BACKUPS: string := "ayq-backups"
  const STORE: string := "ayq-store.json"
  const STATUS: string := "ayq-backup-status.json"
  const RESERVED: set<string> := {".", "..", RESTORING, BACKUPS, STORE, STATUS}

  /** What the working folder holds. */
  datatype Working = Working(
    incoming: Files,
    previousBudget: Option<Tree>,
    previousStore: Option<Bytes>,
    journal: Option<Journal>)

  const EMPTY: Working := Working(map[], None, None, None)

  /** What the engine opens: the budget folders beside each other, and the store. */
  datatype Live = Live(folders: map<string, Tree>, store: Option<Bytes>)

  /** What opening a restored budget makes of it and of its store: a store of an
      older version migrates, say. Which, is Actual's affair and AYQ's elsewhere. */
  type Opening = (Tree, Bytes) -> (Tree, Bytes)

  /** The order the data directory is read in: which of some names comes first. */
  type Listing = set<string> -> string

  ghost predicate IsListing(listing: Listing) {
    forall names :: names != {} ==> listing(names) in names
  }

  lemma FirstOf(listing: Listing, folders: map<string, Tree>)
    requires IsListing(listing) && folders != map[]
    ensures listing(folders.Keys) in folders
  {
    var name :| name in folders;
    assert folders.Keys != {};
  }

  datatype Progress = Stopped | Threw | Done

  datatype Recovery = Interrupted | Broke | Nothing | RolledBack | FinishedOff

  datatype Outcome =
    | Cut | Restored | RefusedOutcome(refusal: Refusal) | SafetyBackupFailed | ReplaceFailed | OpenFailed | RecoveryBroke

  datatype Replaced = Halted | Failed | NoBudget | Refused(refusal: Refusal) | InPlace

  datatype Captured = Unfinished | NotCaptured | CapturedFrom(folder: string)

  /** Where the live state is bound for: back to a state, or to one without the
      budget that was live. */
  datatype Fate = BackTo(to: Live) | Without(to: Live, gone: string)

  // ------------------------------------- what a recovery would come back to

  function Budget(files: Files): Tree {
    map path | path in files && path.BudgetFile? :: path.name := files[path]
  }

  /** Until the journal says complete, the old budget stands in exactly one of
      two places: its live slot, with every folder as it was, or the slot it was
      moved aside to. */
  ghost predicate BudgetIsSafe(folders: map<string, Tree>, previous: Option<Tree>, journal: Journal, to: Live) {
    if previous.None? then folders == to.folders
    else
      && journal.liveFolder in to.folders && previous.value == to.folders[journal.liveFolder]
      && folders - {journal.liveFolder, journal.incomingFolder} == to.folders - {journal.liveFolder, journal.incomingFolder}
  }

  /** Likewise the old store; where there was none, whatever stands is the set's. */
  ghost predicate StoreIsSafe(store: Option<Bytes>, previous: Option<Bytes>, journal: Journal, to: Live) {
    if previous.Some? then to.store == previous else store == to.store || !journal.liveStore
  }

  ghost predicate RollsBackTo(live: Live, working: Working, journal: Journal, to: Live) {
    && journal.liveFolder in to.folders && to.folders.Keys !! RESERVED
    && journal.incomingFolder !in {".", "..", BACKUPS}
    && (journal.incomingFolder == STORE ==> !journal.liveStore && live.store.None?)
    && (journal.incomingFolder == RESTORING ==> working.previousBudget.None? && working.previousStore.None?)
    && (journal.incomingFolder == journal.liveFolder || journal.incomingFolder !in to.folders)
    && journal.liveStore == to.store.Some?
    && BudgetIsSafe(live.folders, working.previousBudget, journal, to)
    && StoreIsSafe(live.store, working.previousStore, journal, to)
  }

  predicate IsStaged(working: Option<Working>) {
    working.Some? && working.value.journal.Some? && working.value.journal.value.phase.Staged?
  }

  /** From here, a recovery that completes leaves exactly `to`. */
  ghost predicate Leads(live: Live, working: Option<Working>, to: Live) {
    if IsStaged(working) then RollsBackTo(live, working.value, working.value.journal.value, to) else live == to
  }

  /** What a removal that stopped may have left of a working folder. */
  predicate LeftOf(was: Working, now: Working) {
    && (now.journal.None? || now.journal == was.journal)
    && (was.previousBudget.None? ==> now.previousBudget.None?)
    && (now.previousStore.None? || now.previousStore == was.previousStore)
  }

  /** From here the old budget is past saving: a recovery would take the working
      folder, and it in it, for the folder that was moved in. */
  ghost predicate Doomed(live: Live, working: Option<Working>, to: Live, gone: string) {
    && gone in to.folders && live.folders == to.folders - {gone} && RESTORING !in live.folders
    && (live.store.None? || live.store == to.store)
    && (working.Some? ==> working.value.previousStore.None? || working.value.previousStore == to.store)
    && (working.Some? && working.value.journal.Some? ==>
          && working.value.journal.value.phase.Staged?
          && working.value.journal.value.incomingFolder == RESTORING && working.value.journal.value.liveFolder == gone)
  }

  ghost predicate Bound(live: Live, working: Option<Working>, fate: Fate) {
    match fate
    case BackTo(to) => Leads(live, working, to)
    case Without(to, gone) => Doomed(live, working, to, gone)
  }

  /** Where a recovery that completes leaves off. */
  predicate Ends(live: Live, fate: Fate) {
    match fate
    case BackTo(to) => live == to
    case Without(to, gone) => live.folders == to.folders - {gone} && (live.store.None? || live.store == to.store)
  }

  lemma RemovingStaysBound(live: Live, was: Working, now: Working, fate: Fate)
    requires LeftOf(was, now) && Bound(live, Some(was), fate) && Ends(live, fate)
    requires fate.BackTo? && IsStaged(Some(was)) ==> was.previousBudget.None? && was.previousStore.None?
    ensures Bound(live, Some(now), fate)
  {
  }

  /** The live state once a set has been moved in and opened. */
  function RestoredFrom(to: Live, liveFolder: string, incomingFolder: string, made: (Tree, Bytes)): Live {
    Live((to.folders - {liveFolder})[incomingFolder := made.0], Some(made.1))
  }

  /** The state a set was restored to: the live folder gave way to what the
      opening made of the set's budget, the store to what it made of the set's
      store, and every other folder is as it was. */
  ghost predicate IsRestored(restored: Live, to: Live, liveFolder: string, held: BackupSet, opening: Opening) {
    && held.manifest.Reads? && StoreFile in held.files && liveFolder in to.folders
    && var incomingFolder := held.manifest.value.budgetFolder;
    && (incomingFolder == liveFolder || incomingFolder !in to.folders)
    && restored == RestoredFrom(to, liveFolder, incomingFolder, opening(Budget(held.files), held.files[StoreFile]))
  }

  /** A set captured of a live state, from the budget in that folder. */
  ghost predicate IsOf(held: BackupSet, live: Live, folder: string, emptyStore: Bytes) {
    && held.manifest.Reads? && held.manifest.value.budgetFolder == folder && folder in live.folders
    && Budget(held.files) == live.folders[folder]
    && StoreFile in held.files && held.files[StoreFile] == live.store.GetOr(emptyStore)
  }

  /** What stands in the data directory besides the working folder: budget
      folders, other things, the backups if any were ever kept, and the store. */
  predicate StandsIn(name: string, live: Live, others: set<string>, kept: bool) {
    || name in live.folders || name in others || name in {".", ".."}
    || (name == BACKUPS && kept) || (name == STORE && live.store.Some?)
  }

  /** The same once a safety backup has been made, name by name, of what is not
      the budget that is to give way. */
  ghost predicate IsBlocked(name: string, live: Live, others: set<string>, first: string) {
    && name != first
    && (name in live.folders || name in others
        || name == "." || name == ".." || name == "ayq-backups" || name == "ayq-backup-status.json"
        || (name == "ayq-store.json" && live.store.Some?))
  }

  /** A backup leaves itself and a status behind. */
  lemma StandsAfterABackup(name: string, live: Live, before: set<string>, after: set<string>, kept: bool)
    requires before <= after <= before + {STATUS}
    ensures StandsIn(name, live, after, kept) ==> StandsIn(name, live, before + {STATUS}, true)
    ensures STATUS in after && kept ==> (StandsIn(name, live, after, kept) <==> StandsIn(name, live, before + {STATUS}, true))
  {
  }

  /** Why a restore of a set that checks out ended as it did. */
  predicate ForAReason(outcome: Outcome, incomingFolder: string, inTheWay: bool, faithful: bool, opens: bool, to: Live) {
    match outcome
    case Restored => opens && incomingFolder !in {RESTORING, STORE} && (faithful ==> !inTheWay)
    case RefusedOutcome(refusal) => (refusal == Conflict && inTheWay) || !faithful
    case OpenFailed => !opens && incomingFolder !in {RESTORING, STORE} && (faithful ==> !inTheWay)
    case Cut => true
    case SafetyBackupFailed => to.folders == map[] || !faithful
    case ReplaceFailed => !faithful || (incomingFolder == STORE && to.store.None? && !inTheWay)
    case RecoveryBroke => incomingFolder == RESTORING && (faithful ==> !inTheWay)
  }

  /** So many steps have been taken, which is only counted towards the power's going. */
  predicate Spent(before: Option<nat>, after: Option<nat>, steps: int) {
    if before.None? then after.None? else after.Some? && before.value - after.value == steps
  }

  lemma OneFewer<T>(entries: map<T, Bytes>, one: T)
    requires one in entries
    ensures |entries - {one}| == |entries| - 1
  {
    assert (entries - {one}).Keys == entries.Keys - {one};
  }

  lemma StagedOneMore(files: Files, before: Files, after: Files, path: FilePath, left: set<FilePath>, faithful: bool)
    requires left <= files.Keys && path in left && before.Keys == files.Keys - left && after - {path} == before
    requires faithful ==> forall other :: other in before ==> before[other] == files[other]
    ensures |after| == |before| + if path in after then 1 else 0
    ensures path in after ==> after.Keys == files.Keys - (left - {path})
    ensures faithful && path in after && after[path] == files[path] ==> forall other :: other in after ==> after[other] == files[other]
  {
    if path in after {
      assert after == before[path := after[path]];
    } else {
      assert after == before;
    }
  }

  /** What has been copied of a budget when these files are left. */
  ghost predicate IsCopied(files: Files, source: Tree, left: set<string>, faithful: bool) {
    && StoreFile !in files && |files| == |source.Keys| - |left|
    && (forall name :: BudgetFile(name) in files <==> name in source && name !in left)
    && (faithful ==> forall name :: BudgetFile(name) in files && name in source ==> files[BudgetFile(name)] == source[name])
  }

  lemma CopiedOneMore(files: Files, more: Files, source: Tree, left: set<string>, name: string, faithful: bool)
    requires left <= source.Keys && name in left && IsCopied(files, source, left, faithful)
    requires BudgetFile(name) in more && more == files[BudgetFile(name) := more[BudgetFile(name)]]
    requires |more| == |files| + 1 && (faithful ==> more[BudgetFile(name)] == source[name])
    ensures IsCopied(more, source, left - {name}, faithful)
  {
  }

  lemma FolderChanged(folders: map<string, Tree>, name: string, tree: Tree)
    ensures folders[name := tree] - {name} == folders - {name}
  {
  }

  function EntriesIn(working: Working): nat {
    |working.incoming| + (if working.previousBudget.Some? then 1 + |working.previousBudget.value| else 0)
    + (if working.previousStore.Some? then 1 else 0) + (if working.journal.Some? then 1 else 0)
  }

  function PiecesOf(held: BackupSet): nat {
    |held.files| + if held.manifest.NoManifest? then 0 else 1
  }

  /** A set whose manifest says that it was made automatically. */
  predicate IsAutomaticSet(held: BackupSet) {
    held.manifest.Reads? && held.manifest.value.trigger.Automatic?
  }

  function IdsOf(manifests: seq<Manifest>): set<string> {
    set manifest | manifest in manifests :: manifest.backupId
  }

  lemma OneMoreGone(manifests: seq<Manifest>, i: nat)
    requires i < |manifests|
    ensures IdsOf(manifests[..i + 1]) == IdsOf(manifests[..i]) + {manifests[i].backupId}
  {
    assert manifests[..i + 1] == manifests[..i] + [manifests[i]];
  }

  lemma WithoutMore(before: map<string, BackupSet>, after: map<string, BackupSet>, id: string, ids: set<string>)
    requires after - {id} == before - {id} && id in ids
    ensures after - ids == before - ids
  {
    assert after - ids == (after - {id}) - ids;
    assert before - ids == (before - {id}) - ids;
  }

  lemma OnlyTheAutomatic(listed: seq<Manifest>, before: map<string, BackupSet>, after: map<string, BackupSet>)
    requires ListsAll(listed, before) && after - SurplusIds(listed) == before - SurplusIds(listed)
    ensures forall id :: id in before && !IsAutomaticSet(before[id]) ==> id in after && after[id] == before[id]
  {
    SurplusIsListed(listed);
    forall id | id in before && !IsAutomaticSet(before[id]) ensures id in after && after[id] == before[id] {
      assert id !in SurplusIds(listed);
      assert id in before - SurplusIds(listed);
    }
  }

  class Disk {
    const listing: Listing
    var folders: map<string, Tree>
    var store: Option<Bytes>
    /** Whatever else stands in the data directory, folders without a budget of
        AYQ's included. */
    var others: set<string>
    var working: Option<Working>
    var backups: map<string, BackupSet>
    var partials: map<string, BackupSet>
    /** The steps left before the power goes; `None` when it stays on. */
    var power: Option<nat>
    /** Whether a journal that says complete has been written. */
    ghost var landed: bool

    constructor (listing: Listing, live: Live, others: set<string>)
      ensures this.listing == listing && Seen() == live && this.others == others
      ensures working.None? && backups == map[] && partials == map[] && power.None? && !landed
    {
      this.listing, folders, store, this.others := listing, live.folders, live.store, others;
      working, backups, partials, power, landed := None, map[], map[], None, false;
    }

    function Seen(): Live
      reads this`folders, this`store
    {
      Live(folders, store)
    }

    ghost predicate BoundFor(fate: Fate)
      reads this`folders, this`store, this`working, this`others
    {
      && Bound(Seen(), working, fate)
      && (fate.BackTo? && IsStaged(working) ==> working.value.journal.value.incomingFolder !in others)
    }

    /** No budget folder bears a name that is another's. */
    ghost predicate Tidy(live: Live)
      reads this`others
    {
      live.folders.Keys !! others && live.folders.Keys !! RESERVED
    }

    predicate Stands(name: string, live: Live)
      reads this`others, this`backups, this`partials
    {
      StandsIn(name, live, others, backups != map[] || partials != map[])
    }

    /** What the file system answers for a name in the data directory. */
    predicate Exists(name: string)
      reads this`folders, this`store, this`working, this`others, this`backups, this`partials
    {
      Stands(name, Seen()) || (name == RESTORING && working.Some?)
    }

    /** Something else than the live budget stands where a set's would, once a
        safety backup has been made. */
    predicate InTheWay(name: string, live: Live)
      reads this`others
    {
      name != listing(live.folders.Keys) && StandsIn(name, live, others + {STATUS}, true)
    }

    method Step() returns (on: bool)
      modifies this`power
      ensures if on then Spent(old(power), power, 1) else power == old(power) == Some(0)
      ensures old(power).None? ==> on && power.None?
      ensures old(power).Some? ==> power.Some?
      ensures on == (old(power) != Some(0))
    {
      on := power != Some(0);
      if power.Some? && on {
        power := Some(power.value - 1);
      }
    }

    /** One call to the file system: the power may go before it, and a disk that
        is not faithful may fail it. */
    method Try(faithful: bool) returns (p: Progress)
      modifies this`power
      ensures if p.Stopped? then power == old(power) == Some(0) else Spent(old(power), power, 1)
      ensures p.Stopped? ==> old(power).Some?
      ensures p.Threw? ==> !faithful
      ensures old(power).None? ==> power.None?
    {
      var on := Step();
      if !on { return Stopped; }
      var fails: bool := *;
      p := if fails && !faithful then Threw else Done;
    }

    // ------------------------------------------------- recursive removal

    method RemoveFolder(name: string) returns (on: bool)
      requires name in folders
      modifies this`folders, this`power
      ensures folders - {name} == old(folders) - {name}
      ensures if on then name !in folders else name in folders && old(power).Some?
      ensures old(power).None? ==> power.None?
      ensures on ==> Spent(old(power), power, |old(folders)[name]| + 1)
    {
      while folders[name] != map[]
        invariant name in folders && folders - {name} == old(folders) - {name}
        invariant old(power).None? == power.None?
        invariant Spent(old(power), power, |old(folders)[name]| - |folders[name]|)
        decreases |folders[name]|
      {
        on := Step();
        if !on { return; }
        var file :| file in folders[name];
        OneFewer(folders[name], file);
        FolderChanged(folders, name, folders[name] - {file});
        folders := folders[name := folders[name] - {file}];
      }
      on := Step();
      if !on { return; }
      folders := folders - {name};
    }

    method RemoveWorking() returns (on: bool)
      requires working.Some?
      modifies this`working, this`power
      ensures if on then working.None? else working.Some? && LeftOf(old(working).value, working.value) && old(power).Some?
      ensures old(power).None? ==> power.None?
      ensures on ==> Spent(old(power), power, EntriesIn(old(working).value) + 1)
    {
      while working.value != EMPTY
        invariant working.Some? && LeftOf(old(working).value, working.value)
        invariant old(power).None? == power.None?
        invariant Spent(old(power), power, EntriesIn(old(working).value) - EntriesIn(working.value))
        decreases EntriesIn(working.value)
      {
        on := Step();
        if !on { return; }
        var left := working.value;
        if {
          case left.incoming != map[] =>
            var path :| path in left.incoming;
            OneFewer(left.incoming, path);
            working := Some(left.(incoming := left.incoming - {path}));
          case left.previousBudget.Some? && left.previousBudget.value != map[] =>
            var budget := left.previousBudget.value;
            var file :| file in budget;
            OneFewer(budget, file);
            working := Some(left.(previousBudget := Some(budget - {file})));
          case left.previousBudget == Some(map[]) => working := Some(left.(previousBudget := None));
          case left.previousStore.Some? => working := Some(left.(previousStore := None));
          case left.journal.Some? => working := Some(left.(journal := None));
        }
      }
      on := Step();
      if !on { return; }
      working := None;
    }

    // ------------------------------------------------------- recovery

    /** Removes what stands in the place the set's budget was moved to. */
    method RemoveIncoming(journal: Journal, ghost fate: Fate) returns (on: bool)
      requires IsStaged(working) && BoundFor(fate) && working.value.journal == Some(journal)
      requires working.value.previousBudget.Some? && Exists(journal.incomingFolder)
      modifies this`folders, this`working, this`power
      ensures BoundFor(fate)
      ensures fate.BackTo? ==> working == old(working)
      ensures fate.BackTo? && on ==> journal.incomingFolder !in folders
      ensures fate.Without? ==> (on <==> working.None?) && folders == old(folders)
      ensures !on ==> old(power).Some? && working.Some?
      ensures old(power).None? ==> power.None?
    {
      if journal.incomingFolder == RESTORING {
        on := RemoveWorking();
      } else {
        on := RemoveFolder(journal.incomingFolder);
        WithoutBoth(old(folders), folders, journal.incomingFolder, journal.liveFolder);
      }
    }

    /** Removes what stands where the set's budget was moved to and where the
        previous one is to go. */
    method ClearThePlace(journal: Journal, ghost fate: Fate) returns (on: bool)
      requires IsStaged(working) && BoundFor(fate) && working.value.journal == Some(journal) && working.value.previousBudget.Some?
      modifies this`folders, this`working, this`power
      ensures BoundFor(fate)
      ensures fate.BackTo? ==> working == old(working)
      ensures fate.BackTo? && on ==> journal.incomingFolder !in folders && journal.liveFolder !in folders
      ensures fate.Without? && on ==> working.None?
      ensures !on ==> old(power).Some? && working.Some?
      ensures old(power).None? ==> power.None?
    {
      on := true;
      if Exists(journal.incomingFolder) {
        on := RemoveIncoming(journal, fate);
        if !on { return; }
      }
      if journal.liveFolder in folders {
        ghost var between := folders;
        on := RemoveFolder(journal.liveFolder);
        WithoutBoth(between, folders, journal.liveFolder, journal.incomingFolder);
        assert journal.incomingFolder != journal.liveFolder ==> journal.incomingFolder !in folders - {journal.liveFolder};
      }
    }

    method RollBackBudget(ghost fate: Fate) returns (p: Progress)
      requires IsStaged(working) && BoundFor(fate)
      modifies this`folders, this`working, this`power
      ensures BoundFor(fate)
      ensures p.Stopped? ==> old(power).Some? && working.Some?
      ensures p.Threw? ==> fate.Without? && working.None?
      ensures p.Done? ==> IsStaged(working) && working.value.previousBudget.None? && working.value.journal == old(working).value.journal
      ensures p.Done? && fate.BackTo? ==> folders == fate.to.folders
      ensures fate.Without? && old(working.value.previousBudget).Some? ==> !p.Done?
      ensures old(power).None? ==> power.None?
    {
      var journal := working.value.journal.value;
      if working.value.previousBudget.None? { return Done; }
      var cleared := ClearThePlace(journal, fate);
      if !cleared { return Stopped; }
      // The rename back: what it renames may have gone with the working folder.
      if working.None? || working.value.previousBudget.None? { return Threw; }
      assert fate.BackTo? && journal.incomingFolder !in folders - {journal.liveFolder};
      var on := Step();
      if !on { return Stopped; }
      PutBack(folders, journal, fate.to);
      folders := folders[journal.liveFolder := working.value.previousBudget.value];
      working := Some(working.value.(previousBudget := None));
      p := Done;
    }

    method RollBackStore(ghost fate: Fate) returns (on: bool)
      requires IsStaged(working) && BoundFor(fate)
      modifies this`store, this`working, this`power
      ensures IsStaged(working) && BoundFor(fate)
      ensures working.value == old(working).value.(previousStore := working.value.previousStore)
      ensures if on then working.value.previousStore.None? else old(power).Some?
      ensures on && fate.BackTo? ==> store == fate.to.store
      ensures old(power).None? ==> power.None?
      ensures on ==> Spent(old(power), power, if old(working).value.previousStore.Some? then 2
                                              else if old(working).value.journal.value.liveStore then 0 else 1)
      ensures !on ==> store == if old(power) == Some(0) then old(store) else None
    {
      if working.value.previousStore.Some? {
        on := Step();
        if !on { return; }
        store := None;
        on := Step();
        if !on { return; }
        store := working.value.previousStore;
        working := Some(working.value.(previousStore := None));
      } else if !working.value.journal.value.liveStore {
        on := Step();
        if !on { return; }
        store := None;
      } else {
        on := true;
      }
    }

    /** Undoes a restore that was cut off, or clears away one that had landed. */
    method Recover(ghost fate: Fate) returns (r: Recovery)
      requires BoundFor(fate)
      modifies this`folders, this`store, this`working, this`power
      ensures BoundFor(fate)
      ensures r.Interrupted? ==> working.Some? && old(power).Some?
      ensures !r.Interrupted? ==> working.None? && Ends(Seen(), fate)
      ensures r.Broke? ==> fate.Without?
      ensures r.Nothing? <==> old(working).None?
      ensures r.Nothing? ==> folders == old(folders) && store == old(store)
      ensures old(IsStaged(working) && working.value.previousBudget.Some?) && fate.Without? ==>
                (r.Interrupted? || r.Broke?) && store == old(store)
      ensures old(power).None? ==> power.None?
    {
      if working.None? { return Nothing; }
      var journal := working.value.journal;
      if journal.Some? && journal.value.phase.Complete? {
        var on := RemoveWorking();
        return if on then FinishedOff else Interrupted;
      }
      if journal.Some? {
        var p := RollBackBudget(fate);
        if p.Stopped? { return Interrupted; }
        if p.Threw? { return Broke; }
        var on := RollBackStore(fate);
        if !on { return Interrupted; }
      }
      ghost var was := working.value;
      var on := RemoveWorking();
      if !on {
        RemovingStaysBound(Seen(), was, working.value, fate);
      }
      r := if on then RolledBack else Interrupted;
    }

    // ------------------------------------------------------- replacing

    /** The first budget folder the scan comes to. */
    method FindBudget() returns (found: Option<string>)
      ensures found == if folders == map[] then None else Some(listing(folders.Keys))
    {
      if folders == map[] { return None; }
      found := Some(listing(folders.Keys));
    }

    /** Copies one file beside the data, torn before it is whole. */
    method StageOne(path: FilePath, bytes: Bytes, faithful: bool) returns (p: Progress)
      requires working.Some? && path !in working.value.incoming
      modifies this`working, this`power
      ensures working.Some? && working.value == old(working).value.(incoming := working.value.incoming)
      ensures working.value.incoming - {path} == old(working).value.incoming
      ensures p.Done? ==> path in working.value.incoming && (faithful ==> working.value.incoming[path] == bytes) && Spent(old(power), power, 2)
      ensures p.Stopped? ==> old(power) == Some(if path in working.value.incoming then 1 else 0)
      ensures p.Threw? ==> !faithful
      ensures old(power).None? ==> power.None?
    {
      p := Try(faithful);
      if !p.Done? { return; }
      var torn: Bytes := *;
      working := Some(working.value.(incoming := working.value.incoming[path := torn]));
      p := Try(faithful);
      if !p.Done? { return; }
      var copied: Bytes := *;
      copied := if faithful then bytes else copied;
      working := Some(working.value.(incoming := working.value.incoming[path := copied]));
    }

    /** Copies the files of a set beside the data. Each is torn before it is
        whole, and unless the disk is faithful nothing is taken for granted about
        what has landed. */
    method Stage(files: Files, faithful: bool) returns (p: Progress)
      requires working == Some(EMPTY)
      modifies this`working, this`power
      ensures working.Some? && working.value == EMPTY.(incoming := working.value.incoming)
      ensures p.Done? && faithful ==> working.value.incoming == files
      ensures p.Stopped? ==> old(power).Some?
      ensures p.Threw? ==> !faithful
      ensures old(power).None? ==> power.None?
      ensures p.Done? ==> Spent(old(power), power, 2 * |files|)
      ensures p.Stopped? ==> |working.value.incoming| == (old(power).value + 1) / 2
    {
      var left := files.Keys;
      while left != {}
        invariant working.Some? && working.value == EMPTY.(incoming := working.value.incoming)
        invariant left <= files.Keys && working.value.incoming.Keys == files.Keys - left
        invariant faithful ==> forall path :: path in working.value.incoming ==> working.value.incoming[path] == files[path]
        invariant Spent(old(power), power, 2 * |working.value.incoming|)
      {
        var path :| path in left;
        ghost var before := working.value.incoming;
        p := StageOne(path, files[path], faithful);
        StagedOneMore(files, before, working.value.incoming, path, left, faithful);
        if !p.Done? { return; }
        left := left - {path};
      }
      p := Done;
    }

    /** What is live goes into the working folder, the budget first. */
    method StepAside(faithful: bool, ghost to: Live) returns (p: Progress, ghost fate: Fate)
      requires IsStaged(working) && BoundFor(BackTo(to)) && Seen() == to
      requires working.value.previousBudget.None? && working.value.previousStore.None?
      modifies this`folders, this`store, this`working, this`power
      ensures IsStaged(working) && BoundFor(fate)
      ensures working.value == old(working).value.(previousBudget := working.value.previousBudget, previousStore := working.value.previousStore)
      ensures folders == if working.value.previousBudget.None? then to.folders else to.folders - {working.value.journal.value.liveFolder}
      ensures fate == BackTo(to) || fate == Without(to, working.value.journal.value.liveFolder)
      ensures fate.Without? <==> working.value.journal.value.incomingFolder == RESTORING && working.value.previousBudget.Some?
      ensures p.Stopped? ==> old(power).Some?
      ensures p.Threw? ==> !faithful
      ensures old(power).None? ==> power.None?
      ensures p.Done? ==> Spent(old(power), power, if working.value.journal.value.liveStore then 2 else 1)
      ensures p.Done? ==>
        && folders == to.folders - {working.value.journal.value.liveFolder} && store.None?
        && working.value.previousBudget == Some(to.folders[working.value.journal.value.liveFolder])
        && working.value.previousStore == to.store
    {
      var journal := working.value.journal.value;
      fate := BackTo(to);
      p := Try(faithful);
      if !p.Done? { return; }
      working := Some(working.value.(previousBudget := Some(folders[journal.liveFolder])));
      folders := folders - {journal.liveFolder};
      AsideLeaves(to, journal);
      fate := if journal.incomingFolder == RESTORING then Without(to, journal.liveFolder) else BackTo(to);
      if journal.liveStore {
        p := Try(faithful);
        if !p.Done? { return; }
        working := Some(working.value.(previousStore := store));
        store := None;
      }
    }

    /** What is live goes aside and the staged set takes its place: four renames. A
        rename onto the working folder fails, for it is not empty; and so does the
        store's, onto a budget that has just been given the store's name. */
    method MoveIn(faithful: bool, ghost to: Live) returns (p: Progress, ghost fate: Fate)
      requires IsStaged(working) && BoundFor(BackTo(to)) && Seen() == to
      requires working.value.previousBudget.None? && working.value.previousStore.None?
      requires StoreFile in working.value.incoming
      modifies this`folders, this`store, this`working, this`power
      ensures IsStaged(working) && BoundFor(fate) && working.value.journal == old(working).value.journal
      ensures fate == BackTo(to) || fate == Without(to, working.value.journal.value.liveFolder)
      ensures fate.Without? <==> working.value.journal.value.incomingFolder == RESTORING && working.value.previousBudget.Some?
      ensures fate.Without? && faithful && p.Threw? ==> store.None?
      ensures p.Stopped? ==> old(power).Some?
      ensures p.Threw? ==> !faithful || fate.Without? || working.value.journal.value.incomingFolder == STORE
      ensures old(power).None? ==> power.None?
      ensures p.Done? ==> Spent(old(power), power, if working.value.journal.value.liveStore then 4 else 3)
      ensures working.value.incoming
              == if working.value.previousBudget.None? || working.value.journal.value.incomingFolder !in folders then old(working).value.incoming
                 else if p.Done? then map[] else map[StoreFile := old(working).value.incoming[StoreFile]]
      ensures p.Done? ==>
        var journal, incoming := working.value.journal.value, old(working).value.incoming;
        && journal.incomingFolder !in {RESTORING, STORE}
        && Seen() == RestoredFrom(to, journal.liveFolder, journal.incomingFolder, (Budget(incoming), incoming[StoreFile]))
        && working.value.previousBudget == Some(to.folders[journal.liveFolder]) && working.value.previousStore == to.store
    {
      var journal := working.value.journal.value;
      var incoming := working.value.incoming;
      p, fate := StepAside(faithful, to);
      if !p.Done? { return; }
      if journal.incomingFolder == RESTORING { return Threw, fate; }
      p := Try(faithful);
      if !p.Done? { return; }
      MovedInLeaves(to, journal, Budget(incoming));
      folders := folders[journal.incomingFolder := Budget(incoming)];
      working := Some(working.value.(incoming := map[StoreFile := incoming[StoreFile]]));
      if journal.incomingFolder == STORE { return Threw, fate; }
      p := Try(faithful);
      if !p.Done? { return; }
      store := Some(incoming[StoreFile]);
      working := Some(working.value.(incoming := map[]));
    }

    /** Stages a copy of a set and checks it, and writes the journal. */
    method Prepare(backupId: string, manifest: Manifest, liveFolder: string, faithful: bool, ghost to: Live) returns (r: Replaced)
      requires working.None? && Seen() == to && Tidy(to) && liveFolder in folders
      requires manifest.budgetFolder == liveFolder || !Stands(manifest.budgetFolder, to)
      requires CheckBackup(backups, backupId) == Fit(manifest)
      modifies this`working, this`power
      ensures BoundFor(BackTo(to))
      ensures r.Halted? ==> old(power).Some?
      ensures r.Failed? || r.Refused? ==> !faithful
      ensures !r.NoBudget?
      ensures old(power).None? ==> power.None?
      ensures r.InPlace? ==> Spent(old(power), power, 2 * |backups[backupId].files| + 2)
      ensures r.InPlace? ==>
        && IsStaged(working) && working.value.previousBudget.None? && working.value.previousStore.None?
        && working.value.journal == Some(Journal(backupId, Staged, liveFolder, to.store.Some?, manifest.budgetFolder))
        && working.value.incoming == backups[backupId].files
    {
      var p := Try(faithful);
      if !p.Done? { return if p.Stopped? then Halted else Failed; }
      working := Some(EMPTY);
      p := Stage(backups[backupId].files, faithful);
      if !p.Done? { return if p.Stopped? then Halted else Failed; }
      var refusal := CheckEachFile(working.value.incoming, manifest.files);
      if refusal.Some? { return Refused(refusal.value); }
      FilesAreSealed(working.value.incoming, backups[backupId].files, manifest.files);
      p := Try(faithful);
      if !p.Done? { return if p.Stopped? then Halted else Failed; }
      working := Some(working.value.(journal := Some(Journal(backupId, Staged, liveFolder, store.Some?, manifest.budgetFolder))));
      r := InPlace;
    }

    /** A checked set takes the place of what is live. It answers its own reason if
        it does not, and leaves it to whoever called it to recover. */
    method Replace(backupId: string, manifest: Manifest, faithful: bool, ghost to: Live)
      returns (r: Replaced, liveFolder: string, ghost fate: Fate)
      requires IsListing(listing) && BoundFor(BackTo(to)) && Tidy(to) && CheckBackup(backups, backupId) == Fit(manifest)
      modifies this`folders, this`store, this`working, this`power
      ensures BoundFor(fate)
      ensures fate == BackTo(to) || (fate == Without(to, liveFolder) && IsStaged(working) && working.value.previousBudget.Some?)
      ensures fate.Without? ==> manifest.budgetFolder == RESTORING && (faithful && r.Failed? ==> store.None?)
      ensures r.Halted? ==> old(power).Some?
      ensures r.NoBudget? ==> to.folders == map[]
      ensures r.Refused? || r.Failed? || r.InPlace? || fate.Without? ==> liveFolder == listing(to.folders.Keys)
      ensures r.Failed? ==> !faithful || fate.Without? || (manifest.budgetFolder == STORE && to.store.None?)
      ensures r.Refused? ==>
        || !faithful
        || (r.refusal == Conflict && fate == BackTo(to) && manifest.budgetFolder != liveFolder && Stands(manifest.budgetFolder, to))
      ensures r.InPlace? || r.Failed? || fate.Without? ==> manifest.budgetFolder == liveFolder || !Stands(manifest.budgetFolder, to)
      ensures old(power).None? ==> power.None?
      ensures r.InPlace? ==>
        && fate == BackTo(to) && manifest.budgetFolder !in {RESTORING, STORE}
        && liveFolder in to.folders && (manifest.budgetFolder == liveFolder || manifest.budgetFolder !in to.folders)
        && IsStaged(working) && working.value.journal.value.incomingFolder == manifest.budgetFolder
        && working.value.previousBudget.Some? && working.value.previousStore == to.store
        && StoreFile in backups[backupId].files
        && Seen() == RestoredFrom(to, liveFolder, manifest.budgetFolder,
                                  (Budget(backups[backupId].files), backups[backupId].files[StoreFile]))
    {
      liveFolder, fate := "", BackTo(to);
      var earlier := Recover(BackTo(to));
      if earlier.Interrupted? { return Halted, liveFolder, fate; }
      var found := FindBudget();
      if found.None? { return NoBudget, liveFolder, fate; }
      liveFolder := found.value;
      FirstOf(listing, folders);
      if manifest.budgetFolder != liveFolder && Exists(manifest.budgetFolder) { return Refused(Conflict), liveFolder, fate; }
      r := Prepare(backupId, manifest, liveFolder, faithful, to);
      if !r.InPlace? { return; }
      var p;
      p, fate := MoveIn(faithful, to);
      r := if p.Done? then InPlace else if p.Stopped? then Halted else Failed;
    }

    /** Once the set has opened, nothing is kept to go back to. */
    method Finish(ghost to: Live) returns (on: bool)
      requires IsStaged(working) && BoundFor(BackTo(to)) && !landed
      modifies this`working, this`power, this`landed
      ensures if on then landed && working.None? else old(power).Some?
      ensures landed <==> old(power) != Some(0)
      ensures on ==> Spent(old(power), power, EntriesIn(old(working).value) + 2)
      ensures BoundFor(BackTo(if landed then Seen() else to))
      ensures old(power).None? ==> power.None?
    {
      on := Step();
      if !on { return; }
      working := Some(working.value.(journal := Some(working.value.journal.value.(phase := Complete))));
      landed := true;
      on := RemoveWorking();
    }

    // ------------------------------------------------------- capturing

    /** One manifest entry a file, in some order. */
    method Described(files: Files) returns (entries: seq<FileEntry>)
      ensures Describes(entries, files)
    {
      entries := [];
      var left := files.Keys;
      while left != {}
        invariant left <= files.Keys && Paths(entries) == files.Keys - left
        invariant forall entry :: entry in entries ==> entry.path in files && entry == Entry(entry.path, files[entry.path])
      {
        var path :| path in left;
        assert Paths(entries + [Entry(path, files[path])]) == Paths(entries) + {path};
        entries := entries + [Entry(path, files[path])];
        left := left - {path};
      }
    }

    /** Copies one file more under a partial name. */
    method CopyOne(backupId: string, path: FilePath, bytes: Bytes, files: Files, faithful: bool) returns (p: Progress, more: Files)
      requires path !in files
      modifies this`partials, this`power
      ensures partials - {backupId} == old(partials) - {backupId}
      ensures p.Done? ==>
        && path in more && more == files[path := more[path]] && |more| == |files| + 1 && (faithful ==> more[path] == bytes)
        && backupId in partials && partials[backupId] == BackupSet(NoManifest, more) && Spent(old(power), power, 1)
      ensures !p.Done? ==> partials == old(partials) && more == files
      ensures p.Stopped? ==> power == old(power) == Some(0)
      ensures p.Threw? ==> !faithful
      ensures old(power).None? ==> power.None?
    {
      more := files;
      p := Try(faithful);
      if !p.Done? { return; }
      var copied: Bytes := *;
      more := files[path := if faithful then bytes else copied];
      partials := partials[backupId := BackupSet(NoManifest, more)];
    }

    /** Copies the live budget under a partial name. */
    method CopyBudget(backupId: string, source: Tree, faithful: bool) returns (p: Progress, files: Files)
      modifies this`partials, this`power
      ensures p.Done? ==> StoreFile !in files && (faithful ==> Budget(files) == source)
      ensures partials - {backupId} == old(partials) - {backupId}
      ensures p.Stopped? ==> old(power).Some?
      ensures p.Threw? ==> !faithful
      ensures old(power).None? ==> power.None?
      ensures p.Done? ==> Spent(old(power), power, |source| + 1) && |files| == |source|
      ensures p.Done? || (p.Stopped? && old(power) != Some(0)) ==> backupId in partials && partials[backupId] == BackupSet(NoManifest, files)
      ensures p.Stopped? && old(power) != Some(0) ==> |files| == old(power).value - 1
    {
      files := map[];
      p := Try(faithful);
      if !p.Done? { return; }
      partials := partials[backupId := BackupSet(NoManifest, map[])];
      var left := source.Keys;
      while left != {}
        invariant left <= source.Keys && IsCopied(files, source, left, faithful)
        invariant partials - {backupId} == old(partials) - {backupId} && Spent(old(power), power, |files| + 1)
        invariant backupId in partials && partials[backupId] == BackupSet(NoManifest, files)
      {
        var name :| name in left;
        ghost var before := files;
        p, files := CopyOne(backupId, BudgetFile(name), source[name], files, faithful);
        if !p.Done? { return; }
        CopiedOneMore(before, files, source, left, name, faithful);
        left := left - {name};
      }
      if faithful {
        BudgetOf(files, source);
      }
      p := Done;
    }

    /** What a failed attempt does with what it has written. */
    method RemovePartial(backupId: string) returns (on: bool)
      modifies this`partials, this`power
      ensures on ==> backupId !in partials
      ensures partials - {backupId} == old(partials) - {backupId}
      ensures !on ==> old(power).Some?
      ensures old(power).None? ==> power.None?
      ensures on ==> Spent(old(power), power, if backupId in old(partials) then |old(partials)[backupId].files| + 1 else 1)
    {
      while backupId in partials && partials[backupId].files != map[]
        invariant partials - {backupId} == old(partials) - {backupId}
        invariant old(power).None? ==> power.None?
        invariant power.Some? ==> old(power).Some?
        invariant backupId in partials <==> backupId in old(partials)
        invariant Spent(old(power), power, if backupId in partials then |old(partials)[backupId].files| - |partials[backupId].files| else 0)
        decreases if backupId in partials then |partials[backupId].files| else 0
      {
        on := Step();
        if !on { return; }
        var held := partials[backupId];
        var path :| path in held.files;
        OneFewer(held.files, path);
        partials := partials[backupId := held.(files := held.files - {path})];
      }
      on := Step();
      if !on { return; }
      partials := partials - {backupId};
    }

    /** Reads the store, and copies the budget and then it under a partial name. */
    method CopyBoth(backupId: string, source: Tree, bytes: Bytes, faithful: bool) returns (p: Progress, files: Files)
      modifies this`partials, this`power
      ensures partials - {backupId} == old(partials) - {backupId}
      ensures p.Done? ==>
        && StoreFile in files && (faithful ==> Budget(files) == source && files[StoreFile] == bytes)
        && backupId in partials && partials[backupId] == BackupSet(NoManifest, files) && Spent(old(power), power, |source| + 3)
      ensures p.Stopped? ==> old(power).Some?
      ensures p.Threw? ==> !faithful
      ensures old(power).None? ==> power.None?
    {
      files := map[];
      p := Try(faithful);
      if !p.Done? { return; }
      p, files := CopyBudget(backupId, source, faithful);
      if !p.Done? { return; }
      ghost var budget := files;
      p, files := CopyOne(backupId, StoreFile, bytes, files, faithful);
      if p.Done? {
        BudgetLeavesTheStore(budget, files[StoreFile]);
      }
    }

    /** Copies the budget and the store under a partial name, seals the copies and
        renames the set into place. */
    method CaptureFrom(folder: string, backupId: string, now: int, trigger: Trigger, emptyStore: Bytes, faithful: bool) returns (p: Progress)
      requires backupId !in backups && folder in folders
      modifies this`backups, this`partials, this`power
      ensures p.Done? ==>
        && backupId in backups && backups == old(backups)[backupId := backups[backupId]]
        && IsCapturedFor(backups[backupId], backupId, now, trigger)
        && (faithful ==> IsOf(backups[backupId], Seen(), folder, emptyStore))
      ensures !p.Done? ==> backups == old(backups)
      ensures partials - {backupId} == old(partials) - {backupId} && (p.Done? ==> backupId !in partials)
      ensures p.Stopped? ==> old(power).Some?
      ensures p.Threw? ==> !faithful
      ensures old(power).None? ==> power.None?
      ensures p.Done? ==> Spent(old(power), power, |folders[folder]| + 5)
    {
      var files;
      p, files := CopyBoth(backupId, folders[folder], store.GetOr(emptyStore), faithful);
      if !p.Done? { return; }
      p := Seal(folder, files, backupId, now, trigger, faithful);
    }

    /** Seals what was copied, and renames the set into place. */
    method Seal(folder: string, files: Files, backupId: string, now: int, trigger: Trigger, faithful: bool) returns (p: Progress)
      requires backupId !in backups
      requires backupId in partials && partials[backupId] == BackupSet(NoManifest, files)
      modifies this`backups, this`partials, this`power
      ensures p.Done? ==>
        && backupId in backups && backups == old(backups)[backupId := backups[backupId]]
        && IsCapturedFor(backups[backupId], backupId, now, trigger)
        && backups[backupId].manifest.value.budgetFolder == folder && backups[backupId].files == files
      ensures !p.Done? ==> backups == old(backups)
      ensures partials - {backupId} == old(partials) - {backupId} && (p.Done? ==> backupId !in partials)
      ensures p.Stopped? ==> old(power).Some?
      ensures p.Threw? ==> !faithful
      ensures old(power).None? ==> power.None?
      ensures p.Done? ==> Spent(old(power), power, 2)
      ensures p.Stopped? && old(power) != Some(0) ==>
        backupId in partials && IsCapturedFor(partials[backupId], backupId, now, trigger) && partials[backupId].files == files
    {
      var entries := Described(files);
      var manifest := Manifest(BACKUP_FORMAT, backupId, now, trigger, folder, entries, ManifestDigest(backupId, now, entries));
      p := Try(faithful);
      if !p.Done? { return; }
      partials := partials[backupId := BackupSet(Reads(manifest), files)];
      p := Try(faithful);
      if !p.Done? { return; }
      backups := backups[backupId := partials[backupId]];
      partials := partials - {backupId};
    }

    /** One attempt at a backup. Interrupted or failed, it has changed no backup,
        and failed it takes what it had written away. */
    method Capture(backupId: string, now: int, trigger: Trigger, emptyStore: Bytes, faithful: bool) returns (r: Captured)
      requires IsListing(listing) && backupId !in backups
      modifies this`backups, this`partials, this`power
      ensures r.CapturedFrom? ==>
        && backupId in backups && backups == old(backups)[backupId := backups[backupId]]
        && IsCapturedFor(backups[backupId], backupId, now, trigger)
        && (faithful ==> IsOf(backups[backupId], Seen(), listing(folders.Keys), emptyStore))
      ensures !r.CapturedFrom? ==> backups == old(backups)
      ensures partials - {backupId} == old(partials) - {backupId} && (r.CapturedFrom? ==> backupId !in partials)
      ensures r.NotCaptured? ==> folders == map[] || (!faithful && backupId !in partials)
      ensures folders == map[] ==> r.NotCaptured?
      ensures r.Unfinished? ==> old(power).Some?
      ensures r.CapturedFrom? ==> Spent(old(power), power, |folders[listing(folders.Keys)]| + 5)
      ensures old(power).None? ==> power.None?
    {
      var folder := FindBudget();
      if folder.None? { return NotCaptured; }
      FirstOf(listing, folders);
      var p := CaptureFrom(folder.value, backupId, now, trigger, emptyStore, faithful);
      if p.Done? { return CapturedFrom(folder.value); }
      if p.Threw? {
        var on := RemovePartial(backupId);
        if on { return NotCaptured; }
      }
      r := Unfinished;
    }

    /** The manifests of the finished backups, in some order. */
    method Listed() returns (listed: seq<Manifest>)
      ensures ListsAll(listed, backups)
    {
      listed := [];
      var left := backups.Keys;
      while left != {}
        invariant left <= backups.Keys
        invariant ListsAll(listed, backups - left)
      {
        var id :| id in left;
        var held := backups[id];
        if held.manifest.Reads? && held.manifest.value.backupId == id {
          listed := listed + [held.manifest.value];
        }
        left := left - {id};
      }
      assert backups - {} == backups;
    }

    /** Removes one entry of a backup, in any order. */
    method RemovePiece(id: string, faithful: bool) returns (p: Progress)
      requires id in backups && PiecesOf(backups[id]) > 0
      modifies this`backups, this`power
      ensures id in backups && backups - {id} == old(backups) - {id}
      ensures p.Done? ==> PiecesOf(backups[id]) == PiecesOf(old(backups)[id]) - 1 && Spent(old(power), power, 1)
      ensures p.Stopped? ==> old(power).Some?
      ensures p.Threw? ==> !faithful
      ensures old(power).None? ==> power.None?
    {
      p := Try(faithful);
      if !p.Done? { return; }
      var held := backups[id];
      if {
        case held.files != map[] =>
          var path :| path in held.files;
          OneFewer(held.files, path);
          held := held.(files := held.files - {path});
        case !held.manifest.NoManifest? => held := held.(manifest := NoManifest);
      }
      backups := backups[id := held];
    }

    /** Removes one backup, an entry at a time. */
    method RemoveBackup(id: string, faithful: bool) returns (p: Progress)
      requires id in backups
      modifies this`backups, this`power
      ensures backups - {id} == old(backups) - {id}
      ensures p.Done? ==> backups == old(backups) - {id}
      ensures p.Stopped? ==> old(power).Some?
      ensures p.Threw? ==> !faithful
      ensures old(power).None? ==> power.None?
      ensures p.Done? ==> Spent(old(power), power, PiecesOf(old(backups)[id]) + 1)
    {
      while PiecesOf(backups[id]) > 0
        invariant id in backups && backups - {id} == old(backups) - {id}
        invariant Spent(old(power), power, PiecesOf(old(backups)[id]) - PiecesOf(backups[id]))
        decreases PiecesOf(backups[id])
      {
        p := RemovePiece(id, faithful);
        if !p.Done? { return; }
      }
      p := Try(faithful);
      if !p.Done? { return; }
      backups := backups - {id};
    }

    /** Removes the automatic backups beyond the newest ten. */
    method Prune(faithful: bool) returns (p: Progress, listed: seq<Manifest>)
      modifies this`backups, this`power
      ensures ListsAll(listed, old(backups))
      ensures backups - SurplusIds(listed) == old(backups) - SurplusIds(listed)
      ensures p.Done? ==> backups == old(backups) - SurplusIds(listed)
      ensures p.Stopped? ==> old(power).Some?
      ensures p.Threw? ==> !faithful
      ensures old(power).None? ==> power.None?
    {
      listed := Listed();
      var surplus := Surplus(listed);
      ghost var ids := SurplusIds(listed);
      p := Done;
      for i := 0 to |surplus|
        invariant backups - ids == old(backups) - ids && backups.Keys !! IdsOf(surplus[..i])
        invariant p.Done?
        invariant old(power).None? ==> power.None?
        invariant power.Some? ==> old(power).Some?
      {
        var id := surplus[i].backupId;
        OneMoreGone(surplus, i);
        if id in backups {
          ghost var before := backups;
          p := RemoveBackup(id, faithful);
          assert surplus[i] in surplus;
          WithoutMore(before, backups, id, ids);
          if !p.Done? { return; }
        }
      }
      assert surplus[..|surplus|] == surplus;
      assert backups - ids == backups;
    }

    /** The note made of an attempt, which is let go if it cannot be written. */
    method Note(faithful: bool) returns (on: bool)
      modifies this`power, this`others
      ensures old(others) <= others <= old(others) + {STATUS}
      ensures if on then Spent(old(power), power, 1) && (faithful ==> STATUS in others) else old(power) == Some(0)
    {
      var p := Try(faithful);
      if p.Done? {
        others := others + {STATUS};
      }
      on := !p.Stopped?;
    }

    /** What an attempt does once a backup is made: an automatic one is followed by
        the pruning. */
    method PruneAfter(trigger: Trigger, faithful: bool) returns (p: Progress, listed: seq<Manifest>)
      modifies this`backups, this`power
      ensures ListsAll(listed, old(backups))
      ensures p.Done? ==> backups == if trigger.Automatic? then old(backups) - SurplusIds(listed) else old(backups)
      ensures forall id :: id in old(backups) && !(trigger.Automatic? && IsAutomaticSet(old(backups)[id])) ==>
                id in backups && backups[id] == old(backups)[id]
      ensures p.Stopped? ==> old(power).Some?
      ensures p.Threw? ==> !faithful && trigger.Automatic?
      ensures old(power).None? ==> power.None?
    {
      if trigger.Automatic? {
        p, listed := Prune(faithful);
        OnlyTheAutomatic(listed, old(backups), backups);
      } else {
        p := Done;
        listed := Listed();
      }
    }

    /** An attempt, and the note that is made of it. */
    method Attempt(backupId: string, now: int, trigger: Trigger, emptyStore: Bytes, faithful: bool)
      returns (r: Captured, ghost made: BackupSet)
      requires IsListing(listing) && backupId !in backups
      modifies this`backups, this`partials, this`power, this`others
      ensures r.CapturedFrom? ==>
        && IsCapturedFor(made, backupId, now, trigger) && backups == old(backups)[backupId := made]
        && (faithful ==> IsOf(made, Seen(), listing(folders.Keys), emptyStore) && STATUS in others)
      ensures forall id :: id in old(backups) ==> id in backups && backups[id] == old(backups)[id]
      ensures r.NotCaptured? ==> backups == old(backups) && (folders == map[] || (!faithful && backupId !in partials))
      ensures old(others) <= others <= old(others) + {STATUS}
      ensures partials - {backupId} == old(partials) - {backupId} && (r.CapturedFrom? ==> backupId !in partials)
      ensures folders == map[] ==> !r.CapturedFrom?
      ensures r.Unfinished? ==> old(power).Some?
      ensures r.CapturedFrom? ==> Spent(old(power), power, |folders[listing(folders.Keys)]| + 6)
      ensures old(power).None? ==> power.None?
    {
      r := Capture(backupId, now, trigger, emptyStore, faithful);
      made := if r.CapturedFrom? then backups[backupId] else BackupSet(NoManifest, map[]);
      if !r.Unfinished? {
        var on := Note(faithful);
        if !on { r := Unfinished; }
      }
    }

    /** An attempt, the note that is made of it, which is let go if it cannot be
        written, and after an automatic one the pruning. Its power may go with a
        backup made and the note not, or the pruning half done. */
    method CreateBackup(backupId: string, now: int, trigger: Trigger, emptyStore: Bytes, faithful: bool)
      returns (r: Captured, ghost made: BackupSet, ghost listed: seq<Manifest>)
      requires IsListing(listing) && backupId !in backups
      modifies this`backups, this`partials, this`power, this`others
      ensures r.CapturedFrom? ==>
        && IsCapturedFor(made, backupId, now, trigger)
        && (faithful ==> IsOf(made, Seen(), listing(folders.Keys), emptyStore) && STATUS in others)
        && var all := old(backups)[backupId := made];
           ListsAll(listed, all) && backups == if trigger.Automatic? then all - SurplusIds(listed) else all
      ensures forall id :: id in old(backups) && !(trigger.Automatic? && IsAutomaticSet(old(backups)[id])) ==>
                id in backups && backups[id] == old(backups)[id]
      ensures r.NotCaptured? ==> backups == old(backups) && (folders == map[] || (!faithful && backupId !in partials))
      ensures old(others) <= others <= old(others) + {STATUS}
      ensures partials - {backupId} == old(partials) - {backupId} && (r.CapturedFrom? ==> backupId !in partials)
      ensures folders == map[] ==> !r.CapturedFrom?
      ensures r.Unfinished? ==> old(power).Some? || (!faithful && trigger.Automatic?)
      ensures old(power).None? ==> power.None?
    {
      listed := [];
      r, made := Attempt(backupId, now, trigger, emptyStore, faithful);
      if r.CapturedFrom? {
        var p, manifests := PruneAfter(trigger, faithful);
        listed := manifests;
        if !p.Done? { r := Unfinished; }
      }
    }

    // --------------------------------------------------- the engine's use of it

    /** Opening the budget that has just been moved in writes what it will to it
        and to its store. */
    method OpenRestored(opening: Opening, ghost to: Live)
      requires IsStaged(working) && BoundFor(BackTo(to))
      requires working.value.previousBudget.Some? && working.value.previousStore == to.store
      requires working.value.journal.value.incomingFolder in folders && store.Some?
      modifies this`folders, this`store
      ensures BoundFor(BackTo(to))
      ensures var folder := working.value.journal.value.incomingFolder;
        var made := opening(old(folders)[folder], old(store).value);
        Seen() == Live(old(folders)[folder := made.0], Some(made.1))
    {
      var folder := working.value.journal.value.incomingFolder;
      var made := opening(folders[folder], store.value);
      ghost var both := {working.value.journal.value.liveFolder, folder};
      assert folders[folder := made.0] - both == folders - both;
      folders := folders[folder := made.0];
      store := Some(made.1);
    }

    /** Something did not work: what the caller of the replace runs. */
    method PutBackEverything(answer: Outcome, ghost fate: Fate) returns (outcome: Outcome)
      requires BoundFor(fate) && answer != Cut && answer != RecoveryBroke
      requires fate.Without? ==> IsStaged(working) && working.value.previousBudget.Some?
      modifies this`folders, this`store, this`working, this`power
      ensures BoundFor(fate)
      ensures outcome == Cut ==> old(power).Some?
      ensures outcome != Cut ==> working.None? && Ends(Seen(), fate)
      ensures outcome == Cut || outcome == if fate.Without? then RecoveryBroke else answer
      ensures fate.Without? ==> store == old(store)
      ensures old(power).None? ==> power.None?
    {
      var back := Recover(fate);
      outcome := if back.Interrupted? then Cut else if back.Broke? then RecoveryBroke else answer;
    }

    /** The part of a restore after the set has been moved in. */
    method OpenAndFinish(held: BackupSet, liveFolder: string, opens: bool, opening: Opening, ghost to: Live)
      returns (outcome: Outcome, ghost fate: Fate)
      requires IsStaged(working) && BoundFor(BackTo(to)) && !landed && liveFolder in to.folders
      requires working.value.previousBudget.Some? && working.value.previousStore == to.store
      requires held.manifest.Reads? && StoreFile in held.files
      requires working.value.journal.value.incomingFolder == held.manifest.value.budgetFolder
      requires held.manifest.value.budgetFolder == liveFolder || held.manifest.value.budgetFolder !in to.folders
      requires Seen() == RestoredFrom(to, liveFolder, held.manifest.value.budgetFolder, (Budget(held.files), held.files[StoreFile]))
      modifies this`folders, this`store, this`working, this`power, this`landed
      ensures BoundFor(fate)
      ensures outcome == Cut ==> old(power).Some?
      ensures outcome != Cut ==> working.None? && Ends(Seen(), fate)
      ensures landed ==> opens && fate.BackTo? && IsRestored(fate.to, to, liveFolder, held, opening)
      ensures !landed ==> fate == BackTo(to)
      ensures outcome != Cut ==> (landed <==> outcome == Restored)
      ensures outcome == Cut || outcome == if opens then Restored else OpenFailed
    {
      fate := BackTo(to);
      OpenRestored(opening, to);
      if !opens {
        outcome := PutBackEverything(OpenFailed, fate);
        return;
      }
      OpenedIsRestored(to, liveFolder, held, opening);
      var on := Finish(to);
      fate := if landed then BackTo(Seen()) else BackTo(to);
      outcome := if on then Restored else Cut;
    }

    /** A replace that did not come to its end is put back, and answered for. */
    method GiveUp(replaced: Replaced, incomingFolder: string, faithful: bool, opens: bool, ghost inTheWay: bool, ghost fate: Fate, ghost to: Live)
      returns (outcome: Outcome)
      requires (replaced.Refused? || replaced.Failed?) && BoundFor(fate) && (fate.BackTo? ==> fate == BackTo(to))
      requires fate.Without? ==> IsStaged(working) && working.value.previousBudget.Some? && incomingFolder == RESTORING && !inTheWay
      requires fate.Without? && faithful ==> replaced.Failed? && store.None?
      requires replaced.Refused? ==> !faithful || (replaced.refusal == Conflict && inTheWay)
      requires replaced.Failed? ==> !faithful || fate.Without? || (incomingFolder == STORE && to.store.None? && !inTheWay)
      modifies this`folders, this`store, this`working, this`power
      ensures BoundFor(fate)
      ensures outcome == Cut ==> old(power).Some?
      ensures outcome != Cut ==> working.None? && Ends(Seen(), fate)
      ensures outcome != Restored && (outcome != Cut ==> (fate.Without? <==> outcome == RecoveryBroke))
      ensures outcome == RecoveryBroke && faithful ==> store.None?
      ensures ForAReason(outcome, incomingFolder, inTheWay, faithful, opens, to)
    {
      outcome := PutBackEverything(if replaced.Refused? then RefusedOutcome(replaced.refusal) else ReplaceFailed, fate);
    }

    /** The part of a restore after the safety backup. */
    method ReplaceAndOpen(backupId: string, manifest: Manifest, faithful: bool, opens: bool, opening: Opening, ghost to: Live)
      returns (outcome: Outcome, ghost fate: Fate)
      requires IsListing(listing) && working.None? && Seen() == to && Tidy(to) && to.folders != map[]
      requires !landed && CheckBackup(backups, backupId) == Fit(manifest)
      modifies this`folders, this`store, this`working, this`power, this`landed
      ensures BoundFor(fate)
      ensures outcome == Cut ==> old(power).Some?
      ensures outcome != Cut ==> working.None? && Ends(Seen(), fate)
      ensures landed ==> opens && fate.BackTo? && IsRestored(fate.to, to, listing(to.folders.Keys), backups[backupId], opening)
      ensures !landed ==> fate == BackTo(to) || (fate == Without(to, listing(to.folders.Keys)) && manifest.budgetFolder == RESTORING)
      ensures outcome != Cut ==> (landed <==> outcome == Restored) && (fate.Without? <==> outcome == RecoveryBroke)
      ensures outcome == RecoveryBroke && faithful ==> store.None?
      ensures ForAReason(outcome, manifest.budgetFolder, manifest.budgetFolder != listing(to.folders.Keys) && Stands(manifest.budgetFolder, to),
                         faithful, opens, to)
    {
      var replaced, liveFolder;
      replaced, liveFolder, fate := Replace(backupId, manifest, faithful, to);
      if replaced.Halted? {
        outcome := Cut;
      } else if replaced.InPlace? {
        outcome, fate := OpenAndFinish(backups[backupId], liveFolder, opens, opening, to);
      } else {
        outcome := GiveUp(replaced, manifest.budgetFolder, faithful, opens,
                          manifest.budgetFolder != listing(to.folders.Keys) && Stands(manifest.budgetFolder, to), fate, to);
      }
    }

    /** The safety backup, after which the set to restore still checks out as it
        did, and what stands under its folder's name is what stood there. */
    method KeepSafe(backupId: string, folder: string, safetyId: string, now: int, emptyStore: Bytes, faithful: bool, ghost to: Live)
      returns (kept: Captured)
      requires IsListing(listing) && safetyId !in backups && backupId in backups && Seen() == to && Tidy(to)
      modifies this`backups, this`partials, this`power, this`others
      ensures Tidy(to) && CheckBackup(backups, backupId) == old(CheckBackup(backups, backupId))
      ensures forall id :: id in old(backups) ==> id in backups && backups[id] == old(backups)[id]
      ensures kept.CapturedFrom? ==>
        && to.folders != map[]
        && safetyId in backups && IsCapturedFor(backups[safetyId], safetyId, now, BeforeRestore)
        && (faithful ==> IsOf(backups[safetyId], to, listing(to.folders.Keys), emptyStore))
        && (Stands(folder, to) ==> StandsIn(folder, to, old(others) + {STATUS}, true))
        && (faithful ==> (Stands(folder, to) <==> StandsIn(folder, to, old(others) + {STATUS}, true)))
      ensures kept.NotCaptured? ==> to.folders == map[] || !faithful
      ensures kept.Unfinished? ==> old(power).Some?
      ensures old(power).None? ==> power.None?
    {
      ghost var before, stood := backups, others;
      ghost var made, listed;
      kept, made, listed := CreateBackup(safetyId, now, BeforeRestore, emptyStore, faithful);
      CheckStands(before, backups, backupId);
      StandsAfterABackup(folder, to, stood, others, backups != map[] || partials != map[]);
    }

    /** A restore of a set that checks out. */
    method RestoreChecked(backupId: string, manifest: Manifest, safetyId: string, now: int, emptyStore: Bytes,
                          faithful: bool, opens: bool, opening: Opening, ghost to: Live)
      returns (outcome: Outcome, ghost fate: Fate)
      requires IsListing(listing) && working.None? && Seen() == to && Tidy(to) && !landed
      requires safetyId !in backups && CheckBackup(backups, backupId) == Fit(manifest)
      modifies this
      ensures BoundFor(fate)
      ensures outcome == Cut ==> old(power).Some?
      ensures outcome != Cut ==> working.None? && Ends(Seen(), fate)
      ensures landed ==> opens && fate.BackTo? && IsRestored(fate.to, to, listing(to.folders.Keys), old(backups)[backupId], opening)
      ensures !landed ==> fate == BackTo(to) || (fate == Without(to, listing(to.folders.Keys)) && manifest.budgetFolder == RESTORING)
      ensures outcome != Cut ==> (landed <==> outcome == Restored) && (fate.Without? <==> outcome == RecoveryBroke)
      ensures outcome == RecoveryBroke && faithful ==> store.None?
      ensures ForAReason(outcome, manifest.budgetFolder, old(InTheWay(manifest.budgetFolder, to)), faithful, opens, to)
      ensures landed || fate.Without? ==>
        && safetyId in backups && IsCapturedFor(backups[safetyId], safetyId, now, BeforeRestore)
        && (faithful ==> IsOf(backups[safetyId], to, listing(to.folders.Keys), emptyStore))
      ensures forall id :: id in old(backups) ==> id in backups && backups[id] == old(backups)[id]
    {
      fate := BackTo(to);
      var kept := KeepSafe(backupId, manifest.budgetFolder, safetyId, now, emptyStore, faithful, to);
      match kept {
        case Unfinished => outcome := Cut;
        case NotCaptured => outcome := SafetyBackupFailed;
        case CapturedFrom(_) => outcome, fate := ReplaceAndOpen(backupId, manifest, faithful, opens, opening, to);
      }
    }

    /** One restore, from the check of the set to its opening. What is live ends as
        it was or as the set's, but for a set with the working folder's name; and
        before anything of it gives way there is a safety backup of just that. */
    method RestoreBackup(backupId: string, safetyId: string, now: int, emptyStore: Bytes,
                         faithful: bool, opens: bool, opening: Opening, ghost to: Live)
      returns (outcome: Outcome, ghost fate: Fate)
      requires IsListing(listing) && working.None? && Seen() == to && Tidy(to) && !landed
      requires safetyId !in backups
      modifies this
      ensures BoundFor(fate)
      ensures outcome == Cut ==> old(power).Some?
      ensures outcome != Cut ==> working.None? && Ends(Seen(), fate)
      ensures landed ==>
        && opens && old(CheckBackup(backups, backupId)).Fit?
        && fate.BackTo? && IsRestored(fate.to, to, listing(to.folders.Keys), old(backups)[backupId], opening)
      ensures !landed ==>
        || fate == BackTo(to)
        || (fate == Without(to, listing(to.folders.Keys)) && old(CheckBackup(backups, backupId)).Fit?
            && old(CheckBackup(backups, backupId)).manifest.budgetFolder == RESTORING)
      ensures outcome != Cut ==> (landed <==> outcome == Restored) && (fate.Without? <==> outcome == RecoveryBroke)
      ensures outcome == RecoveryBroke && faithful ==> store.None?
      ensures match old(CheckBackup(backups, backupId))
              case Unfit(refusal) => outcome == RefusedOutcome(refusal)
              case Fit(manifest) => ForAReason(outcome, manifest.budgetFolder, old(InTheWay(manifest.budgetFolder, to)), faithful, opens, to)
      ensures landed || fate.Without? ==>
        && safetyId in backups && IsCapturedFor(backups[safetyId], safetyId, now, BeforeRestore)
        && (faithful ==> IsOf(backups[safetyId], to, listing(to.folders.Keys), emptyStore))
      ensures forall id :: id in old(backups) ==> id in backups && backups[id] == old(backups)[id]
    {
      fate := BackTo(to);
      var checked := CheckBackup(backups, backupId);
      if checked.Unfit? {
        outcome := RefusedOutcome(checked.refusal);
      } else {
        outcome, fate := RestoreChecked(backupId, checked.manifest, safetyId, now, emptyStore, faithful, opens, opening, to);
      }
    }

    /** On a faithful disk that stays on, a set that checks out is refused exactly
        when something else than the live budget stands in its way. Otherwise it
        is restored if it opens, and everything is as it was if it does not or if
        it bears the store's name; the working folder's is a case of its own. */
    method AnOrdinaryRestoreRestores(backupId: string, safetyId: string, now: int, emptyStore: Bytes,
                                     opens: bool, opening: Opening, ghost to: Live)
      returns (outcome: Outcome, ghost fate: Fate)
      requires IsListing(listing) && working.None? && Seen() == to && Tidy(to) && !landed
      requires safetyId !in backups && power.None?
      requires CheckBackup(backups, backupId).Fit? && to.folders != map[]
      requires CheckBackup(backups, backupId).manifest.budgetFolder != ".ayq-restore"
      modifies this
      ensures var folder := old(CheckBackup(backups, backupId)).manifest.budgetFolder;
        outcome == if IsBlocked(folder, to, old(others), listing(to.folders.Keys)) then RefusedOutcome(Conflict)
                   else if folder == "ayq-store.json" then ReplaceFailed
                   else if opens then Restored else OpenFailed
      ensures if outcome == Restored then IsRestored(Seen(), to, listing(to.folders.Keys), old(backups)[backupId], opening) else Seen() == to
      ensures working.None?
    {
      outcome, fate := RestoreBackup(backupId, safetyId, now, emptyStore, true, opens, opening, to);
    }

    /** A set whose folder bears the working folder's name checks out, and on a
        faithful disk that stays on its restore loses the live budget and the
        live store. The safety backup has them. */
    method ThatNameLosesThePair(backupId: string, safetyId: string, now: int, emptyStore: Bytes,
                                opens: bool, opening: Opening, ghost to: Live)
      returns (outcome: Outcome, ghost fate: Fate)
      requires IsListing(listing) && working.None? && Seen() == to && Tidy(to) && !landed
      requires safetyId !in backups && power.None? && to.folders != map[] && ".ayq-restore" !in others
      requires CheckBackup(backups, backupId).Fit? && CheckBackup(backups, backupId).manifest.budgetFolder == ".ayq-restore"
      modifies this
      ensures outcome == RecoveryBroke && working.None? && store.None?
      ensures var gone := listing(to.folders.Keys);
        folders == to.folders - {gone} && safetyId in backups && IsOf(backups[safetyId], to, gone, emptyStore)
    {
      outcome, fate := RestoreBackup(backupId, safetyId, now, emptyStore, true, opens, opening, to);
    }

    /** Recovery tried over and over, its power going each time, and then let
        finish: as good as one run that nothing interrupts. */
    method RecoverThrough(cuts: seq<nat>, ghost fate: Fate) returns (again: Recovery)
      requires BoundFor(fate)
      modifies this`folders, this`store, this`working, this`power
      ensures working.None? && Ends(Seen(), fate)
      ensures again.Nothing?
    {
      for i := 0 to |cuts|
        invariant BoundFor(fate)
      {
        power := Some(cuts[i]);
        var _ := Recover(fate);
      }
      power := None;
      var _ := Recover(fate);
      again := Recover(fate);
    }

    /** Restore is all or nothing: whenever the power goes during a restore, and
        however often it goes during the recoveries after it, the live budget and
        store end up both as they were before, or both as the opening made them of
        the set's, the latter exactly when the complete journal had been written.
        The one exception is a set whose folder bears the working folder's name.
        No backup is lost. */
    method RestoreSurvivesEverything(backupId: string, safetyId: string, now: int, emptyStore: Bytes,
                                     faithful: bool, opens: bool, opening: Opening, cuts: seq<nat>, ghost to: Live)
      returns (outcome: Outcome)
      requires IsListing(listing) && working.None? && Seen() == to && Tidy(to) && !landed
      requires safetyId !in backups
      modifies this
      ensures working.None?
      ensures landed ==>
        && opens && old(CheckBackup(backups, backupId)).Fit?
        && IsRestored(Seen(), to, listing(to.folders.Keys), old(backups)[backupId], opening)
      ensures !landed ==>
        || Seen() == to
        || (old(CheckBackup(backups, backupId)).Fit? && old(CheckBackup(backups, backupId)).manifest.budgetFolder == ".ayq-restore")
      ensures forall id :: id in old(backups) ==> id in backups && backups[id] == old(backups)[id]
    {
      ghost var fate;
      outcome, fate := RestoreBackup(backupId, safetyId, now, emptyStore, faithful, opens, opening, to);
      if outcome.Cut? {
        var _ := RecoverThrough(cuts, fate);
      }
    }
  }

  lemma OpenedIsRestored(to: Live, liveFolder: string, held: BackupSet, opening: Opening)
    requires liveFolder in to.folders && held.manifest.Reads? && StoreFile in held.files
    requires held.manifest.value.budgetFolder == liveFolder || held.manifest.value.budgetFolder !in to.folders
    ensures var folder, budget := held.manifest.value.budgetFolder, Budget(held.files);
      var made := opening(budget, held.files[StoreFile]);
      IsRestored(Live((to.folders - {liveFolder})[folder := budget][folder := made.0], Some(made.1)), to, liveFolder, held, opening)
  {
    var folder, budget := held.manifest.value.budgetFolder, Budget(held.files);
    var made := opening(budget, held.files[StoreFile]);
    var others := to.folders - {liveFolder};
    assert others[folder := budget][folder := made.0] == others[folder := made.0];
    assert RestoredFrom(to, liveFolder, folder, made).folders == others[folder := made.0];
  }

  lemma BudgetOf(files: Files, source: Tree)
    requires forall name :: BudgetFile(name) in files <==> name in source
    requires forall name :: BudgetFile(name) in files ==> files[BudgetFile(name)] == source[name]
    ensures Budget(files) == source
  {
    forall name | name in source ensures name in Budget(files) {
      assert BudgetFile(name) in files;
    }
  }

  lemma BudgetLeavesTheStore(files: Files, store: Bytes)
    ensures Budget(files[StoreFile := store]) == Budget(files)
  {
    var after := files[StoreFile := store];
    forall name | name in Budget(files) ensures name in Budget(after) {
      assert BudgetFile(name) in after;
    }
    forall name | name in Budget(after) ensures name in Budget(files) {
      assert BudgetFile(name) in files;
    }
  }

  lemma AsideLeaves(to: Live, journal: Journal)
    requires journal.liveFolder in to.folders
    ensures var both := {journal.liveFolder, journal.incomingFolder};
      to.folders - {journal.liveFolder} - both == to.folders - both
  {
  }

  lemma MovedInLeaves(to: Live, journal: Journal, budget: Tree)
    ensures var both := {journal.liveFolder, journal.incomingFolder};
      (to.folders - {journal.liveFolder})[journal.incomingFolder := budget] - both == to.folders - both
  {
  }

  lemma CheckStands(before: map<string, BackupSet>, after: map<string, BackupSet>, backupId: string)
    requires backupId in before && backupId in after && after[backupId] == before[backupId]
    ensures CheckBackup(after, backupId) == CheckBackup(before, backupId)
  {
  }

  /** There is only one state a recovery can come back to. */
  lemma OneWayBack(live: Live, working: Option<Working>, a: Live, b: Live)
    requires Leads(live, working, a) && Leads(live, working, b)
    ensures a == b
  {
    if IsStaged(working) && working.value.previousBudget.Some? {
      var journal := working.value.journal.value;
      var both := {journal.liveFolder, journal.incomingFolder};
      assert a.folders - both == b.folders - both;
      forall name | name in a.folders ensures name in b.folders && a.folders[name] == b.folders[name] {
        assert name in both || name in a.folders - both;
      }
      forall name | name in b.folders ensures name in a.folders {
        assert name in both || name in b.folders - both;
      }
    }
  }

  lemma WithoutBoth(before: map<string, Tree>, after: map<string, Tree>, one: string, other: string)
    requires after - {one} == before - {one}
    ensures after - {one, other} == before - {one, other}
    ensures after - {other, one} == before - {other, one}
  {
    assert after - {one, other} == (after - {one}) - {other};
    assert before - {one, other} == (before - {one}) - {other};
    assert {one, other} == {other, one};
  }

  lemma PutBack(folders: map<string, Tree>, journal: Journal, to: Live)
    requires journal.liveFolder in to.folders
    requires journal.incomingFolder == journal.liveFolder || journal.incomingFolder !in to.folders
    requires folders - {journal.liveFolder, journal.incomingFolder} == to.folders - {journal.liveFolder, journal.incomingFolder}
    requires journal.incomingFolder !in folders && journal.liveFolder !in folders
    ensures folders[journal.liveFolder := to.folders[journal.liveFolder]] == to.folders
  {
    var both := {journal.liveFolder, journal.incomingFolder};
    assert folders - both == folders;
    forall name | name in to.folders
      ensures name == journal.liveFolder || (name in folders && folders[name] == to.folders[name])
    {
      assert name != journal.liveFolder ==> name in to.folders - both;
    }
    forall name | name in folders ensures name in to.folders {
      assert name in folders - both;
    }
  }
}
