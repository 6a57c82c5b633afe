/** What a backup is: its files, the manifest that seals them, the check that
    reads every byte of both, and which ones are kept (ayq-backup.ts). Contents
    are opaque bytes, and a hash is as good as what it was taken of. */
module BackupSets {
  import opened Lists

  type Bytes = seq<int>

  /** A file of a set: one of the budget's, or the store. */
  datatype FilePath = BudgetFile(name: string) | StoreFile

  type Files = map<FilePath, Bytes>

  datatype Hash = Sha256(of: Bytes)

  datatype FileEntry = FileEntry(path: FilePath, bytes: nat, sha256: Hash)

  /** What seals a set: which it is, when it was made, and each file as listed. */
  datatype Digest = Digest(format: int, backupId: string, createdAt: int, files: seq<FileEntry>)

  datatype Trigger = Manual | Automatic | BeforeRestore

  datatype Manifest = Manifest(
    format: int,
    backupId: string,
    createdAt: int,
    trigger: Trigger,
    budgetFolder: string,
    files: seq<FileEntry>,
    digest: Digest)

  datatype ManifestFile = NoManifest | Damaged | Reads(value: Manifest)

  /** A set as it lies on the disk. */
  datatype BackupSet = BackupSet(manifest: ManifestFile, files: Files)

  datatype Refusal = UnknownBackup | Unreadable | NewerFormat | Mismatch | Incomplete | Conflict

  datatype Checked = Fit(manifest: Manifest) | Unfit(refusal: Refusal)

  const BACKUP_FORMAT: int := 1

  const DATABASE: FilePath := BudgetFile("db.sqlite")
  const METADATA: FilePath := BudgetFile("metadata.json")

  function ManifestDigest(backupId: string, createdAt: int, files: seq<FileEntry>): Digest {
    Digest(BACKUP_FORMAT, backupId, createdAt, files)
  }

  function Entry(path: FilePath, bytes: Bytes): FileEntry {
    FileEntry(path, |bytes|, Sha256(bytes))
  }

  predicate Fits(files: Files, entry: FileEntry) {
    entry.path in files && |files[entry.path]| == entry.bytes && Sha256(files[entry.path]) == entry.sha256
  }

  function Paths(entries: seq<FileEntry>): set<FilePath> {
    set entry | entry in entries :: entry.path
  }

  /** Every byte of some files against a description of them. */
  function CheckFiles(files: Files, entries: seq<FileEntry>): Option<Refusal> {
    if files.Keys != Paths(entries) then Some(Incomplete)
    else if exists entry :: entry in entries && !Fits(files, entry) then Some(Mismatch)
    else None
  }

  /** The same, reading file after file. */
  method CheckEachFile(files: Files, entries: seq<FileEntry>) returns (refusal: Option<Refusal>)
    ensures refusal == CheckFiles(files, entries)
  {
    var listed := Paths(entries);
    if (exists path :: path in listed && path !in files) || (exists path :: path in files && path !in listed) {
      return Some(Incomplete);
    }
    for i := 0 to |entries|
      invariant forall k :: 0 <= k < i ==> Fits(files, entries[k])
    {
      var one := entries[i];
      assert one in entries && one.path in listed;
      var bytes := files[one.path];
      if |bytes| != one.bytes || Sha256(bytes) != one.sha256 {
        assert !Fits(files, entries[i]);
        return Some(Mismatch);
      }
    }
    refusal := None;
  }

  /** What a budget folder's name may be made of. */
  predicate PlainName(name: string) {
    name != "" && forall i :: 0 <= i < |name| ==>
      'A' <= name[i] <= 'Z' || 'a' <= name[i] <= 'z' || '0' <= name[i] <= '9' || name[i] in "._-"
  }

  function CheckBackup(backups: map<string, BackupSet>, backupId: string): Checked {
    if backupId !in backups then Unfit(UnknownBackup)
    else
      var held := backups[backupId];
      if held.manifest.NoManifest? then Unfit(Incomplete)
      else if held.manifest.Damaged? then Unfit(Unreadable)
      else
        var manifest := held.manifest.value;
        if manifest.format > BACKUP_FORMAT then Unfit(NewerFormat)
        else if manifest.backupId != backupId then Unfit(Mismatch)
        else if !PlainName(manifest.budgetFolder) then Unfit(Unreadable)
        else if !({StoreFile, DATABASE, METADATA} <= Paths(manifest.files)) then Unfit(Incomplete)
        else if manifest.digest != ManifestDigest(manifest.backupId, manifest.createdAt, manifest.files) then Unfit(Mismatch)
        else
          var refusal := CheckFiles(held.files, manifest.files);
          if refusal.Some? then Unfit(refusal.value) else Fit(manifest)
  }

  /** One of the characters a folder's name may have, one by one. */
  predicate IsPlain(c: char) {
    || c in "ABCDEFGHIJKLMNOPQRSTUVWXYZ" || c in "abcdefghijklmnopqrstuvwxyz" || c in "0123456789"
    || c == '.' || c == '_' || c == '-'
  }

  lemma UpperByOne(c: char)
    ensures 'A' <= c <= 'Z' <==> c in "ABCDEFGHIJKLMNOPQRSTUVWXYZ"
  {
    if 'A' <= c <= 'Z' {
      assert "ABCDEFGHIJKLMNOPQRSTUVWXYZ"[c as int - 'A' as int] == c;
    }
  }

  lemma LowerByOne(c: char)
    ensures 'a' <= c <= 'z' <==> c in "abcdefghijklmnopqrstuvwxyz"
  {
    if 'a' <= c <= 'z' {
      assert "abcdefghijklmnopqrstuvwxyz"[c as int - 'a' as int] == c;
    }
  }

  lemma DigitByOne(c: char)
    ensures '0' <= c <= '9' <==> c in "0123456789"
  {
    if '0' <= c <= '9' {
      assert "0123456789"[c as int - '0' as int] == c;
    }
  }

  /** A name of one character or more, all of them plain. */
  ghost predicate IsPlainName(name: string) {
    |name| > 0 && forall i :: 0 <= i < |name| ==> IsPlain(name[i])
  }

  lemma PlainNameIsPlain(name: string)
    ensures PlainName(name) <==> IsPlainName(name)
  {
    forall i | 0 <= i < |name|
      ensures IsPlain(name[i]) <==>
              'A' <= name[i] <= 'Z' || 'a' <= name[i] <= 'z' || '0' <= name[i] <= '9' || name[i] in "._-"
    {
      UpperByOne(name[i]);
      LowerByOne(name[i]);
      DigitByOne(name[i]);
      assert name[i] in "._-" <==> name[i] == '.' || name[i] == '_' || name[i] == '-';
    }
  }

  /** Each file is there, as long as listed and hashed as listed, and no other is. */
  ghost predicate IsAsListed(files: Files, entries: seq<FileEntry>) {
    && (forall path :: path in files <==> exists entry :: entry in entries && entry.path == path)
    && (forall entry :: entry in entries && entry.path in files ==>
          |files[entry.path]| == entry.bytes && Sha256(files[entry.path]) == entry.sha256)
  }

  lemma CheckedIsAsListed(files: Files, entries: seq<FileEntry>)
    ensures CheckFiles(files, entries).None? <==> IsAsListed(files, entries)
  {
    if IsAsListed(files, entries) {
      assert files.Keys == Paths(entries);
      assert forall entry :: entry in entries ==> entry.path in Paths(entries);
    } else if files.Keys == Paths(entries) {
      assert forall entry :: entry in entries ==> entry.path in Paths(entries);
      assert forall path :: path in files ==> path in Paths(entries);
    }
  }

  /** A set checks out exactly when it is there, its manifest reads, is in the one
      format there is, is its own and seals its own moment and files, its folder
      has a plain name, the store, the database and the metadata are listed, and
      every file is as listed. */
  lemma ChecksOutExactly(backups: map<string, BackupSet>, backupId: string, manifest: Manifest)
    ensures CheckBackup(backups, backupId) == Fit(manifest)
            <==> && backupId in backups && backups[backupId].manifest == Reads(manifest)
                 && manifest.format <= 1 && manifest.backupId == backupId
                 && manifest.digest == Digest(1, backupId, manifest.createdAt, manifest.files)
                 && IsPlainName(manifest.budgetFolder)
                 && (exists entry :: entry in manifest.files && entry.path == StoreFile)
                 && (exists entry :: entry in manifest.files && entry.path == BudgetFile("db.sqlite"))
                 && (exists entry :: entry in manifest.files && entry.path == BudgetFile("metadata.json"))
                 && IsAsListed(backups[backupId].files, manifest.files)
  {
    PlainNameIsPlain(manifest.budgetFolder);
    if backupId in backups {
      CheckedIsAsListed(backups[backupId].files, manifest.files);
    }
    assert forall path :: path in Paths(manifest.files) <==> exists entry :: entry in manifest.files && entry.path == path;
    assert {StoreFile, BudgetFile("db.sqlite"), BudgetFile("metadata.json")} <= Paths(manifest.files)
           <==> StoreFile in Paths(manifest.files) && BudgetFile("db.sqlite") in Paths(manifest.files)
                && BudgetFile("metadata.json") in Paths(manifest.files);
  }

  /** Packed by a newer AYQ, it is refused as that, whatever else is wrong. */
  lemma NewerIsRefusedFirst(backups: map<string, BackupSet>, backupId: string)
    ensures CheckBackup(backups, backupId) == Unfit(NewerFormat)
            <==> backupId in backups && backups[backupId].manifest.Reads? && backups[backupId].manifest.value.format > 1
  {
  }

  /** The manifest reads, in a format there is, and names this very backup. */
  ghost predicate IsOwn(held: BackupSet, backupId: string) {
    held.manifest.Reads? && held.manifest.value.format <= 1 && held.manifest.value.backupId == backupId
  }

  ghost predicate IsListed(entries: seq<FileEntry>, path: FilePath) {
    exists entry :: entry in entries && entry.path == path
  }

  /** It lists the store, the database and the metadata. */
  ghost predicate ListsTheThree(entries: seq<FileEntry>) {
    IsListed(entries, StoreFile) && IsListed(entries, BudgetFile("db.sqlite")) && IsListed(entries, BudgetFile("metadata.json"))
  }

  ghost predicate AreThoseListed(files: Files, entries: seq<FileEntry>) {
    forall path :: path in files <==> IsListed(entries, path)
  }

  /** Which refusal a set that is refused gets: unknown, if there is none of that
      id; unreadable, if its manifest is damaged or its folder's name is not plain;
      incomplete, if its manifest or one of the three is missing, or other files
      are there than are listed; and a mismatch, if the manifest is another's, is
      not sealed as it should be, or a file is not as listed. */
  lemma WhyItIsRefused(backups: map<string, BackupSet>, backupId: string, held: BackupSet)
    requires backupId in backups ==> backups[backupId] == held
    ensures var checked := CheckBackup(backups, backupId);
      && (checked == Unfit(UnknownBackup) <==> backupId !in backups)
      && checked != Unfit(Conflict)
      && (backupId in backups ==>
            && (checked == Unfit(Unreadable) <==>
                  held.manifest.Damaged? || (IsOwn(held, backupId) && !IsPlainName(held.manifest.value.budgetFolder)))
            && (checked == Unfit(Incomplete) <==>
                  || held.manifest.NoManifest?
                  || (IsOwn(held, backupId) && IsPlainName(held.manifest.value.budgetFolder)
                      && (!ListsTheThree(held.manifest.value.files)
                          || (IsSealed(held.manifest.value) && !AreThoseListed(held.files, held.manifest.value.files))))))
  {
    if backupId in backups && held.manifest.Reads? {
      var manifest := held.manifest.value;
      PlainNameIsPlain(manifest.budgetFolder);
      PathsAreListed(held.files, manifest.files);
    }
  }

  ghost predicate IsSealed(manifest: Manifest) {
    manifest.digest == Digest(1, manifest.backupId, manifest.createdAt, manifest.files)
  }

  lemma PathsAreListed(files: Files, entries: seq<FileEntry>)
    ensures {StoreFile, DATABASE, METADATA} <= Paths(entries) <==> ListsTheThree(entries)
    ensures files.Keys == Paths(entries) <==> AreThoseListed(files, entries)
  {
    assert forall path :: path in Paths(entries) <==> IsListed(entries, path);
  }

  /** A description admits one set of files and no other. */
  lemma FilesAreSealed(a: Files, b: Files, entries: seq<FileEntry>)
    requires CheckFiles(a, entries).None? && CheckFiles(b, entries).None?
    ensures a == b
  {
    forall path | path in a ensures path in b && a[path] == b[path] {
      assert path in Paths(entries);
      var entry :| entry in entries && entry.path == path;
      assert Fits(a, entry) && Fits(b, entry);
    }
  }

  /** Files are described by exactly the entries taken from them. */
  ghost predicate Describes(entries: seq<FileEntry>, files: Files) {
    && Paths(entries) == files.Keys
    && forall entry :: entry in entries ==> entry == Entry(entry.path, if entry.path in files then files[entry.path] else [])
  }

  lemma CheckMeansDescribed(files: Files, entries: seq<FileEntry>)
    ensures CheckFiles(files, entries).None? <==> Describes(entries, files)
  {
    if CheckFiles(files, entries).None? {
      forall entry | entry in entries ensures entry == Entry(entry.path, if entry.path in files then files[entry.path] else []) {
        assert Fits(files, entry);
      }
    }
    if Describes(entries, files) {
      forall entry | entry in entries ensures Fits(files, entry) {
        assert entry.path in Paths(entries);
      }
    }
  }

  /** A captured set: its manifest describes its files and nothing else. */
  ghost predicate IsCaptured(held: BackupSet, backupId: string) {
    && held.manifest.Reads?
    && var manifest := held.manifest.value;
    && manifest.format == BACKUP_FORMAT && manifest.backupId == backupId
    && manifest.digest == ManifestDigest(backupId, manifest.createdAt, manifest.files)
    && Describes(manifest.files, held.files)
  }

  /** And it says when and for what it was made. */
  ghost predicate IsCapturedFor(held: BackupSet, backupId: string, now: int, trigger: Trigger) {
    IsCaptured(held, backupId) && held.manifest.value.createdAt == now && held.manifest.value.trigger == trigger
  }

  /** What was captured checks out exactly when a budget and its store were there
      and the budget's folder has a plain name. */
  lemma CapturedChecksOut(backups: map<string, BackupSet>, backupId: string)
    requires backupId in backups && IsCaptured(backups[backupId], backupId)
    ensures CheckBackup(backups, backupId) == Fit(backups[backupId].manifest.value)
            <==> {StoreFile, DATABASE, METADATA} <= backups[backupId].files.Keys
                 && PlainName(backups[backupId].manifest.value.budgetFolder)
  {
    CheckMeansDescribed(backups[backupId].files, backups[backupId].manifest.value.files);
  }

  /** Budget and store cannot be swapped singly: a set that passes under a captured
      set's digest is that set's id, moment and files. */
  lemma HalvesAreSealed(genuine: BackupSet, genuineId: string, backups: map<string, BackupSet>, backupId: string)
    requires IsCaptured(genuine, genuineId)
    requires CheckBackup(backups, backupId).Fit?
    requires backups[backupId].manifest.value.digest == genuine.manifest.value.digest
    ensures backupId == genuineId
    ensures backups[backupId].files == genuine.files
    ensures backups[backupId].manifest.value.createdAt == genuine.manifest.value.createdAt
  {
    CheckMeansDescribed(genuine.files, genuine.manifest.value.files);
    FilesAreSealed(genuine.files, backups[backupId].files, genuine.manifest.value.files);
  }

  /** What the digest does not seal: a set that checks out does so under any
      other plain folder name too, the working folder's among them. */
  lemma FolderIsNotSealed(backups: map<string, BackupSet>, backupId: string, name: string)
    requires CheckBackup(backups, backupId).Fit?
    ensures var changed := backups[backupId].manifest.value.(budgetFolder := name);
      CheckBackup(backups[backupId := backups[backupId].(manifest := Reads(changed))], backupId)
      == if PlainName(name) then Fit(changed) else Unfit(Unreadable)
    ensures PlainName(".ayq-restore")
  {
  }

  // ---------------------------------------------------- which ones are kept

  const AUTOMATIC_KEPT: nat := 10

  predicate Newer(a: Manifest, b: Manifest) {
    b.createdAt < a.createdAt
  }

  predicate IsAutomatic(manifest: Manifest) {
    manifest.trigger.Automatic?
  }

  /** The automatic backups beyond the newest ten. */
  function BeyondTheKept(automatic: seq<Manifest>): seq<Manifest> {
    if |automatic| <= AUTOMATIC_KEPT then [] else automatic[AUTOMATIC_KEPT..]
  }

  function Surplus(listed: seq<Manifest>): seq<Manifest> {
    BeyondTheKept(Filter(IsAutomatic, Sort(Newer, listed)))
  }

  /** Removing the surplus takes only automatic backups, leaves ten of them when
      there were more and all of them when not, and takes none that is newer than
      one it keeps. */
  lemma OnlyTheOldestAutomaticGo(listed: seq<Manifest>)
    ensures var automatic, surplus := Filter(IsAutomatic, Sort(Newer, listed)), Surplus(listed);
      && (forall manifest :: manifest in surplus ==> manifest in listed && manifest.trigger.Automatic?)
      && |automatic| == Count(IsAutomatic, listed)
      && |automatic| - |surplus| == (if |automatic| < 10 then |automatic| else 10)
      && automatic == automatic[..|automatic| - |surplus|] + surplus
      && (forall kept, gone :: kept in automatic[..|automatic| - |surplus|] && gone in surplus ==> kept.createdAt >= gone.createdAt)
  {
    AutomaticAreOrdered(listed);
    AutomaticAreCounted(listed);
    SurplusIsListed(listed);
    TheRestIsKept(Filter(IsAutomatic, Sort(Newer, listed)));
  }

  /** What a listing shows: each backup with a manifest that reads and is its own. */
  ghost predicate ListsAll(listed: seq<Manifest>, backups: map<string, BackupSet>) {
    && (forall manifest :: manifest in listed <==>
          manifest.backupId in backups && backups[manifest.backupId].manifest == Reads(manifest))
    && (forall i, j :: 0 <= i < j < |listed| ==> listed[i].backupId != listed[j].backupId)
  }

  function SurplusIds(listed: seq<Manifest>): set<string> {
    set manifest | manifest in Surplus(listed) :: manifest.backupId
  }

  /** What a person made, or a restore made before it began, is never pruned. */
  lemma OnlyAutomaticOnesGo(listed: seq<Manifest>, backups: map<string, BackupSet>, held: BackupSet, backupId: string, now: int, trigger: Trigger)
    requires ListsAll(listed, backups) && backupId in backups && backups[backupId] == held
    requires IsCapturedFor(held, backupId, now, trigger) && (trigger.Manual? || trigger.BeforeRestore?)
    ensures backupId !in SurplusIds(listed) && held.manifest.value !in Surplus(listed)
  {
    SurplusIsListed(listed);
  }

  /** Nor is the newest of all. */
  lemma TheNewestStays(listed: seq<Manifest>, manifest: Manifest)
    requires manifest in listed
    requires forall other :: other in listed && other != manifest ==> other.createdAt < manifest.createdAt
    requires forall i, j :: 0 <= i < j < |listed| ==> listed[i].backupId != listed[j].backupId
    ensures manifest !in Surplus(listed)
  {
    OnlyTheOldestAutomaticGo(listed);
    AutomaticAreDistinct(listed);
    SortMembers(Newer, listed);
    var automatic, surplus := Filter(IsAutomatic, Sort(Newer, listed)), Surplus(listed);
    forall i, j | 0 <= i < |automatic| - |surplus| && 0 <= j < |surplus| ensures automatic[i].createdAt >= surplus[j].createdAt {
      assert automatic[..|automatic| - |surplus|][i] == automatic[i] && surplus[j] in surplus;
    }
    TheFirstIsKept(listed, automatic, surplus, manifest);
  }

  lemma TheFirstIsKept(listed: seq<Manifest>, automatic: seq<Manifest>, surplus: seq<Manifest>, manifest: Manifest)
    requires (forall other :: other in automatic ==> other in listed) && |surplus| <= |automatic|
    requires forall other :: other in listed && other != manifest ==> other.createdAt < manifest.createdAt
    requires var kept := |automatic| - |surplus|; automatic == automatic[..kept] + surplus && (surplus != [] ==> kept > 0)
    requires forall i, j :: 0 <= i < |automatic| - |surplus| && 0 <= j < |surplus| ==> automatic[i].createdAt >= surplus[j].createdAt
    requires forall i, j :: 0 <= i < j < |automatic| ==> automatic[i] != automatic[j]
    ensures manifest !in surplus
  {
    forall k | 0 <= k < |surplus| ensures surplus[k] != manifest {
      assert automatic[0] in listed;
      assert automatic[|automatic| - |surplus| + k] == surplus[k];
    }
  }

  lemma AutomaticAreDistinct(listed: seq<Manifest>)
    requires forall i, j :: 0 <= i < j < |listed| ==> listed[i].backupId != listed[j].backupId
    ensures var automatic := Filter(IsAutomatic, Sort(Newer, listed));
      forall i, j :: 0 <= i < j < |automatic| ==> automatic[i] != automatic[j]
  {
    var sorted := Sort(Newer, listed);
    forall x ensures multiset(sorted)[x] <= 1 {
      OnceEach(listed, x);
    }
    forall i, j | 0 <= i < j < |sorted| ensures sorted[i] != sorted[j] {
      assert sorted == sorted[..j] + [sorted[j]] + sorted[j + 1..];
      assert multiset(sorted)[sorted[j]] >= multiset(sorted[..j])[sorted[j]] + 1;
      assert sorted[i] in sorted[..j];
      assert sorted[i] in multiset(sorted[..j]);
    }
    FilterKeepsApart(sorted);
  }

  lemma {:induction false} OnceEach(s: seq<Manifest>, x: Manifest)
    requires forall i, j :: 0 <= i < j < |s| ==> s[i].backupId != s[j].backupId
    ensures multiset(s)[x] <= 1
  {
    if s != [] {
      OnceEach(s[1..], x);
      assert s == [s[0]] + s[1..];
      forall other | other in s[1..] ensures other.backupId != s[0].backupId {
        var k :| 0 <= k < |s[1..]| && s[1..][k] == other;
        assert s[k + 1] == other;
      }
      assert s[0] !in multiset(s[1..]) by {
        assert s[0] !in s[1..];
      }
    }
  }

  lemma {:induction false} FilterKeepsApart(s: seq<Manifest>)
    requires forall i, j :: 0 <= i < j < |s| ==> s[i] != s[j]
    ensures forall i, j :: 0 <= i < j < |Filter(IsAutomatic, s)| ==> Filter(IsAutomatic, s)[i] != Filter(IsAutomatic, s)[j]
  {
    if s != [] {
      var rest := Filter(IsAutomatic, s[1..]);
      FilterKeepsApart(s[1..]);
      forall k | 0 <= k < |rest| ensures rest[k] != s[0] {
        assert rest[k] in s[1..];
        var i :| 0 <= i < |s[1..]| && s[1..][i] == rest[k];
        assert s[i + 1] == rest[k];
      }
    }
  }

  lemma SurplusIsListed(listed: seq<Manifest>)
    ensures forall manifest :: manifest in Surplus(listed) ==> manifest in listed && manifest.trigger.Automatic?
  {
    SortMembers(Newer, listed);
    var automatic := Filter(IsAutomatic, Sort(Newer, listed));
    assert forall manifest :: manifest in BeyondTheKept(automatic) ==> manifest in automatic;
  }

  lemma TheRestIsKept(automatic: seq<Manifest>)
    requires Ordered(Newer, automatic)
    ensures var surplus := BeyondTheKept(automatic);
      && |automatic| - |surplus| == Min(AUTOMATIC_KEPT, |automatic|)
      && automatic == automatic[..|automatic| - |surplus|] + surplus
      && (forall kept, gone :: kept in automatic[..|automatic| - |surplus|] && gone in surplus ==> kept.createdAt >= gone.createdAt)
  {
    EarlierHalfIsNewer(automatic, |automatic| - |BeyondTheKept(automatic)|);
  }

  lemma AutomaticAreOrdered(listed: seq<Manifest>)
    ensures Ordered(Newer, Filter(IsAutomatic, Sort(Newer, listed)))
  {
    NewerIsAnOrder();
    SortIsOrdered(Newer, listed);
    FilterKeepsOrder(Sort(Newer, listed));
  }

  lemma AutomaticAreCounted(listed: seq<Manifest>)
    ensures |Filter(IsAutomatic, Sort(Newer, listed))| == Count(IsAutomatic, listed)
  {
    NewerIsAnOrder();
    SortFilter(Newer, IsAutomatic, listed);
    FilterCounts(listed);
  }

  lemma {:induction false} FilterCounts(s: seq<Manifest>)
    ensures |Filter(IsAutomatic, s)| == Count(IsAutomatic, s)
  {
    if s != [] {
      FilterCounts(s[1..]);
    }
  }

  lemma NewerIsAnOrder()
    ensures WeakOrder(Newer)
  {
  }

  lemma EarlierHalfIsNewer(s: seq<Manifest>, split: nat)
    requires Ordered(Newer, s) && split <= |s|
    ensures forall kept, gone :: kept in s[..split] && gone in s[split..] ==> kept.createdAt >= gone.createdAt
  {
    forall kept, gone | kept in s[..split] && gone in s[split..] ensures kept.createdAt >= gone.createdAt {
      var i :| 0 <= i < split && s[i] == kept;
      var j :| 0 <= j < |s[split..]| && s[split..][j] == gone;
      assert !Newer(s[split + j], s[i]);
    }
  }

  lemma {:induction false} FilterKeepsOrder(s: seq<Manifest>)
    requires Ordered(Newer, s)
    ensures Ordered(Newer, Filter(IsAutomatic, s))
  {
    if s != [] {
      var rest := Filter(IsAutomatic, s[1..]);
      FilterKeepsOrder(s[1..]);
      forall j | 0 <= j < |rest| ensures !Newer(rest[j], s[0]) {
        assert rest[j] in s[1..];
      }
    }
  }
}
