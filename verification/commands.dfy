/** Where the backup and restore commands copy from and to. The two commands
    find the backup folder in different ways: backup asks the platform for the
    Documents directory, restore spells out the macOS home-directory layout.
    Both are kept as the commands have them. */
module Commands {
  import opened Options
  import opened Snapshot
  import opened Menu
  import opened Exclusion
  import Sequences

  /** The triple `check_default_profile()` returns: the operating system,
      the Thunderbird profiles folder and the default-release profile. */
  datatype DefaultProfile = DefaultProfile(operatingSystem: string, thunderbirdDir: string, defaultReleaseDir: string)

  /** The folder, under the Documents directory, that holds the snapshots. */
  const BackupFolder: string := "Thunderbird-Backup/"

  /** Where a backup taken on `date` is written, given the Documents
      directory the platform reports (which ends in a separator): the
      Documents directory, then the backup folder, then a snapshot name that
      reads back as `date` and that the restore menu will offer. */
  function BackupDestination(documents: string, date: Date): (dst: string)
    requires ValidDate(date)
    ensures |dst| == |documents| + |BackupFolder| + 13
    ensures dst[..|documents|] == documents
    ensures dst[|documents|..|documents| + |BackupFolder|] == BackupFolder
    ensures ParseSnapshotName(dst[|documents| + |BackupFolder|..]) == Some(date)
    ensures IsOffered(dst[|documents| + |BackupFolder|..])
  {
    var dst := documents + BackupFolder + SnapshotName(date);
    assert dst[|documents| + |BackupFolder|..] == SnapshotName(date);
    assert dst[..|documents|] == documents;
    assert dst[|documents|..|documents| + |BackupFolder|] == BackupFolder;
    dst
  }

  /** What the backup command does. */
  datatype BackupOutcome =
    | BackupRefused                                                 // Thunderbird is running
    | BackupCopy(src: string, dst: string, ignored: seq<string>)  // copytree(src, dst, ignore=...)

  /** The backup command: refuse while Thunderbird runs, otherwise copy the
      default-release profile into today's snapshot under the reported
      Documents directory, skipping the ignored patterns. */
  function Backup(running: bool, profile: DefaultProfile, documents: string, today: Date): (r: BackupOutcome)
    requires ValidDate(today)
    ensures r.BackupRefused? <==> running
    ensures r.BackupCopy? ==> r.src == profile.defaultReleaseDir
    ensures r.BackupCopy? ==> r.dst == BackupDestination(documents, today)
    ensures r.BackupCopy? ==> |r.dst| == |documents| + |BackupFolder| + 13
    ensures r.BackupCopy? ==> r.dst[..|documents|] == documents
    ensures r.BackupCopy? ==> ParseSnapshotName(r.dst[|documents| + |BackupFolder|..]) == Some(today)
    ensures r.BackupCopy? ==> forall n :: (exists p :: p in r.ignored && Match(p, n)) <==> EndsWith(n, ".ini") || EndsWith(n, ".default")
  {
    if running then BackupRefused
    else
      forall n ensures IsIgnored(n) <==> EndsWith(n, ".ini") || EndsWith(n, ".default") {
        IgnoredIffSuffix(n);
      }
      BackupCopy(profile.defaultReleaseDir, BackupDestination(documents, today), IgnoredPatterns)
  }

  /** The Documents directory restore assumes: the macOS home layout. */
  function MacDocuments(user: string): string {
    "/Users/" + user + "/Documents/"
  }

  /** The folder restore lists (without a trailing separator). */
  function RestoreListingDir(user: string): string {
    "/Users/" + user + "/Documents/Thunderbird-Backup"
  }

  /** The folder restore reads snapshots from (with a trailing separator). */
  function RestoreRoot(user: string): string {
    "/Users/" + user + "/Documents/Thunderbird-Backup/"
  }

  /** The two spellings restore uses name the same folder, and it is the
      backup folder under the macOS Documents directory. */
  lemma RestoreRootLayout(user: string)
    ensures RestoreRoot(user) == RestoreListingDir(user) + "/"
    ensures RestoreRoot(user) == MacDocuments(user) + BackupFolder
  {
    var u := "/Users/" + user;
    assert RestoreRoot(user) == u + "/Documents/Thunderbird-Backup/";
    assert RestoreListingDir(user) + "/" == u + ("/Documents/Thunderbird-Backup" + "/");
    assert MacDocuments(user) + BackupFolder == u + ("/Documents/" + BackupFolder);
  }

  /** The folder a chosen menu line is restored from: the line with its
      first four characters cut off, under the restore root. */
  function RestoreSource(user: string, item: string): string {
    RestoreRoot(user) + DecodeLabel(item)
  }

  /** What one pass of the restore command ends in. */
  datatype RestoreOutcome =
    | RestoreRefused                     // Thunderbird is running
    | NoBackupFolder                     // listing failed with FileNotFoundError
    | RestoreCopy(src: string, dst: string)  // copy_tree(src, dst)
    | QuitApplication                    // "q"
    | AskAgain                           // unknown input, prompt again
    | SelectionCrash                     // IndexError, not caught

  /** The restore command for one typed choice. `listing` is what listing
      `RestoreListingDir(user)` gives, or `None` when the folder is missing.
      The copy goes into the Thunderbird profiles folder, not into the
      default-release profile the backup read from. */
  function RestoreStep(running: bool, user: string, listing: Option<seq<string>>, choice: string, profile: DefaultProfile): (r: RestoreOutcome)
    ensures r.RestoreRefused? <==> running
    ensures r.NoBackupFolder? <==> !running && listing.None?
    ensures r.AskAgain? <==> !running && listing.Some? && choice !in Accepted
    ensures r.QuitApplication? <==> !running && listing.Some? && choice == "q"
    ensures r.RestoreCopy? ==> r.dst == profile.thunderbirdDir
    ensures r.RestoreCopy? ==> exists item :: item in MenuOf(listing.value) && r.src == RestoreSource(user, item)
  {
    if running then RestoreRefused
    else if listing.None? then NoBackupFolder
    else
      match Select(choice, MenuOf(listing.value))
      case RestoreItem(item) => RestoreCopy(RestoreSource(user, item), profile.thunderbirdDir)
      case QuitApp => QuitApplication
      case Retry => AskAgain
      case IndexError => SelectionCrash
  }

  /** Choosing c (at most five, at most the number of offered folders)
      restores the c-th offered folder of the listing into the profiles
      folder. */
  lemma RestoreOfferedFolder(user: string, entries: seq<string>, c: nat, profile: DefaultProfile)
    requires 1 <= c <= 5 && c <= |Offered(entries)|
    ensures RestoreStep(false, user, Some(entries), Decimal.Str(c), profile)
         == RestoreCopy(RestoreListingDir(user) + "/" + Offered(entries)[c - 1], profile.thunderbirdDir)
  {
    SelectOffered(entries, c);
    RestoreRootLayout(user);
  }

  /** The backup destination as the Documents directory followed by the
      snapshot's path under it. */
  lemma BackupDestinationTail(documents: string, date: Date)
    requires ValidDate(date)
    ensures BackupDestination(documents, date) == documents + (BackupFolder + SnapshotName(date))
  {
  }

  /** The restore source as the macOS Documents directory followed by the
      decoded line's path under it. */
  lemma RestoreSourceTail(user: string, item: string)
    ensures RestoreSource(user, item) == MacDocuments(user) + (BackupFolder + DecodeLabel(item))
  {
    RestoreRootLayout(user);
  }

  /** For a snapshot folder, the backup destination and the restore source
      are the same path exactly when the platform's Documents directory is
      the macOS home layout restore hard-codes. */
  lemma PathsAgreeIffMacDocuments(documents: string, user: string, date: Date, item: string)
    requires ValidDate(date) && DecodeLabel(item) == SnapshotName(date)
    ensures RestoreSource(user, item) == BackupDestination(documents, date) <==> documents == MacDocuments(user)
  {
    BackupDestinationTail(documents, date);
    RestoreSourceTail(user, item);
    Sequences.SameTailCancel(documents, MacDocuments(user), BackupFolder + SnapshotName(date));
  }

  /** End to end: when the platform's Documents directory is the macOS home
      layout, the folder a backup on `today` wrote is offered by the restore
      menu, and choosing its number (when it is among the first five offered)
      restores from exactly that folder into the profiles folder. */
  lemma BackupThenRestore(user: string, profile: DefaultProfile, today: Date, entries: seq<string>, j: nat)
    requires ValidDate(today)
    requires j < |entries| && entries[j] == SnapshotName(today)
    requires |Offered(entries[..j])| < 5
    ensures Backup(false, profile, MacDocuments(user), today).BackupCopy?
    ensures RestoreStep(false, user, Some(entries), Decimal.Str(|Offered(entries[..j])| + 1), profile)
         == RestoreCopy(Backup(false, profile, MacDocuments(user), today).dst, profile.thunderbirdDir)
  {
    var k := |Offered(entries[..j])|;
    var name := SnapshotName(today);
    assert IsOffered(name);
    LabelOfListedEntry(entries, j);
    assert Offered(entries)[k] == name;
    RestoreOfferedFolder(user, entries, k + 1, profile);
    RestoreRootLayout(user);
  }
}
