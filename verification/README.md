# profiles-backup: the naming, menu and path layer, in Dafny

profiles-backup copies Thunderbird's default-release profile into a dated
snapshot folder `Thunderbird-Backup/th-dd-mm-yyyy` under the user's Documents
directory. It can also restore one of those snapshots, picked from a numbered
menu, into Thunderbird's profiles folder. This project models the pure string
and path logic inside the `backup`, `restore_from_documents` and
`restore_data` commands of `profiles_backup/cli.py`, and proves properties
about it:

- **Snapshot naming** (`snapshot.dfy`, `decimal.dfy`). The folder name is
  `th-` followed by strftime's `%d-%m-%Y`. A parser is the name's partner:
  names and valid dates are in bijection, and every name is 13 characters.
- **Restore menu** (`menu.dfy`, `sequences.dfy`). The menu keeps the listing
  entries that start with `t`, in listing order. Each kept entry is labelled
  `-k- name`, with a counter that advances only on kept entries, and a
  `-q- Quit` line comes last. The loop that builds the menu is a method
  proved equal to the functional definition.
- **Label decoding and one selection step** (`menu.dfy`). `restore_data`
  cuts the first four characters off the chosen line. That is the inverse of
  labelling for ordinals 1 to 9 and never for 10 or more. One answer to the
  prompt is a pure step: `1`..`5` pick menu line 0..4, `q` quits, and any
  other answer re-prompts. Choosing one past the offered snapshots picks the
  Quit line itself, which asks `copy_tree` to copy from
  `<restore root>/Quit`. Choosing
  further than that indexes past the menu. This is an `IndexError` the
  command does not catch.
- **Backup exclusion** (`exclusion.dfy`). `ignore_patterns('*.ini',
  '*.default')` is modelled with a shell-style matcher, as `fnmatch` applies
  it. The result is proved to be a plain suffix test on the name.
- **Path wiring** (`commands.dfy`). Backup reads the default-release profile
  and writes under the Documents directory the platform reports. Restore reads
  from `/Users/<user>/Documents/Thunderbird-Backup/`, which it spells out
  itself, and writes into the Thunderbird profiles folder. The two are kept
  apart, as in the program. A lemma states exactly when they meet: the backup
  destination and the restore source of a snapshot agree iff the platform's
  Documents directory is `/Users/<user>/Documents/`. An end-to-end lemma
  shows that in that case, restoring the menu line of the snapshot a backup
  wrote reads back the folder the backup wrote.

The clock, the user name and the directory listing are parameters (`today`,
`user`, `listing`). So is the answer "is Thunderbird running". The Documents
directory that backup asks the platform for is a parameter too, and so is
the triple `check_default_profile()` returns (`DefaultProfile`). A missing
backup folder (the `FileNotFoundError` caught at line 167) is `None`.

Three behaviours of `cli.py` that the model keeps as written:

- `ignore_patterns('*.ini', '*.default')` (line 98) skips the names ending in
  `.ini` or `.default`. A folder named `default` is copied
  (`Exclusion.DefaultFolderExample`).
- `restore_data` copies into the second element of `check_default_profile()`
  (line 192), the Thunderbird profiles folder. That is not the default-release
  profile that backup reads from.
- The restore menu keeps every entry that passes `startswith('t')` (line 129),
  not only the `th-` snapshot names.

## Model

| member | source | states |
|---|---|---|
| Decimal.Str | profiles_backup/cli.py:130 | the counter in a menu label is rendered in one character exactly when it is below 10, in at most two below 100, and always with at least one digit |
| Decimal.StrValue | profiles_backup/cli.py:130 | reading the digits of the rendered counter back gives the counter: the rendering is faithful |
| Decimal.StrNoLeadingZero | profiles_backup/cli.py:130 | the rendered counter is never zero-padded |
| Decimal.Pad2 | profiles_backup/cli.py:92 | `%d` and `%m` give exactly two digits that read back as the day or month |
| Decimal.Pad4 | profiles_backup/cli.py:92 | `%Y` gives exactly four digits that read back as the year |
| Decimal.Pad2Value | profiles_backup/cli.py:92 | every two-digit field is the `%d`/`%m` rendering of the number it denotes |
| Decimal.Pad4Value | profiles_backup/cli.py:92 | every four-digit field is the `%Y` rendering of the number it denotes |
| Snapshot.SnapshotName | profiles_backup/cli.py:91-92 | the snapshot name has 13 characters: `th-`, day and month as two digits each, and the year as four digits, separated by dashes. Each field reads back as the date's own field, and the whole name parses back to the date |
| Snapshot.ParseSnapshotName | profiles_backup/cli.py:92 | a name that parses yields a date datetime can hold: year 1 to 9999, month 1 to 12, and a day within that month's length under the Gregorian leap-year rule |
| Snapshot.ParsedNameIsCanonical | profiles_backup/cli.py:92 | every name that parses is exactly the name a backup on that date writes to, so names and dates are in bijection |
| Snapshot.SnapshotNameInjective | profiles_backup/cli.py:92-97 | two backups write to the same folder iff they are taken on the same date |
| Snapshot.NoThirtyFirstOfFebruary | profiles_backup/cli.py:92 | `th-31-02-2020` is the name of no backup date |
| Snapshot.LeapDayExample | profiles_backup/cli.py:92 | `th-29-02-2020` names 29 February 2020 |
| Snapshot.NoLeapDayExample | profiles_backup/cli.py:92 | `th-29-02-2021` names no date, since 2021 is not a leap year |
| Snapshot.SnapshotNameExample | profiles_backup/cli.py:92 | a backup on 1 February 2021 writes to `th-01-02-2021` |
| Sequences.Filter | profiles_backup/cli.py:128-131 | the filtered listing is no longer than the listing and every element passes the test |
| Sequences.FilterMembers | profiles_backup/cli.py:128-131 | an element is kept iff it occurs in the listing and passes the test |
| Sequences.FilterAppend | profiles_backup/cli.py:128-131 | filtering preserves listing order: what is kept from the front of a listing precedes what is kept from its back |
| Sequences.FilterPosition | profiles_backup/cli.py:128-131 | a kept element's position among the kept ones is the number of kept elements before it in the listing |
| Menu.OfferedExactly | profiles_backup/cli.py:128-131 | an entry is offered iff it is in the listing and starts with `t`; every other entry, such as `notes.txt`, is dropped |
| Menu.Labels | profiles_backup/cli.py:126-131 | the i-th kept entry gets the label with number `first + i` and the entry itself |
| Menu.MenuOf | profiles_backup/cli.py:126-133 | the menu has one line more than there are offered entries. The i-th line is `-{i+1}- ` followed by the i-th offered entry, and the last line is `-q- Quit` |
| Menu.BuildMenu | profiles_backup/cli.py:126-133 | the loop with its counter builds exactly that menu: the same length, lines and last line as the functional definition |
| Menu.LabelOfListedEntry | profiles_backup/cli.py:126-131 | an offered entry at listing position j is numbered one more than the count of offered entries before j, so the counter advances only on offered entries |
| Menu.Label | profiles_backup/cli.py:130 | a menu line is a dash, then digits that read back as the counter, then a dash and a space, then the entry. Cutting four characters off it (line 188) gives the entry back for ordinals 1 to 9. For 10 or more it never does: the result is longer than the entry by the number of digits minus one, and for two-digit ordinals it is the entry after a space |
| Menu.SingleDigitLabel | profiles_backup/cli.py:130 | for ordinals 1 to 9 the line is exactly four characters (dash, digit, dash, space) before the entry |
| Menu.MenuRoundTrip | profiles_backup/cli.py:188 | over a whole menu, the first nine lines decode to the entries they list and the lines from the tenth on never do |
| Menu.DecodeQuitLabel | profiles_backup/cli.py:188 | cutting four characters off the Quit line leaves `Quit`, the name restore then asks to copy from |
| Menu.Select | profiles_backup/cli.py:143-165 | one answer re-prompts iff it is not one of `1`..`5` or `q`, and quits iff it is `q`. A picked line is one of the first five menu lines, and an index error is only possible on a menu shorter than five |
| Menu.SelectOffered | profiles_backup/cli.py:146-160 | answering c, for c at most 5 and at most the number of offered entries, picks the c-th label, which decodes to the c-th offered entry |
| Menu.SelectQuitLine | profiles_backup/cli.py:146-160 | answering one past the number of offered entries (up to 5) picks the Quit line itself |
| Menu.SelectPastMenu | profiles_backup/cli.py:146-160 | answering further past the offered entries (up to 5) indexes past the menu |
| Menu.OnlyFirstFiveSelectable | profiles_backup/cli.py:146-160 | any picked line other than Quit decodes to one of the first five offered entries |
| Menu.OfferedExample | profiles_backup/cli.py:128-131 | the listing `th-01-01-2021`, `notes.txt`, `th-02-01-2021` offers the two `th-` folders in listing order and drops `notes.txt` |
| Menu.MenuExample | profiles_backup/cli.py:126-133 | that listing gives the menu of the first folder labelled 1, the second labelled 2, then `-q- Quit` |
| Exclusion.MatchLiteral | profiles_backup/cli.py:98 | a glob pattern without wildcards matches exactly itself |
| Exclusion.MatchStarSuffix | profiles_backup/cli.py:98 | `*` followed by a literal suffix matches exactly the names ending in that suffix |
| Exclusion.IgnoredIffSuffix | profiles_backup/cli.py:98 | a name is ignored by the backup iff it ends in `.ini` or `.default` |
| Exclusion.IgnoredNames | profiles_backup/cli.py:98 | the ignore callback returns exactly the names of the directory ending in `.ini` or `.default` |
| Exclusion.CopiedNames | profiles_backup/cli.py:97-98 | a name is copied iff it is in the directory and ends in neither `.ini` nor `.default`: excluded names never reach the copy, and no other name is excluded |
| Exclusion.CopiedNamesExample | profiles_backup/cli.py:97-98 | `places.sqlite` is copied and `prefs.ini` is not |
| Exclusion.DefaultFolderExample | profiles_backup/cli.py:98 | a folder named `default` is copied and one named `abcd.default` is not |
| Commands.BackupDestination | profiles_backup/cli.py:89-92 | the backup destination is the reported Documents directory, then `Thunderbird-Backup/`, then a snapshot name. That name parses back to the date and starts with `t`, so the restore menu offers it |
| Commands.Backup | profiles_backup/cli.py:69-98 | the backup is refused iff Thunderbird runs. Otherwise it copies from the default-release profile (the third element of the profile triple) into the backup destination for today: the reported Documents directory, `Thunderbird-Backup/`, and a snapshot name that decodes to today. It skips exactly the `.ini`/`.default` names |
| Commands.RestoreRootLayout | profiles_backup/cli.py:120-188 | the folder restore reads a snapshot from (line 186) is the folder it lists (line 120) plus a separator. It is also the hard-coded macOS Documents directory plus `Thunderbird-Backup/` |
| Commands.RestoreStep | profiles_backup/cli.py:115-192 | restore is refused iff Thunderbird runs. A missing backup folder ends it. It re-prompts iff the answer is unknown and quits iff the answer is `q`. A copy always goes into the Thunderbird profiles folder (the second element of the profile triple), from the restore source of some menu line |
| Commands.RestoreOfferedFolder | profiles_backup/cli.py:143-192 | answering c (at most 5 and at most the number offered) restores the c-th offered folder of the listing into the profiles folder |
| Commands.PathsAgreeIffMacDocuments | profiles_backup/cli.py:186-188 | for a snapshot, the restore source equals the backup destination (built at line 89) iff the platform's Documents directory is `/Users/<user>/Documents/` |
| Commands.BackupThenRestore | profiles_backup/cli.py:186-192 | with the macOS Documents directory, the menu offers the folder a backup wrote. Answering its number (if it is among the first five offered) restores from exactly that folder into the profiles folder |

## Left out

- The copies themselves (`shutil.copytree` at line 97, `copy_tree` at line 197) are library filesystem effects. The model stops at the source, the destination and the per-directory name filter handed to the copy. It does not model overwrite semantics, `symlinks=False`, or partial copies on `OSError`. With `dirs_exist_ok=True` (line 96), a second backup on the same day merges into the existing snapshot folder: same-named files are replaced, and files found only in the earlier snapshot stay.
- Listing errors other than `FileNotFoundError`, such as `NotADirectoryError` when `Thunderbird-Backup` is a file, or `PermissionError`, are not caught at line 167 and crash the command. They are not modelled: `None` stands only for the missing folder.
- The `OSError` handlers at lines 99-102 and 198-201 print a message and exit. They follow a failed copy, which is not modelled.
- `clean_data.delete_old_profiles()` (line 76) enforces the retention policy. `clean_data` is not part of this model.
- `common.check_process`, `common.system_info`, `common.thunderbird_directory`, `common.default_release_directory` and `common.documents_directory` are not part of this model. Their results enter as parameters: `running`, `DefaultProfile` and `documents`.
- `datetime.now()`, `getpass.getuser()` and `os.listdir` are the clock, the user and the listing. They enter as parameters.
- The `input()` loops, `print`, `sys.exit`, `quit_application`, `user_input`, `main`, `show_default_path` and logging are I/O plumbing. One answer of the restore prompt is modelled as `Menu.Select`; the loop that repeats on `Retry` is not.
- Exclusion.Match: `fnmatch` character classes (`[...]`) are not modelled, since the two patterns have none. Neither is Windows' case-insensitive name normalisation.
- Snapshot.SnapshotName: `%Y` is modelled as four zero-padded digits, as on macOS and in recent Python releases. With older Python on glibc, years below 1000 get fewer digits. For years 1000 to 9999 the two agree.
- Choosing the Quit line by number, or an offered `t` entry that is not a folder, makes `copy_tree` (line 197) fail unless a folder of that name exists. `copy_tree` then raises `DistutilsFileError`, which is not an `OSError`. Neither the handler at line 198 nor the one at line 167 catches it, so the command crashes. The model ends at `RestoreCopy` with that source and does not model the crash.
