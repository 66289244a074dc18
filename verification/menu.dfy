/** The restore menu of `restore_from_documents`: which entries of the
    backup folder are offered, how they are labelled, how one typed choice
    is answered, and how `restore_data` turns the chosen label back into a
    folder name. */
module Menu {
  import opened Decimal
  import opened Sequences

  /** `entry.startswith('t')`: the test an entry of the backup folder must
      pass to be offered for restore. */
  predicate IsOffered(entry: string) {
    |entry| > 0 && entry[0] == 't'
  }

  /** The offered entries, in listing order. */
  function Offered(entries: seq<string>): seq<string> {
    Filter(entries, IsOffered)
  }

  /** Exactly the entries starting with 't' are offered; every other entry
      of the backup folder is dropped. */
  lemma OfferedExactly(entries: seq<string>)
    ensures forall e :: e in Offered(entries) <==> e in entries && IsOffered(e)
  {
    FilterMembers(entries, IsOffered);
  }

  /** The menu line of the k-th offered entry, `f"-{k}- {entry}"`. Cutting
      four characters off it (as `restore_data` does) gives the entry back
      for single-digit ordinals only: from 10 on the number and separator are
      longer than four characters, so the cut keeps their tail, which for
      two-digit ordinals is a space. */
  function Label(k: nat, entry: string): (line: string)
    ensures |line| == 1 + |Str(k)| + 2 + |entry|
    ensures line[..1] == "-" && line[|line| - |entry|..] == entry
    ensures AllDigits(line[1..1 + |Str(k)|]) && Value(line[1..1 + |Str(k)|]) == k
    ensures line[1 + |Str(k)|..3 + |Str(k)|] == "- "
    ensures 1 <= k <= 9 ==> DecodeLabel(line) == entry
    ensures k >= 10 ==> DecodeLabel(line) != entry && |DecodeLabel(line)| == |entry| + |Str(k)| - 1
    ensures 10 <= k < 100 ==> DecodeLabel(line) == " " + entry
  {
    var line := "-" + Str(k) + "- " + entry;
    assert line[1..1 + |Str(k)|] == Str(k);
    assert line[1 + |Str(k)|..3 + |Str(k)|] == "- ";
    StrValue(k);
    assert k < 10 ==> line == line[..4] + entry;
    assert 10 <= k < 100 ==> line == line[..4] + (" " + entry);
    line
  }

  /** The last menu line, appended after all entries. */
  const QuitLabel: string := "-q- Quit"

  /** Menu lines for `xs`, numbered from `first` on. */
  function Labels(xs: seq<string>, first: nat): (r: seq<string>)
    ensures |r| == |xs|
    ensures forall i :: 0 <= i < |xs| ==> r[i] == Label(first + i, xs[i])
  {
    if |xs| == 0 then [] else [Label(first, xs[0])] + Labels(xs[1..], first + 1)
  }

  /** The whole menu: one line per offered entry numbered from 1, then Quit. */
  function MenuOf(entries: seq<string>): (menu: seq<string>)
    ensures |menu| == |Offered(entries)| + 1
    ensures menu[|menu| - 1] == QuitLabel
    ensures forall i :: 0 <= i < |Offered(entries)| ==> menu[i] == Label(i + 1, Offered(entries)[i])
  {
    Labels(Offered(entries), 1) + [QuitLabel]
  }

  /** The menu-building loop as the command runs it: one pass over the
      listing with a counter that advances only on offered entries. */
  method BuildMenu(entries: seq<string>) returns (backupList: seq<string>)
    ensures |backupList| == |Offered(entries)| + 1
    ensures backupList[|backupList| - 1] == QuitLabel
    ensures forall i :: 0 <= i < |Offered(entries)| ==> backupList[i] == Label(i + 1, Offered(entries)[i])
    ensures backupList == MenuOf(entries)
  {
    var count := 1;
    backupList := [];
    for j := 0 to |entries|
      invariant count == |backupList| + 1
      invariant |backupList| == |Offered(entries[..j])|
      invariant forall i :: 0 <= i < |backupList| ==> backupList[i] == Label(i + 1, Offered(entries[..j])[i])
    {
      assert entries[..j + 1] == entries[..j] + [entries[j]];
      FilterAppend(entries[..j], [entries[j]], IsOffered);
      if IsOffered(entries[j]) {
        assert Offered(entries[..j + 1]) == Offered(entries[..j]) + [entries[j]];
        backupList := backupList + [Label(count, entries[j])];
        count := count + 1;
      } else {
        assert Offered(entries[..j + 1]) == Offered(entries[..j]);
      }
    }
    assert entries[..|entries|] == entries;
    backupList := backupList + [QuitLabel];
  }

  /** The counter advances only on offered entries: an offered entry at
      position j of the listing is labelled with one more than the number of
      offered entries before it. */
  lemma LabelOfListedEntry(entries: seq<string>, j: nat)
    requires j < |entries| && IsOffered(entries[j])
    ensures |Offered(entries[..j])| < |Offered(entries)|
    ensures Offered(entries)[|Offered(entries[..j])|] == entries[j]
    ensures MenuOf(entries)[|Offered(entries[..j])|] == Label(|Offered(entries[..j])| + 1, entries[j])
  {
    FilterPosition(entries, j, IsOffered);
  }

  /** `backup_item[4:]`: Python slicing past the end gives the empty string. */
  function DecodeLabel(item: string): string {
    if |item| <= 4 then [] else item[4..]
  }

  /** Round trip over the whole menu: the first nine menu lines decode to the
      offered entries they list, the later ones do not. */
  lemma MenuRoundTrip(entries: seq<string>, i: nat)
    requires i < |Offered(entries)|
    ensures i < 9 ==> DecodeLabel(MenuOf(entries)[i]) == Offered(entries)[i]
    ensures i >= 9 ==> DecodeLabel(MenuOf(entries)[i]) != Offered(entries)[i]
  {
  }

  /** Decoding the Quit line gives the folder name "Quit". */
  lemma DecodeQuitLabel()
    ensures DecodeLabel(QuitLabel) == "Quit"
  {
  }

  /** What one answer to "Your choice: " leads to. */
  datatype Choice =
    | RestoreItem(item: string)   // restore_data(backup_list[c - 1])
    | QuitApp                     // quit_application()
    | Retry                       // "Unknown input! Try again."
    | IndexError                  // backup_list[c - 1] past the end: uncaught

  /** The answers that do not re-prompt. */
  const Accepted: set<string> := {"1", "2", "3", "4", "5", "q"}

  /** One pass of the selection loop: "1".."5" pick menu line 0..4 (which
      may be the Quit line, or past the end), "q" quits, anything else asks
      again without touching the menu. */
  function Select(choice: string, menu: seq<string>): (r: Choice)
    ensures r.Retry? <==> choice !in Accepted
    ensures r.QuitApp? <==> choice == "q"
    ensures r.RestoreItem? ==> exists i :: 0 <= i < 5 && i < |menu| && menu[i] == r.item
    ensures r.IndexError? ==> |menu| < 5
  {
    if choice in {"1", "2", "3", "4", "5"} then
      var i := DigitValue(choice[0]) - 1;
      if i < |menu| then RestoreItem(menu[i]) else IndexError
    else if choice == "q" then QuitApp
    else Retry
  }

  /** The answers "1".."5" are the renderings of 1..5. */
  lemma SmallChoice(c: nat)
    requires 1 <= c <= 5
    ensures Str(c) in Accepted && Str(c) != "q"
    ensures Str(c)[0] == DigitChar(c) && |Str(c)| == 1
  {
    if c == 1 { assert Str(c) == "1"; }
    else if c == 2 { assert Str(c) == "2"; }
    else if c == 3 { assert Str(c) == "3"; }
    else if c == 4 { assert Str(c) == "4"; }
    else { assert Str(c) == "5"; }
  }

  /** Choosing c, for c at most five and at most the number of offered
      entries, restores the c-th offered entry under its own name. */
  lemma SelectOffered(entries: seq<string>, c: nat)
    requires 1 <= c <= 5 && c <= |Offered(entries)|
    ensures Select(Str(c), MenuOf(entries)) == RestoreItem(Label(c, Offered(entries)[c - 1]))
    ensures DecodeLabel(Select(Str(c), MenuOf(entries)).item) == Offered(entries)[c - 1]
  {
    SmallChoice(c);
  }

  /** Choosing one past the offered entries picks the Quit line itself,
      whose decoded name is "Quit": the copy is then asked to read a folder
      of that name under the restore root. */
  lemma SelectQuitLine(entries: seq<string>)
    requires |Offered(entries)| < 5
    ensures Select(Str(|Offered(entries)| + 1), MenuOf(entries)) == RestoreItem(QuitLabel)
  {
    SmallChoice(|Offered(entries)| + 1);
  }

  /** Choosing further past the offered entries indexes past the menu. */
  lemma SelectPastMenu(entries: seq<string>, c: nat)
    requires |Offered(entries)| + 1 < c <= 5
    ensures Select(Str(c), MenuOf(entries)) == IndexError
  {
    SmallChoice(c);
  }

  /** Only the first five offered entries can ever be restored. */
  lemma OnlyFirstFiveSelectable(entries: seq<string>, choice: string)
    requires Select(choice, MenuOf(entries)).RestoreItem?
    requires Select(choice, MenuOf(entries)).item != QuitLabel
    ensures exists i :: 0 <= i < 5 && i < |Offered(entries)| && DecodeLabel(Select(choice, MenuOf(entries)).item) == Offered(entries)[i]
  {
    var menu := MenuOf(entries);
    var i :| 0 <= i < 5 && i < |menu| && menu[i] == Select(choice, menu).item;
    assert i < |Offered(entries)|;
    MenuRoundTrip(entries, i);
  }

  /** A backup folder listing `th-01-01-2021`, `notes.txt` and
      `th-02-01-2021` offers its two `th-` folders in listing order and
      drops `notes.txt`. */
  lemma OfferedExample()
    ensures Offered(["th-01-01-2021", "notes.txt", "th-02-01-2021"]) == ["th-01-01-2021", "th-02-01-2021"]
  {
    var entries := ["th-01-01-2021", "notes.txt", "th-02-01-2021"];
    assert IsOffered(entries[0]) && !IsOffered(entries[1]) && IsOffered(entries[2]);
    assert entries[1..][1..] == ["th-02-01-2021"];
    assert Offered(entries[1..][1..]) == ["th-02-01-2021"];
    assert Offered(entries[1..]) == ["th-02-01-2021"];
  }

  /** The menu line of a single-digit ordinal: dash, digit, dash, space,
      entry. */
  lemma SingleDigitLabel(k: nat, entry: string)
    requires 1 <= k <= 9
    ensures Label(k, entry) == ['-', DigitChar(k), '-', ' '] + entry
  {
  }

  /** The whole menu for that listing. */
  lemma MenuExample()
    ensures MenuOf(["th-01-01-2021", "notes.txt", "th-02-01-2021"])
         == [Label(1, "th-01-01-2021"), Label(2, "th-02-01-2021"), "-q- Quit"]
  {
    OfferedExample();
  }
}
