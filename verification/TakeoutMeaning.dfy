/** The choice and the extraction of a Takeout group in terms of the entries' own fields: names, sizes
    and file attributes, and the bounds as numbers. */
module TakeoutMeaning {
  import opened Ordering
  import opened PosixPath
  import opened Sequences
  import opened TakeoutSubset
  import opened Wrappers

  /** The pieces of a file name that name something. */
  function Named(entry: Entry): seq<string> {
    WithoutDots(Segments(entry.filename, ""))
  }

  predicate IsRelative(entry: Entry) {
    entry.filename == "" || entry.filename[0] != '/'
  }

  /** Below the group's directory in the Google Photos export. */
  predicate IsBelow(entry: Entry, group: string) {
    && IsRelative(entry)
    && |Named(entry)| >= 4
    && Named(entry)[0] == "Takeout" && Named(entry)[1] == "Google Photos" && Named(entry)[2] == group
  }

  lemma PartsAreNamed(entry: Entry)
    ensures IsRelative(entry) ==> Parts(entry.filename) == Named(entry)
    ensures !IsRelative(entry) ==> |Parts(entry.filename)| > 0 && Parts(entry.filename)[0] in {"/", "//"}
    ensures IsAbsolute(entry.filename) <==> !IsRelative(entry)
  {
    var segments := Segments(entry.filename, "");
    SegmentsExactly(entry.filename, segments);
    PartsMean(entry.filename, segments);
    hide Parts, AreSegments, Segments, WithoutDots;
    if IsRelative(entry) {
      assert [] + WithoutDots(segments) == WithoutDots(segments);
    }
  }

  lemma GroupsExactly(entry: Entry, group: string)
    ensures GroupOf(entry) == Some(group) <==> IsBelow(entry, group)
  {
    PartsAreNamed(entry);
    hide Parts, Named;
  }

  predicate IsDirectory(entry: Entry) {
    entry.filename != "" && entry.filename[|entry.filename| - 1] == '/'
  }

  predicate IsMedia(suffix: string -> string, entry: Entry) {
    suffix(entry.filename) in
      {".3gp", ".avi", ".gif", ".heic", ".jpeg", ".jpg", ".m4v", ".mkv", ".mov", ".mp4", ".png", ".webp"}
  }

  /** The entries of a group, in the archive's order. */
  function Below(archive: seq<Entry>, group: string): seq<Entry> {
    if |archive| == 0 then []
    else if IsBelow(archive[0], group) then [archive[0]] + Below(archive[1..], group)
    else Below(archive[1..], group)
  }

  lemma {:induction false} MembersAreBelow(archive: seq<Entry>, group: string)
    ensures Members(archive, group) == Below(archive, group)
  {
    hide IsBelow, GroupOf;
    if |archive| > 0 {
      GroupsExactly(archive[0], group);
      MembersAreBelow(archive[1..], group);
    }
  }

  /** Files, their bytes, and how many of them are media: directories do not count. */
  function Counted(suffix: string -> string, entries: seq<Entry>): Totals {
    if |entries| == 0 then Totals(0, 0, 0)
    else if IsDirectory(entries[0]) then Counted(suffix, entries[1..])
    else
      var rest := Counted(suffix, entries[1..]);
      Totals(rest.files + 1, rest.bytes + entries[0].fileSize,
             rest.media + if IsMedia(suffix, entries[0]) then 1 else 0)
  }

  lemma {:induction false} TotalsAreCounted(suffix: string -> string, entries: seq<Entry>)
    ensures TotalsOf(suffix, entries) == Counted(suffix, entries)
  {
    if |entries| > 0 {
      TotalsAreCounted(suffix, entries[1..]);
    }
  }

  /** At least 100 media files, at most 10 000 entries, and at most 2 GiB. */
  predicate MayBeChosen(suffix: string -> string, archive: seq<Entry>, group: string) {
    var entries := Below(archive, group);
    && Counted(suffix, entries).media >= 100
    && |entries| <= 10_000
    && Counted(suffix, entries).bytes <= 2_147_483_648
  }

  lemma AdmittedExactly(suffix: string -> string, archive: seq<Entry>, group: string)
    ensures Admitted(suffix, Members(archive, group)) <==> MayBeChosen(suffix, archive, group)
  {
    MembersAreBelow(archive, group);
    TotalsAreCounted(suffix, Below(archive, group));
    hide Members, Below, Counted, Sum;
  }

  /** How far a group's bytes are from 512 MiB. */
  function OffTarget(suffix: string -> string, archive: seq<Entry>, group: string): int {
    var bytes := Counted(suffix, Below(archive, group)).bytes;
    if bytes >= 536_870_912 then bytes - 536_870_912 else 536_870_912 - bytes
  }

  lemma DistanceExactly(suffix: string -> string, archive: seq<Entry>, group: string)
    ensures Distance(Members(archive, group)) == OffTarget(suffix, archive, group)
  {
    MembersAreBelow(archive, group);
    TotalsAreCounted(suffix, Below(archive, group));
    hide Members, Below, Counted, Sum;
  }

  /** The choice is the group nearest to the target among those that may be chosen; of equally near
      ones it is the first by name. */
  lemma ChoiceExactly(suffix: string -> string, archive: seq<Entry>, group: string)
    ensures IsChoice(suffix, archive, group) <==>
      && MayBeChosen(suffix, archive, group)
      && forall other :: MayBeChosen(suffix, archive, other) && other != group ==>
           || OffTarget(suffix, archive, group) < OffTarget(suffix, archive, other)
           || (OffTarget(suffix, archive, group) == OffTarget(suffix, archive, other) && Less(group, other))
  {
    forall other
      ensures Admitted(suffix, Members(archive, other)) <==> MayBeChosen(suffix, archive, other)
      ensures Distance(Members(archive, other)) == OffTarget(suffix, archive, other)
      ensures AtMost(group, other) <==> group == other || Less(group, other)
    {
      AdmittedExactly(suffix, archive, other);
      DistanceExactly(suffix, archive, other);
      LessIsTotal(group, other);
    }
    hide Admitted, Members, MayBeChosen, Distance, OffTarget, AtMost;
  }

  /** Below the Google Photos export, without a parent reference, and not a symbolic link: 10 is the
      value of the four file type bits, the top ones of the attributes' 32, for a link. */
  predicate MayBeWritten(entry: Entry) {
    && IsRelative(entry)
    && |Named(entry)| >= 2 && Named(entry)[0] == "Takeout" && Named(entry)[1] == "Google Photos"
    && ".." !in Named(entry)
    && entry.externalAttr / 0x1000_0000 % 16 != 10
  }

  lemma SafeExactly(entry: Entry)
    ensures Safe(entry) <==> MayBeWritten(entry)
  {
    PartsAreNamed(entry);
    TypeBits(entry.externalAttr);
    hide Parts, Named, IsAbsolute;
  }

  lemma TypeBits(attributes: nat)
    ensures attributes / 0x10000 % 0x10000 / 0x1000 == attributes / 0x1000_0000 % 16
  {
    var mode := attributes / 0x10000;
    var kind := mode / 0x1000;
    assert mode == 0x10000 * (mode / 0x10000) + mode % 0x10000;
    assert kind == 16 * (kind / 16) + kind % 16;
    assert kind / 16 == mode / 0x10000;
    assert attributes / 0x1000_0000 == kind;
  }

  lemma WritableExactly(writes: nat -> bool, count: nat)
    ensures Writable(writes, count, 0) <==> forall k: nat :: k < count ==> writes(k)
  {
  }

  /** The chosen group is extracted exactly when each of its entries may be written and the file system
      creates them, in the order of their names, and what is reported is what was counted. */
  lemma ChosenIsExtractedExactly(suffix: string -> string, writes: nat -> bool, archive: seq<Entry>, group: string)
    requires MayBeChosen(suffix, archive, group)
    ensures var r := ExtractGroup(suffix, writes, Below(archive, group));
      && (r.Ok? <==> (forall entry :: entry in Below(archive, group) ==> MayBeWritten(entry))
                     && forall k: nat :: k < |Below(archive, group)| ==> writes(k))
      && (r.Ok? ==> r.value == Counted(suffix, Below(archive, group)))
  {
    var entries := Below(archive, group);
    AdmittedExactly(suffix, archive, group);
    MembersAreBelow(archive, group);
    AdmittedGroupsFit(suffix, writes, entries);
    TotalsAreCounted(suffix, entries);
    WritableExactly(writes, |entries|);
    forall entry | entry in entries ensures Safe(entry) <==> MayBeWritten(entry) {
      SafeExactly(entry);
    }
    hide Below, Members, Admitted, MayBeChosen, Safe, MayBeWritten, Counted, TotalsOf, ExtractGroup, Writable;
  }

  lemma ExtractionIsByName(entries: seq<Entry>)
    ensures var sorted := Sort(entries, ByName());
      && multiset(sorted) == multiset(entries)
      && forall i, j :: 0 <= i < j < |sorted| ==> !Less(sorted[j].filename, sorted[i].filename)
  {
    StringsAreOrdered();
    assert TotalPreorder(ByName()) by {
      hide Less;
      NamesAreOrdered();
    }
    SortSorts(entries, ByName());
    hide Sort, Less;
  }

  lemma NamesAreOrdered()
    ensures TotalPreorder(ByName())
  {
    StringsAreOrdered();
    hide AtMost;
    forall a: Entry, b: Entry ensures ByName()(a, b) || ByName()(b, a) {
      assert AtMost(a.filename, b.filename) || AtMost(b.filename, a.filename);
    }
    forall a: Entry, b: Entry, c: Entry | ByName()(a, b) && ByName()(b, c) ensures ByName()(a, c) {
      assert AtMost(a.filename, b.filename) && AtMost(b.filename, c.filename);
    }
  }
}
