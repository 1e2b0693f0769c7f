/** Choosing and extracting one bounded group of a Takeout archive:
    scripts/run-authorized-takeout-shadow.py. */
module TakeoutSubset {
  import opened Ordering
  import opened PosixPath
  import opened Sequences
  import opened Wrappers

  const TARGET_BYTES := 512 * 1024 * 1024
  const MAX_SUBSET_BYTES := 2 * 1024 * 1024 * 1024
  const MAX_SUBSET_ENTRIES := 10_000
  const MIN_MEDIA := 100
  const MEDIA_SUFFIXES :=
    {".3gp", ".avi", ".gif", ".heic", ".jpeg", ".jpg", ".m4v", ".mkv", ".mov", ".mp4", ".png", ".webp"}

  /** `ZipInfo`. */
  datatype Entry = Entry(filename: string, fileSize: nat, externalAttr: nat)

  datatype Totals = Totals(files: nat, bytes: nat, media: nat)

  datatype Failure = NoSubset | UnsafeEntry | BoundExceeded | Io

  // ---------------------------------------------------------------- entries

  predicate IsDir(entry: Entry) {
    |entry.filename| > 0 && entry.filename[|entry.filename| - 1] == '/'
  }

  /** The file type bits of the Unix mode in the upper half of the attributes. */
  predicate IsSymlink(entry: Entry) {
    entry.externalAttr / 0x10000 % 0x10000 / 0x1000 == 0xA
  }

  // ---------------------------------------------------------------- selection

  function GroupOf(entry: Entry): Option<string> {
    var parts := Parts(entry.filename);
    if |parts| >= 4 && parts[0] == "Takeout" && parts[1] == "Google Photos" then Some(parts[2]) else None
  }

  function Members(archive: seq<Entry>, group: string): seq<Entry> {
    Filter(archive, (entry: Entry) => GroupOf(entry) == Some(group))
  }

  function ByteLen(entry: Entry): nat {
    if IsDir(entry) then 0 else entry.fileSize
  }

  function FileCount(entry: Entry): nat {
    if IsDir(entry) then 0 else 1
  }

  /** `suffix` gives the case-folded suffix of a file name. */
  function MediaCount(suffix: string -> string, entry: Entry): nat {
    if !IsDir(entry) && suffix(entry.filename) in MEDIA_SUFFIXES then 1 else 0
  }

  function MediaIn(suffix: string -> string, entries: seq<Entry>): nat {
    Sum(entries, (entry: Entry) => MediaCount(suffix, entry))
  }

  function TotalsOf(suffix: string -> string, entries: seq<Entry>): Totals {
    Totals(Sum(entries, FileCount), Sum(entries, ByteLen), MediaIn(suffix, entries))
  }

  /** A group that may be chosen. */
  predicate Admitted(suffix: string -> string, entries: seq<Entry>) {
    && MediaIn(suffix, entries) >= MIN_MEDIA
    && |entries| <= MAX_SUBSET_ENTRIES
    && Sum(entries, ByteLen) <= MAX_SUBSET_BYTES
  }

  function Distance(entries: seq<Entry>): nat {
    var bytes := Sum(entries, ByteLen);
    if bytes < TARGET_BYTES then TARGET_BYTES - bytes else bytes - TARGET_BYTES
  }

  /** The order of the candidate tuples: distance, then name. */
  predicate NoWorse(distance: nat, group: string, otherDistance: nat, otherGroup: string) {
    distance < otherDistance || (distance == otherDistance && AtMost(group, otherGroup))
  }

  /** The group is admitted, and comes first by distance and name among the admitted groups. */
  ghost predicate IsChoice(suffix: string -> string, archive: seq<Entry>, group: string) {
    && Admitted(suffix, Members(archive, group))
    && forall other :: Admitted(suffix, Members(archive, other)) ==>
         NoWorse(Distance(Members(archive, group)), group, Distance(Members(archive, other)), other)
  }

  lemma MembersPermute(suffix: string -> string, archive: seq<Entry>, archive': seq<Entry>, group: string)
    requires multiset(archive) == multiset(archive')
    ensures multiset(Members(archive, group)) == multiset(Members(archive', group))
    ensures Admitted(suffix, Members(archive, group)) <==> Admitted(suffix, Members(archive', group))
    ensures Distance(Members(archive, group)) == Distance(Members(archive', group))
  {
    hide Sum, Filter;
    FilterPermutes(archive, archive', (entry: Entry) => GroupOf(entry) == Some(group));
    SumPermutes(Members(archive, group), Members(archive', group), ByteLen);
    SumPermutes(Members(archive, group), Members(archive', group), (entry: Entry) => MediaCount(suffix, entry));
  }

  /** At most one group can be chosen, whatever the order of the archive's entries. */
  lemma ChoiceDoesNotDependOnOrder(suffix: string -> string, archive: seq<Entry>, archive': seq<Entry>,
                                   group: string, group': string)
    requires multiset(archive) == multiset(archive')
    requires IsChoice(suffix, archive, group) && IsChoice(suffix, archive', group')
    ensures group == group'
    ensures multiset(Members(archive, group)) == multiset(Members(archive', group'))
  {
    hide Members, Admitted, Distance, Less;
    MembersPermute(suffix, archive, archive', group);
    MembersPermute(suffix, archive, archive', group');
    assert NoWorse(Distance(Members(archive, group)), group, Distance(Members(archive, group')), group');
    assert NoWorse(Distance(Members(archive', group')), group', Distance(Members(archive', group)), group);
    LessIsTotal(group, group');
  }

  // ---------------------------------------------------------------- extraction

  /** `safe_target`. */
  predicate Safe(entry: Entry) {
    var parts := Parts(entry.filename);
    && !IsAbsolute(entry.filename)
    && ".." !in parts
    && |parts| >= 2 && parts[0] == "Takeout" && parts[1] == "Google Photos"
    && !IsSymlink(entry)
  }

  /** Being in a group already rules out an absolute path and a foreign prefix: a selected entry is
      refused only for a parent reference or a symbolic link. */
  lemma SelectedIsSafeExactlyWhenPlain(entry: Entry)
    requires GroupOf(entry).Some?
    ensures Safe(entry) <==> ".." !in Parts(entry.filename) && !IsSymlink(entry)
  {
    FirstPartShowsRoot(entry.filename);
    hide Parts, IsAbsolute;
  }

  /** A safe entry is written below the destination: its parts are plain names, and none leads up. */
  lemma SafeTargetsStayInside(entry: Entry)
    requires Safe(entry)
    ensures forall part :: part in Parts(entry.filename) ==>
      part != "" && part != "." && part != ".." && '/' !in part
  {
    hide LeadingSlashes;
    SegmentsHaveNoSlash(entry.filename, "");
    FilterMeans(Segments(entry.filename, ""), IsNamed);
    hide Segments, Filter;
    assert Root(entry.filename) == [];
    assert Parts(entry.filename) == Filter(Segments(entry.filename, ""), IsNamed);
  }

  function ByName(): (Entry, Entry) -> bool {
    (a: Entry, b: Entry) => AtMost(a.filename, b.filename)
  }

  function Plus(totals: Totals, more: Totals): Totals {
    Totals(totals.files + more.files, totals.bytes + more.bytes, totals.media + more.media)
  }

  function OneTotal(suffix: string -> string, entry: Entry): Totals {
    Totals(FileCount(entry), ByteLen(entry), MediaCount(suffix, entry))
  }

  /** The loop of `extract_group` over the sorted entries. `writes` tells of each position whether
      the file system let the entry be created. */
  function Extract(suffix: string -> string, writes: nat -> bool, entries: seq<Entry>, position: nat, totals: Totals)
    : Result<Totals, Failure>
    decreases |entries|
  {
    if |entries| == 0 then Ok(totals)
    else
      var entry := entries[0];
      if !Safe(entry) then Err(UnsafeEntry)
      else if IsDir(entry) then
        if writes(position) then Extract(suffix, writes, entries[1..], position + 1, totals) else Err(Io)
      else
        var updated := Plus(totals, OneTotal(suffix, entry));
        if updated.files > MAX_SUBSET_ENTRIES || updated.bytes > MAX_SUBSET_BYTES then Err(BoundExceeded)
        else if writes(position) then Extract(suffix, writes, entries[1..], position + 1, updated)
        else Err(Io)
  }

  function ExtractGroup(suffix: string -> string, writes: nat -> bool, entries: seq<Entry>): Result<Totals, Failure> {
    Extract(suffix, writes, Sort(entries, ByName()), 0, Totals(0, 0, 0))
  }

  ghost predicate Writable(writes: nat -> bool, count: nat, position: nat) {
    forall k :: position <= k < position + count ==> writes(k)
  }

  ghost predicate AllSafe(entries: seq<Entry>) {
    forall entry :: entry in entries ==> Safe(entry)
  }

  lemma WritableStep(writes: nat -> bool, count: nat, position: nat)
    requires count > 0
    ensures Writable(writes, count, position) <==> writes(position) && Writable(writes, count - 1, position + 1)
  {
  }

  lemma AllSafeStep(entries: seq<Entry>)
    requires |entries| > 0
    ensures AllSafe(entries) <==> Safe(entries[0]) && AllSafe(entries[1..])
  {
    assert entries == [entries[0]] + entries[1..];
  }

  predicate Fits(totals: Totals) {
    totals.files <= MAX_SUBSET_ENTRIES && totals.bytes <= MAX_SUBSET_BYTES
  }

  lemma TotalsStep(suffix: string -> string, entries: seq<Entry>, totals: Totals)
    requires |entries| > 0
    ensures Plus(totals, TotalsOf(suffix, entries))
         == Plus(Plus(totals, OneTotal(suffix, entries[0])), TotalsOf(suffix, entries[1..]))
  {
    hide IsDir;
  }

  lemma {:induction false} ExtractMeans(suffix: string -> string, writes: nat -> bool, entries: seq<Entry>,
                                        position: nat, totals: Totals)
    requires Fits(Plus(totals, TotalsOf(suffix, entries)))
    ensures var r := Extract(suffix, writes, entries, position, totals);
      && r != Err(BoundExceeded)
      && (r.Ok? <==> AllSafe(entries) && Writable(writes, |entries|, position))
      && (r.Ok? ==> r.value == Plus(totals, TotalsOf(suffix, entries)))
    decreases |entries|
  {
    hide Safe, IsDir, AllSafe, Writable, TotalsOf;
    if |entries| == 0 {
      NothingToExtract(suffix, writes, position);
    } else {
      var one := OneTotal(suffix, entries[0]);
      AllSafeStep(entries);
      WritableStep(writes, |entries|, position);
      TotalsStep(suffix, entries, totals);
      if IsDir(entries[0]) {
        assert Plus(totals, one) == totals;
      }
      ExtractMeans(suffix, writes, entries[1..], position + 1, Plus(totals, one));
    }
  }

  lemma NothingToExtract(suffix: string -> string, writes: nat -> bool, position: nat)
    ensures TotalsOf(suffix, []) == Totals(0, 0, 0) && AllSafe([]) && Writable(writes, 0, position)
  {
  }

  lemma {:induction false} FilesAreEntries(entries: seq<Entry>)
    ensures Sum(entries, FileCount) <= |entries|
  {
    if |entries| > 0 {
      FilesAreEntries(entries[1..]);
    }
  }

  lemma SortKeepsTotals(suffix: string -> string, entries: seq<Entry>)
    ensures TotalsOf(suffix, Sort(entries, ByName())) == TotalsOf(suffix, entries)
  {
    hide Sum;
    var sorted := Sort(entries, ByName());
    SortPermutes(entries, ByName());
    SumPermutes(sorted, entries, FileCount);
    SumPermutes(sorted, entries, ByteLen);
    SumPermutes(sorted, entries, (entry: Entry) => MediaCount(suffix, entry));
  }

  /** An admitted group never exceeds the extraction bounds. It is extracted exactly when every entry
      is safe and the file system allows it, and then the totals are those it was selected by. */
  lemma AdmittedGroupsFit(suffix: string -> string, writes: nat -> bool, entries: seq<Entry>)
    requires Admitted(suffix, entries)
    ensures var r := ExtractGroup(suffix, writes, entries);
      && r != Err(BoundExceeded)
      && (r.Ok? <==> AllSafe(entries) && Writable(writes, |entries|, 0))
      && (r.Ok? ==> r.value == TotalsOf(suffix, entries) && r.value.media >= MIN_MEDIA)
  {
    hide Extract, AllSafe, Writable, Sum, MediaCount;
    var sorted := Sort(entries, ByName());
    SortKeepsTotals(suffix, entries);
    FilesAreEntries(entries);
    ExtractMeans(suffix, writes, sorted, 0, Totals(0, 0, 0));
    SortPermutes(entries, ByName());
    SameElements(sorted, entries);
    SameSafety(sorted, entries);
  }

  lemma SameSafety(a: seq<Entry>, b: seq<Entry>)
    requires forall entry :: entry in a <==> entry in b
    ensures AllSafe(a) <==> AllSafe(b)
  {
    hide Safe;
  }

  // ---------------------------------------------------------------- the loops

  datatype Candidate = Candidate(distance: nat, group: string, entries: seq<Entry>)

  /** The dictionary after some entries: exactly the groups seen, each with its entries in order. */
  ghost predicate Grouped(archive: seq<Entry>, groups: map<string, seq<Entry>>) {
    forall group :: if group in groups then groups[group] == Members(archive, group) else Members(archive, group) == []
  }

  lemma GroupedNext(archive: seq<Entry>, groups: map<string, seq<Entry>>, entry: Entry)
    requires Grouped(archive, groups)
    ensures match GroupOf(entry)
      case None => Grouped(archive + [entry], groups)
      case Some(group) => Grouped(archive + [entry], groups[group := (if group in groups then groups[group] else []) + [entry]])
  {
    hide GroupOf, Filter;
    forall group ensures Members(archive + [entry], group)
                      == Members(archive, group) + if GroupOf(entry) == Some(group) then [entry] else []
    {
      FilterAppend(archive, entry, (other: Entry) => GroupOf(other) == Some(group));
    }
  }

  /** The first loop of `select_group` (lines 57-60). */
  method GroupEntries(archive: seq<Entry>) returns (groups: map<string, seq<Entry>>)
    ensures Grouped(archive, groups)
  {
    groups := map[];
    assert Grouped([], groups);
    hide Grouped, GroupOf;
    for i := 0 to |archive|
      invariant Grouped(archive[..i], groups)
    {
      assert archive[..i + 1] == archive[..i] + [archive[i]];
      GroupedNext(archive[..i], groups, archive[i]);
      var group := GroupOf(archive[i]);
      if group.Some? {
        if group.value !in groups {
          groups := groups[group.value := []];
        }
        groups := groups[group.value := groups[group.value] + [archive[i]]];
      }
    }
    assert archive[..|archive|] == archive;
  }

  ghost predicate IsCandidate(suffix: string -> string, archive: seq<Entry>, candidate: Candidate) {
    && candidate.entries == Members(archive, candidate.group)
    && Admitted(suffix, candidate.entries)
    && candidate.distance == Distance(candidate.entries)
  }

  ghost predicate Listed(candidates: seq<Candidate>, group: string) {
    exists i :: 0 <= i < |candidates| && candidates[i].group == group
  }

  /** The second loop (lines 61-74); the groups may come in any order. */
  method Candidates(suffix: string -> string, archive: seq<Entry>, groups: map<string, seq<Entry>>)
    returns (candidates: seq<Candidate>)
    requires Grouped(archive, groups)
    ensures forall candidate :: candidate in candidates ==> IsCandidate(suffix, archive, candidate)
    ensures forall group :: Admitted(suffix, Members(archive, group)) ==> Listed(candidates, group)
  {
    hide Members, Sum, Filter;
    candidates := [];
    var remaining := groups.Keys;
    while remaining != {}
      invariant remaining <= groups.Keys
      invariant forall candidate :: candidate in candidates ==> IsCandidate(suffix, archive, candidate)
      invariant forall group :: group in groups.Keys - remaining && Admitted(suffix, Members(archive, group)) ==>
        Listed(candidates, group)
      decreases |remaining|
    {
      var group :| group in remaining;
      remaining := remaining - {group};
      var before := candidates;
      if Admitted(suffix, groups[group]) {
        candidates := candidates + [Candidate(Distance(groups[group]), group, groups[group])];
        assert candidates[|before|].group == group;
      }
      StillListed(before, candidates);
    }
    EmptyIsNotAdmitted(suffix);
  }

  lemma StillListed(before: seq<Candidate>, after: seq<Candidate>)
    requires before <= after
    ensures forall group :: Listed(before, group) ==> Listed(after, group)
  {
    forall group | Listed(before, group) ensures Listed(after, group) {
      var i :| 0 <= i < |before| && before[i].group == group;
      assert after[i].group == group;
    }
  }

  lemma EmptyIsNotAdmitted(suffix: string -> string)
    ensures !Admitted(suffix, [])
  {
  }

  predicate Before(a: Candidate, b: Candidate) {
    NoWorse(a.distance, a.group, b.distance, b.group)
  }

  lemma BeforeIsTransitive(a: Candidate, b: Candidate, c: Candidate)
    ensures Before(a, b) || Before(b, a)
    ensures Before(a, b) && Before(b, c) ==> Before(a, c)
  {
    LessIsTotal(a.group, b.group);
    if AtMost(a.group, b.group) && AtMost(b.group, c.group) {
      AtMostIsTransitive(a.group, b.group, c.group);
    }
  }

  /** `min` of the candidates by distance and name. */
  method Least(candidates: seq<Candidate>) returns (best: Candidate)
    requires |candidates| > 0
    ensures best in candidates && forall candidate :: candidate in candidates ==> Before(best, candidate)
  {
    hide Before;
    best := candidates[0];
    BeforeIsTransitive(best, best, best);
    for i := 1 to |candidates|
      invariant best in candidates
      invariant forall j :: 0 <= j < i ==> Before(best, candidates[j])
    {
      BeforeIsTransitive(best, candidates[i], best);
      if !Before(best, candidates[i]) {
        forall j | 0 <= j < i ensures Before(candidates[i], candidates[j]) {
          BeforeIsTransitive(candidates[i], best, candidates[j]);
        }
        best := candidates[i];
        BeforeIsTransitive(best, best, best);
      }
    }
  }

  /** `select_group`: the choice when a group is admitted, and an error exactly when none is. */
  method SelectGroup(suffix: string -> string, archive: seq<Entry>) returns (r: Result<Candidate, Failure>)
    ensures match r
      case Ok(chosen) => IsChoice(suffix, archive, chosen.group) && chosen.entries == Members(archive, chosen.group)
      case Err(failure) => failure == NoSubset && forall group :: !Admitted(suffix, Members(archive, group))
  {
    hide Members, Admitted, Distance, Grouped, NoWorse;
    var groups := GroupEntries(archive);
    var candidates := Candidates(suffix, archive, groups);
    if |candidates| == 0 {
      return Err(NoSubset);
    }
    var best := Least(candidates);
    assert IsCandidate(suffix, archive, best);
    forall other | Admitted(suffix, Members(archive, other))
      ensures NoWorse(Distance(Members(archive, best.group)), best.group, Distance(Members(archive, other)), other)
    {
      assert Listed(candidates, other);
      var i :| 0 <= i < |candidates| && candidates[i].group == other;
      assert candidates[i] in candidates && IsCandidate(suffix, archive, candidates[i]);
      assert Before(best, candidates[i]);
    }
    return Ok(best);
  }

  /** `extract_group` (lines 93-112). */
  method ExtractEntries(suffix: string -> string, writes: nat -> bool, entries: seq<Entry>)
    returns (r: Result<Totals, Failure>)
    ensures r == ExtractGroup(suffix, writes, entries)
  {
    hide Safe, IsDir;
    var sorted := Sort(entries, ByName());
    var files: nat, bytes: nat, media: nat := 0, 0, 0;
    assert sorted[0..] == sorted;
    for i := 0 to |sorted|
      invariant ExtractGroup(suffix, writes, entries)
             == Extract(suffix, writes, sorted[i..], i, Totals(files, bytes, media))
    {
      var entry := sorted[i];
      assert sorted[i..][1..] == sorted[i + 1..];
      if !Safe(entry) {
        return Err(UnsafeEntry);
      }
      if IsDir(entry) {
        if !writes(i) {
          return Err(Io);
        }
        continue;
      }
      files := files + 1;
      bytes := bytes + entry.fileSize;
      if files > MAX_SUBSET_ENTRIES || bytes > MAX_SUBSET_BYTES {
        return Err(BoundExceeded);
      }
      media := media + MediaCount(suffix, entry);
      if !writes(i) {
        return Err(Io);
      }
    }
    return Ok(Totals(files, bytes, media));
  }

  /** Selecting and then extracting: the run reports the totals the group was selected by, and those
      are the same for every order of the archive. */
  method ShadowSubset(suffix: string -> string, writes: nat -> bool, archive: seq<Entry>)
    returns (r: Result<Totals, Failure>)
    ensures r != Err(BoundExceeded)
    ensures r == Err(NoSubset) <==> forall group :: !Admitted(suffix, Members(archive, group))
    ensures forall group :: r.Ok? && IsChoice(suffix, archive, group) ==>
      r.value == TotalsOf(suffix, Members(archive, group)) && AllSafe(Members(archive, group))
  {
    hide Members, Admitted, TotalsOf, AllSafe, Extract;
    var chosen := SelectGroup(suffix, archive);
    if chosen.Err? {
      assert forall group :: !IsChoice(suffix, archive, group);
      return Err(NoSubset);
    }
    AdmittedGroupsFit(suffix, writes, chosen.value.entries);
    r := ExtractEntries(suffix, writes, chosen.value.entries);
    ExtractFailures(suffix, writes, Sort(chosen.value.entries, ByName()), 0, Totals(0, 0, 0));
    forall group | IsChoice(suffix, archive, group) ensures group == chosen.value.group {
      ChoiceDoesNotDependOnOrder(suffix, archive, archive, group, chosen.value.group);
    }
  }

  lemma {:induction false} ExtractFailures(suffix: string -> string, writes: nat -> bool, entries: seq<Entry>,
                                           position: nat, totals: Totals)
    ensures Extract(suffix, writes, entries, position, totals) != Err(NoSubset)
    decreases |entries|
  {
    hide Safe, IsDir;
    if |entries| > 0 {
      ExtractFailures(suffix, writes, entries[1..], position + 1, totals);
      ExtractFailures(suffix, writes, entries[1..], position + 1, Plus(totals, OneTotal(suffix, entries[0])));
    }
  }
}
