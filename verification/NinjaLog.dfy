/**
 Reading a ninja log: records are grouped by command hash, and unless everything is asked for, only the records of the last
 build count.
 */
module NinjaLog {
  import opened BuildReport

  /** One log line with its times in seconds. */
  datatype Record = Record(start: real, end: real, name: string, hash: string)

  datatype Group = Group(start: real, end: real, names: seq<string>)

  /** The reader's dictionary, with its keys in insertion order, and the last end time seen. */
  datatype Reading = Reading(order: seq<string>, groups: map<string, Group>, lastEnd: real)

  const NOTHING := Reading([], map[], 0.0)

  function Cleared(s: Reading): Reading {
    Reading([], map[], s.lastEnd)
  }

  /** The record puts the same command at other times. */
  predicate Moved(s: Reading, r: Record) {
    r.hash in s.groups && (s.groups[r.hash].start != r.start || s.groups[r.hash].end != r.end)
  }

  function Add(s: Reading, r: Record): Reading {
    if r.hash in s.groups
    then Reading(s.order, s.groups[r.hash := s.groups[r.hash].(names := s.groups[r.hash].names + [r.name])], r.end)
    else Reading(s.order + [r.hash], s.groups[r.hash := Group(r.start, r.end, [r.name])], r.end)
  }

  /** One record, with the two reasons to start over. */
  function Step(s: Reading, r: Record, showAll: bool): Reading {
    var s1 := if !showAll && r.end < s.lastEnd then Cleared(s) else s;
    var s2 := if !showAll && Moved(s1, r) then Cleared(s1) else s1;
    Add(s2, r)
  }

  function Run(records: seq<Record>, showAll: bool): Reading {
    if records == [] then NOTHING
    else Step(Run(records[..|records| - 1], showAll), records[|records| - 1], showAll)
  }

  // ---------------------------------------------------------------------------------------------
  // Grouping
  // ---------------------------------------------------------------------------------------------

  ghost predicate Appears(records: seq<Record>, hash: string) {
    exists i :: 0 <= i < |records| && records[i].hash == hash
  }

  /** The first record of a hash. */
  ghost function First(records: seq<Record>, hash: string): (k: nat)
    requires Appears(records, hash)
    ensures k < |records| && records[k].hash == hash
    ensures forall i :: 0 <= i < k ==> records[i].hash != hash
  {
    if Appears(records[..|records| - 1], hash) then First(records[..|records| - 1], hash) else |records| - 1
  }

  /** The names recorded for a hash, in the order of the log. */
  ghost function NamesOf(records: seq<Record>, hash: string): seq<string> {
    if records == [] then []
    else
      var last := records[|records| - 1];
      NamesOf(records[..|records| - 1], hash) + if last.hash == hash then [last.name] else []
  }

  /** The group that the records of a hash make: the times of the first one, and all names. */
  ghost function GroupOf(records: seq<Record>, hash: string): Group
    requires Appears(records, hash)
  {
    Group(records[First(records, hash)].start, records[First(records, hash)].end, NamesOf(records, hash))
  }

  /** One group for every hash that appears and no other. */
  ghost predicate GroupsOf(records: seq<Record>, groups: map<string, Group>) {
    forall h :: (h in groups <==> Appears(records, h)) && (h in groups ==> groups[h] == GroupOf(records, h))
  }

  /** The hashes that appear, in order of first appearance. */
  ghost predicate OrderOf(records: seq<Record>, order: seq<string>) {
    && (forall h :: Appears(records, h) ==> h in order)
    && (forall i :: 0 <= i < |order| ==> Appears(records, order[i]))
    && forall i, j :: 0 <= i < j < |order| ==> First(records, order[i]) < First(records, order[j])
  }

  ghost predicate Grouped(records: seq<Record>, s: Reading) {
    GroupsOf(records, s.groups) && OrderOf(records, s.order)
  }

  lemma AppearsNext(records: seq<Record>, r: Record, h: string)
    ensures Appears(records + [r], h) <==> Appears(records, h) || r.hash == h
  {
    var all := records + [r];
    if Appears(records, h) {
      var i :| 0 <= i < |records| && records[i].hash == h;
      assert all[i].hash == h;
    }
    if r.hash == h { assert all[|records|].hash == h; }
  }

  lemma FirstNext(records: seq<Record>, r: Record, h: string)
    requires Appears(records + [r], h)
    ensures First(records + [r], h) == if Appears(records, h) then First(records, h) else |records|
  {
    assert (records + [r])[..|records|] == records;
  }

  lemma NamesNext(records: seq<Record>, r: Record, h: string)
    ensures NamesOf(records + [r], h) == NamesOf(records, h) + if r.hash == h then [r.name] else []
  {
    assert (records + [r])[..|records|] == records;
  }

  lemma GroupNext(records: seq<Record>, r: Record, h: string)
    requires Appears(records + [r], h)
    ensures Appears(records, h) && r.hash != h ==> GroupOf(records + [r], h) == GroupOf(records, h)
    ensures Appears(records, h) && r.hash == h ==>
      GroupOf(records + [r], h) == GroupOf(records, h).(names := GroupOf(records, h).names + [r.name])
    ensures !Appears(records, h) ==> GroupOf(records + [r], h) == Group(r.start, r.end, [r.name])
  {
    hide Appears, First, NamesOf;
    AppearsNext(records, r, h);
    FirstNext(records, r, h);
    NamesNext(records, r, h);
    if !Appears(records, h) { NoNames(records, h); }
  }

  lemma AddKeepsGroups(records: seq<Record>, s: Reading, r: Record)
    requires Grouped(records, s)
    ensures GroupsOf(records + [r], Add(s, r).groups)
  {
    hide Appears, GroupOf, OrderOf;
    forall h
      ensures (h in Add(s, r).groups <==> Appears(records + [r], h))
      ensures (h in Add(s, r).groups ==> Add(s, r).groups[h] == GroupOf(records + [r], h))
    {
      AppearsNext(records, r, h);
      if Appears(records + [r], h) { GroupNext(records, r, h); }
    }
  }

  lemma AddKeepsOrder(records: seq<Record>, s: Reading, r: Record)
    requires Grouped(records, s)
    ensures OrderOf(records + [r], Add(s, r).order)
  {
    hide Appears, First, GroupOf;
    var all, order := records + [r], Add(s, r).order;
    forall h ensures Appears(all, h) <==> Appears(records, h) || r.hash == h {
      AppearsNext(records, r, h);
    }
    forall h | Appears(all, h) ensures First(all, h) == if Appears(records, h) then First(records, h) else |records| {
      FirstNext(records, r, h);
    }
  }

  lemma {:induction false} NoNames(records: seq<Record>, h: string)
    requires !Appears(records, h)
    ensures NamesOf(records, h) == []
  {
    if records != [] {
      var p := records[..|records| - 1];
      assert records == p + [records[|records| - 1]];
      AppearsNext(p, records[|records| - 1], h);
      NoNames(p, h);
    }
  }

  /** Asked for everything, the reader groups all records. */
  lemma {:induction false} ShowAllGroupsEverything(records: seq<Record>)
    ensures Grouped(records, Run(records, true))
  {
    if records != [] {
      var p, r := records[..|records| - 1], records[|records| - 1];
      ShowAllGroupsEverything(p);
      AddKeepsGroups(p, Run(p, true), r);
      AddKeepsOrder(p, Run(p, true), r);
      assert records == p + [r];
    }
  }

  // ---------------------------------------------------------------------------------------------
  // Builds
  // ---------------------------------------------------------------------------------------------

  /** Some record of the build puts r's command at other times. */
  ghost predicate Repeats(build: seq<Record>, r: Record) {
    exists i :: 0 <= i < |build| && build[i].hash == r.hash && (build[i].start != r.start || build[i].end != r.end)
  }

  /** A record that cannot belong to the same build: it ends earlier than the last one, or repeats a command at other times. */
  ghost predicate Conflict(build: seq<Record>, r: Record) {
    (build != [] && r.end < build[|build| - 1].end) || Repeats(build, r)
  }

  /** Where the last build begins. */
  ghost function BuildStart(records: seq<Record>): (b: nat)
    ensures b <= |records| && (records != [] ==> b < |records|)
  {
    if records == [] then 0
    else
      var p, r := records[..|records| - 1], records[|records| - 1];
      var b := BuildStart(p);
      if Conflict(p[b..], r) then |p| else b
  }

  /** Records of one build: end times never decrease, and a command has one start and one end. */
  ghost predicate OneBuild(build: seq<Record>) {
    forall i, j :: 0 <= i < j < |build| ==>
      && build[i].end <= build[j].end
      && (build[i].hash == build[j].hash ==> build[i].start == build[j].start && build[i].end == build[j].end)
  }

  lemma OneBuildNext(build: seq<Record>, r: Record)
    requires OneBuild(build) && !Conflict(build, r)
    ensures OneBuild(build + [r])
  {
    var all := build + [r];
    forall i, j | 0 <= i < j < |all|
      ensures all[i].end <= all[j].end
      ensures all[i].hash == all[j].hash ==> all[i].start == all[j].start && all[i].end == all[j].end
    {
      if j == |build| {
        assert build[i].end <= build[|build| - 1].end;
      }
    }
  }

  /** The last build is one build, and it is cut off only by a record that conflicts with the build before it. */
  lemma {:induction false} LastBuildIsMaximal(records: seq<Record>)
    ensures OneBuild(records[BuildStart(records)..])
    ensures var b := BuildStart(records); b > 0 ==> Conflict(records[BuildStart(records[..b])..b], records[b])
  {
    hide Conflict, OneBuild;
    if records == [] {
      NothingIsOneBuild();
    } else {
      var p, r := records[..|records| - 1], records[|records| - 1];
      var b := BuildStart(p);
      LastBuildIsMaximal(p);
      if Conflict(p[b..], r) {
        NothingIsOneBuild();
        assert records[|p|..] == [r];
        assert records[..|p|][b..|p|] == p[b..];
        assert records[b..|p|] == p[b..];
      } else {
        OneBuildNext(p[b..], r);
        assert records[b..] == p[b..] + [r];
        assert records[..b] == p[..b];
        if b > 0 {
          assert BuildStart(records[..b]) == BuildStart(p[..b]);
          assert records[BuildStart(p[..b])..b] == p[BuildStart(p[..b])..b];
        }
      }
    }
  }

  lemma NothingIsOneBuild()
    ensures OneBuild([]) && forall r :: OneBuild([r])
  {
  }

  /** In one build all records of a hash have the times of the first. */
  lemma TimesOfFirst(build: seq<Record>, h: string, i: nat)
    requires OneBuild(build) && i < |build| && build[i].hash == h && Appears(build, h)
    ensures build[i].start == build[First(build, h)].start && build[i].end == build[First(build, h)].end
  {
    hide Appears;
    var k := First(build, h);
    if k < i { assert build[k].end <= build[i].end; }
  }

  lemma MovedExactly(build: seq<Record>, s: Reading, r: Record)
    requires OneBuild(build) && GroupsOf(build, s.groups)
    ensures Repeats(build, r) <==> Moved(s, r)
  {
    hide OneBuild, NamesOf, First;
    var h := r.hash;
    assert h in s.groups <==> Appears(build, h);
    if Appears(build, h) {
      var k := First(build, h);
      assert s.groups[h] == GroupOf(build, h);
      forall i | 0 <= i < |build| && build[i].hash == h ensures build[i].start == build[k].start && build[i].end == build[k].end {
        TimesOfFirst(build, h, i);
      }
    }
  }

  /** Whether the reader starts over on r, having read one build so far. */
  lemma StartsOverExactly(build: seq<Record>, s: Reading, r: Record)
    requires OneBuild(build) && Grouped(build, s) && (build != [] ==> s.lastEnd == build[|build| - 1].end)
    ensures Conflict(build, r) <==> (build != [] && r.end < s.lastEnd) || Moved(s, r)
  {
    hide OneBuild, GroupsOf, OrderOf, Moved, Repeats;
    MovedExactly(build, s, r);
  }

  lemma LastEndIs(records: seq<Record>, showAll: bool)
    ensures records != [] ==> Run(records, showAll).lastEnd == records[|records| - 1].end
  {
  }

  /** Reading without showing everything is reading all of the last build, and nothing else. */
  lemma {:induction false} OnlyTheLastBuildCounts(records: seq<Record>)
    ensures Run(records, false) == Run(records[BuildStart(records)..], true)
  {
    hide Conflict, OneBuild, Grouped, Moved;
    if records != [] {
      var p, r := records[..|records| - 1], records[|records| - 1];
      var b := BuildStart(p);
      var build := p[b..];
      OnlyTheLastBuildCounts(p);
      LastBuildIsMaximal(p);
      ShowAllGroupsEverything(build);
      LastEndIs(build, true);
      StartsOverExactly(build, Run(build, true), r);
      StepOfBuild(build, r);
      if Conflict(build, r) {
        assert records[|p|..] == [] + [r];
        assert Run([] + [r], true) == Step(NOTHING, r, true) by { assert ([] + [r])[..0] == []; }
      } else {
        assert records[b..] == build + [r];
        assert (build + [r])[..|build|] == build;
      }
    }
  }

  lemma StepOfBuild(build: seq<Record>, r: Record)
    ensures var s := Run(build, true);
      Step(s, r, false) == if (build != [] && r.end < s.lastEnd) || Moved(s, r) then Add(NOTHING, r) else Add(s, r)
  {
    if build == [] { assert Cleared(NOTHING) == NOTHING; }
  }

  lemma {:induction false} OneBuildHasNoBoundary(build: seq<Record>)
    requires OneBuild(build)
    ensures BuildStart(build) == 0
  {
    if build != [] {
      var p := build[..|build| - 1];
      OneBuildHasNoBoundary(p);
      assert p[0..] == p;
    }
  }

  /** A log and the part of it from the last boundary on read the same. */
  lemma EarlierBuildsAreForgotten(records: seq<Record>)
    ensures Run(records, false) == Run(records[BuildStart(records)..], false)
  {
    hide Run, Step, OneBuild, Conflict;
    var build := records[BuildStart(records)..];
    LastBuildIsMaximal(records);
    OneBuildHasNoBoundary(build);
    OnlyTheLastBuildCounts(records);
    OnlyTheLastBuildCounts(build);
    assert build[0..] == build;
  }

  /** The records that count. */
  ghost function Considered(records: seq<Record>, showAll: bool): seq<Record> {
    if showAll then records else records[BuildStart(records)..]
  }

  lemma ReadingIsGrouped(records: seq<Record>, showAll: bool)
    ensures Grouped(Considered(records, showAll), Run(records, showAll))
  {
    hide Run, Grouped, BuildStart;
    OnlyTheLastBuildCounts(records);
    ShowAllGroupsEverything(Considered(records, showAll));
  }

  // ---------------------------------------------------------------------------------------------
  // The reader
  // ---------------------------------------------------------------------------------------------

  const HEADER := "# ninja log v5\n"

  /** A log line: not five fields, five fields whose times are not integers, or a record with times in milliseconds. */
  datatype Line = Corrupt | NotNumbers | Fields(start: int, end: int, name: string, hash: string)

  datatype ReadError = BadHeader | BadNumber

  datatype Outcome = Targets(entries: seq<Target>) | Failed(why: ReadError)

  function RecordOf(l: Line): Record
    requires l.Fields?
  {
    Record(l.start as real / 1000.0, l.end as real / 1000.0, l.name, l.hash)
  }

  /** Corrupt lines are skipped. */
  function Records(lines: seq<Line>): seq<Record> {
    if lines == [] then []
    else
      var last := lines[|lines| - 1];
      Records(lines[..|lines| - 1]) + if last.Fields? then [RecordOf(last)] else []
  }

  /** The target holds the group. */
  ghost predicate Holds(t: Target, g: Group)
    reads t
  {
    t.start == g.start && t.end == g.end && t.targets == g.names && t.weightedDuration == 0.0
  }

  /** The dictionary of targets holds what has been read, each group in its own target. */
  ghost predicate Mirrors(dict: map<string, Target>, groups: map<string, Group>)
    reads dict.Values
  {
    && dict.Keys == groups.Keys
    && (forall h :: h in dict ==> Holds(dict[h], groups[h]))
    && forall h, k :: h in dict && k in dict && h != k ==> dict[h] != dict[k]
  }

  /** The targets hold the groups in order. */
  ghost predicate Listed(entries: seq<Target>, s: Reading)
    reads entries
  {
    && |entries| == |s.order|
    && Distinct(entries)
    && forall i :: 0 <= i < |entries| ==> s.order[i] in s.groups && Holds(entries[i], s.groups[s.order[i]])
  }

  predicate Tidy(order: seq<string>, keys: set<string>) {
    && (forall i :: 0 <= i < |order| ==> order[i] in keys)
    && forall i, j :: 0 <= i < j < |order| ==> order[i] != order[j]
  }

  lemma TidyNext(order: seq<string>, keys: set<string>, h: string)
    requires Tidy(order, keys)
    ensures h !in keys ==> Tidy(order + [h], keys + {h})
  {
  }

  /** Another name for a hash that is in the dictionary. */
  method AppendName(dict: map<string, Target>, ghost groups: map<string, Group>, r: Record)
    requires Mirrors(dict, groups) && r.hash in dict
    modifies dict[r.hash]
    ensures Mirrors(dict, groups[r.hash := groups[r.hash].(names := groups[r.hash].names + [r.name])])
  {
    var t := dict[r.hash];
    t.targets := t.targets + [r.name];
  }

  /** A new target for a hash that is not. */
  method AddTarget(dict: map<string, Target>, ghost groups: map<string, Group>, r: Record) returns (dict': map<string, Target>)
    requires Mirrors(dict, groups) && r.hash !in dict
    ensures Mirrors(dict', groups[r.hash := Group(r.start, r.end, [r.name])])
    ensures dict'.Keys == dict.Keys + {r.hash} && fresh(dict'.Values - dict.Values)
  {
    var t := new Target(r.start, r.end);
    t.targets := t.targets + [r.name];
    dict' := dict[r.hash := t];
  }

  /** Puts one record into the dictionary. */
  method AddRecord(order: seq<string>, dict: map<string, Target>, ghost s: Reading, r: Record)
    returns (order': seq<string>, dict': map<string, Target>)
    requires order == s.order && Mirrors(dict, s.groups) && Tidy(order, dict.Keys)
    modifies dict.Values
    ensures order' == Add(s, r).order && Mirrors(dict', Add(s, r).groups) && Tidy(order', dict'.Keys)
    ensures fresh(dict'.Values - dict.Values)
  {
    hide Tidy;
    TidyNext(order, dict.Keys, r.hash);
    if r.hash in dict {
      AppendName(dict, s.groups, r);
      order', dict' := order, dict;
    } else {
      order' := order + [r.hash];
      dict' := AddTarget(dict, s.groups, r);
    }
  }

  /** One record, with the two reasons to throw away what was read before. */
  method ReadRecord(order: seq<string>, dict: map<string, Target>, lastEnd: real, r: Record, showAll: bool, ghost s: Reading)
    returns (order': seq<string>, dict': map<string, Target>)
    requires order == s.order && lastEnd == s.lastEnd && Mirrors(dict, s.groups) && Tidy(order, dict.Keys)
    modifies dict.Values
    ensures order' == Step(s, r, showAll).order && Mirrors(dict', Step(s, r, showAll).groups) && Tidy(order', dict'.Keys)
    ensures fresh(dict'.Values - dict.Values)
  {
    hide Add;
    order', dict' := order, dict;
    ghost var s' := s;
    if !showAll && r.end < lastEnd {
      order', dict', s' := [], map[], Cleared(s');
    }
    if r.hash in dict' && !showAll && (dict'[r.hash].start != r.start || dict'[r.hash].end != r.end) {
      order', dict', s' := [], map[], Cleared(s');
    }
    assert dict'.Values <= dict.Values;
    order', dict' := AddRecord(order', dict', s', r);
  }

  lemma RunNext(lines: seq<Line>, n: nat, showAll: bool)
    requires n < |lines|
    ensures var s := Run(Records(lines[..n]), showAll);
      Run(Records(lines[..n + 1]), showAll) == if lines[n].Fields? then Step(s, RecordOf(lines[n]), showAll) else s
  {
    hide Step, RecordOf;
    assert lines[..n + 1][..n] == lines[..n];
    if lines[n].Fields? {
      var p, r := Records(lines[..n]), RecordOf(lines[n]);
      assert (p + [r])[..|p|] == p;
    } else {
      assert Records(lines[..n]) + [] == Records(lines[..n]);
    }
  }

  /** The reader. The targets it returns hold the groups that have been read, in order. */
  method ReadTargets(header: string, lines: seq<Line>, showAll: bool) returns (o: Outcome)
    ensures header != HEADER <==> o == Failed(BadHeader)
    ensures header == HEADER ==> (NotNumbers in lines <==> o == Failed(BadNumber))
    ensures o.Targets? ==> fresh(o.entries) && Listed(o.entries, Run(Records(lines), showAll))
  {
    hide Run, Records, Step, RecordOf;
    if header != HEADER { return Failed(BadHeader); }
    var order: seq<string>, dict: map<string, Target>, lastEnd := [], map[], 0.0;
    RunNothing(showAll);
    ghost var s := NOTHING;
    for n := 0 to |lines|
      invariant NotNumbers !in lines[..n] && fresh(dict.Values)
      invariant s == Run(Records(lines[..n]), showAll)
      invariant order == s.order && lastEnd == s.lastEnd && Mirrors(dict, s.groups) && Tidy(order, dict.Keys)
    {
      RunNext(lines, n, showAll);
      if lines[n].NotNumbers? { return Failed(BadNumber); }
      if lines[n].Corrupt? { continue; }
      var r := RecordOf(lines[n]);
      order, dict := ReadRecord(order, dict, lastEnd, r, showAll, s);
      lastEnd := r.end;
      StepEnds(s, r, showAll);
      s := Step(s, r, showAll);
    }
    assert lines[..|lines|] == lines;
    o := Targets(seq(|order|, i requires 0 <= i < |order| => dict[order[i]]));
    assert forall i :: 0 <= i < |order| ==> dict[order[i]] in dict.Values;
  }

  lemma StepEnds(s: Reading, r: Record, showAll: bool)
    ensures Step(s, r, showAll).lastEnd == r.end
  {
  }

  lemma RunNothing(showAll: bool)
    ensures Records([]) == [] && Run([], showAll) == NOTHING
  {
  }

  // ---------------------------------------------------------------------------------------------
  // From the log to the report
  // ---------------------------------------------------------------------------------------------

  datatype Report = Unreadable(why: ReadError) | Summarized(result: Result<Summary>)

  /** One entry for each command of the records, in order of first appearance, with its times and all its names. */
  ghost predicate Entries(entries: seq<Target>, records: seq<Record>, order: seq<string>)
    reads entries
  {
    && OrderOf(records, order)
    && |entries| == |order|
    && forall i :: 0 <= i < |entries| ==> Appears(records, order[i]) && EntryOf(entries[i], GroupOf(records, order[i]))
  }

  ghost predicate EntryOf(t: Target, g: Group)
    reads t
  {
    t.start == g.start && t.end == g.end && t.targets == g.names
  }

  /** The records are the lines with five good fields, in order; record k is line at[k], with its milliseconds as seconds. */
  ghost predicate FromLines(records: seq<Record>, lines: seq<Line>, at: seq<nat>) {
    && |at| == |records|
    && (forall k :: 0 <= k < |at| ==> at[k] < |lines| && IsRecord(records[k], lines[at[k]]))
    && (forall j, k :: 0 <= j < k < |at| ==> at[j] < at[k])
    && forall i: nat :: i < |lines| && lines[i].Fields? ==> i in at
  }

  predicate IsRecord(r: Record, l: Line) {
    && l.Fields? && r.start * 1000.0 == l.start as real && r.end * 1000.0 == l.end as real
    && r.name == l.name && r.hash == l.hash
  }

  lemma {:induction false} RecordsExactly(lines: seq<Line>) returns (at: seq<nat>)
    ensures FromLines(Records(lines), lines, at)
  {
    hide RecordOf, IsRecord;
    at := [];
    if lines != [] {
      var n := |lines| - 1;
      at := RecordsExactly(lines[..n]);
      if lines[n].Fields? {
        RecordIs(lines[n]);
        at := at + [n];
        assert at[|at| - 1] == n;
        forall i: nat | i < n && lines[i].Fields? ensures i in at {
          assert lines[..n][i].Fields?;
        }
      } else {
        forall i: nat | i < |lines| && lines[i].Fields? ensures i in at {
          assert lines[..n][i].Fields?;
        }
      }
    }
  }

  lemma RecordIs(l: Line)
    requires l.Fields?
    ensures IsRecord(RecordOf(l), l)
  {
  }

  /** Some command ends before it starts, by its first record. */
  ghost predicate EndsEarly(records: seq<Record>) {
    exists h :: Appears(records, h) && GroupOf(records, h).end < GroupOf(records, h).start
  }

  /** In one build every record counts. */
  lemma EndsEarlyExactly(build: seq<Record>)
    requires OneBuild(build)
    ensures EndsEarly(build) <==> exists i :: 0 <= i < |build| && build[i].end < build[i].start
  {
    hide OneBuild, NamesOf;
    forall i | 0 <= i < |build| && build[i].end < build[i].start ensures EndsEarly(build) {
      assert Appears(build, build[i].hash);
      TimesOfFirst(build, build[i].hash, i);
      assert GroupOf(build, build[i].hash).end < GroupOf(build, build[i].hash).start;
    }
  }

  lemma ListedEntries(entries: seq<Target>, records: seq<Record>, s: Reading)
    requires Grouped(records, s) && Listed(entries, s)
    ensures Entries(entries, records, s.order)
  {
    hide OrderOf, GroupOf, Appears, Distinct;
  }

  lemma EntriesExactly(entries: seq<Target>, records: seq<Record>, order: seq<string>)
    requires Entries(entries, records, order)
    ensures entries == [] <==> records == []
    ensures Backwards(Tasks(entries)) <==> EndsEarly(records)
  {
    hide First, NamesOf;
    if records != [] { assert Appears(records, records[0].hash); }
    if entries != [] { assert Appears(records, order[0]); }
    forall i | 0 <= i < |entries| && entries[i].end < entries[i].start ensures EndsEarly(records) {
      assert Appears(records, order[i]);
    }
    forall h | Appears(records, h) && GroupOf(records, h).end < GroupOf(records, h).start ensures Backwards(Tasks(entries)) {
      var i :| 0 <= i < |order| && order[i] == h;
      assert Tasks(entries)[i].end < Tasks(entries)[i].start;
    }
  }

  /** Summarizing entries changes only their weights. */
  method SummarizeRead(entries: seq<Target>, ghost records: seq<Record>, ghost order: seq<string>)
    returns (r: Result<Summary>, ghost cuts: seq<real>)
    requires Distinct(entries) && Entries(entries, records, order)
    modifies entries`weightedDuration
    ensures Entries(entries, records, order)
    ensures r == Err(NoEntries) <==> records == []
    ensures r == Err(NotRunning) <==> EndsEarly(records)
    ensures r.Ok? ==> Reported(entries, cuts, r.value)
    ensures r != Err(WeightTooLarge)
  {
    hide OrderOf, GroupOf, Appears, Reported, EndsEarly, Backwards;
    EntriesExactly(entries, records, order);
    r, cuts := SummarizeEntries(entries);
  }

  lemma SomethingCounts(records: seq<Record>, showAll: bool)
    ensures Considered(records, showAll) == [] <==> records == []
  {
  }

  /**
   Reads a log and summarizes it. The report is about the commands of the last build: it fails on a log without records and
   on a command that ends before it starts, and otherwise gives every command its even share of the time.
   */
  method ReportBuild(header: string, lines: seq<Line>, showAll: bool)
    returns (r: Report, entries: seq<Target>, ghost order: seq<string>, ghost cuts: seq<real>, ghost at: seq<nat>)
    ensures r == Unreadable(BadHeader) <==> header != "# ninja log v5\n"
    ensures r == Unreadable(BadNumber) <==> header == HEADER && NotNumbers in lines
    ensures FromLines(Records(lines), lines, at)
    ensures r.Summarized? ==> Entries(entries, Considered(Records(lines), showAll), order)
    ensures r == Summarized(Err(NoEntries)) <==> header == HEADER && NotNumbers !in lines && Records(lines) == []
    ensures r == Summarized(Err(NotRunning))
       <==> header == HEADER && NotNumbers !in lines && EndsEarly(Considered(Records(lines), showAll))
    ensures r != Summarized(Err(WeightTooLarge))
    ensures r.Summarized? && r.result.Ok? ==> Reported(entries, cuts, r.result.value)
  {
    hide Run, Records, Considered, Grouped, Entries, EndsEarly, Reported, Backwards, Listed, FromLines;
    at := RecordsExactly(lines);
    var o := ReadTargets(header, lines, showAll);
    entries, order, cuts := [], [], [];
    if o.Failed? {
      assert o.why.BadHeader? || o.why.BadNumber?;
      return Unreadable(o.why), entries, order, cuts, at;
    }
    ghost var records, s := Considered(Records(lines), showAll), Run(Records(lines), showAll);
    entries, order := o.entries, s.order;
    ReadingIsGrouped(Records(lines), showAll);
    ListedEntries(entries, records, s);
    ListedAreDistinct(entries, s);
    SomethingCounts(Records(lines), showAll);
    var result;
    result, cuts := SummarizeRead(entries, records, order);
    r := Summarized(result);
  }

  lemma ListedAreDistinct(entries: seq<Target>, s: Reading)
    requires Listed(entries, s)
    ensures Distinct(entries)
  {
  }
}
