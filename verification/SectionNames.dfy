/** The region headers of a recorded slice: which header line names which region (evals/slipstream_replay.py). */
module SectionNames {
  import opened Sections
  import opened Text

  /** Three characters that tell all headers apart. */
  function Code(line: string): int
    requires |line| > 10
  {
    line[2] as int * 16384 + line[4] as int * 128 + line[10] as int
  }

  const CODES: seq<int> := [
    1075795, 1368257, 1354272, 1321281, 1303237, 1353283,
    1075787, 1353248, 1352143, 1469125, 1320864, 1435972,
    1303621, 1353775, 1075777, 1272389, 1335493, 1138881,
    1386836, 1108304, 1353812, 1303250, 1108293, 1205957,
    1435969, 1075791
  ]

  const EARLIER: string := "# EARLIER EXCHANGE"

  lemma {:induction false} CodeOfPrefix(line: string, h: string)
    requires |h| > 10 && StartsWith(line, h)
    ensures |line| > 10 && Code(line) == Code(h)
  {
  }

  lemma Codes1()
    ensures forall i :: 0 <= i < 5 ==> |REGION_HEADERS[i].1| > 10 && Code(REGION_HEADERS[i].1) == CODES[i]
  {
  }

  lemma Codes2()
    ensures forall i :: 5 <= i < 10 ==> |REGION_HEADERS[i].1| > 10 && Code(REGION_HEADERS[i].1) == CODES[i]
  {
  }

  lemma Codes3()
    ensures forall i :: 10 <= i < 15 ==> |REGION_HEADERS[i].1| > 10 && Code(REGION_HEADERS[i].1) == CODES[i]
  {
  }

  lemma Codes4()
    ensures forall i :: 15 <= i < 20 ==> |REGION_HEADERS[i].1| > 10 && Code(REGION_HEADERS[i].1) == CODES[i]
  {
  }

  lemma Codes5()
    ensures forall i :: 20 <= i < 25 ==> |REGION_HEADERS[i].1| > 10 && Code(REGION_HEADERS[i].1) == CODES[i]
  {
  }

  lemma Codes6()
    ensures forall i :: 25 <= i < 26 ==> |REGION_HEADERS[i].1| > 10 && Code(REGION_HEADERS[i].1) == CODES[i]
  {
  }

  lemma {:induction false} CodeAt(i: nat)
    requires i < |REGION_HEADERS|
    ensures |REGION_HEADERS| == |CODES| && |REGION_HEADERS[i].1| > 10 && Code(REGION_HEADERS[i].1) == CODES[i]
  {
    Codes1();
    Codes2();
    Codes3();
    Codes4();
    Codes5();
    Codes6();
  }

  lemma CodesDiffer()
    ensures forall i, j :: 0 <= i < j < |CODES| ==> CODES[i] != CODES[j]
    ensures forall i :: 0 <= i < |CODES| ==> CODES[i] != 1141061
    ensures |EARLIER| > 10 && Code(EARLIER) == 1141061
  {
  }

  /** No line matches two headers, so the longest match is the only one. */
  lemma {:induction false} OneHeader(line: string, i: nat, j: nat)
    requires i < |REGION_HEADERS| && j < |REGION_HEADERS|
    requires StartsWith(line, REGION_HEADERS[i].1)
    ensures StartsWith(line, REGION_HEADERS[j].1) ==> i == j
    ensures !StartsWith(line, EARLIER)
  {
    CodeAt(i);
    CodeAt(j);
    CodesDiffer();
    hide Code, StartsWith, REGION_HEADERS, CODES;
    CodeOfPrefix(line, REGION_HEADERS[i].1);
    if StartsWith(line, REGION_HEADERS[j].1) {
      CodeOfPrefix(line, REGION_HEADERS[j].1);
    }
    if StartsWith(line, EARLIER) {
      CodeOfPrefix(line, EARLIER);
    }
  }

  /** A line that begins with a header of the table belongs to that header's region, whatever follows. */
  lemma {:induction false} RegionOfHeader(i: nat, line: string)
    requires i < |REGION_HEADERS| && StartsWith(line, REGION_HEADERS[i].1)
    ensures SectionRegion(line) == Named(REGION_HEADERS[i].0)
  {
    hide StartsWith, REGION_HEADERS;
    forall j | 0 <= j < |REGION_HEADERS| && StartsWith(line, REGION_HEADERS[j].1)
      ensures i == j
    {
      OneHeader(line, i, j);
    }
    OneHeader(line, i, i);
    BestIsUnique(line, REGION_HEADERS, i);
  }

  /** The line begins with the header, and so belongs to the region. */
  predicate Reads(line: string, header: string, region: string) {
    StartsWith(line, header) ==> SectionRegion(line) == Named(region)
  }

  lemma {:induction false} EntryReads(line: string, i: nat)
    requires i < |REGION_HEADERS|
    ensures Reads(line, REGION_HEADERS[i].1, REGION_HEADERS[i].0)
  {
    hide SectionRegion, REGION_HEADERS;
    if StartsWith(line, REGION_HEADERS[i].1) {
      RegionOfHeader(i, line);
    }
  }

  lemma {:induction false} EarlierReads(line: string)
    ensures Reads(line, "# EARLIER EXCHANGE", "adjacency")
  {
  }

  /** The regions by their headers. */
  lemma {:induction false} HeadersRead(line: string)
    ensures Reads(line, "# ACTIVE USER INTENT", "intent")
    ensures Reads(line, "# STABLE TASK OBJECTIVE", "task_objective")
    ensures Reads(line, "# RETAINED USER CORRECTIONS", "corrections")
    ensures Reads(line, "# PARENT TASK CONSTRAINTS", "task_constraints")
    ensures Reads(line, "# OPEN FILES", "open_files")
    ensures Reads(line, "# RELATED CODE", "related_code")
    ensures Reads(line, "# ACTIVE SKILL(S)", "skills")
    ensures Reads(line, "# RELEVANT KNOWLEDGE CANDIDATES", "memory")
    ensures Reads(line, "# RECENT CONVERSATION", "conversation")
    ensures Reads(line, "# YOUR NOTES FROM PRIOR TOOL CALLS", "findings")
    ensures Reads(line, "# PROGRESS SIGNALS", "progress")
    ensures Reads(line, "# WORLD MODEL", "world")
    ensures Reads(line, "# OTHER OPEN THREADS", "threads")
    ensures Reads(line, "# REPEATED/FAILING ACTIONS", "action_header")
    ensures Reads(line, "# AUTHORITATIVE EVIDENCE RESULT", "evidence_result")
    ensures Reads(line, "# MATCHED EVIDENCE DETAIL", "evidence_detail")
    ensures Reads(line, "# QUALITY EVIDENCE PROTOCOL", "quality_evidence_result")
    ensures Reads(line, "# EXACT SEALED REQUEST/RESPONSE PAIRS", "quality_evidence_detail")
    ensures Reads(line, "# TURN CONTRACT", "turn_contract")
    ensures Reads(line, "# CURRENT PROJECT", "focus")
    ensures Reads(line, "# REPO STATE", "worktree")
    ensures Reads(line, "# OPEN USER REPORT", "user_report")
    ensures Reads(line, "# CURRENT ERROR", "error")
    ensures Reads(line, "# IMMEDIATE PRIOR EXCHANGE", "adjacency")
    ensures Reads(line, "# WORLD STATE", "world_state")
    ensures Reads(line, "# ACTIVE WORK", "active_work")
    ensures Reads(line, "# EARLIER EXCHANGE", "adjacency")
  {
    hide *;
    EarlierReads(line);
    Entry0(line);
    Entry1(line);
    Entry2(line);
    Entry3(line);
    Entry4(line);
    Entry5(line);
    Entry6(line);
    Entry7(line);
    Entry8(line);
    Entry9(line);
    Entry10(line);
    Entry11(line);
    Entry12(line);
    Entry13(line);
    Entry14(line);
    Entry15(line);
    Entry16(line);
    Entry17(line);
    Entry18(line);
    Entry19(line);
    Entry20(line);
    Entry21(line);
    Entry22(line);
    Entry23(line);
    Entry24(line);
    Entry25(line);
  }

  lemma {:induction false} Entry0(line: string)
    ensures Reads(line, "# ACTIVE USER INTENT", "intent")
  {
    hide Reads;
    EntryReads(line, 0);
  }

  lemma {:induction false} Entry1(line: string)
    ensures Reads(line, "# STABLE TASK OBJECTIVE", "task_objective")
  {
    hide Reads;
    EntryReads(line, 1);
  }

  lemma {:induction false} Entry2(line: string)
    ensures Reads(line, "# RETAINED USER CORRECTIONS", "corrections")
  {
    hide Reads;
    EntryReads(line, 2);
  }

  lemma {:induction false} Entry3(line: string)
    ensures Reads(line, "# PARENT TASK CONSTRAINTS", "task_constraints")
  {
    hide Reads;
    EntryReads(line, 3);
  }

  lemma {:induction false} Entry4(line: string)
    ensures Reads(line, "# OPEN FILES", "open_files")
  {
    hide Reads;
    EntryReads(line, 4);
  }

  lemma {:induction false} Entry5(line: string)
    ensures Reads(line, "# RELATED CODE", "related_code")
  {
    hide Reads;
    EntryReads(line, 5);
  }

  lemma {:induction false} Entry6(line: string)
    ensures Reads(line, "# ACTIVE SKILL(S)", "skills")
  {
    hide Reads;
    EntryReads(line, 6);
  }

  lemma {:induction false} Entry7(line: string)
    ensures Reads(line, "# RELEVANT KNOWLEDGE CANDIDATES", "memory")
  {
    hide Reads;
    EntryReads(line, 7);
  }

  lemma {:induction false} Entry8(line: string)
    ensures Reads(line, "# RECENT CONVERSATION", "conversation")
  {
    hide Reads;
    EntryReads(line, 8);
  }

  lemma {:induction false} Entry9(line: string)
    ensures Reads(line, "# YOUR NOTES FROM PRIOR TOOL CALLS", "findings")
  {
    hide Reads;
    EntryReads(line, 9);
  }

  lemma {:induction false} Entry10(line: string)
    ensures Reads(line, "# PROGRESS SIGNALS", "progress")
  {
    hide Reads;
    EntryReads(line, 10);
  }

  lemma {:induction false} Entry11(line: string)
    ensures Reads(line, "# WORLD MODEL", "world")
  {
    hide Reads;
    EntryReads(line, 11);
  }

  lemma {:induction false} Entry12(line: string)
    ensures Reads(line, "# OTHER OPEN THREADS", "threads")
  {
    hide Reads;
    EntryReads(line, 12);
  }

  lemma {:induction false} Entry13(line: string)
    ensures Reads(line, "# REPEATED/FAILING ACTIONS", "action_header")
  {
    hide Reads;
    EntryReads(line, 13);
  }

  lemma {:induction false} Entry14(line: string)
    ensures Reads(line, "# AUTHORITATIVE EVIDENCE RESULT", "evidence_result")
  {
    hide Reads;
    EntryReads(line, 14);
  }

  lemma {:induction false} Entry15(line: string)
    ensures Reads(line, "# MATCHED EVIDENCE DETAIL", "evidence_detail")
  {
    hide Reads;
    EntryReads(line, 15);
  }

  lemma {:induction false} Entry16(line: string)
    ensures Reads(line, "# QUALITY EVIDENCE PROTOCOL", "quality_evidence_result")
  {
    hide Reads;
    EntryReads(line, 16);
  }

  lemma {:induction false} Entry17(line: string)
    ensures Reads(line, "# EXACT SEALED REQUEST/RESPONSE PAIRS", "quality_evidence_detail")
  {
    hide Reads;
    EntryReads(line, 17);
  }

  lemma {:induction false} Entry18(line: string)
    ensures Reads(line, "# TURN CONTRACT", "turn_contract")
  {
    hide Reads;
    EntryReads(line, 18);
  }

  lemma {:induction false} Entry19(line: string)
    ensures Reads(line, "# CURRENT PROJECT", "focus")
  {
    hide Reads;
    EntryReads(line, 19);
  }

  lemma {:induction false} Entry20(line: string)
    ensures Reads(line, "# REPO STATE", "worktree")
  {
    hide Reads;
    EntryReads(line, 20);
  }

  lemma {:induction false} Entry21(line: string)
    ensures Reads(line, "# OPEN USER REPORT", "user_report")
  {
    hide Reads;
    EntryReads(line, 21);
  }

  lemma {:induction false} Entry22(line: string)
    ensures Reads(line, "# CURRENT ERROR", "error")
  {
    hide Reads;
    EntryReads(line, 22);
  }

  lemma {:induction false} Entry23(line: string)
    ensures Reads(line, "# IMMEDIATE PRIOR EXCHANGE", "adjacency")
  {
    hide Reads;
    EntryReads(line, 23);
  }

  lemma {:induction false} Entry24(line: string)
    ensures Reads(line, "# WORLD STATE", "world_state")
  {
    hide Reads;
    EntryReads(line, 24);
  }

  lemma {:induction false} Entry25(line: string)
    ensures Reads(line, "# ACTIVE WORK", "active_work")
  {
    hide Reads;
    EntryReads(line, 25);
  }

  /** A line that begins with none of them belongs to no region. */
  lemma {:induction false} OtherLines(line: string)
    requires !StartsWith(line, "# EARLIER EXCHANGE")
    requires forall i :: 0 <= i < |REGION_HEADERS| ==> !StartsWith(line, REGION_HEADERS[i].1)
    ensures SectionRegion(line) == Unknown
  {
    hide REGION_HEADERS, StartsWith;
    BestIsUnique(line, REGION_HEADERS, 0);
  }

  // ----- lines and sections -----

  /** The ten characters at which `str.splitlines` breaks. */
  const BREAKS: set<char> :=
    {'\n', '\U{0b}', '\U{0c}', '\r', '\U{1c}', '\U{1d}', '\U{1e}', '\U{85}', '\U{2028}', '\U{2029}'}

  /** A character between two plain ones breaks the line exactly if it is one of the ten; "\r\n" breaks it once. */
  lemma {:induction false} LinesOfThree(x: char, c: char, y: char)
    requires x !in BREAKS && y !in BREAKS
    ensures Lines([x, c, y]) == if c in BREAKS then [[x, c], [y]] else [[x, c, y]]
    ensures Lines([x, '\r', '\n', y]) == [[x, '\r', '\n'], [y]]
  {
    BreaksMean(x);
    BreaksMean(c);
    BreaksMean(y);
    BreaksMean('\r');
    hide BREAKS, IsBreak;
    LineOfOne(y);
    if IsBreak(c) {
      BrokenLine(x, [c], [y]);
    } else {
      UnbrokenLine(x, c, y);
    }
    BrokenPair(x, y);
  }

  lemma {:induction false} BreaksMean(c: char)
    ensures c in BREAKS <==> IsBreak(c)
  {
  }

  lemma {:induction false} LineOfOne(y: char)
    ensures Lines([y]) == [[y]]
  {
    hide IsBreak;
    assert [y][..1] == [y] && [y][1..] == "";
    assert Lines("") == [];
  }

  lemma {:induction false} BrokenLine(x: char, c: string, rest: string)
    requires !IsBreak(x) && |c| == 1 && IsBreak(c[0]) && |rest| == 1 && !IsBreak(rest[0])
    requires Lines(rest) == [rest]
    ensures Lines([x, c[0], rest[0]]) == [[x, c[0]], [rest[0]]]
  {
    var t := [x, c[0], rest[0]];
    assert t[1..] == [c[0], rest[0]];
    NewlineBreaks();
    hide IsBreak;
    assert LineEnd(t[1..]) == 1;
    assert t[..2] == [x, c[0]] && t[2..] == rest;
  }

  lemma {:induction false} UnbrokenLine(x: char, c: char, y: char)
    requires !IsBreak(x) && !IsBreak(c)
    ensures Lines([x, c, y]) == [[x, c, y]]
  {
    hide IsBreak;
    var t := [x, c, y];
    assert t[1..] == [c, y] && [c, y][1..] == [y];
    assert LineEnd([y]) == 1 && LineEnd([c, y]) == 2;
    assert t[..3] == t && t[3..] == "";
    assert Lines("") == [];
  }

  lemma NewlineBreaks()
    ensures IsBreak('\n') && IsBreak('\r')
  {
  }

  lemma {:induction false} BrokenPair(x: char, y: char)
    requires !IsBreak(x) && Lines([y]) == [[y]]
    ensures Lines([x, '\r', '\n', y]) == [[x, '\r', '\n'], [y]]
  {
    var t := [x, '\r', '\n', y];
    assert t[1..] == ['\r', '\n', y];
    NewlineBreaks();
    hide IsBreak;
    assert LineEnd(t[1..]) == 2;
    assert t[..3] == [x, '\r', '\n'] && t[3..] == [y];
  }

  /** How many of the lines begin with a hash and a space. */
  function Headings(lines: seq<string>): nat {
    if lines == [] then 0
    else (if |lines[0]| >= 2 && lines[0][0] == '#' && lines[0][1] == ' ' then 1 else 0) + Headings(lines[1..])
  }

  /** A text has as many sections as headings, and one more if it does not begin with one. */
  lemma {:induction false} SectionCount(t: string)
    ensures |Split(t)| == Headings(Lines(t))
      + if t != "" && !(|t| >= 2 && t[0] == '#' && t[1] == ' ') then 1 else 0
  {
    hide Lines, Group;
    LinesOfEmpty(t);
    if t != "" {
      OpensAtFirstLine(t);
      GroupCount(Lines(t));
    } else {
      GroupNothing();
    }
  }

  lemma {:induction false} LinesOfEmpty(t: string)
    ensures Lines(t) == [] <==> t == ""
  {
  }

  lemma {:induction false} GroupCount(lines: seq<string>)
    requires lines != []
    ensures |Group(lines)| == Headings(lines) + if Opens(lines[0]) then 0 else 1
    decreases |lines|
  {
    hide Opens, Join, RegionOf;
    var n := BlockLen(lines);
    HeadingsBlock(lines, n);
    if n < |lines| {
      GroupCount(lines[n..]);
    } else {
      GroupNothing();
    }
  }

  lemma {:induction false} HeadingsBlock(lines: seq<string>, n: nat)
    requires 0 < n <= |lines| && forall i :: 0 < i < n ==> !Opens(lines[i])
    ensures Headings(lines) == (if Opens(lines[0]) then 1 else 0) + Headings(lines[n..])
  {
    assert Opens(lines[0]) <==> |lines[0]| >= 2 && lines[0][0] == '#' && lines[0][1] == ' ';
    if n > 1 {
      assert !Opens(lines[1]);
      HeadingsBlock(lines[1..], n - 1);
      assert lines[1..][n - 1..] == lines[n..];
    }
  }
}
