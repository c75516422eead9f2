/**
 * Cutting a recorded slice at its header lines, removing one region, and joining the rest
 * (evals/slipstream_replay.py).
 *
 * That a cut can be undone depends on the line terminators: `str.splitlines` fuses "\r\n", so gluing a piece that ends
 * in "\r" to one that starts with "\n" would lose a line. Every cut is made in front of "# ", which is why it cannot.
 */
module Sections {
  import opened Options
  import opened Text

  datatype Region = Unknown | Named(name: string)

  /** One section: its region and its text, terminators included. */
  datatype Section = Section(region: Region, text: string)

  // ---------------------------------------------------------------------------------------------------- lines

  /** The line boundaries of `str.splitlines`. */
  predicate IsBreak(c: char) {
    || '\n' <= c <= '\r'
    || '\U{1c}' <= c <= '\U{1e}'
    || c == '\U{85}' || c == '\U{2028}' || c == '\U{2029}'
  }

  /** Where the first line of t ends, its terminator included. */
  function LineEnd(t: string): (n: nat)
    requires t != ""
    ensures 0 < n <= |t|
  {
    if IsBreak(t[0]) then
      if t[0] == '\r' && |t| > 1 && t[1] == '\n' then 2 else 1
    else if |t| == 1 then 1
    else 1 + LineEnd(t[1..])
  }

  /** `t.splitlines(keepends=True)` */
  function Lines(t: string): seq<string> {
    if t == "" then [] else [t[..LineEnd(t)]] + Lines(t[LineEnd(t)..])
  }

  lemma {:induction false} JoinLines(t: string)
    ensures Join(Lines(t)) == t
  {
    if t != "" {
      JoinLines(t[LineEnd(t)..]);
    }
  }

  /** a ends with a terminator that b cannot extend. */
  predicate CutsCleanly(a: string, b: string) {
    EndsLine(a) && !(a[|a| - 1] == '\r' && b != "" && b[0] == '\n')
  }

  lemma {:induction false} LineEndStays(a: string, b: string)
    requires CutsCleanly(a, b)
    ensures LineEnd(a + b) == LineEnd(a)
    decreases |a|
  {
    if |a| > 1 && !IsBreak(a[0]) {
      assert (a + b)[1..] == a[1..] + b;
      LineEndStays(a[1..], b);
    }
  }

  lemma {:induction false} FirstLineStays(a: string, b: string)
    requires CutsCleanly(a, b)
    ensures var n := LineEnd(a);
      && LineEnd(a + b) == n
      && (a + b)[..n] == a[..n]
      && (a + b)[n..] == a[n..] + b
      && (a[n..] == "" || CutsCleanly(a[n..], b))
  {
    hide IsBreak, LineEnd;
    LineEndStays(a, b);
  }

  lemma {:induction false} LinesUnfold(a: string, b: string)
    requires CutsCleanly(a, b)
    ensures Lines(a) == [a[..LineEnd(a)]] + Lines(a[LineEnd(a)..])
    ensures Lines(a + b) == [a[..LineEnd(a)]] + Lines(a[LineEnd(a)..] + b)
    ensures a[LineEnd(a)..] == "" || CutsCleanly(a[LineEnd(a)..], b)
  {
    hide IsBreak, LineEnd;
    FirstLineStays(a, b);
  }

  /** Cutting a text cleanly cuts its list of lines. */
  lemma {:induction false} LinesOfConcat(a: string, b: string)
    requires a == "" || b == "" || CutsCleanly(a, b)
    ensures Lines(a + b) == Lines(a) + Lines(b)
    decreases |a|
  {
    hide Lines, LineEnd, CutsCleanly;
    LinesOfNothing();
    if a == "" {
      assert a + b == b;
    } else if b == "" {
      assert a + b == a;
    } else {
      LinesUnfold(a, b);
      LinesOfConcat(a[LineEnd(a)..], b);
    }
  }

  lemma LinesOfNothing()
    ensures Lines("") == []
  {
  }

  // --------------------------------------------------------------------------------------------------- regions

  predicate Opens(line: string) {
    StartsWith(line, "# ")
  }

  /** The pairs (region, header prefix) of REGION_HEADERS, in order. */
  const REGION_HEADERS: seq<(string, string)> := [
    ("intent", "# ACTIVE USER INTENT"),
    ("task_objective", "# STABLE TASK OBJECTIVE"),
    ("corrections", "# RETAINED USER CORRECTIONS"),
    ("task_constraints", "# PARENT TASK CONSTRAINTS"),
    ("open_files", "# OPEN FILES"),
    ("related_code", "# RELATED CODE"),
    ("skills", "# ACTIVE SKILL(S)"),
    ("memory", "# RELEVANT KNOWLEDGE CANDIDATES"),
    ("conversation", "# RECENT CONVERSATION"),
    ("findings", "# YOUR NOTES FROM PRIOR TOOL CALLS"),
    ("progress", "# PROGRESS SIGNALS"),
    ("world", "# WORLD MODEL"),
    ("threads", "# OTHER OPEN THREADS"),
    ("action_header", "# REPEATED/FAILING ACTIONS"),
    ("evidence_result", "# AUTHORITATIVE EVIDENCE RESULT"),
    ("evidence_detail", "# MATCHED EVIDENCE DETAIL"),
    ("quality_evidence_result", "# QUALITY EVIDENCE PROTOCOL"),
    ("quality_evidence_detail", "# EXACT SEALED REQUEST/RESPONSE PAIRS"),
    ("turn_contract", "# TURN CONTRACT"),
    ("focus", "# CURRENT PROJECT"),
    ("worktree", "# REPO STATE"),
    ("user_report", "# OPEN USER REPORT"),
    ("error", "# CURRENT ERROR"),
    ("adjacency", "# IMMEDIATE PRIOR EXCHANGE"),
    ("world_state", "# WORLD STATE"),
    ("active_work", "# ACTIVE WORK")
  ]

  /** The entry i of the table has a prefix of the line that no other entry beats, and is the first such. */
  predicate IsBest(line: string, table: seq<(string, string)>, i: int) {
    && 0 <= i < |table|
    && StartsWith(line, table[i].1)
    && forall j :: 0 <= j < |table| && StartsWith(line, table[j].1) ==>
         |table[j].1| < |table[i].1| || (|table[j].1| == |table[i].1| && i <= j)
  }

  predicate NoMatch(line: string, table: seq<(string, string)>) {
    forall j :: 0 <= j < |table| ==> !StartsWith(line, table[j].1)
  }

  /** The index of the best entry, or -1. */
  function Best(line: string, table: seq<(string, string)>): (r: int)
    ensures if r == -1 then NoMatch(line, table) else IsBest(line, table, r)
  {
    if table == [] then -1
    else
      var n := |table| - 1;
      var r := Best(line, table[..n]);
      if StartsWith(line, table[n].1) && (r == -1 || |table[n].1| > |table[r].1|) then n else r
  }

  function SectionRegion(line: string): Region {
    if StartsWith(line, "# EARLIER EXCHANGE") then Named("adjacency")
    else
      var r := Best(line, REGION_HEADERS);
      if r == -1 then Unknown else Named(REGION_HEADERS[r].0)
  }

  lemma {:induction false} BestIsUnique(line: string, table: seq<(string, string)>, i: int)
    ensures IsBest(line, table, i) ==> Best(line, table) == i
    ensures NoMatch(line, table) ==> Best(line, table) == -1
  {
  }

  /** The loop that keeps the longest matching prefix seen so far. */
  method FindRegion(line: string) returns (region: Region)
    ensures region == SectionRegion(line)
  {
    if StartsWith(line, "# EARLIER EXCHANGE") {
      return Named("adjacency");
    }
    var table := REGION_HEADERS;
    var best := FindBest(line, table);
    region := if best == -1 then Unknown else Named(table[best].0);
  }

  method FindBest(line: string, table: seq<(string, string)>) returns (best: int)
    ensures best == Best(line, table)
  {
    best := -1;
    for i := 0 to |table|
      invariant if best == -1 then NoMatch(line, table[..i]) else IsBest(line, table[..i], best)
    {
      if StartsWith(line, table[i].1) && (best == -1 || |table[i].1| > |table[best].1|) {
        best := i;
      }
      assert table[..i + 1] == table[..i] + [table[i]];
    }
    assert table[..|table|] == table;
    BestIsUnique(line, table, best);
  }

  // -------------------------------------------------------------------------------------------------- sections

  /** The region of a block is read off its first line; text before the first header has none. */
  function RegionOf(first: string): Region {
    if Opens(first) then SectionRegion(first) else Unknown
  }

  /** How many of the lines belong to the first section: up to the next header. */
  function BlockLen(lines: seq<string>): (n: nat)
    requires lines != []
    ensures 0 < n <= |lines|
    ensures forall i :: 0 < i < n ==> !Opens(lines[i])
    ensures n < |lines| ==> Opens(lines[n])
  {
    if |lines| == 1 || Opens(lines[1]) then 1 else 1 + BlockLen(lines[1..])
  }

  function Group(lines: seq<string>): seq<Section> {
    if lines == [] then []
    else
      var n := BlockLen(lines);
      [Section(RegionOf(lines[0]), Join(lines[..n]))] + Group(lines[n..])
  }

  function Split(t: string): seq<Section> {
    Group(Lines(t))
  }

  /** The text of a list of sections, `"".join(text for _, text in sections)`. */
  function Glue(ss: seq<Section>): string {
    if ss == [] then "" else ss[0].text + Glue(ss[1..])
  }

  /** A block of lines none of which, after the first, is a header; labelled by its first line. */
  predicate IsBlock(s: Section) {
    && s.text != ""
    && s.region == RegionOf(Lines(s.text)[0])
    && forall i :: 0 < i < |Lines(s.text)| ==> !Opens(Lines(s.text)[i])
  }

  /**
   * What a section list is, said without the splitting loop: blocks, all but the first opened by a header, all but the
   * last ended by a terminator.
   */
  predicate IsSectioning(ss: seq<Section>, atStart: bool) {
    ss != [] ==>
      && IsBlock(ss[0])
      && (atStart || Opens(ss[0].text))
      && (|ss| > 1 ==> EndsLine(ss[0].text))
      && IsSectioning(ss[1..], false)
  }

  /** The splitting loop: a header closes the block collected so far and starts the next one. */
  method SplitSections(t: string) returns (out: seq<Section>)
    ensures out == Split(t)
  {
    hide SplitTo, Group, Lines, Opens, SectionRegion, Join, RegionOf;
    var lines := Lines(t);
    out := [];
    var region, cur := Unknown, [];
    SplitStart(lines);
    for i := 0 to |lines|
      invariant SplitTo(lines, i, out, region, cur)
    {
      SplitStep(lines, i, out, region, cur);
      if Opens(lines[i]) {
        if cur != [] {
          out := out + [Section(region, Join(cur))];
        }
        var r := FindRegion(lines[i]);
        region, cur := r, [lines[i]];
      } else {
        cur := cur + [lines[i]];
      }
    }
    SplitEnd(lines, out, region, cur);
    if cur != [] {
      out := out + [Section(region, Join(cur))];
    }
  }

  /** The loop's state before line i: the closed sections, and the block that is being collected. */
  predicate SplitTo(lines: seq<string>, i: nat, out: seq<Section>, region: Region, cur: seq<string>) {
    && i <= |lines|
    && (cur == [] ==> i == 0 && out == [] && region == Unknown)
    && (cur != [] ==> region == RegionOf(cur[0]))
    && (forall k :: 0 < k < |cur| ==> !Opens(cur[k]))
    && Group(lines) == out + Group(cur + lines[i..])
  }

  lemma {:induction false} SplitStart(lines: seq<string>)
    ensures SplitTo(lines, 0, [], Unknown, [])
  {
    assert [] + lines[0..] == lines;
  }

  lemma {:induction false} SplitStep(lines: seq<string>, i: nat, out: seq<Section>, region: Region, cur: seq<string>)
    requires i < |lines| && SplitTo(lines, i, out, region, cur)
    ensures !Opens(lines[i]) ==> SplitTo(lines, i + 1, out, region, cur + [lines[i]])
    ensures Opens(lines[i]) ==>
      var closed := if cur == [] then out else out + [Section(region, Join(cur))];
      SplitTo(lines, i + 1, closed, SectionRegion(lines[i]), [lines[i]])
  {
    hide Group, Opens, SectionRegion, Join;
    assert lines[i..] == [lines[i]] + lines[i + 1..];
    if Opens(lines[i]) {
      if cur == [] {
        assert cur + lines[i..] == lines[i..];
      } else {
        CloseBlock(cur, lines[i..]);
      }
    } else {
      assert (cur + [lines[i]]) + lines[i + 1..] == cur + lines[i..];
    }
  }

  lemma {:induction false} SplitEnd(lines: seq<string>, out: seq<Section>, region: Region, cur: seq<string>)
    requires SplitTo(lines, |lines|, out, region, cur)
    ensures Group(lines) == if cur == [] then out else out + [Section(region, Join(cur))]
  {
    hide Group, Opens, SectionRegion, Join, RegionOf;
    GroupNothing();
    assert cur + lines[|lines|..] == cur + [];
    if cur != [] {
      CloseBlock(cur, []);
    }
  }

  lemma GroupNothing()
    ensures Group([]) == []
  {
  }

  lemma {:induction false} CloseBlock(cur: seq<string>, rest: seq<string>)
    requires cur != [] && forall k :: 0 < k < |cur| ==> !Opens(cur[k])
    requires rest != [] ==> Opens(rest[0])
    ensures Group(cur + rest) == [Section(RegionOf(cur[0]), Join(cur))] + Group(rest)
  {
    var all := cur + rest;
    var n := BlockLen(all);
    assert n == |cur| by {
      assert forall k :: 0 < k < |cur| ==> all[k] == cur[k];
      assert rest != [] ==> all[|cur|] == rest[0];
    }
    assert all[..n] == cur && all[n..] == rest;
  }

  // ---------------------------------------------------------------------------------------------- split and join

  lemma {:induction false} LineEndOfPrefix(t: string, m: nat)
    requires t != "" && LineEnd(t) <= m <= |t|
    ensures LineEnd(t[..m]) == LineEnd(t)
    ensures LineEnd(t) < |t| ==> IsBreak(t[LineEnd(t) - 1])
  {
    if !IsBreak(t[0]) && |t| > 1 {
      assert m > 1 ==> t[..m][1..] == t[1..][..m - 1];
      LineEndOfPrefix(t[1..], m - 1);
    }
  }

  lemma {:induction false} LinesAfter(t: string, n: nat)
    requires n <= |Lines(t)|
    ensures Lines(Join(Lines(t)[n..])) == Lines(t)[n..]
  {
    if n == 0 {
      JoinLines(t);
      assert Lines(t)[0..] == Lines(t);
    } else {
      LinesAfter(t[LineEnd(t)..], n - 1);
      assert Lines(t)[n..] == Lines(t[LineEnd(t)..])[n - 1..];
    }
  }

  lemma {:induction false} LinesBefore(t: string, n: nat)
    requires n <= |Lines(t)|
    ensures Lines(Join(Lines(t)[..n])) == Lines(t)[..n]
    ensures Join(Lines(t)[..n]) <= t
  {
    hide LineEnd, IsBreak;
    if n > 0 {
      var e := LineEnd(t);
      LinesBefore(t[e..], n - 1);
      FirstLines(t, n);
      FirstLineBefore(t, Join(Lines(t[e..])[..n - 1]));
    }
  }

  lemma {:induction false} FirstLines(t: string, n: nat)
    requires 0 < n <= |Lines(t)|
    ensures var e := LineEnd(t);
      && n - 1 <= |Lines(t[e..])|
      && Lines(t)[..n] == [t[..e]] + Lines(t[e..])[..n - 1]
      && Join(Lines(t)[..n]) == t[..e] + Join(Lines(t[e..])[..n - 1])
  {
    hide LineEnd, IsBreak;
    var e := LineEnd(t);
    assert Lines(t)[..n] == [t[..e]] + Lines(t[e..])[..n - 1];
  }

  /** What precedes a line ends with a terminator. */
  lemma {:induction false} EndsBefore(t: string, n: nat)
    requires 0 < n < |Lines(t)|
    ensures EndsLine(Join(Lines(t)[..n]))
  {
    hide LineEnd, IsBreak;
    var e := LineEnd(t);
    FirstLines(t, n);
    if n == 1 {
      assert Lines(t[e..])[..0] == [] && t[..e] + "" == t[..e];
      LineEndOfPrefix(t, e);
    } else {
      EndsBefore(t[e..], n - 1);
    }
  }

  predicate EndsLine(t: string) {
    t != "" && IsBreak(t[|t| - 1])
  }

  lemma {:induction false} FirstLineBefore(t: string, a: string)
    requires t != "" && a <= t[LineEnd(t)..]
    ensures var e := LineEnd(t);
      && Lines(t[..e] + a) == [t[..e]] + Lines(a)
      && t[..e] + a <= t
  {
    var e := LineEnd(t);
    var p := t[..e] + a;
    assert p == t[..|p|];
    LineEndOfPrefix(t, |p|);
    assert p[..e] == t[..e] && p[e..] == a;
  }

  /** Cutting a text between two of its lines. */
  lemma {:induction false} LinesAt(t: string, n: nat)
    requires n <= |Lines(t)|
    ensures var a, b := Join(Lines(t)[..n]), Join(Lines(t)[n..]);
      && a + b == t && Lines(a) == Lines(t)[..n] && Lines(b) == Lines(t)[n..]
      && (0 < n < |Lines(t)| ==> EndsLine(a))
  {
    hide Lines, Join, EndsLine;
    LinesBefore(t, n);
    LinesAfter(t, n);
    if 0 < n < |Lines(t)| {
      EndsBefore(t, n);
    }
    JoinLines(t);
    JoinConcat(Lines(t)[..n], Lines(t)[n..]);
    assert Lines(t)[..n] + Lines(t)[n..] == Lines(t);
  }

  lemma {:induction false} OpensAtFirstLine(t: string)
    requires t != ""
    ensures Opens(Lines(t)[0]) <==> Opens(t)
  {
    var e := LineEnd(t);
    assert Lines(t)[0] == t[..e];
    if Opens(t) {
      assert t[0] == '#' && t[1] == ' ';
      assert |t| > 2 ==> LineEnd(t[1..]) >= 1;
    }
  }

  /** Splitting loses nothing and yields a section list. */
  lemma {:induction false} SplitIsSectioning(t: string, atStart: bool)
    requires atStart || t == "" || Opens(t)
    ensures Glue(Split(t)) == t
    ensures IsSectioning(Split(t), atStart)
    decreases |t|
  {
    hide Split, Opens, IsBlock, EndsLine;
    if t == "" {
      SplitNothing();
    } else {
      var s, rest := FirstSection(t);
      SplitIsSectioning(rest, false);
      SplitOfFirst(rest);
    }
  }

  lemma {:induction false} SplitOfFirst(t: string)
    ensures Split(t) == [] <==> t == ""
  {
  }

  /** Splitting off the first section: it is a block, and what is left begins with a header. */
  lemma {:induction false} FirstSection(t: string) returns (s: Section, rest: string)
    requires t != ""
    ensures Split(t) == [s] + Split(rest) && t == s.text + rest && |rest| < |t|
    ensures IsBlock(s) && (Opens(s.text) <==> Opens(t))
    ensures rest != "" ==> EndsLine(s.text) && Opens(rest)
  {
    hide IsBreak, LineEnd, SectionRegion, Opens;
    var lines := Lines(t);
    var n := BlockLen(lines);
    s, rest := Section(RegionOf(lines[0]), Join(lines[..n])), Join(lines[n..]);
    LinesAt(t, n);
    OpensAtFirstLine(t);
    NonEmptyBlock(t, n);
    OpensAtFirstLine(s.text);
    if rest != "" {
      OpensAtFirstLine(rest);
    }
  }

  lemma {:induction false} NonEmptyBlock(t: string, n: nat)
    requires 0 < n <= |Lines(t)|
    ensures Join(Lines(t)[..n]) != ""
  {
    hide IsBreak, LineEnd;
    FirstLines(t, n);
  }

  /** Putting one more section in front. */
  lemma {:induction false} GlueStep(s: Section, rest: string)
    requires IsBlock(s) && (rest != "" ==> EndsLine(s.text) && Opens(rest))
    ensures Split(s.text + rest) == [s] + Split(rest)
  {
    hide IsBreak, LineEnd, RegionOf, Group, Lines;
    if rest != "" {
      assert rest[0] == '#';
      OpensAtFirstLine(rest);
    } else {
      LinesOfNothing();
    }
    LinesOfConcat(s.text, rest);
    JoinLines(s.text);
    CloseBlock(Lines(s.text), Lines(rest));
  }

  /** Splitting a glued section list gives the list back: a section list is determined by its text. */
  lemma {:induction false} SplitUndoesGlue(ss: seq<Section>, atStart: bool)
    requires IsSectioning(ss, atStart)
    ensures Split(Glue(ss)) == ss
    ensures !atStart && ss != [] ==> Opens(Glue(ss))
  {
    hide IsBreak, Lines, IsBlock, Split;
    if ss == [] {
      SplitNothing();
    } else {
      SplitUndoesGlue(ss[1..], false);
      GlueStep(ss[0], Glue(ss[1..]));
    }
  }

  lemma SplitNothing()
    ensures Split("") == []
  {
  }

  // --------------------------------------------------------------------------------------------------- ablation

  /** The sections of every region but one. */
  function Without(ss: seq<Section>, region: string): seq<Section> {
    if ss == [] then []
    else if ss[0].region == Named(region) then Without(ss[1..], region)
    else [ss[0]] + Without(ss[1..], region)
  }

  /** The sections of one region. */
  function Only(ss: seq<Section>, region: string): seq<Section> {
    if ss == [] then []
    else if ss[0].region == Named(region) then [ss[0]] + Only(ss[1..], region)
    else Only(ss[1..], region)
  }

  predicate Present(ss: seq<Section>, region: string) {
    exists i :: 0 <= i < |ss| && ss[i].region == Named(region)
  }

  /** The slice minus one region's sections; None when the region is absent. */
  function Ablate(t: string, region: string): Option<string> {
    var ss := Split(t);
    if Present(ss, region) then Some(Glue(Without(ss, region))) else None
  }

  lemma {:induction false} WithoutIsSectioning(ss: seq<Section>, region: string, atStart: bool)
    requires IsSectioning(ss, atStart)
    ensures IsSectioning(Without(ss, region), atStart)
    ensures |Without(ss, region)| <= |ss|
  {
    if ss != [] {
      WithoutIsSectioning(ss[1..], region, false);
    }
  }

  /** Splitting what is left gives exactly the other sections, unchanged and in order. */
  lemma {:induction false} AblateResplits(t: string, region: string)
    requires Ablate(t, region).Some?
    ensures Split(Ablate(t, region).value) == Without(Split(t), region)
  {
    SplitIsSectioning(t, true);
    WithoutIsSectioning(Split(t), region, true);
    SplitUndoesGlue(Without(Split(t), region), true);
  }

  lemma {:induction false} WithoutCounts(ss: seq<Section>, region: string)
    ensures |Glue(Without(ss, region))| + |Glue(Only(ss, region))| == |Glue(ss)|
    ensures !Present(Without(ss, region), region)
    ensures Present(ss, region) <==> Only(ss, region) != []
  {
    if ss != [] {
      WithoutCounts(ss[1..], region);
      assert ss[0].region != Named(region) ==> (Present(ss, region) <==> Present(ss[1..], region)) by {
        if Present(ss, region) && ss[0].region != Named(region) {
          var i :| 0 <= i < |ss| && ss[i].region == Named(region);
          assert ss[1..][i - 1].region == Named(region);
        }
      }
    }
  }

  /**
   * Ablation is exact: it fails just when the region is absent, and otherwise removes that region's text and nothing
   * else, so that a second ablation of the region reports absence.
   */
  lemma {:induction false} AblateIsExact(t: string, region: string)
    ensures Ablate(t, region).None? <==> Only(Split(t), region) == []
    ensures Ablate(t, region).Some? ==>
      var u := Ablate(t, region).value;
      |u| + |Glue(Only(Split(t), region))| == |t| && |u| < |t| && Ablate(u, region) == None
  {
    WithoutCounts(Split(t), region);
    if Ablate(t, region).Some? {
      SplitIsSectioning(t, true);
      AblateResplits(t, region);
      OnlyIsText(Split(t), region, true);
    }
  }

  lemma {:induction false} OnlyIsText(ss: seq<Section>, region: string, atStart: bool)
    requires IsSectioning(ss, atStart) && Only(ss, region) != []
    ensures Glue(Only(ss, region)) != ""
  {
    if ss[0].region != Named(region) {
      OnlyIsText(ss[1..], region, false);
    }
  }

  lemma {:induction false} WithoutCommutes(ss: seq<Section>, r: string, q: string)
    ensures Without(Without(ss, r), q) == Without(Without(ss, q), r)
    ensures r != q ==> (Present(Without(ss, r), q) <==> Present(ss, q))
  {
    if ss != [] {
      WithoutCommutes(ss[1..], r, q);
      PresentStep(ss, q);
      if Without(ss, r) != [] {
        PresentStep(Without(ss, r), q);
      }
    }
  }

  lemma {:induction false} PresentStep(ss: seq<Section>, q: string)
    requires ss != []
    ensures Present(ss, q) <==> ss[0].region == Named(q) || Present(ss[1..], q)
  {
    if Present(ss, q) {
      var i :| 0 <= i < |ss| && ss[i].region == Named(q);
      assert i > 0 ==> ss[1..][i - 1].region == Named(q);
    }
    if Present(ss[1..], q) {
      var i :| 0 <= i < |ss[1..]| && ss[1..][i].region == Named(q);
      assert ss[i + 1].region == Named(q);
    }
  }

  /** `ablate(ablate(t, r), q)`, absent when either step reports absence. */
  function AblateBoth(t: string, r: string, q: string): Option<string> {
    match Ablate(t, r)
    case None => None
    case Some(u) => Ablate(u, q)
  }

  /** The order of two ablations does not matter, nor whether either reports absence. */
  lemma {:induction false} AblationsCommute(t: string, r: string, q: string)
    ensures AblateBoth(t, r, q) == AblateBoth(t, q, r)
  {
    if r != q {
      var ss := Split(t);
      WithoutCommutes(ss, r, q);
      WithoutCommutes(ss, q, r);
      if Present(ss, r) {
        AblateResplits(t, r);
      }
      if Present(ss, q) {
        AblateResplits(t, q);
      }
    }
  }

  /** Text before the first header and sections with an unlisted header are never ablated. */
  lemma {:induction false} UnknownStays(ss: seq<Section>, region: string, i: nat)
    requires i < |ss| && ss[i].region == Unknown
    ensures ss[i] in Without(ss, region)
  {
    if i > 0 {
      UnknownStays(ss[1..], region, i - 1);
    }
  }
}
