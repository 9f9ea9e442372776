/** The validator of compact source maps: every output line is either a blank
    separator or the next line of the next source. */
module Provenance {
  import opened Wrappers
  import opened SourceMap

  /** A selected source and its lines after the aggregate's rewrites. */
  datatype SourceFile = SourceFile(path: string, expected: seq<string>)

  /** str.isspace for one character. */
  predicate IsSpace(c: char) {
    var n := c as int;
    || 9 <= n <= 13 || 28 <= n <= 32 || n == 0x85 || n == 0xA0 || n == 0x1680 || 0x2000 <= n <= 0x200A
    || n == 0x2028 || n == 0x2029 || n == 0x202F || n == 0x205F || n == 0x3000
  }

  /** Tab to carriage return, the four separators, space, next line, no-break space
      and the space separators of Unicode. */
  function Whitespace(): set<int> {
    {9, 10, 11, 12, 13, 28, 29, 30, 31, 32, 0x85, 0xA0, 0x1680, 0x2000, 0x2001, 0x2002, 0x2003, 0x2004, 0x2005, 0x2006,
     0x2007, 0x2008, 0x2009, 0x200A, 0x2028, 0x2029, 0x202F, 0x205F, 0x3000}
  }

  /** A line is blank when it has whitespace only. */
  lemma BlankMeans(line: string)
    ensures BlankLine(line) <==> forall c :: c in line ==> c as int in Whitespace()
  {
    forall c: char
      ensures IsSpace(c) <==> c as int in Whitespace()
    {}
    if BlankLine(line) {
      forall c | c in line
        ensures c as int in Whitespace()
      {
        var i :| 0 <= i < |line| && line[i] == c;
        assert IsSpace(line[i]);
      }
    }
    if forall c :: c in line ==> c as int in Whitespace() {
      forall i | 0 <= i < |line|
        ensures IsSpace(line[i])
      {
        assert line[i] in line;
      }
    }
  }

  /** not line.strip() */
  predicate BlankLine(line: string) {
    forall i :: 0 <= i < |line| ==> IsSpace(line[i])
  }

  predicate AllBlank(lines: seq<string>) {
    forall i :: 0 <= i < |lines| ==> BlankLine(lines[i])
  }

  // ----- what a complete map says -----

  function FileMarks(source: SourceFile): (marks: seq<Mark>)
    ensures |marks| == |source.expected|
  {
    seq(|source.expected|, k => From(source.path, k + 1))
  }

  /** Every line of every source, in catalog order. */
  function Coverage(sources: seq<SourceFile>): seq<Mark> {
    if sources == [] then [] else Coverage(sources[..|sources| - 1]) + FileMarks(sources[|sources| - 1])
  }

  /** The rewritten text of every source, in catalog order. */
  function Texts(sources: seq<SourceFile>): seq<string> {
    if sources == [] then [] else Texts(sources[..|sources| - 1]) + sources[|sources| - 1].expected
  }

  /** The marks of the lines that come from a source. */
  function Marks(entries: seq<Entry>): seq<Mark> {
    if entries == [] then [] else
    var last := entries[|entries| - 1].mark;
    Marks(entries[..|entries| - 1]) + if last.Blank? then [] else [last]
  }

  /** The output without its separator lines. */
  function Kept(entries: seq<Entry>, output: seq<string>): seq<string>
    requires |entries| <= |output|
  {
    if entries == [] then [] else
    var n := |entries| - 1;
    Kept(entries[..n], output) + if entries[n].mark.Blank? then [] else [output[n]]
  }

  /** Entry i describes output line i + 1, and separators are blank lines. */
  ghost predicate Numbered(entries: seq<Entry>, output: seq<string>) {
    && |entries| <= |output|
    && forall i :: 0 <= i < |entries| ==>
                     entries[i].generated == i + 1 && (entries[i].mark.Blank? ==> BlankLine(output[i]))
  }

  /** The map accounts for every output line, and uses every source line once:
      without its separators the output is the sources' rewritten text. */
  ghost predicate Accounts(sources: seq<SourceFile>, output: seq<string>, entries: seq<Entry>) {
    && |entries| == |output|
    && Numbered(entries, output)
    && Marks(entries) == Coverage(sources)
    && Kept(entries, output) == Texts(sources)
  }

  predicate NoneEmpty(sources: seq<SourceFile>) {
    forall i :: 0 <= i < |sources| ==> sources[i].expected != []
  }

  predicate DistinctPaths(sources: seq<SourceFile>) {
    forall i, j :: 0 <= i < j < |sources| ==> sources[i].path != sources[j].path
  }

  /** What the validator is for. */
  ghost predicate Proven(sources: seq<SourceFile>, output: seq<string>, ranges: seq<Range>) {
    && ranges != []
    && AllWellFormed(ranges)
    && NoneEmpty(sources)
    && Accounts(sources, output, Expand(ranges))
  }

  // ----- positions in the coverage -----

  lemma {:induction false} CoverageLength(sources: seq<SourceFile>)
    ensures |Coverage(sources)| == |Texts(sources)|
  {
    if sources != [] {
      CoverageLength(sources[..|sources| - 1]);
    }
  }

  /** Line `line` of source `k`, as an index into the coverage. */
  function Position(sources: seq<SourceFile>, k: nat, line: int): int
    requires k <= |sources|
  {
    |Coverage(sources[..k])| + line - 1
  }

  lemma {:induction false} CoverageAt(sources: seq<SourceFile>, k: nat, line: int)
    requires k < |sources| && 1 <= line <= |sources[k].expected|
    ensures 0 <= Position(sources, k, line) < |Coverage(sources)| == |Texts(sources)|
    ensures Coverage(sources)[Position(sources, k, line)] == From(sources[k].path, line)
    ensures Texts(sources)[Position(sources, k, line)] == sources[k].expected[line - 1]
    decreases |sources|
  {
    CoverageLength(sources);
    var front := sources[..|sources| - 1];
    CoverageLength(front);
    if k < |sources| - 1 {
      assert front[..k] == sources[..k];
      CoverageAt(front, k, line);
    } else {
      assert front == sources[..k];
    }
  }

  lemma NextSource(sources: seq<SourceFile>, k: nat)
    requires k < |sources|
    ensures Position(sources, k + 1, 1) == Position(sources, k, |sources[k].expected| + 1)
  {
    assert sources[..k + 1][..k] == sources[..k];
  }

  lemma WholeCoverage(sources: seq<SourceFile>)
    ensures Position(sources, |sources|, 1) == |Coverage(sources)|
  {
    assert sources[..|sources|] == sources;
  }

  /** A cursor: the next line of source `k`, or the end. */
  predicate Cursor(sources: seq<SourceFile>, k: nat, line: int) {
    && k <= |sources|
    && (if k < |sources| then 1 <= line && (line <= |sources[k].expected| || (line == 1 && sources[k].expected == [])) else line == 1)
  }

  /** The validator's test of one Markdown range against the cursor. */
  predicate Fits(sources: seq<SourceFile>, k: nat, line: int, path: string, first: int, last: int) {
    && k < |sources|
    && path == sources[k].path
    && first == line
    && first <= last <= |sources[k].expected|
  }

  /** The marks of `n` lines of a source, from line `first` on. */
  function LineMarks(path: string, first: int, n: nat): (marks: seq<Mark>)
    ensures |marks| == n
  {
    seq(n, t => From(path, first + t))
  }

  /** The coverage from the cursor on starts with the lines of a range. */
  ghost predicate StartsWith(sources: seq<SourceFile>, k: nat, line: int, path: string, first: int, n: nat)
    requires Cursor(sources, k, line)
  {
    var p := Position(sources, k, line);
    p + n <= |Coverage(sources)| && Coverage(sources)[p..p + n] == LineMarks(path, first, n)
  }

  lemma FitsStarts(sources: seq<SourceFile>, k: nat, line: int, path: string, first: int, last: int)
    requires Cursor(sources, k, line) && Fits(sources, k, line, path, first, last)
    ensures |Coverage(sources)| == |Texts(sources)|
    ensures StartsWith(sources, k, line, path, first, last - first + 1)
    ensures var p := Position(sources, k, line);
            Texts(sources)[p..p + (last - first + 1)] == sources[k].expected[first - 1..last]
  {
    CoverageLength(sources);
    LinesOfSource(sources, k, first, last - first + 1);
  }

  lemma LinesOfSource(sources: seq<SourceFile>, k: nat, first: int, n: nat)
    requires k < |sources| && 1 <= first && first - 1 + n <= |sources[k].expected|
    ensures var p := Position(sources, k, first);
            && 0 <= p && p + n <= |Coverage(sources)| == |Texts(sources)|
            && Coverage(sources)[p..p + n] == LineMarks(sources[k].path, first, n)
            && Texts(sources)[p..p + n] == sources[k].expected[first - 1..first - 1 + n]
  {
    CoverageBlock(sources, k);
    CoverageSlice(sources[k], Coverage(sources), Texts(sources), |Coverage(sources[..k])|, first, n);
  }

  /** Some lines of a file, inside a block that holds all of them. */
  lemma CoverageSlice(source: SourceFile, marks: seq<Mark>, texts: seq<string>, c: nat, first: int, n: nat)
    requires var m := |source.expected|;
             1 <= first && first - 1 + n <= m && c + m <= |marks| == |texts|
             && marks[c..c + m] == FileMarks(source) && texts[c..c + m] == source.expected
    ensures var p := c + first - 1;
            marks[p..p + n] == LineMarks(source.path, first, n) && texts[p..p + n] == source.expected[first - 1..first - 1 + n]
  {
    SliceOfSlice(marks, c, |source.expected|, first - 1, n);
    SliceOfSlice(texts, c, |source.expected|, first - 1, n);
    assert FileMarks(source)[first - 1..first - 1 + n] == LineMarks(source.path, first, n);
  }

  lemma SliceOfSlice<T>(s: seq<T>, c: nat, m: nat, i: nat, n: nat)
    requires c + m <= |s| && i + n <= m
    ensures s[c..c + m][i..i + n] == s[c + i..c + i + n]
  {
    var a, b := s[c..c + m][i..i + n], s[c + i..c + i + n];
    assert forall t :: 0 <= t < n ==> a[t] == b[t];
  }

  lemma {:induction false} CoverageBlock(sources: seq<SourceFile>, k: nat)
    requires k < |sources|
    ensures var c, m := |Coverage(sources[..k])|, |sources[k].expected|;
            c + m <= |Coverage(sources)| == |Texts(sources)|
            && Coverage(sources)[c..c + m] == FileMarks(sources[k])
            && Texts(sources)[c..c + m] == sources[k].expected
    decreases |sources|
  {
    var front := sources[..|sources| - 1];
    CoverageLength(sources);
    CoverageLength(front);
    if k < |front| {
      assert front[..k] == sources[..k];
      CoverageBlock(front, k);
    } else {
      assert front == sources[..k];
    }
  }

  /** A range that continues the coverage passes the test, when no source is
      without lines. */
  lemma StartsFits(sources: seq<SourceFile>, k: nat, line: int, path: string, first: int, last: int)
    requires DistinctPaths(sources) && NoneEmpty(sources) && Cursor(sources, k, line)
    requires first <= last && StartsWith(sources, k, line, path, first, last - first + 1)
    ensures Fits(sources, k, line, path, first, last)
  {
    var p, n := Position(sources, k, line), last - first + 1;
    WholeCoverage(sources);
    if k < |sources| {
      CoverageAt(sources, k, line);
      assert Coverage(sources)[p] == Coverage(sources)[p..p + n][0] == LineMarks(path, first, n)[0];
      NextSource(sources, k);
      if k + 1 < |sources| {
        PastTheEnd(sources, k, line, first, n);
      }
    }
  }

  /** The line after a source's last one belongs to another source. */
  lemma PastTheEnd(sources: seq<SourceFile>, k: nat, line: int, first: int, n: nat)
    requires DistinctPaths(sources) && NoneEmpty(sources) && Cursor(sources, k, line)
    requires k + 1 < |sources|
    ensures n > |sources[k].expected| - line + 1 ==> !StartsWith(sources, k, line, sources[k].path, first, n)
  {
    var p, next := Position(sources, k, line), |sources[k].expected| - line + 1;
    NextSource(sources, k);
    CoverageAt(sources, k + 1, 1);
    if n > next && p + n <= |Coverage(sources)| {
      assert Coverage(sources)[p..p + n][next] == Coverage(sources)[p + next] == From(sources[k + 1].path, 1);
      assert LineMarks(sources[k].path, first, n)[next] == From(sources[k].path, first + next);
    }
  }

  // ----- growing prefixes -----

  lemma {:induction false} MarksConcat(a: seq<Entry>, b: seq<Entry>)
    ensures Marks(a + b) == Marks(a) + Marks(b)
  {
    if b == [] {
      assert a + b == a;
    } else {
      assert (a + b)[..|a + b| - 1] == a + b[..|b| - 1];
      MarksConcat(a, b[..|b| - 1]);
    }
  }

  lemma {:induction false} KeptPrefix(a: seq<Entry>, b: seq<Entry>, output: seq<string>)
    requires |a + b| <= |output|
    ensures Kept(a, output) <= Kept(a + b, output)
  {
    if b == [] {
      assert a + b == a;
    } else {
      assert (a + b)[..|a + b| - 1] == a + b[..|b| - 1];
      KeptPrefix(a, b[..|b| - 1], output);
    }
  }

  lemma {:induction false} MarksKeptLength(entries: seq<Entry>, output: seq<string>)
    requires |entries| <= |output|
    ensures |Marks(entries)| == |Kept(entries, output)|
  {
    if entries != [] {
      MarksKeptLength(entries[..|entries| - 1], output);
    }
  }

  lemma {:induction false} BlankEntries(entries: seq<Entry>, more: seq<Entry>, output: seq<string>)
    requires |entries + more| <= |output|
    requires forall i :: 0 <= i < |more| ==> more[i].mark.Blank?
    ensures Marks(entries + more) == Marks(entries)
    ensures Kept(entries + more, output) == Kept(entries, output)
  {
    if more == [] {
      assert entries + more == entries;
    } else {
      assert (entries + more)[..|entries + more| - 1] == entries + more[..|more| - 1];
      BlankEntries(entries, more[..|more| - 1], output);
    }
  }

  function AllMarks(entries: seq<Entry>): (marks: seq<Mark>)
    ensures |marks| == |entries|
  {
    seq(|entries|, i requires 0 <= i < |entries| => entries[i].mark)
  }

  lemma {:induction false} SourceMarks(entries: seq<Entry>, more: seq<Entry>)
    requires forall i :: 0 <= i < |more| ==> more[i].mark.From?
    ensures Marks(entries + more) == Marks(entries) + AllMarks(more)
  {
    if more == [] {
      assert entries + more == entries;
    } else {
      var n := |more| - 1;
      SourceMarks(entries, more[..n]);
      assert (entries + more)[..|entries| + n] == entries + more[..n];
      assert AllMarks(more) == AllMarks(more[..n]) + [more[n].mark];
    }
  }

  lemma {:induction false} SourceLines(entries: seq<Entry>, more: seq<Entry>, output: seq<string>)
    requires |entries + more| <= |output|
    requires forall i :: 0 <= i < |more| ==> more[i].mark.From?
    ensures Kept(entries + more, output) == Kept(entries, output) + output[|entries|..|entries| + |more|]
  {
    if more == [] {
      assert entries + more == entries;
    } else {
      var n := |more| - 1;
      var m := |entries| + n;
      SourceLines(entries, more[..n], output);
      assert (entries + more)[..m] == entries + more[..n];
      assert output[|entries|..m + 1] == output[|entries|..m] + [output[m]];
    }
  }

  lemma {:induction false} ExpandPrefix(ranges: seq<Range>, i: nat)
    requires AllWellFormed(ranges) && i <= |ranges|
    ensures Expand(ranges[..i]) <= Expand(ranges)
    decreases |ranges| - i
  {
    if i < |ranges| {
      assert ranges[..i + 1][..i] == ranges[..i];
      ExpandPrefix(ranges, i + 1);
    } else {
      assert ranges[..i] == ranges;
    }
  }

  // ----- the validator -----

  /** What the loop has established about the ranges it has seen. */
  ghost predicate Progress(sources: seq<SourceFile>, output: seq<string>, entries: seq<Entry>, k: nat, line: int) {
    && Cursor(sources, k, line)
    && Numbered(entries, output)
    && 0 <= Position(sources, k, line) <= |Coverage(sources)| == |Texts(sources)|
    && Marks(entries) == Coverage(sources)[..Position(sources, k, line)]
    && Kept(entries, output) == Texts(sources)[..Position(sources, k, line)]
    && forall i :: 0 <= i < k ==> sources[i].expected != []
  }

  /** One range passes every test of the loop body. */
  ghost predicate Accepted(sources: seq<SourceFile>, output: seq<string>, entries: seq<Entry>, k: nat, line: int, r: Range)
    requires Cursor(sources, k, line)
  {
    && WellFormed(r)
    && r.start == |entries| + 1
    && r.end <= |output|
    && match r.origin
       case Separator => AllBlank(output[r.start - 1..r.end])
       case Lines(path, first, last) =>
         && Fits(sources, k, line, path, first, last)
         && output[r.start - 1..r.end] == sources[k].expected[first - 1..last]
  }

  function NextK(sources: seq<SourceFile>, k: nat, r: Range): nat {
    if r.origin.Lines? && k < |sources| && r.origin.last == |sources[k].expected| then k + 1 else k
  }

  function NextLine(sources: seq<SourceFile>, k: nat, line: int, r: Range): int {
    if r.origin.Separator? then line
    else if k < |sources| && r.origin.last == |sources[k].expected| then 1 else r.origin.last + 1
  }

  lemma AcceptedStep(sources: seq<SourceFile>, output: seq<string>, entries: seq<Entry>, k: nat, line: int, r: Range)
    requires Progress(sources, output, entries, k, line)
    requires Accepted(sources, output, entries, k, line, r)
    ensures Progress(sources, output, entries + ExpandRange(r), NextK(sources, k, r), NextLine(sources, k, line, r))
  {
    NumberedStep(output, entries, r);
    match r.origin
    case Separator =>
      BlankEntries(entries, ExpandRange(r), output);
    case Lines(path, first, last) =>
      CursorStep(sources, k, line, r);
      NextKNonEmpty(sources, k, line, r);
      LinesStep(sources, output, entries, k, line, r);
  }

  lemma LinesStep(sources: seq<SourceFile>, output: seq<string>, entries: seq<Entry>, k: nat, line: int, r: Range)
    requires r.origin.Lines? && Progress(sources, output, entries, k, line)
    requires Accepted(sources, output, entries, k, line, r)
    ensures var more, p := ExpandRange(r), Position(sources, k, line);
            && |entries + more| <= |output| && p + |more| <= |Coverage(sources)| == |Texts(sources)|
            && Marks(entries + more) == Coverage(sources)[..p + |more|]
            && Kept(entries + more, output) == Texts(sources)[..p + |more|]
  {
    LinesMatch(sources, output, k, line, r);
    GrowBoth(entries, ExpandRange(r), output, Coverage(sources), Texts(sources), Position(sources, k, line));
  }

  lemma LinesMatch(sources: seq<SourceFile>, output: seq<string>, k: nat, line: int, r: Range)
    requires r.origin.Lines? && WellFormed(r) && 1 <= r.start && r.end <= |output| && Cursor(sources, k, line)
    requires Fits(sources, k, line, r.origin.path, r.origin.first, r.origin.last)
    requires output[r.start - 1..r.end] == sources[k].expected[r.origin.first - 1..r.origin.last]
    ensures var more, p := ExpandRange(r), Position(sources, k, line);
            && 0 <= p && p + |more| <= |Coverage(sources)| == |Texts(sources)|
            && AllMarks(more) == Coverage(sources)[p..p + |more|]
            && output[r.start - 1..r.start - 1 + |more|] == Texts(sources)[p..p + |more|]
            && forall i :: 0 <= i < |more| ==> more[i].mark.From?
  {
    RangeMarks(r);
    FitsStarts(sources, k, line, r.origin.path, r.origin.first, r.origin.last);
  }

  /** Source lines that continue two lists. */
  lemma GrowBoth(entries: seq<Entry>, more: seq<Entry>, output: seq<string>, marks: seq<Mark>, texts: seq<string>, p: nat)
    requires |entries + more| <= |output| && p + |more| <= |marks| == |texts|
    requires forall i :: 0 <= i < |more| ==> more[i].mark.From?
    requires Marks(entries) == marks[..p] && Kept(entries, output) == texts[..p]
    requires AllMarks(more) == marks[p..p + |more|]
    requires output[|entries|..|entries| + |more|] == texts[p..p + |more|]
    ensures Marks(entries + more) == marks[..p + |more|]
    ensures Kept(entries + more, output) == texts[..p + |more|]
  {
    SourceMarks(entries, more);
    SourceLines(entries, more, output);
    TakeMore(marks, p, |more|);
    TakeMore(texts, p, |more|);
  }

  lemma RangeMarks(r: Range)
    requires WellFormed(r) && r.origin.Lines?
    ensures AllMarks(ExpandRange(r)) == LineMarks(r.origin.path, r.origin.first, |ExpandRange(r)|)
    ensures forall i :: 0 <= i < |ExpandRange(r)| ==> ExpandRange(r)[i].mark.From?
  {}

  lemma TakeMore<T>(s: seq<T>, p: nat, n: nat)
    requires p + n <= |s|
    ensures s[..p] + s[p..p + n] == s[..p + n]
  {}

  lemma NextKNonEmpty(sources: seq<SourceFile>, k: nat, line: int, r: Range)
    requires Cursor(sources, k, line) && r.origin.Lines?
    requires Fits(sources, k, line, r.origin.path, r.origin.first, r.origin.last)
    requires forall i :: 0 <= i < k ==> sources[i].expected != []
    ensures forall i :: 0 <= i < NextK(sources, k, r) ==> sources[i].expected != []
  {}

  lemma NumberedStep(output: seq<string>, entries: seq<Entry>, r: Range)
    requires Numbered(entries, output)
    requires r.start == |entries| + 1 && r.start <= r.end <= |output|
    requires r.origin.Separator? ==> AllBlank(output[r.start - 1..r.end])
    ensures Numbered(entries + ExpandRange(r), output)
  {
    var all := entries + ExpandRange(r);
    forall i | |entries| <= i < |all|
      ensures all[i].generated == i + 1 && (all[i].mark.Blank? ==> BlankLine(output[i]))
    {
      assert output[r.start - 1..r.end][i - |entries|] == output[i];
    }
  }

  lemma CursorStep(sources: seq<SourceFile>, k: nat, line: int, r: Range)
    requires Cursor(sources, k, line) && r.origin.Lines?
    requires Fits(sources, k, line, r.origin.path, r.origin.first, r.origin.last)
    ensures Cursor(sources, NextK(sources, k, r), NextLine(sources, k, line, r))
    ensures Position(sources, NextK(sources, k, r), NextLine(sources, k, line, r))
         == Position(sources, k, line) + (r.origin.last - r.origin.first + 1)
  {
    NextSource(sources, k);
  }

  lemma SplitAt(ranges: seq<Range>, i: nat) returns (rest: seq<Entry>)
    requires AllWellFormed(ranges) && i < |ranges|
    ensures Expand(ranges) == Expand(ranges[..i]) + ExpandRange(ranges[i]) + rest
  {
    assert ranges[..i + 1][..i] == ranges[..i];
    ExpandPrefix(ranges, i + 1);
    rest := Expand(ranges)[|Expand(ranges[..i + 1])|..];
  }

  /** In a proven map every range passes, whatever the loop has seen before. */
  lemma ProvenIsAccepted(sources: seq<SourceFile>, output: seq<string>, ranges: seq<Range>, i: nat, k: nat, line: int)
    requires DistinctPaths(sources) && Proven(sources, output, ranges) && i < |ranges|
    requires Progress(sources, output, Expand(ranges[..i]), k, line)
    ensures Accepted(sources, output, Expand(ranges[..i]), k, line, ranges[i])
  {
    var r, seen := ranges[i], Expand(ranges[..i]);
    var rest := SplitAt(ranges, i);
    assert Expand(ranges)[|seen|] == ExpandRange(r)[0];
    if r.origin.Separator? {
      BlankRange(output, seen, r, rest);
    } else {
      SourceRange(sources, output, seen, k, line, r, rest);
    }
  }

  lemma BlankRange(output: seq<string>, seen: seq<Entry>, r: Range, rest: seq<Entry>)
    requires WellFormed(r) && r.origin.Separator? && r.start == |seen| + 1
    requires Numbered(seen + ExpandRange(r) + rest, output)
    ensures r.end <= |output| && AllBlank(output[r.start - 1..r.end])
  {
    var all := seen + ExpandRange(r) + rest;
    var lines := output[r.start - 1..r.end];
    forall i | 0 <= i < |lines|
      ensures BlankLine(lines[i])
    {
      assert all[|seen| + i] == ExpandRange(r)[i];
    }
  }

  lemma SourceRange(sources: seq<SourceFile>, output: seq<string>, seen: seq<Entry>, k: nat, line: int, r: Range, rest: seq<Entry>)
    requires DistinctPaths(sources) && NoneEmpty(sources)
    requires WellFormed(r) && r.origin.Lines? && r.start == |seen| + 1
    requires Progress(sources, output, seen, k, line)
    requires Accounts(sources, output, seen + ExpandRange(r) + rest)
    ensures Accepted(sources, output, seen, k, line, r)
  {
    var path, first, last := r.origin.path, r.origin.first, r.origin.last;
    RangeStarts(sources, output, seen, k, line, r, rest);
    StartsFits(sources, k, line, path, first, last);
    FitsStarts(sources, k, line, path, first, last);
  }

  lemma RangeStarts(sources: seq<SourceFile>, output: seq<string>, seen: seq<Entry>, k: nat, line: int, r: Range, rest: seq<Entry>)
    requires WellFormed(r) && r.origin.Lines? && r.start == |seen| + 1
    requires Progress(sources, output, seen, k, line)
    requires Accounts(sources, output, seen + ExpandRange(r) + rest)
    ensures r.end <= |output|
    ensures StartsWith(sources, k, line, r.origin.path, r.origin.first, r.origin.last - r.origin.first + 1)
    ensures var p, n := Position(sources, k, line), r.end - r.start + 1;
            p + n <= |Texts(sources)| && Texts(sources)[p..p + n] == output[r.start - 1..r.end]
  {
    RangeFollows(output, seen, r, rest, Coverage(sources), Texts(sources), Position(sources, k, line));
  }

  lemma RangeFollows(output: seq<string>, seen: seq<Entry>, r: Range, rest: seq<Entry>,
                     marks: seq<Mark>, texts: seq<string>, p: nat)
    requires WellFormed(r) && r.origin.Lines? && r.start == |seen| + 1
    requires |seen + ExpandRange(r) + rest| == |output| && p <= |marks| == |texts|
    requires Marks(seen) == marks[..p] && Marks(seen + ExpandRange(r) + rest) == marks
    requires Kept(seen, output) == texts[..p] && Kept(seen + ExpandRange(r) + rest, output) == texts
    ensures r.end <= |output|
    ensures var n := r.end - r.start + 1;
            && p + n <= |marks|
            && marks[p..p + n] == LineMarks(r.origin.path, r.origin.first, n)
            && texts[p..p + n] == output[r.start - 1..r.end]
  {
    var more := ExpandRange(r);
    RangeMarks(r);
    assert |seen| == r.start - 1 && |seen| + |more| == r.end;
    MarksFollow(seen, more, rest, output, marks, p);
    TextsFollow(seen, more, rest, output, texts, p);
  }

  /** What comes after the lines seen so far, when all of it is known. */
  lemma MarksFollow(seen: seq<Entry>, more: seq<Entry>, rest: seq<Entry>, output: seq<string>, marks: seq<Mark>, p: nat)
    requires |seen + more| <= |output| && p <= |marks|
    requires forall i :: 0 <= i < |more| ==> more[i].mark.From?
    requires Marks(seen) == marks[..p] && Marks(seen + more + rest) == marks
    ensures p + |more| <= |marks| && marks[p..p + |more|] == AllMarks(more)
  {
    SourceMarks(seen, more);
    MarksConcat(seen + more, rest);
    Middle(marks[..p], AllMarks(more), Marks(rest), marks);
  }

  lemma TextsFollow(seen: seq<Entry>, more: seq<Entry>, rest: seq<Entry>, output: seq<string>, texts: seq<string>, p: nat)
    requires |seen + more + rest| <= |output| && p <= |texts|
    requires forall i :: 0 <= i < |more| ==> more[i].mark.From?
    requires Kept(seen, output) == texts[..p] && Kept(seen + more + rest, output) == texts
    ensures p + |more| <= |texts| && texts[p..p + |more|] == output[|seen|..|seen| + |more|]
  {
    SourceLines(seen, more, output);
    KeptPrefix(seen + more, rest, output);
    var kept := texts[..p] + output[|seen|..|seen| + |more|];
    assert kept <= texts;
    Middle(texts[..p], output[|seen|..|seen| + |more|], texts[|kept|..], texts);
  }

  lemma Middle<T>(a: seq<T>, b: seq<T>, c: seq<T>, whole: seq<T>)
    requires a + b + c == whole || (a + b <= whole && c == whole[|a + b|..])
    ensures |a| + |b| <= |whole| && whole[|a|..|a| + |b|] == b
  {
    assert whole == a + b + c;
  }

  /** At the end the map is proven exactly when the cursor has passed the last
      source and every output line has an entry. */
  lemma Finished(sources: seq<SourceFile>, output: seq<string>, ranges: seq<Range>, k: nat, line: int)
    requires ranges != [] && AllWellFormed(ranges)
    requires Progress(sources, output, Expand(ranges), k, line)
    ensures Proven(sources, output, ranges) <==> |Expand(ranges)| == |output| && k == |sources|
  {
    WholeCoverage(sources);
    if k < |sources| && sources[k].expected != [] {
      CoverageAt(sources, k, line);
    }
  }

  /** A map's members besides its mappings. */
  datatype Header = Header(schemaVersion: int, lineBase: int, outputSha: string)

  function PathsOf(sources: seq<SourceFile>): set<string> { set s | s in sources :: s.path }

  /** `_validate_compact_source_map`.  The header is None where the content is no
      JSON object of the closed shape; `received` are the paths of the contents
      handed over, `digest` the output's. */
  method ValidateCompactSourceMap(header: Option<Header>, digest: string, received: set<string>,
                                  sources: seq<SourceFile>, output: seq<string>, mappings: seq<Option<Range>>)
    returns (ok: bool)
    requires DistinctPaths(sources)
    ensures ok <==> header == Some(Header(2, 1, digest)) && received == PathsOf(sources)
                    && AllShaped(mappings) && Proven(sources, output, Ranges(mappings))
  {
    if header.None? || header.value.schemaVersion != 2 || header.value.lineBase != 1 || header.value.outputSha != digest {
      return false;
    }
    if mappings == [] || received != PathsOf(sources) {
      return false;
    }
    ok := ValidateMappings(sources, output, mappings);
  }

  /** The loop over the mappings and the checks after it; a mapping whose shape
      or kind is not supported is None. */
  method ValidateMappings(sources: seq<SourceFile>, output: seq<string>, mappings: seq<Option<Range>>)
    returns (ok: bool)
    requires DistinctPaths(sources)
    ensures ok <==> AllShaped(mappings) && Proven(sources, output, Ranges(mappings))
  {
    if mappings == [] {
      return false;
    }
    var nextSourceLine: map<string, int> := map i: nat | i < |sources| :: sources[i].path := 1;
    var sourceIndex: nat := 0;
    var nextGeneratedLine := 1;
    ghost var line := 1;
    CoverageLength(sources);
    for i := 0 to |mappings|
      invariant LoopState(sources, output, mappings, i, nextGeneratedLine, sourceIndex, line, nextSourceLine)
    {
      if mappings[i].None? {
        return false;
      }
      var accepted;
      accepted, nextGeneratedLine, sourceIndex, nextSourceLine, line :=
        TakeRange(sources, output, mappings, i, nextGeneratedLine, sourceIndex, nextSourceLine, line);
      if !accepted {
        return false;
      }
    }
    ok := Complete(sources, output, nextGeneratedLine, sourceIndex, nextSourceLine);
    LoopEnd(sources, output, mappings, nextGeneratedLine, sourceIndex, line, nextSourceLine);
  }

  /** The loop body: check one range and advance the counters. */
  method TakeRange(sources: seq<SourceFile>, output: seq<string>, mappings: seq<Option<Range>>, i: nat,
                   nextGeneratedLine: int, sourceIndex: nat, nextSourceLine: map<string, int>, ghost line: int)
    returns (accepted: bool, generated: int, index: nat, next: map<string, int>, ghost line': int)
    requires DistinctPaths(sources) && i < |mappings| && mappings[i].Some?
    requires LoopState(sources, output, mappings, i, nextGeneratedLine, sourceIndex, line, nextSourceLine)
    ensures accepted ==> LoopState(sources, output, mappings, i + 1, generated, index, line', next)
    ensures AllShaped(mappings) && Proven(sources, output, Ranges(mappings)) ==> accepted
  {
    var r := mappings[i].value;
    generated, index, next, line' := nextGeneratedLine, sourceIndex, nextSourceLine, line;
    RejectionIsRight(sources, output, mappings, i, sourceIndex, line);
    accepted := CheckRange(sources, output, r, nextGeneratedLine, sourceIndex, nextSourceLine,
                           Expand(Ranges(mappings[..i])), line);
    if accepted {
      LoopStep(sources, output, mappings, i, nextGeneratedLine, sourceIndex, line, nextSourceLine);
      line' := NextLine(sources, sourceIndex, line, r);
      generated := r.end + 1;
      index, next := Advance(sources, sourceIndex, nextSourceLine, r);
    }
  }

  /** The checks after the loop. */
  predicate Complete(sources: seq<SourceFile>, output: seq<string>, nextGeneratedLine: int, sourceIndex: nat, next: map<string, int>)
    requires forall i :: 0 <= i < |sources| ==> sources[i].path in next
  {
    && nextGeneratedLine - 1 == |output|
    && sourceIndex == |sources|
    && forall i :: 0 <= i < |sources| ==> next[sources[i].path] == |sources[i].expected| + 1
  }

  lemma LoopEnd(sources: seq<SourceFile>, output: seq<string>, mappings: seq<Option<Range>>,
                nextGeneratedLine: int, k: nat, line: int, next: map<string, int>)
    requires mappings != [] && LoopState(sources, output, mappings, |mappings|, nextGeneratedLine, k, line, next)
    ensures Complete(sources, output, nextGeneratedLine, k, next) <==> AllShaped(mappings) && Proven(sources, output, Ranges(mappings))
  {
    assert mappings[..|mappings|] == mappings;
    Finished(sources, output, Ranges(mappings), k, line);
  }

  /** The invariant of the validator's loop. */
  ghost predicate LoopState(sources: seq<SourceFile>, output: seq<string>, mappings: seq<Option<Range>>, i: int,
                            nextGeneratedLine: int, k: nat, line: int, next: map<string, int>)
  {
    && 0 <= i <= |mappings|
    && AllShaped(mappings[..i]) && AllWellFormed(Ranges(mappings[..i]))
    && Progress(sources, output, Expand(Ranges(mappings[..i])), k, line)
    && nextGeneratedLine == |Expand(Ranges(mappings[..i]))| + 1
    && NextLines(sources, k, line, next)
  }

  lemma LoopStep(sources: seq<SourceFile>, output: seq<string>, mappings: seq<Option<Range>>, i: nat,
                 nextGeneratedLine: int, k: nat, line: int, next: map<string, int>)
    requires DistinctPaths(sources) && i < |mappings| && mappings[i].Some?
    requires LoopState(sources, output, mappings, i, nextGeneratedLine, k, line, next)
    requires Accepted(sources, output, Expand(Ranges(mappings[..i])), k, line, mappings[i].value)
    ensures var r := mappings[i].value;
            LoopState(sources, output, mappings, i + 1, r.end + 1, NextK(sources, k, r), NextLine(sources, k, line, r),
                      if r.origin.Lines? then next[r.origin.path := r.origin.last + 1] else next)
  {
    var r := mappings[i].value;
    AcceptedStep(sources, output, Expand(Ranges(mappings[..i])), k, line, r);
    RangesSnoc(mappings, i);
    NextLinesStep(sources, k, line, next, r);
  }

  /** The checks of the loop body. */
  method CheckRange(sources: seq<SourceFile>, output: seq<string>, r: Range, nextGeneratedLine: int,
                    sourceIndex: nat, nextSourceLine: map<string, int>, ghost seen: seq<Entry>, ghost line: int)
    returns (ok: bool)
    requires Cursor(sources, sourceIndex, line) && NextLines(sources, sourceIndex, line, nextSourceLine)
    requires nextGeneratedLine == |seen| + 1
    ensures ok <==> Accepted(sources, output, seen, sourceIndex, line, r)
  {
    if r.start != nextGeneratedLine || r.end < r.start || r.end > |output| {
      return false;
    }
    match r.origin {
      case Separator =>
        return AllBlank(output[r.start - 1..r.end]);
      case Lines(path, first, last) =>
        if sourceIndex >= |sources| || path != sources[sourceIndex].path || first != nextSourceLine[path]
           || last < first || last > |sources[sourceIndex].expected|
        {
          return false;
        }
        if r.end - r.start != last - first {
          return false;
        }
        ok := SameLines(output[r.start - 1..r.end], sources[sourceIndex].expected[first - 1..last]);
    }
  }

  /** The counters after an accepted range. */
  method Advance(sources: seq<SourceFile>, sourceIndex: nat, nextSourceLine: map<string, int>, r: Range)
    returns (index: nat, next: map<string, int>)
    requires r.origin.Lines? ==> sourceIndex < |sources|
    ensures index == NextK(sources, sourceIndex, r)
    ensures next == if r.origin.Lines? then nextSourceLine[r.origin.path := r.origin.last + 1] else nextSourceLine
  {
    index, next := sourceIndex, nextSourceLine;
    if r.origin.Lines? {
      next := next[r.origin.path := r.origin.last + 1];
      if r.origin.last == |sources[sourceIndex].expected| {
        index := index + 1;
      }
    }
  }

  /** The comparison of a range's lines, one by one. */
  method SameLines(actual: seq<string>, expected: seq<string>) returns (same: bool)
    requires |actual| == |expected|
    ensures same <==> actual == expected
  {
    for offset := 0 to |actual|
      invariant actual[..offset] == expected[..offset]
    {
      if actual[offset] != expected[offset] {
        return false;
      }
    }
    return true;
  }

  /** The per-source counters agree with the cursor. */
  ghost predicate NextLines(sources: seq<SourceFile>, k: nat, line: int, next: map<string, int>) {
    && (forall i :: 0 <= i < |sources| ==> sources[i].path in next)
    && forall i :: 0 <= i < |sources| ==>
                     next[sources[i].path] == if i < k then |sources[i].expected| + 1 else if i == k then line else 1
  }

  lemma NextLinesStep(sources: seq<SourceFile>, k: nat, line: int, next: map<string, int>, r: Range)
    requires DistinctPaths(sources) && NextLines(sources, k, line, next)
    requires r.origin.Lines? ==> Fits(sources, k, line, r.origin.path, r.origin.first, r.origin.last)
    ensures NextLines(sources, NextK(sources, k, r), NextLine(sources, k, line, r),
                      if r.origin.Lines? then next[r.origin.path := r.origin.last + 1] else next)
  {}

  predicate AllShaped(mappings: seq<Option<Range>>) {
    forall i :: 0 <= i < |mappings| ==> mappings[i].Some?
  }

  function Ranges(mappings: seq<Option<Range>>): seq<Range>
    requires AllShaped(mappings)
  {
    seq(|mappings|, i requires 0 <= i < |mappings| => mappings[i].value)
  }

  lemma RangesSnoc(mappings: seq<Option<Range>>, i: nat)
    requires i < |mappings| && AllShaped(mappings[..i]) && mappings[i].Some?
    requires AllWellFormed(Ranges(mappings[..i])) && WellFormed(mappings[i].value)
    ensures AllShaped(mappings[..i + 1]) && AllWellFormed(Ranges(mappings[..i + 1]))
    ensures Expand(Ranges(mappings[..i + 1])) == Expand(Ranges(mappings[..i])) + ExpandRange(mappings[i].value)
  {
    assert Ranges(mappings[..i + 1])[..i] == Ranges(mappings[..i]);
  }

  lemma RejectionIsRight(sources: seq<SourceFile>, output: seq<string>, mappings: seq<Option<Range>>, i: nat, k: nat, line: int)
    requires DistinctPaths(sources) && i < |mappings| && AllShaped(mappings[..i]) && mappings[i].Some?
    requires AllWellFormed(Ranges(mappings[..i]))
    requires Progress(sources, output, Expand(Ranges(mappings[..i])), k, line)
    ensures AllShaped(mappings) && Proven(sources, output, Ranges(mappings)) ==>
              Accepted(sources, output, Expand(Ranges(mappings[..i])), k, line, mappings[i].value)
  {
    if AllShaped(mappings) && Proven(sources, output, Ranges(mappings)) {
      assert Ranges(mappings)[..i] == Ranges(mappings[..i]);
      ProvenIsAccepted(sources, output, Ranges(mappings), i, k, line);
    }
  }
}
