/** Source maps of the assembled document: one entry per output line, and the
    compact form in which neighbouring entries share a range. */
module SourceMap {
  import opened Wrappers

  /** Where one output line comes from. */
  datatype Mark = Blank | From(path: string, line: int)

  datatype Entry = Entry(generated: int, mark: Mark)

  // ----- the compiler's raw map -----

  datatype Kind = Markdown | GeneratedSeparator | OtherKind

  datatype RawSource = RawSource(path: string, startLine: int, endLine: int)

  datatype RawMapping = RawMapping(generatedLine: int, kind: Kind, source: Option<RawSource>)

  /** The two shapes of mapping that compaction supports. */
  function Supported(m: RawMapping): Option<Entry> {
    if m.kind == GeneratedSeparator && m.source.None? then Some(Entry(m.generatedLine, Blank))
    else if m.kind != Markdown || m.source.None? || m.source.value.startLine != m.source.value.endLine then None
    else Some(Entry(m.generatedLine, From(m.source.value.path, m.source.value.startLine)))
  }

  predicate AllSupported(raw: seq<RawMapping>) {
    forall i :: 0 <= i < |raw| ==> Supported(raw[i]).Some?
  }

  function Entries(raw: seq<RawMapping>): seq<Entry>
    requires AllSupported(raw)
  {
    seq(|raw|, i requires 0 <= i < |raw| => Supported(raw[i]).value)
  }

  // ----- ranges -----

  datatype Origin = Separator | Lines(path: string, first: int, last: int)

  datatype Range = Range(start: int, end: int, origin: Origin)

  function MarkAt(origin: Origin, k: int): Mark {
    match origin
    case Separator => Blank
    case Lines(path, first, _) => From(path, first + k)
  }

  predicate WellFormed(r: Range) {
    r.start <= r.end && (r.origin.Lines? ==> r.origin.last - r.origin.first == r.end - r.start)
  }

  predicate AllWellFormed(ranges: seq<Range>) {
    forall i :: 0 <= i < |ranges| ==> WellFormed(ranges[i])
  }

  function ExpandRange(r: Range): (entries: seq<Entry>)
    requires r.start <= r.end
    ensures |entries| == r.end - r.start + 1
  {
    seq(r.end - r.start + 1, k requires 0 <= k < r.end - r.start + 1 => Entry(r.start + k, MarkAt(r.origin, k)))
  }

  /** What the ranges say line by line. */
  function Expand(ranges: seq<Range>): seq<Entry>
    requires AllWellFormed(ranges)
  {
    if ranges == [] then [] else
    Expand(ranges[..|ranges| - 1]) + ExpandRange(ranges[|ranges| - 1])
  }

  // ----- compaction -----

  function Single(e: Entry): Range {
    Range(e.generated, e.generated,
          match e.mark case Blank => Separator case From(path, line) => Lines(path, line, line))
  }

  /** `b` continues `a` without a gap on either side. */
  predicate Continues(a: Range, b: Range) {
    a.end + 1 == b.start &&
    match (a.origin, b.origin)
    case (Separator, Separator) => true
    case (Lines(p, _, last), Lines(q, first, _)) => p == q && last + 1 == first
    case _ => false
  }

  /** The last range with one more line. */
  function Grow(r: Range): Range {
    r.(end := r.end + 1,
    origin := match r.origin case Separator => Separator case Lines(p, first, last) => Lines(p, first, last + 1))
  }

  /** One pass of the compaction loop: extend the last range or start one. */
  function Absorb(ranges: seq<Range>, e: Entry): seq<Range> {
    if ranges != [] && Continues(ranges[|ranges| - 1], Single(e))
    then ranges[..|ranges| - 1] + [Grow(ranges[|ranges| - 1])]
    else ranges + [Single(e)]
  }

  function AbsorbAll(ranges: seq<Range>, entries: seq<Entry>): seq<Range> {
    if entries == [] then ranges
    else Absorb(AbsorbAll(ranges, entries[..|entries| - 1]), entries[|entries| - 1])
  }

  /** Well-formed ranges of which no two neighbours could be one. */
  predicate Canonical(ranges: seq<Range>) {
    && AllWellFormed(ranges)
    && forall i :: 0 < i < |ranges| ==> !Continues(ranges[i - 1], ranges[i])
  }

  lemma AbsorbLossless(ranges: seq<Range>, e: Entry)
    requires Canonical(ranges)
    ensures Canonical(Absorb(ranges, e))
    ensures Expand(Absorb(ranges, e)) == Expand(ranges) + [e]
  {
    var more := Absorb(ranges, e);
    var n := |ranges| - 1;
    if ranges != [] && Continues(ranges[n], Single(e)) {
      assert more[..n] == ranges[..n];
      assert ExpandRange(Grow(ranges[n])) == ExpandRange(ranges[n]) + [e];
    } else {
      assert more[..|ranges|] == ranges;
      assert ExpandRange(Single(e)) == [e];
    }
  }

  /** Compaction keeps every entry and merges everything that can be merged. */
  lemma {:induction false} CompactLossless(entries: seq<Entry>)
    ensures Means(AbsorbAll([], entries), entries)
  {
    if entries != [] {
      var front, last := entries[..|entries| - 1], entries[|entries| - 1];
      assert entries == front + [last];
      CompactLossless(front);
      AbsorbAllSnoc([], front, last);
      AbsorbMeans(AbsorbAll([], front), front, last);
    }
  }

  /** These ranges are the canonical form of these entries. */
  predicate Means(ranges: seq<Range>, entries: seq<Entry>) { Canonical(ranges) && Expand(ranges) == entries }

  lemma AbsorbMeans(ranges: seq<Range>, entries: seq<Entry>, e: Entry)
    requires Means(ranges, entries)
    ensures Means(Absorb(ranges, e), entries + [e])
  {
    AbsorbLossless(ranges, e);
  }

  lemma {:induction false} AbsorbAllConcat(ranges: seq<Range>, a: seq<Entry>, b: seq<Entry>)
    ensures AbsorbAll(ranges, a + b) == AbsorbAll(AbsorbAll(ranges, a), b)
  {
    if b == [] {
      assert a + b == a;
    } else {
      assert (a + b)[..|a + b| - 1] == a + b[..|b| - 1];
      AbsorbAllConcat(ranges, a, b[..|b| - 1]);
    }
  }

  lemma AbsorbAllSnoc(ranges: seq<Range>, entries: seq<Entry>, e: Entry)
    ensures AbsorbAll(ranges, entries + [e]) == Absorb(AbsorbAll(ranges, entries), e)
  {
    assert (entries + [e])[..|entries|] == entries;
  }

  lemma AbsorbContinuation(ranges: seq<Range>, last: Range, e: Entry)
    requires Continues(last, Single(e))
    ensures Absorb(ranges + [last], e) == ranges + [Grow(last)]
  {
    assert (ranges + [last])[..|ranges|] == ranges;
  }

  function Shrink(r: Range): Range {
    r.(end := r.end - 1,
    origin := match r.origin case Separator => Separator case Lines(p, first, last) => Lines(p, first, last - 1))
  }

  lemma ShrinkProperties(r: Range)
    requires WellFormed(r) && r.start < r.end
    ensures WellFormed(Shrink(r)) && Grow(Shrink(r)) == r
    ensures var last := Entry(r.end, MarkAt(r.origin, r.end - r.start));
            ExpandRange(r) == ExpandRange(Shrink(r)) + [last] && Continues(Shrink(r), Single(last))
  {}

  /** The lines of a range that does not continue its predecessor give back
      exactly that range. */
  lemma {:induction false} AbsorbRange(ranges: seq<Range>, r: Range)
    requires WellFormed(r)
    requires ranges != [] ==> !Continues(ranges[|ranges| - 1], r)
    ensures AbsorbAll(ranges, ExpandRange(r)) == ranges + [r]
    decreases r.end - r.start
  {
    var last := Entry(r.end, MarkAt(r.origin, r.end - r.start));
    if r.start == r.end {
      assert ExpandRange(r) == [] + [last] && Single(last) == r;
      AbsorbAllSnoc(ranges, [], last);
    } else {
      ShrinkProperties(r);
      AbsorbRange(ranges, Shrink(r));
      AbsorbAllSnoc(ranges, ExpandRange(Shrink(r)), last);
      AbsorbContinuation(ranges, Shrink(r), last);
    }
  }

  /** Expanding a canonical map and compacting it again changes nothing, so the
      compact form of a raw map is unique. */
  lemma {:induction false} CanonicalIsCompact(ranges: seq<Range>)
    requires Canonical(ranges)
    ensures AbsorbAll([], Expand(ranges)) == ranges
  {
    if ranges != [] {
      var front, last := ranges[..|ranges| - 1], ranges[|ranges| - 1];
      assert ranges == front + [last];
      CanonicalFront(front, last);
      CanonicalIsCompact(front);
      CompactOneMore(front, last);
    }
  }

  lemma CanonicalFront(front: seq<Range>, last: Range)
    requires Canonical(front + [last])
    ensures Canonical(front) && WellFormed(last)
    ensures front != [] ==> !Continues(front[|front| - 1], last)
    ensures Expand(front + [last]) == Expand(front) + ExpandRange(last)
  {
    var ranges := front + [last];
    assert ranges[..|front|] == front && ranges[|front|] == last;
    assert forall i :: 0 <= i < |front| ==> ranges[i] == front[i];
  }

  lemma CompactOneMore(front: seq<Range>, last: Range)
    requires Canonical(front + [last]) && Canonical(front) && AbsorbAll([], Expand(front)) == front
    ensures AbsorbAll([], Expand(front + [last])) == front + [last]
  {
    CanonicalFront(front, last);
    AbsorbAllConcat([], Expand(front), ExpandRange(last));
    AbsorbRange(front, last);
  }

  /** `_compact_source_map`: None where an unsupported mapping is reported. */
  method CompactSourceMap(raw: seq<RawMapping>) returns (r: Option<seq<Range>>)
    ensures r.Some? <==> AllSupported(raw)
    ensures r.Some? ==> r.value == AbsorbAll([], Entries(raw))
    ensures r.Some? ==> Canonical(r.value) && Expand(r.value) == Entries(raw)
  {
    var ranges: seq<Range> := [];
    for i := 0 to |raw|
      invariant AllSupported(raw[..i])
      invariant ranges == AbsorbAll([], Entries(raw[..i]))
    {
      var mapping := raw[i];
      if Supported(mapping).None? {
        return None;
      }
      AbsorbNext(raw, i);
      ranges := AbsorbMapping(ranges, mapping);
    }
    assert raw[..|raw|] == raw;
    CompactLossless(Entries(raw));
    r := Some(ranges);
  }

  lemma AbsorbNext(raw: seq<RawMapping>, i: nat)
    requires i < |raw| && AllSupported(raw[..i]) && Supported(raw[i]).Some?
    ensures AllSupported(raw[..i + 1])
    ensures AbsorbAll([], Entries(raw[..i + 1])) == Absorb(AbsorbAll([], Entries(raw[..i])), Supported(raw[i]).value)
  {
    EntriesSnoc(raw, i);
    AbsorbAllSnoc([], Entries(raw[..i]), Supported(raw[i]).value);
  }

  lemma EntriesSnoc(raw: seq<RawMapping>, i: nat)
    requires i < |raw| && AllSupported(raw[..i]) && Supported(raw[i]).Some?
    ensures AllSupported(raw[..i + 1]) && Entries(raw[..i + 1]) == Entries(raw[..i]) + [Supported(raw[i]).value]
  {
    assert raw[..i + 1][..i] == raw[..i];
  }

  /** The body of the loop, which updates the last range in place. */
  method AbsorbMapping(ranges: seq<Range>, mapping: RawMapping) returns (ranges': seq<Range>)
    requires Supported(mapping).Some?
    ensures ranges' == Absorb(ranges, Supported(mapping).value)
  {
    ranges' := ranges;
    var n, line := |ranges| - 1, mapping.generatedLine;
    if mapping.kind == GeneratedSeparator {
      if ranges != [] && ranges[n].origin.Separator? && ranges[n].end + 1 == line {
        ranges' := ranges[n := ranges[n].(end := line)];
      } else {
        ranges' := ranges + [Range(line, line, Separator)];
      }
    } else {
      var source := mapping.source.value;
      if ranges != [] && ranges[n].origin.Lines? && ranges[n].end + 1 == line
         && ranges[n].origin.path == source.path && ranges[n].origin.last + 1 == source.startLine
      {
        ranges' := ranges[n := Range(ranges[n].start, line, Lines(source.path, ranges[n].origin.first, source.endLine))];
      } else {
        ranges' := ranges + [Range(line, line, Lines(source.path, source.startLine, source.endLine))];
      }
    }
  }
}
