/** From the compiler's raw output to the published aggregate: heading demotion,
    link rebasing, compaction and validation, put together. */
module Assembly {
  import opened Wrappers
  import opened SourceMap
  import opened Provenance

  /** A source as the two rewriting passes see it: its lines, the one-based
      lines inside fenced code, and the one-based lines of its headings, or
      None when one of them cannot be demoted. */
  datatype SourceText = SourceText(path: string, lines: seq<string>, fenced: set<int>, headings: Option<set<int>>)

  /** `rebase_markdown_line` for one source path; None where it raises. */
  type Rebase = (string, string) -> Option<string>

  predicate Demotable(sources: seq<SourceText>) {
    forall k :: 0 < k < |sources| ==> sources[k].headings.Some?
  }

  /** Line `n` of source `k` as it stands in the assembled document. */
  function Shifted(sources: seq<SourceText>, k: nat, n: int): string
    requires Demotable(sources) && k < |sources| && 1 <= n <= |sources[k].lines|
  {
    var line := sources[k].lines[n - 1];
    if k > 0 && n in sources[k].headings.value then "#" + line else line
  }

  /** What both passes do to a line of text that comes from line `n`. */
  function Rewrite(source: SourceText, n: int, text: string, rebase: Rebase): Option<string> {
    if n in source.fenced then Some(text) else rebase(source.path, text)
  }

  /** No line of any source makes the rewriting pass raise. */
  ghost predicate Rewritable(sources: seq<SourceText>, rebase: Rebase) {
    Demotable(sources) &&
    forall k, n :: 0 <= k < |sources| && 1 <= n <= |sources[k].lines| ==>
                     Rewrite(sources[k], n, Shifted(sources, k, n), rebase).Some?
  }

  predicate DistinctSources(sources: seq<SourceText>) {
    forall i, j :: 0 <= i < j < |sources| ==> sources[i].path != sources[j].path
  }

  // ----- expected_mapped_source_lines -----

  /** The files the validator compares the output with. */
  ghost predicate Expects(sources: seq<SourceText>, files: seq<SourceFile>, rebase: Rebase)
    requires Rewritable(sources, rebase)
  {
    && |files| == |sources|
    && forall k :: 0 <= k < |sources| ==> ExpectsFile(sources, k, files[k].path, files[k].expected, rebase)
  }

  ghost predicate ExpectsFile(sources: seq<SourceText>, k: nat, path: string, expected: seq<string>, rebase: Rebase)
    requires Rewritable(sources, rebase) && k < |sources|
  {
    && path == sources[k].path
    && |expected| == |sources[k].lines|
    && forall n :: 0 <= n < |expected| ==>
                     expected[n] == Rewrite(sources[k], n + 1, Shifted(sources, k, n + 1), rebase).value
  }

  /** The first source's headings stay, later ones are demoted by one level; what
      is inside fences is not rebased, all else is. */
  lemma ExpectedLine(sources: seq<SourceText>, files: seq<SourceFile>, rebase: Rebase, k: nat, n: int)
    requires Rewritable(sources, rebase) && Expects(sources, files, rebase)
    requires k < |sources| && 1 <= n <= |sources[k].lines|
    ensures |files| == |sources| && files[k].path == sources[k].path && |files[k].expected| == |sources[k].lines|
    ensures var line := sources[k].lines[n - 1];
            var demoted := if k > 0 && n in sources[k].headings.value then "#" + line else line;
            Some(files[k].expected[n - 1]) == if n in sources[k].fenced then Some(demoted) else rebase(sources[k].path, demoted)
  {
    assert ExpectsFile(sources, k, files[k].path, files[k].expected, rebase);
    assert files[k].expected[n - 1] == Rewrite(sources[k], n, Shifted(sources, k, n), rebase).value;
  }

  method ExpectedMappedSourceLines(sources: seq<SourceText>, rebase: Rebase) returns (r: Option<seq<SourceFile>>)
    ensures r.Some? <==> Rewritable(sources, rebase)
    ensures r.Some? ==> Expects(sources, r.value, rebase)
  {
    var files: seq<SourceFile> := [];
    var k: nat := 0;
    while k < |sources|
      invariant k <= |sources| && |files| == k
      invariant forall i :: 0 < i < k ==> sources[i].headings.Some?
      invariant forall i :: 0 <= i < k ==> files[i].path == sources[i].path && |files[i].expected| == |sources[i].lines|
      invariant forall i, n :: 0 <= i < k && 0 <= n < |sources[i].lines| ==>
                                 RewriteAt(sources, i, n, rebase) == Some(files[i].expected[n])
    {
      var source := sources[k];
      if k > 0 && source.headings.None? {
        return None;
      }
      var transformed: seq<string> := [];
      for n := 0 to |source.lines|
        invariant |transformed| == n
        invariant forall i :: 0 <= i < n ==> RewriteAt(sources, k, i, rebase) == Some(transformed[i])
      {
        var line := source.lines[n];
        if k > 0 && n + 1 in source.headings.value {
          line := "#" + line;
        }
        if n + 1 !in source.fenced {
          var rebased := rebase(source.path, line);
          if rebased.None? {
            assert RewriteAt(sources, k, n, rebase).None?;
            NotRewritable(sources, k, n, rebase);
            return None;
          }
          line := rebased.value;
        }
        transformed := transformed + [line];
      }
      files := files + [SourceFile(source.path, transformed)];
      k := k + 1;
    }
    AllRewritten(sources, files, rebase);
    r := Some(files);
  }

  /** Rewriting line n + 1 of source k, usable before all sources are known to
      be demotable. */
  function RewriteAt(sources: seq<SourceText>, k: nat, n: nat, rebase: Rebase): Option<string>
    requires k < |sources| && n < |sources[k].lines| && (k > 0 ==> sources[k].headings.Some?)
  {
    var line := sources[k].lines[n];
    Rewrite(sources[k], n + 1, if k > 0 && n + 1 in sources[k].headings.value then "#" + line else line, rebase)
  }

  lemma NotRewritable(sources: seq<SourceText>, k: nat, n: nat, rebase: Rebase)
    requires k < |sources| && n < |sources[k].lines| && (k > 0 ==> sources[k].headings.Some?)
    requires RewriteAt(sources, k, n, rebase).None?
    ensures !Rewritable(sources, rebase)
  {
    if Demotable(sources) {
      assert Rewrite(sources[k], n + 1, Shifted(sources, k, n + 1), rebase).None?;
    }
  }

  lemma AllRewritten(sources: seq<SourceText>, files: seq<SourceFile>, rebase: Rebase)
    requires |files| == |sources| && Demotable(sources)
    requires forall i :: 0 <= i < |sources| ==> files[i].path == sources[i].path && |files[i].expected| == |sources[i].lines|
    requires forall i, n :: 0 <= i < |sources| && 0 <= n < |sources[i].lines| ==>
                              RewriteAt(sources, i, n, rebase) == Some(files[i].expected[n])
    ensures Rewritable(sources, rebase) && Expects(sources, files, rebase)
  {
    forall k, n | 0 <= k < |sources| && 1 <= n <= |sources[k].lines|
      ensures Rewrite(sources[k], n, Shifted(sources, k, n), rebase) == Some(files[k].expected[n - 1])
    {
      assert RewriteAt(sources, k, n - 1, rebase) == Some(files[k].expected[n - 1]);
    }
  }

  // ----- rebase_aggregate_links -----

  function Find(sources: seq<SourceText>, path: string): (k: Option<nat>)
    ensures k.Some? ==> k.value < |sources| && sources[k.value].path == path
    ensures k.None? ==> forall i :: 0 <= i < |sources| ==> sources[i].path != path
  {
    if sources == [] then None
    else if sources[|sources| - 1].path == path then Some(|sources| - 1)
    else Find(sources[..|sources| - 1], path)
  }

  /** What the pass does to one output line; None where it raises. */
  function RebaseLine(sources: seq<SourceText>, mapping: RawMapping, line: string, rebase: Rebase): Option<string> {
    if mapping.kind != Markdown then Some(line)
    else if mapping.source.None? || Find(sources, mapping.source.value.path).None? then None
    else Rewrite(sources[Find(sources, mapping.source.value.path).value], mapping.source.value.startLine, line, rebase)
  }

  method RebaseAggregateLinks(output: seq<string>, raw: seq<RawMapping>, sources: seq<SourceText>, rebase: Rebase)
    returns (r: Option<seq<string>>)
    ensures r.Some? <==> |raw| == |output| && forall i :: 0 <= i < |raw| ==> RebaseLine(sources, raw[i], output[i], rebase).Some?
    ensures r.Some? ==> |r.value| == |output| && forall i :: 0 <= i < |raw| ==>
                                                               Some(r.value[i]) == RebaseLine(sources, raw[i], output[i], rebase)
  {
    if |raw| != |output| {
      return None;
    }
    var lines := output;
    for index := 0 to |raw|
      invariant |lines| == |output|
      invariant forall i :: 0 <= i < index ==> Some(lines[i]) == RebaseLine(sources, raw[i], output[i], rebase)
      invariant forall i :: index <= i < |lines| ==> lines[i] == output[i]
    {
      var mapping := raw[index];
      if mapping.kind == Markdown {
        if mapping.source.None? || Find(sources, mapping.source.value.path).None? {
          return None;
        }
        var source := sources[Find(sources, mapping.source.value.path).value];
        if mapping.source.value.startLine !in source.fenced {
          var rebased := rebase(source.path, lines[index]);
          if rebased.None? {
            return None;
          }
          lines := lines[index := rebased.value];
        }
      }
    }
    r := Some(lines);
  }

  // ----- the raw output -----

  /** The sources as they stand in the assembled document, before rebasing. */
  function AsAssembled(sources: seq<SourceText>): seq<SourceFile>
    requires Demotable(sources)
  {
    seq(|sources|, k requires 0 <= k < |sources| =>
      SourceFile(sources[k].path,
                 seq(|sources[k].lines|, n requires 0 <= n < |sources[k].lines| => Shifted(sources, k, n + 1))))
  }

  /** The compiler did its job: its one-line mappings cover the output in order
      and take the heading-shifted lines of the sources in order. */
  ghost predicate FaithfulOutput(sources: seq<SourceText>, output: seq<string>, raw: seq<RawMapping>) {
    && Demotable(sources) && DistinctSources(sources)
    && AllSupported(raw)
    && Accounts(AsAssembled(sources), output, Entries(raw))
  }

  // ----- entries and positions -----

  lemma {:induction false} KeptAt(entries: seq<Entry>, output: seq<string>, i: nat)
    requires |entries| <= |output| && i < |entries| && entries[i].mark.From?
    ensures var j := |Marks(entries[..i])|;
            j < |Marks(entries)| == |Kept(entries, output)|
            && Marks(entries)[j] == entries[i].mark && Kept(entries, output)[j] == output[i]
    decreases |entries|
  {
    var front := entries[..|entries| - 1];
    MarksKeptLength(entries, output);
    MarksKeptLength(front, output);
    if i < |front| {
      assert front[..i] == entries[..i];
      KeptAt(front, output, i);
    } else {
      assert front == entries[..i];
    }
  }

  lemma {:induction false} EntryOf(entries: seq<Entry>, j: nat) returns (i: nat)
    requires j < |Marks(entries)|
    ensures i < |entries| && entries[i].mark.From? && |Marks(entries[..i])| == j
  {
    var n := |entries| - 1;
    var front := entries[..n];
    if j < |Marks(front)| {
      i := EntryOf(front, j);
      assert front[..i] == entries[..i];
    } else {
      i := n;
    }
  }

  lemma {:induction false} LineOf(files: seq<SourceFile>, j: nat) returns (k: nat, n: int)
    requires j < |Coverage(files)|
    ensures k < |files| && 1 <= n <= |files[k].expected| && Position(files, k, n) == j
  {
    var last := |files| - 1;
    var front := files[..last];
    if j < |Coverage(front)| {
      k, n := LineOf(front, j);
      assert front[..k] == files[..k];
    } else {
      k, n := last, j - |Coverage(front)| + 1;
    }
  }

  /** Output line i comes from line n of source k. */
  ghost predicate ComesFrom(sources: seq<SourceText>, output: seq<string>, raw: seq<RawMapping>, i: nat, k: nat, n: int)
    requires FaithfulOutput(sources, output, raw)
  {
    && i < |output| && k < |sources| && 1 <= n <= |sources[k].lines|
    && raw[i].kind == Markdown && raw[i].source == Some(RawSource(sources[k].path, n, n))
    && output[i] == Shifted(sources, k, n)
    && |Marks(Entries(raw)[..i])| == Position(AsAssembled(sources), k, n)
  }

  lemma EntryComesFrom(sources: seq<SourceText>, output: seq<string>, raw: seq<RawMapping>, i: nat) returns (k: nat, n: int)
    requires FaithfulOutput(sources, output, raw) && i < |raw| && Entries(raw)[i].mark.From?
    ensures ComesFrom(sources, output, raw, i, k, n)
  {
    var files := AsAssembled(sources);
    KeptAt(Entries(raw), output, i);
    var j := |Marks(Entries(raw)[..i])|;
    k, n := LineOf(files, j);
    CoverageAt(files, k, n);
  }

  lemma LineComesFrom(sources: seq<SourceText>, output: seq<string>, raw: seq<RawMapping>, k: nat, n: int) returns (i: nat)
    requires FaithfulOutput(sources, output, raw) && k < |sources| && 1 <= n <= |sources[k].lines|
    ensures ComesFrom(sources, output, raw, i, k, n)
  {
    var files := AsAssembled(sources);
    CoverageAt(files, k, n);
    i := EntryOf(Entries(raw), Position(files, k, n));
    KeptAt(Entries(raw), output, i);
  }

  lemma {:induction false} FindDistinct(sources: seq<SourceText>, k: nat)
    requires DistinctSources(sources) && k < |sources|
    ensures Find(sources, sources[k].path) == Some(k)
  {}

  lemma RebaseLineOf(sources: seq<SourceText>, output: seq<string>, raw: seq<RawMapping>, i: nat, k: nat, n: int, rebase: Rebase)
    requires FaithfulOutput(sources, output, raw) && ComesFrom(sources, output, raw, i, k, n)
    ensures RebaseLine(sources, raw[i], output[i], rebase) == Rewrite(sources[k], n, Shifted(sources, k, n), rebase)
  {
    FindDistinct(sources, k);
  }

  /** The rebasing pass succeeds on a faithful output exactly when the pass that
      derives the expected lines succeeds on the sources. */
  lemma PassesFailTogether(sources: seq<SourceText>, output: seq<string>, raw: seq<RawMapping>, rebase: Rebase)
    requires FaithfulOutput(sources, output, raw)
    ensures (forall i :: 0 <= i < |raw| ==> RebaseLine(sources, raw[i], output[i], rebase).Some?)
       <==> Rewritable(sources, rebase)
  {
    if forall i :: 0 <= i < |raw| ==> RebaseLine(sources, raw[i], output[i], rebase).Some? {
      forall k, n | 0 <= k < |sources| && 1 <= n <= |sources[k].lines|
        ensures Rewrite(sources[k], n, Shifted(sources, k, n), rebase).Some?
      {
        var i := LineComesFrom(sources, output, raw, k, n);
        RebaseLineOf(sources, output, raw, i, k, n, rebase);
      }
    }
    if Rewritable(sources, rebase) {
      forall i | 0 <= i < |raw|
        ensures RebaseLine(sources, raw[i], output[i], rebase).Some?
      {
        if Entries(raw)[i].mark.From? {
          var k, n := EntryComesFrom(sources, output, raw, i);
          RebaseLineOf(sources, output, raw, i, k, n, rebase);
        } else {
          assert Supported(raw[i]).Some?;
        }
      }
    }
  }

  lemma {:induction false} SameCoverage(a: seq<SourceFile>, b: seq<SourceFile>)
    requires |a| == |b|
    requires forall k :: 0 <= k < |a| ==> a[k].path == b[k].path && |a[k].expected| == |b[k].expected|
    ensures Coverage(a) == Coverage(b)
  {
    if a != [] {
      var n := |a| - 1;
      SameCoverage(a[..n], b[..n]);
      assert FileMarks(a[n]) == FileMarks(b[n]);
    }
  }

  /** The premises of the pipeline theorem. */
  ghost predicate Rebased(sources: seq<SourceText>, output: seq<string>, raw: seq<RawMapping>, rebase: Rebase,
                          rebased: seq<string>, files: seq<SourceFile>)
  {
    && FaithfulOutput(sources, output, raw) && Rewritable(sources, rebase)
    && |rebased| == |output|
    && (forall i :: 0 <= i < |raw| ==> Some(rebased[i]) == RebaseLine(sources, raw[i], output[i], rebase))
    && Expects(sources, files, rebase)
  }

  lemma KeptIsExpected(sources: seq<SourceText>, output: seq<string>, raw: seq<RawMapping>, rebase: Rebase,
                       rebased: seq<string>, files: seq<SourceFile>, j: nat)
    requires Rebased(sources, output, raw, rebase, rebased, files) && j < |Marks(Entries(raw))|
    ensures j < |Kept(Entries(raw), rebased)| && j < |Texts(files)|
    ensures Kept(Entries(raw), rebased)[j] == Texts(files)[j]
  {
    var assembled := AsAssembled(sources);
    var i := EntryOf(Entries(raw), j);
    var k, n := EntryComesFrom(sources, output, raw, i);
    KeptAt(Entries(raw), rebased, i);
    RebaseLineOf(sources, output, raw, i, k, n, rebase);
    SameCoverage(files[..k], assembled[..k]);
    assert Position(files, k, n) == Position(assembled, k, n) == j;
    CoverageAt(files, k, n);
    assert ExpectsFile(sources, k, files[k].path, files[k].expected, rebase);
    assert files[k].expected[n - 1] == Rewrite(sources[k], n - 1 + 1, Shifted(sources, k, n - 1 + 1), rebase).value;
  }

  lemma StillNumbered(sources: seq<SourceText>, output: seq<string>, raw: seq<RawMapping>, rebase: Rebase,
                      rebased: seq<string>, files: seq<SourceFile>)
    requires Rebased(sources, output, raw, rebase, rebased, files)
    ensures Numbered(Entries(raw), rebased)
  {
    var entries := Entries(raw);
    forall i | 0 <= i < |entries|
      ensures entries[i].generated == i + 1 && (entries[i].mark.Blank? ==> BlankLine(rebased[i]))
    {
      assert Supported(raw[i]).Some?;
    }
  }

  lemma KeptAreExpected(sources: seq<SourceText>, output: seq<string>, raw: seq<RawMapping>, rebase: Rebase,
                        rebased: seq<string>, files: seq<SourceFile>)
    requires Rebased(sources, output, raw, rebase, rebased, files)
    ensures Marks(Entries(raw)) == Coverage(files)
    ensures Kept(Entries(raw), rebased) == Texts(files)
  {
    var entries := Entries(raw);
    SameCoverage(files, AsAssembled(sources));
    CoverageLength(files);
    MarksKeptLength(entries, rebased);
    forall j | 0 <= j < |Marks(entries)|
      ensures Kept(entries, rebased)[j] == Texts(files)[j]
    {
      KeptIsExpected(sources, output, raw, rebase, rebased, files, j);
    }
  }

  predicate AllHaveLines(sources: seq<SourceText>) {
    forall k :: 0 <= k < |sources| ==> sources[k].lines != []
  }

  /** Rebasing, compacting and validating a faithful output succeeds exactly when
      there is something to map and no source is empty. */
  lemma AssemblyIsProven(sources: seq<SourceText>, output: seq<string>, raw: seq<RawMapping>, rebase: Rebase,
                         rebased: seq<string>, files: seq<SourceFile>)
    requires Rebased(sources, output, raw, rebase, rebased, files)
    ensures Proven(files, rebased, AbsorbAll([], Entries(raw))) <==> raw != [] && AllHaveLines(sources)
  {
    CompactLossless(Entries(raw));
    StillNumbered(sources, output, raw, rebase, rebased, files);
    KeptAreExpected(sources, output, raw, rebase, rebased, files);
    SameEmptiness(sources, files, rebase);
    assert raw != [] <==> Entries(raw) != [];
  }

  lemma SameEmptiness(sources: seq<SourceText>, files: seq<SourceFile>, rebase: Rebase)
    requires Rewritable(sources, rebase) && Expects(sources, files, rebase)
    ensures NoneEmpty(files) <==> AllHaveLines(sources)
  {
    forall k | 0 <= k < |sources|
      ensures files[k].expected == [] <==> sources[k].lines == []
    {
      assert ExpectsFile(sources, k, files[k].path, files[k].expected, rebase);
    }
  }

  /** The validator on a map as the compaction writes it. */
  method Validate(files: seq<SourceFile>, published: seq<string>, ranges: seq<Range>, digest: string) returns (ok: bool)
    requires DistinctPaths(files)
    ensures ok <==> Proven(files, published, ranges)
  {
    var mappings := seq(|ranges|, i requires 0 <= i < |ranges| => Some(ranges[i]));
    assert Ranges(mappings) == ranges;
    ok := ValidateCompactSourceMap(Some(Header(2, 1, digest)), digest, PathsOf(files), files, published, mappings);
  }

  /** The whole pipeline on a faithful raw output: it fails in both rewriting
      passes, or is refused for an empty output or source, or ends with a map
      that the validator accepts. */
  method Assemble(sources: seq<SourceText>, output: seq<string>, raw: seq<RawMapping>, rebase: Rebase,
                  digest: seq<string> -> string)
    returns (accepted: bool, published: seq<string>, map': seq<Range>)
    requires FaithfulOutput(sources, output, raw)
    ensures accepted <==> Rewritable(sources, rebase) && raw != [] && AllHaveLines(sources)
    ensures accepted ==> Canonical(map') && Expand(map') == Entries(raw)
  {
    accepted, published, map' := false, [], [];
    PassesFailTogether(sources, output, raw, rebase);
    var rebased := RebaseAggregateLinks(output, raw, sources, rebase);
    var compact := CompactSourceMap(raw);
    var files := ExpectedMappedSourceLines(sources, rebase);
    if rebased.None? || compact.None? || files.None? {
      return;
    }
    published, map' := rebased.value, compact.value;
    assert Rebased(sources, output, raw, rebase, published, files.value);
    AssemblyIsProven(sources, output, raw, rebase, published, files.value);
    accepted := Validate(files.value, published, map', digest(published));
  }
}
