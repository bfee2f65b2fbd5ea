/**
The readers in front of the log: one takes row lines out of a module's stderr,
one the progress blocks out of ffmpeg's. What they make of a stream does not
depend on how it was cut into chunks.
*/
module StderrReaders {
  import opened Wrappers
  import opened Draining

  type Line = seq<Byte>

  // Rows

  /** A row line's prefix, and what its text parses to: None unless a row. */
  datatype RowReader<Row> = RowReader(prefix: Line, parse: Line -> Option<Row>)
  {
    function RowOf(line: Line): Option<Row>
    {
      if prefix <= line then parse(line[|prefix|..]) else None
    }
  }

  /** The lines that are no row's, with their newlines. */
  function LogLines<Row>(reader: RowReader<Row>, lines: seq<Line>): seq<Byte>
  {
    if lines == [] then []
    else
      var last := lines[|lines| - 1];
      LogLines(reader, lines[..|lines| - 1]) + (if reader.RowOf(last).Some? then [] else last + [NEWLINE])
  }

  function RowLines<Row>(reader: RowReader<Row>, lines: seq<Line>): seq<Row>
  {
    if lines == [] then []
    else
      var row := reader.RowOf(lines[|lines| - 1]);
      RowLines(reader, lines[..|lines| - 1]) + (if row.Some? then [row.value] else [])
  }

  /** The stream with its row lines taken out, a last line without its newline
      a line all the same. */
  function LogOf<Row>(reader: RowReader<Row>, s: seq<Byte>): seq<Byte>
  {
    LogLines(reader, Lines(s).lines) + (if reader.RowOf(Lines(s).rest).Some? then [] else Lines(s).rest)
  }

  function RowsOf<Row>(reader: RowReader<Row>, s: seq<Byte>): seq<Row>
  {
    RowLines(reader, Lines(s).lines)
    + (if Lines(s).rest != [] && reader.RowOf(Lines(s).rest).Some? then [reader.RowOf(Lines(s).rest).value] else [])
  }

  lemma {:induction false} LogLinesOn<Row>(reader: RowReader<Row>, lines: seq<Line>, more: seq<Line>)
    ensures LogLines(reader, lines + more) == LogLines(reader, lines) + LogLines(reader, more)
    ensures RowLines(reader, lines + more) == RowLines(reader, lines) + RowLines(reader, more)
    decreases |more|
  {
    if more == [] {
      assert lines + [] == lines;
    } else {
      var last := |more| - 1;
      LogLinesOn(reader, lines, more[..last]);
      assert (lines + more)[..|lines + more| - 1] == lines + more[..last];
    }
  }

  /** Each chunk's whole lines as they come, and what it leaves over kept for
      the next: a stream cut anywhere gives the same log and the same rows. */
  method DrainRows<Row>(reader: RowReader<Row>, chunks: seq<seq<Byte>>) returns (log: seq<Byte>, rows: seq<Row>)
    requires reader.prefix != []
    ensures log == LogOf(reader, Flat(chunks)) && rows == RowsOf(reader, Flat(chunks))
  {
    log, rows := [], [];
    var rest: seq<Byte> := [];
    for k := 0 to |chunks|
      invariant rest == Lines(Flat(chunks[..k])).rest
      invariant log == LogLines(reader, Lines(Flat(chunks[..k])).lines)
      invariant rows == RowLines(reader, Lines(Flat(chunks[..k])).lines)
    {
      hide *;
      var split := Lines(rest + chunks[k]);
      assert chunks[..k + 1] == chunks[..k] + [chunks[k]];
      FlatMore(chunks[..k], chunks[k]);
      LinesOn(Flat(chunks[..k]), chunks[k]);
      LogLinesOn(reader, Lines(Flat(chunks[..k])).lines, split.lines);
      var more, moreRows := RowsOrLog(reader, split.lines);
      log, rows := log + more, rows + moreRows;
      rest := split.rest;
    }
    assert chunks[..|chunks|] == chunks;
    if rest != [] {
      var row := reader.RowOf(rest);
      if row.Some? {
        rows := rows + [row.value];
      } else {
        log := log + rest;
      }
    }
  }

  method RowsOrLog<Row>(reader: RowReader<Row>, lines: seq<Line>) returns (log: seq<Byte>, rows: seq<Row>)
    ensures log == LogLines(reader, lines) && rows == RowLines(reader, lines)
  {
    log, rows := [], [];
    for k := 0 to |lines|
      invariant log == LogLines(reader, lines[..k]) && rows == RowLines(reader, lines[..k])
    {
      assert lines[..k + 1][..k] == lines[..k];
      var row := reader.RowOf(lines[k]);
      if row.Some? {
        rows := rows + [row.value];
      } else {
        log := log + (lines[k] + [NEWLINE]);
      }
    }
    assert lines[..|lines|] == lines;
  }

  /** A stream with no row line is logged as it is. */
  lemma {:induction false} NoRowsAllLogged<Row>(reader: RowReader<Row>, lines: seq<Line>)
    requires forall i :: 0 <= i < |lines| ==> reader.RowOf(lines[i]).None?
    ensures LogLines(reader, lines) == Ended(lines) && RowLines(reader, lines) == []
  {
    if lines != [] {
      NoRowsAllLogged(reader, lines[..|lines| - 1]);
    }
  }

  lemma LoggedWhole<Row>(reader: RowReader<Row>, s: seq<Byte>)
    requires forall i :: 0 <= i < |Lines(s).lines| ==> reader.RowOf(Lines(s).lines[i]).None?
    requires reader.RowOf(Lines(s).rest).None?
    ensures LogOf(reader, s) == s && RowsOf(reader, s) == []
  {
    NoRowsAllLogged(reader, Lines(s).lines);
    LinesRebuild(s);
  }

  // Progress

  /** A block as it stood when it was reported, and whether as the last. */
  datatype Report = Report(block: map<string, string>, done: bool)

  /** What the reader has made of its lines so far. */
  datatype Read = Read(block: map<string, string>, ended: bool, reports: seq<Report>, log: seq<Byte>)

  const NothingRead := Read(map[], false, [], [])

  /** A progress line's key and value; None of any other line. */
  type Progress = Line -> Option<(string, string)>

  function End(r: Read): Read
  {
    if r.ended then r else r.(ended := true, reports := r.reports + [Report(r.block, true)])
  }

  function OnLine(progress: Progress, r: Read, line: Line): Read
  {
    var found := progress(line);
    if found.None? then r.(log := r.log + line + [NEWLINE])
    else if found.value.0 != "progress" then r.(block := r.block[found.value.0 := found.value.1])
    else if found.value.1 == "end" then End(r).(block := map[])
    else r.(reports := r.reports + [Report(r.block, false)], block := map[])
  }

  function OnLines(progress: Progress, r: Read, lines: seq<Line>): Read
  {
    if lines == [] then r else OnLine(progress, OnLines(progress, r, lines[..|lines| - 1]), lines[|lines| - 1])
  }

  lemma {:induction false} OnMoreLines(progress: Progress, r: Read, lines: seq<Line>, more: seq<Line>)
    ensures OnLines(progress, r, lines + more) == OnLines(progress, OnLines(progress, r, lines), more)
    decreases |more|
  {
    if more == [] {
      assert lines + [] == lines;
    } else {
      var last := |more| - 1;
      OnMoreLines(progress, r, lines, more[..last]);
      assert (lines + more)[..|lines + more| - 1] == lines + more[..last];
    }
  }

  /** What a whole stream is read as, its last line and its end included. */
  function ReadWhole(progress: Progress, s: seq<Byte>): Read
  {
    var r := OnLines(progress, NothingRead, Lines(s).lines);
    End(if Lines(s).rest == [] then r else OnLine(progress, r, Lines(s).rest))
  }

  class WorkReader {
    const progress: Progress
    var rest: seq<Byte>
    var block: map<string, string>
    var ended: bool
    var reports: seq<Report>
    var log: seq<Byte>
    ghost var fed: seq<Byte>

    function State(): Read
      reads this
    {
      Read(block, ended, reports, log)
    }

    ghost predicate Valid()
      reads this
    {
      rest == Lines(fed).rest && State() == OnLines(progress, NothingRead, Lines(fed).lines)
    }

    constructor (progress: Progress)
      ensures Valid() && fed == [] && this.progress == progress
    {
      this.progress := progress;
      rest, block, ended, reports, log, fed := [], map[], false, [], [], [];
    }

    /** What has arrived taken, and every block it completes reported. */
    method Feed(chunk: seq<Byte>)
      requires Valid()
      modifies this
      ensures Valid() && fed == old(fed) + chunk
    {
      var split := Lines(rest + chunk);
      LinesOn(fed, chunk);
      OnMoreLines(progress, NothingRead, Lines(fed).lines, split.lines);
      ghost var was := State();
      hide Lines, OnLines, OnLine;
      TakeLines(split.lines);
      rest := split.rest;
      fed := fed + chunk;
    }

    method TakeLines(lines: seq<Line>)
      modifies this
      ensures State() == OnLines(progress, old(State()), lines)
      ensures rest == old(rest) && fed == old(fed)
    {
      for k := 0 to |lines|
        invariant State() == OnLines(progress, old(State()), lines[..k]) && rest == old(rest) && fed == old(fed)
      {
        assert lines[..k + 1][..k] == lines[..k];
        TakeLine(lines[k]);
      }
      assert lines[..|lines|] == lines;
    }

    method TakeLine(line: Line)
      modifies this
      ensures State() == OnLine(progress, old(State()), line)
      ensures rest == old(rest) && fed == old(fed)
    {
      var found := progress(line);
      if found.None? {
        log := log + line + [NEWLINE];
        return;
      }
      if found.value.0 != "progress" {
        block := block[found.value.0 := found.value.1];
        return;
      }
      if found.value.1 == "end" {
        EndLine();
      } else {
        reports := reports + [Report(block, false)];
      }
      block := map[];
    }

    method EndLine()
      modifies this
      ensures State() == End(old(State()))
      ensures rest == old(rest) && fed == old(fed)
    {
      if ended {
        return;
      }
      ended := true;
      reports := reports + [Report(block, true)];
    }

    /** What the last chunk left over taken, and the run's line ended. */
    method Finish()
      requires Valid()
      modifies this
      ensures State() == ReadWhole(progress, old(fed))
    {
      if rest != [] {
        TakeLine(rest);
        rest := [];
      }
      EndLine();
    }
  }

  /** However a stream is cut into chunks, it is read as the whole is. */
  method DrainWork(progress: Progress, chunks: seq<seq<Byte>>) returns (read: Read)
    ensures read == ReadWhole(progress, Flat(chunks))
  {
    var reader := new WorkReader(progress);
    for k := 0 to |chunks|
      invariant reader.Valid() && reader.progress == progress && reader.fed == Flat(chunks[..k])
      invariant fresh(reader)
    {
      assert chunks[..k + 1] == chunks[..k] + [chunks[k]];
      FlatMore(chunks[..k], chunks[k]);
      reader.Feed(chunks[k]);
    }
    assert chunks[..|chunks|] == chunks;
    reader.Finish();
    read := reader.State();
  }

  function DoneCount(reports: seq<Report>): nat
  {
    if reports == [] then 0
    else DoneCount(reports[..|reports| - 1]) + (if reports[|reports| - 1].done then 1 else 0)
  }

  lemma DoneMore(reports: seq<Report>, more: Report)
    ensures DoneCount(reports + [more]) == DoneCount(reports) + (if more.done then 1 else 0)
  {
    assert (reports + [more])[..|reports|] == reports;
  }

  predicate DoneAtEnd(r: Read)
  {
    DoneCount(r.reports) == if r.ended then 1 else 0
  }

  lemma LineKeepsDone(progress: Progress, r: Read, line: Line)
    requires DoneAtEnd(r)
    ensures DoneAtEnd(OnLine(progress, r, line)) && DoneAtEnd(End(r)) && End(r).ended
  {
    DoneMore(r.reports, Report(r.block, true));
    DoneMore(r.reports, Report(r.block, false));
  }

  lemma {:induction false} LinesKeepDone(progress: Progress, lines: seq<Line>)
    ensures DoneAtEnd(OnLines(progress, NothingRead, lines))
  {
    if lines != [] {
      LinesKeepDone(progress, lines[..|lines| - 1]);
      LineKeepsDone(progress, OnLines(progress, NothingRead, lines[..|lines| - 1]), lines[|lines| - 1]);
    }
  }

  /** The end is reported exactly once, whatever the stream says. */
  lemma DoneOnce(progress: Progress, s: seq<Byte>)
    ensures DoneCount(ReadWhole(progress, s).reports) == 1
  {
    var r := OnLines(progress, NothingRead, Lines(s).lines);
    LinesKeepDone(progress, Lines(s).lines);
    LineKeepsDone(progress, r, Lines(s).rest);
    LineKeepsDone(progress, OnLine(progress, r, Lines(s).rest), []);
  }

  // What is reported

  /** The keys and values the lines say, in order. */
  function Pairs(progress: Progress, lines: seq<Line>): seq<(string, string)>
  {
    if lines == [] then []
    else
      var found := progress(lines[|lines| - 1]);
      Pairs(progress, lines[..|lines| - 1]) + (if found.Some? then [found.value] else [])
  }

  /** The values said since the last `progress`, each key's latest. */
  function Since(pairs: seq<(string, string)>): map<string, string>
  {
    if pairs == [] || pairs[|pairs| - 1].0 == "progress" then map[]
    else
      var last := pairs[|pairs| - 1];
      Since(pairs[..|pairs| - 1])[last.0 := last.1]
  }

  predicate EndSaid(pairs: seq<(string, string)>)
  {
    exists i :: 0 <= i < |pairs| && pairs[i] == ("progress", "end")
  }

  /** One report for each `progress`, of what was said since the one before: not
      the last for any value but `end`, and the last for the first `end`. */
  function Reported(pairs: seq<(string, string)>): seq<Report>
  {
    if pairs == [] then []
    else
      var before, last := pairs[..|pairs| - 1], pairs[|pairs| - 1];
      Reported(before) +
      (if last.0 != "progress" then []
       else if last.1 != "end" then [Report(Since(before), false)]
       else if EndSaid(before) then [] else [Report(Since(before), true)])
  }

  ghost predicate ReadSo(r: Read, pairs: seq<(string, string)>)
  {
    r.reports == Reported(pairs) && r.block == Since(pairs) && (r.ended <==> EndSaid(pairs))
  }

  lemma OneMorePair(pairs: seq<(string, string)>, p: (string, string))
    ensures EndSaid(pairs + [p]) <==> EndSaid(pairs) || p == ("progress", "end")
    ensures Since(pairs + [p]) == if p.0 == "progress" then map[] else Since(pairs)[p.0 := p.1]
    ensures Reported(pairs + [p]) == Reported(pairs) +
      (if p.0 != "progress" then []
       else if p.1 != "end" then [Report(Since(pairs), false)]
       else if EndSaid(pairs) then [] else [Report(Since(pairs), true)])
  {
    assert (pairs + [p])[..|pairs|] == pairs && (pairs + [p])[|pairs|] == p;
    if i :| 0 <= i < |pairs| && pairs[i] == ("progress", "end") {
      assert (pairs + [p])[i] == ("progress", "end");
    }
  }

  lemma LineReadSo(progress: Progress, r: Read, line: Line, pairs: seq<(string, string)>)
    requires ReadSo(r, pairs)
    ensures var found := progress(line);
      ReadSo(OnLine(progress, r, line), if found.Some? then pairs + [found.value] else pairs)
  {
    var found := progress(line);
    if found.Some? {
      OneMorePair(pairs, found.value);
    }
    hide Reported, Since, EndSaid;
  }

  lemma {:induction false} LinesReadSo(progress: Progress, lines: seq<Line>)
    ensures ReadSo(OnLines(progress, NothingRead, lines), Pairs(progress, lines))
  {
    if lines != [] {
      var before, last := lines[..|lines| - 1], lines[|lines| - 1];
      LinesReadSo(progress, before);
      LineReadSo(progress, OnLines(progress, NothingRead, before), last, Pairs(progress, before));
      assert Pairs(progress, before) + [] == Pairs(progress, before);
      hide ReadSo, OnLine;
    }
  }

  /** All of a stream's lines, what the last left without a newline included. */
  function AllLines(s: seq<Byte>): seq<Line>
  {
    Lines(s).lines + (if Lines(s).rest == [] then [] else [Lines(s).rest])
  }

  /** However a stream is cut, the reports are one for each `progress` it says,
      and a last one at its end where it never said `end`. */
  lemma ReportedWhole(progress: Progress, s: seq<Byte>)
    ensures var pairs := Pairs(progress, AllLines(s));
      ReadWhole(progress, s).reports
      == Reported(pairs) + (if EndSaid(pairs) then [] else [Report(Since(pairs), true)])
  {
    var lines, rest := Lines(s).lines, Lines(s).rest;
    LinesReadSo(progress, lines);
    var r := OnLines(progress, NothingRead, lines);
    if rest != [] {
      LineReadSo(progress, r, rest, Pairs(progress, lines));
      assert (lines + [rest])[..|lines|] == lines && (lines + [rest])[|lines|] == rest;
      assert Pairs(progress, lines) + [] == Pairs(progress, lines);
    } else {
      assert lines + [] == lines;
    }
    hide Lines, OnLines, OnLine, Reported, Since, EndSaid, Pairs;
    assert Reported(Pairs(progress, AllLines(s))) + [] == Reported(Pairs(progress, AllLines(s)));
  }

  function Goings(pairs: seq<(string, string)>): nat
  {
    if pairs == [] then 0
    else
      var last := pairs[|pairs| - 1];
      Goings(pairs[..|pairs| - 1]) + (if last.0 == "progress" && last.1 != "end" then 1 else 0)
  }

  lemma {:induction false} ReportedCounts(pairs: seq<(string, string)>)
    ensures |Reported(pairs)| == Goings(pairs) + (if EndSaid(pairs) then 1 else 0)
    ensures DoneCount(Reported(pairs)) == if EndSaid(pairs) then 1 else 0
  {
    if pairs != [] {
      var before, last := pairs[..|pairs| - 1], pairs[|pairs| - 1];
      ReportedCounts(before);
      assert before + [last] == pairs;
      OneMorePair(before, last);
      DoneMore(Reported(before), Report(Since(before), true));
      DoneMore(Reported(before), Report(Since(before), false));
      assert Reported(before) + [] == Reported(before);
      hide EndSaid, Since, DoneCount, Reported;
    }
  }

  /** As many reports as `progress` lines that go on, and the one at the end. */
  lemma OnePerProgress(progress: Progress, s: seq<Byte>)
    ensures |ReadWhole(progress, s).reports| == Goings(Pairs(progress, AllLines(s))) + 1
  {
    hide *;
    ReportedWhole(progress, s);
    ReportedCounts(Pairs(progress, AllLines(s)));
  }

  // What reaches the log

  function LoggedLines(progress: Progress, lines: seq<Line>): seq<Byte>
  {
    if lines == [] then []
    else
      LoggedLines(progress, lines[..|lines| - 1])
      + (if progress(lines[|lines| - 1]).Some? then [] else lines[|lines| - 1] + [NEWLINE])
  }

  /** The log is every line but the progress ones, a last line given the
      newline the stream left off. */
  lemma LogIsTheRest(progress: Progress, s: seq<Byte>)
    ensures ReadWhole(progress, s).log ==
      LoggedLines(progress, Lines(s).lines)
      + if Lines(s).rest == [] || progress(Lines(s).rest).Some? then [] else Lines(s).rest + [NEWLINE]
  {
    LinesLogged(progress, Lines(s).lines);
  }

  lemma {:induction false} LinesLogged(progress: Progress, lines: seq<Line>)
    ensures OnLines(progress, NothingRead, lines).log == LoggedLines(progress, lines)
  {
    if lines != [] {
      LinesLogged(progress, lines[..|lines| - 1]);
    }
  }
}
