/** The labelled-sample loaders of ai-service/dataset.py. File contents are
    inputs: a text file is the sequence of its lines as Python iterates
    them (each with its line end), a directory listing is the sequence of
    its files' contents in the order the listing returns them, and the
    CSIC table is its sequence of rows. The Apache-log regular expression
    is the parameter `parse`. */
module Dataset {
  import opened Wrappers
  import opened Text
  import opened Seqs

  /** One labelled request: 0 for legitimate traffic, 1 for automated. */
  datatype Sample = Sample(url: string, httpMethod: string, userAgent: string, botLabel: int)

  predicate Binary(botLabel: int) {
    botLabel == 0 || botLabel == 1
  }

  // ---------------------------------------------------------------------
  // UnifiedDataset: a read-only list of samples
  // ---------------------------------------------------------------------

  datatype UnifiedDataset = UnifiedDataset(data: seq<Sample>) {

    /** `len(dataset)`. */
    function Length(): nat {
      |data|
    }

    /** `dataset[idx]`: Python list indexing, where -1 is the last sample
        and an index outside -len..len-1 raises IndexError (here `None`). */
    function GetItem(idx: int): (r: Option<Sample>)
      ensures r.Some? <==> -(Length() as int) <= idx < Length()
      ensures 0 <= idx < Length() ==> r == Some(data[idx])
      ensures r.Some? ==> r.value in data
    {
      if 0 <= idx < |data| then Some(data[idx])
      else if -|data| <= idx < 0 then Some(data[|data| + idx])
      else None
    }
  }

  /** `len(dataset)` is the first index past the end: every index below it
      returns that sample, and it and its negation minus one raise IndexError. */
  lemma LengthIsFirstMissingIndex(ds: UnifiedDataset)
    ensures forall i :: 0 <= i < ds.Length() ==> ds.GetItem(i) == Some(ds.data[i])
    ensures ds.GetItem(ds.Length()).None?
    ensures ds.GetItem(-(ds.Length() as int) - 1).None?
  {
  }

  /** A negative index names the same sample as the index one length higher. */
  lemma NegativeIndexAliases(ds: UnifiedDataset, idx: int)
    requires 0 <= idx < ds.Length()
    ensures ds.GetItem(idx - ds.Length()) == ds.GetItem(idx) == Some(ds.data[idx])
  {
  }

  // ---------------------------------------------------------------------
  // Session labels from annotation files
  // ---------------------------------------------------------------------

  /** The label an annotation's second token gives. */
  function AnnotationLabel(tag: string): int {
    if Contains(Lower(tag), "bot") then 1 else 0
  }

  /** The entry an annotation line contributes: only a line of exactly two
      whitespace-separated tokens gives one. */
  function AnnotationEntry(line: string): Option<(string, int)> {
    var parts := Split(Strip(line));
    if |parts| == 2 then Some((parts[0], AnnotationLabel(parts[1]))) else None
  }

  /** The entries of a sequence of annotation files, file after file and
      line after line. */
  function AnnotationEntries(files: seq<seq<string>>): seq<(string, int)> {
    CollectAll(files, AnnotationEntry)
  }

  /** The dictionary that inserting the entries one after another builds. */
  function LabelTable(es: seq<(string, int)>): map<string, int>
    decreases |es|
  {
    if es == [] then map[]
    else LabelTable(es[..|es| - 1])[es[|es| - 1].0 := es[|es| - 1].1]
  }

  /** Inserting one more entry overwrites its session id's label. */
  lemma LabelTableSnoc(es: seq<(string, int)>, e: (string, int))
    ensures LabelTable(es + [e]) == LabelTable(es)[e.0 := e.1]
  {
    assert (es + [e])[..|es|] == es;
  }

  /** Reading one more line of a file inserts the entry it yields, if any. */
  lemma LabelTableStep(done: seq<(string, int)>, lines: seq<string>, j: nat,
                       f: string -> Option<(string, int)>)
    requires j < |lines|
    ensures f(lines[j]).None? ==>
              LabelTable(done + Collect(lines[..j + 1], f)) == LabelTable(done + Collect(lines[..j], f))
    ensures f(lines[j]).Some? ==>
              var e := f(lines[j]).value;
              LabelTable(done + Collect(lines[..j + 1], f)) == LabelTable(done + Collect(lines[..j], f))[e.0 := e.1]
  {
    CollectStep(lines, j, f);
    var es := done + Collect(lines[..j], f);
    if f(lines[j]).Some? {
      assert done + Collect(lines[..j + 1], f) == es + [f(lines[j]).value];
      LabelTableSnoc(es, f(lines[j]).value);
    } else {
      assert Collect(lines[..j + 1], f) == Collect(lines[..j], f) + [];
      assert Collect(lines[..j], f) + [] == Collect(lines[..j], f);
    }
  }

  /** The session table of a data directory: every train annotation file,
      then every test annotation file. */
  function SessionTable(trainFiles: seq<seq<string>>, testFiles: seq<seq<string>>): map<string, int> {
    LabelTable(AnnotationEntries(trainFiles + testFiles))
  }

  /** Every annotation entry is labelled 0 or 1. */
  lemma AnnotationEntriesBinary(files: seq<seq<string>>)
    ensures forall e :: e in AnnotationEntries(files) ==> Binary(e.1)
  {
    CollectAllKeeps(files, AnnotationEntry, (e: (string, int)) => Binary(e.1));
  }

  /** Inserting two runs of entries is the first run's table overridden
      by the second's. */
  lemma {:induction false} LabelTableConcat(a: seq<(string, int)>, b: seq<(string, int)>)
    ensures LabelTable(a + b) == LabelTable(a) + LabelTable(b)
    decreases |b|
  {
    if b == [] {
      assert a + b == a;
    } else {
      var b' := b[..|b| - 1];
      assert (a + b)[..|a + b| - 1] == a + b';
      LabelTableConcat(a, b');
    }
  }

  /** A session id is in the table exactly when some entry names it. */
  lemma {:induction false} LabelTableKeys(es: seq<(string, int)>, sid: string)
    ensures sid in LabelTable(es) <==> exists k :: 0 <= k < |es| && es[k].0 == sid
    decreases |es|
  {
    if es != [] {
      var es' := es[..|es| - 1];
      LabelTableKeys(es', sid);
      assert forall k :: 0 <= k < |es'| ==> es'[k] == es[k];
    }
  }

  /** The last entry for a session id decides its label. */
  lemma {:induction false} LabelTableLastWins(es: seq<(string, int)>, k: nat)
    requires k < |es|
    requires forall j :: k < j < |es| ==> es[j].0 != es[k].0
    ensures es[k].0 in LabelTable(es) && LabelTable(es)[es[k].0] == es[k].1
    decreases |es|
  {
    if k < |es| - 1 {
      var es' := es[..|es| - 1];
      assert es'[k] == es[k];
      LabelTableLastWins(es', k);
    }
  }

  /** Every label in a table built from 0/1 entries is 0 or 1. */
  lemma {:induction false} LabelTableBinary(es: seq<(string, int)>)
    requires forall e :: e in es ==> Binary(e.1)
    ensures forall sid :: sid in LabelTable(es) ==> Binary(LabelTable(es)[sid])
    decreases |es|
  {
    if es != [] {
      LabelTableBinary(es[..|es| - 1]);
    }
  }

  /** Test annotations are read after train annotations, so for a session
      annotated in both the test label wins. */
  lemma TestAnnotationsOverride(trainFiles: seq<seq<string>>, testFiles: seq<seq<string>>)
    ensures SessionTable(trainFiles, testFiles)
         == LabelTable(AnnotationEntries(trainFiles)) + LabelTable(AnnotationEntries(testFiles))
  {
    CollectAllConcat(trainFiles, testFiles, AnnotationEntry);
    LabelTableConcat(AnnotationEntries(trainFiles), AnnotationEntries(testFiles));
  }

  /** What an annotation line contributes, for any line: an entry exactly
      when the line splits into two tokens; the entry's session id is the
      first token and its label is 1 exactly when the second token,
      lower-cased, contains "bot", and 0 otherwise. */
  lemma AnnotationEntrySpec(line: string)
    ensures var e, ws := AnnotationEntry(line), Split(line);
            && (e.Some? <==> |ws| == 2)
            && (e.Some? ==> e.value.0 == ws[0] && Binary(e.value.1))
            && (e.Some? ==> (e.value.1 == 1 <==> Contains(Lower(ws[1]), "bot")))
  {
    SplitIgnoresStrip(line);
  }

  /** An annotation line written as words separated by any whitespace runs,
      with any whitespace before the first word and after the last (a blank
      line when there are no words), gives an entry exactly when it has two
      words: the first is the session id, and the label is 1 exactly when
      the second, lower-cased, contains "bot". */
  lemma AnnotationOfWords(pre: string, ws: seq<string>, gaps: seq<string>)
    requires AllSpace(pre) && WellSpaced(ws, gaps)
    ensures var e := AnnotationEntry(pre + JoinRuns(ws, gaps));
            && (e.Some? <==> |ws| == 2)
            && (e.Some? ==> e.value.0 == ws[0] && Binary(e.value.1))
            && (e.Some? ==> (e.value.1 == 1 <==> Contains(Lower(ws[1]), "bot")))
  {
    SplitSkipsSpace(pre, JoinRuns(ws, gaps));
    SplitJoinRuns(ws, gaps);
    AnnotationEntrySpec(pre + JoinRuns(ws, gaps));
  }

  /** A tag holding "bot" in any letter case ("bot", "Bot", "bOT", ...) labels its session 1. */
  lemma BotTagLabelsOne(a: string, t: string, b: string)
    requires Lower(t) == "bot"
    ensures AnnotationLabel(a + t + b) == 1
  {
    assert Lower(a + t + b) == Lower(a) + Lower(t) + Lower(b);
    ContainsInfix(Lower(a), "bot", Lower(b));
  }

  /** Builds the session table from the annotation files in order
      (`session_labels`); a later line for the same session id overwrites
      an earlier one. */
  method BuildSessionLabels(annotationFiles: seq<seq<string>>) returns (table: map<string, int>)
    ensures table == LabelTable(AnnotationEntries(annotationFiles))
    ensures forall sid :: sid in table ==> Binary(table[sid])
  {
    table := map[];
    var i := 0;
    while i < |annotationFiles|
      invariant 0 <= i <= |annotationFiles|
      invariant table == LabelTable(CollectAll(annotationFiles[..i], AnnotationEntry))
    {
      var lines := annotationFiles[i];
      ghost var done := CollectAll(annotationFiles[..i], AnnotationEntry);
      var j := 0;
      assert done + Collect(lines[..0], AnnotationEntry) == done by {
        assert lines[..0] == [];
      }
      while j < |lines|
        invariant 0 <= j <= |lines|
        invariant table == LabelTable(done + Collect(lines[..j], AnnotationEntry))
      {
        LabelTableStep(done, lines, j, AnnotationEntry);
        var parts := Split(Strip(lines[j]));
        if |parts| == 2 {
          var sid, tag := parts[0], parts[1];
          table := table[sid := if Contains(Lower(tag), "bot") then 1 else 0];
        }
        j := j + 1;
      }
      assert lines[..j] == lines;
      CollectAllStep(annotationFiles, i, AnnotationEntry);
      i := i + 1;
    }
    assert annotationFiles[..i] == annotationFiles;
    AnnotationEntriesBinary(annotationFiles);
    LabelTableBinary(AnnotationEntries(annotationFiles));
  }

  // ---------------------------------------------------------------------
  // Samples from web-server logs
  // ---------------------------------------------------------------------

  /** The five groups the log regular expression captures. */
  datatype LogFields = LogFields(httpMethod: string, url: string, referrer: string,
                                 sessionId: string, userAgent: string)

  /** The sample one log line yields: the line must parse and its stripped
      session id must be in the table, whose label the sample takes. */
  function LogSample(table: map<string, int>, parse: string -> Option<LogFields>, line: string): Option<Sample> {
    match parse(line)
    case None => None
    case Some(f) =>
      var sid := Strip(f.sessionId);
      if sid in table then Some(Sample(f.url, f.httpMethod, f.userAgent, table[sid])) else None
  }

  /** A session id captured with whitespace around it is looked up bare. */
  lemma LogSamplePaddedId(table: map<string, int>, parse: string -> Option<LogFields>, line: string,
                          pre: string, sid: string, post: string)
    requires parse(line).Some? && parse(line).value.sessionId == pre + sid + post
    requires AllSpace(pre) && AllSpace(post)
    requires sid != [] && !IsSpace(sid[0]) && !IsSpace(sid[|sid| - 1])
    ensures var f := parse(line).value;
            && (LogSample(table, parse, line).Some? <==> sid in table)
            && (sid in table ==> LogSample(table, parse, line) == Some(Sample(f.url, f.httpMethod, f.userAgent, table[sid])))
  {
    StripPadded(pre, sid, post);
  }

  function LogReader(table: map<string, int>, parse: string -> Option<LogFields>): string -> Option<Sample> {
    line => LogSample(table, parse, line)
  }

  /** The samples of a sequence of log files, file after file and line after line. */
  function LogSamples(table: map<string, int>, parse: string -> Option<LogFields>, files: seq<seq<string>>): seq<Sample> {
    CollectAll(files, LogReader(table, parse))
  }

  /** The Phase samples of a data directory. */
  function PhaseSamples(trainFiles: seq<seq<string>>, testFiles: seq<seq<string>>,
                        logFiles: seq<seq<string>>, parse: string -> Option<LogFields>): seq<Sample> {
    LogSamples(SessionTable(trainFiles, testFiles), parse, logFiles)
  }

  /** Log samples keep file order: the samples of two runs of log files are
      the first run's, then the second's. */
  lemma LogSamplesConcat(table: map<string, int>, parse: string -> Option<LogFields>,
                         a: seq<seq<string>>, b: seq<seq<string>>)
    ensures LogSamples(table, parse, a + b) == LogSamples(table, parse, a) + LogSamples(table, parse, b)
  {
    CollectAllConcat(a, b, LogReader(table, parse));
  }

  /** Log samples keep line order within a file, and each sample of a file
      comes from one of its lines that parses, whose stripped session id is
      in the table, and whose label it carries; every such line yields its
      sample. */
  lemma LogFileSamples(table: map<string, int>, parse: string -> Option<LogFields>,
                       a: seq<string>, b: seq<string>, k: nat)
    ensures Collect(a + b, LogReader(table, parse))
         == Collect(a, LogReader(table, parse)) + Collect(b, LogReader(table, parse))
    ensures k < |Collect(a, LogReader(table, parse))| ==>
              exists j :: 0 <= j < |a| && parse(a[j]).Some?
                && Strip(parse(a[j]).value.sessionId) in table
                && Collect(a, LogReader(table, parse))[k]
                   == Sample(parse(a[j]).value.url, parse(a[j]).value.httpMethod,
                             parse(a[j]).value.userAgent, table[Strip(parse(a[j]).value.sessionId)])
    ensures k < |a| && parse(a[k]).Some? && Strip(parse(a[k]).value.sessionId) in table ==>
              LogSample(table, parse, a[k]).value in Collect(a, LogReader(table, parse))
  {
    var f := LogReader(table, parse);
    CollectConcat(a, b, f);
    if k < |Collect(a, f)| {
      CollectSound(a, f, k);
    }
    if k < |a| && parse(a[k]).Some? && Strip(parse(a[k]).value.sessionId) in table {
      CollectComplete(a, f, k);
    }
  }

  /** Every log sample carries a label of the table, so a table of 0/1
      labels gives 0/1-labelled samples. */
  lemma LogSamplesLabels(table: map<string, int>, parse: string -> Option<LogFields>, files: seq<seq<string>>)
    ensures forall s :: s in LogSamples(table, parse, files) ==> s.botLabel in table.Values
    ensures (forall sid :: sid in table ==> Binary(table[sid])) ==>
              forall s :: s in LogSamples(table, parse, files) ==> Binary(s.botLabel)
  {
    CollectAllKeeps(files, LogReader(table, parse), (s: Sample) => s.botLabel in table.Values);
    if forall sid :: sid in table ==> Binary(table[sid]) {
      CollectAllKeeps(files, LogReader(table, parse), (s: Sample) => Binary(s.botLabel));
    }
  }

  /** `load_phase_data`: builds the session table from the train, then the
      test annotation files, then keeps, file after file and line after
      line, each log line that parses and whose session is labelled. */
  method LoadPhaseData(trainFiles: seq<seq<string>>, testFiles: seq<seq<string>>,
                       logFiles: seq<seq<string>>, parse: string -> Option<LogFields>)
    returns (samples: seq<Sample>)
    ensures samples == PhaseSamples(trainFiles, testFiles, logFiles, parse)
    ensures forall s :: s in samples ==> Binary(s.botLabel)
  {
    var table := BuildSessionLabels(trainFiles + testFiles);
    ghost var reader := LogReader(table, parse);
    samples := [];
    var i := 0;
    while i < |logFiles|
      invariant 0 <= i <= |logFiles|
      invariant samples == CollectAll(logFiles[..i], reader)
    {
      var lines := logFiles[i];
      ghost var done := CollectAll(logFiles[..i], reader);
      var j := 0;
      assert done + Collect(lines[..0], reader) == done by {
        assert lines[..0] == [];
      }
      while j < |lines|
        invariant 0 <= j <= |lines|
        invariant samples == done + Collect(lines[..j], reader)
      {
        CollectAppend(done, lines, j, reader);
        var fields := parse(lines[j]);
        if fields.Some? {
          var f := fields.value;
          var sid := Strip(f.sessionId);
          if sid in table {
            samples := samples + [Sample(f.url, f.httpMethod, f.userAgent, table[sid])];
          }
        }
        j := j + 1;
      }
      assert lines[..j] == lines;
      CollectAllStep(logFiles, i, reader);
      i := i + 1;
    }
    assert logFiles[..i] == logFiles;
    LogSamplesLabels(table, parse, logFiles);
  }

  // ---------------------------------------------------------------------
  // CSIC 2010 table
  // ---------------------------------------------------------------------

  /** The columns of a CSIC row that the loader reads. */
  datatype CsicRow = CsicRow(httpMethod: string, userAgent: string, classification: string, url: string)

  /** The CSV file: absent, unreadable as a table with the expected
      columns, or its rows. */
  datatype CsvSource = Missing | Unreadable | Rows(rows: seq<CsicRow>)

  /** The sample of one CSIC row: its url, method and user agent, labelled 0
      exactly when its classification is "Normal" and 1 otherwise. */
  function CsicSample(row: CsicRow): (s: Sample)
    ensures s.url == row.url && s.httpMethod == row.httpMethod && s.userAgent == row.userAgent
    ensures Binary(s.botLabel)
    ensures s.botLabel == 0 <==> row.classification == "Normal"
  {
    Sample(row.url, row.httpMethod, row.userAgent, if row.classification == "Normal" then 0 else 1)
  }

  function CsicSamples(source: CsvSource): seq<Sample> {
    match source
    case Rows(rows) => seq(|rows|, k requires 0 <= k < |rows| => CsicSample(rows[k]))
    case _ => []
  }

  /** `load_csic_data`: one sample per row, in row order, labelled 0
      exactly when its classification is "Normal" and 1 otherwise; no
      samples when the file is missing or cannot be read. */
  method LoadCsicData(source: CsvSource) returns (samples: seq<Sample>)
    ensures samples == CsicSamples(source)
    ensures forall s :: s in samples ==> Binary(s.botLabel)
    ensures !source.Rows? ==> samples == []
    ensures source.Rows? ==> |samples| == |source.rows|
    ensures source.Rows? ==> forall k :: 0 <= k < |samples| ==>
              && samples[k].url == source.rows[k].url
              && samples[k].httpMethod == source.rows[k].httpMethod
              && samples[k].userAgent == source.rows[k].userAgent
              && Binary(samples[k].botLabel)
              && (samples[k].botLabel == 0 <==> source.rows[k].classification == "Normal")
  {
    samples := [];
    match source
    case Rows(rows) =>
      var i := 0;
      while i < |rows|
        invariant 0 <= i <= |rows|
        invariant |samples| == i
        invariant forall k :: 0 <= k < i ==> samples[k] == CsicSample(rows[k])
      {
        var row := rows[i];
        var botLabel := if row.classification == "Normal" then 0 else 1;
        samples := samples + [Sample(row.url, row.httpMethod, row.userAgent, botLabel)];
        i := i + 1;
      }
    case Missing =>
    case Unreadable =>
  }

  // ---------------------------------------------------------------------
  // URL lists
  // ---------------------------------------------------------------------

  /** The sample a query-list line yields: none for a blank line. */
  function QuerySample(line: string, botLabel: int): Option<Sample> {
    var url := Strip(line);
    if url != [] then Some(Sample(url, "GET", "", botLabel)) else None
  }

  /** A query-list line yields a sample exactly when it is not all whitespace;
      the sample's url is the stripped line, which starts and ends with
      non-whitespace, with method GET, an empty user agent and the list's label. */
  lemma QuerySampleSpec(line: string, botLabel: int)
    ensures QuerySample(line, botLabel).None? <==> AllSpace(line)
    ensures QuerySample(line, botLabel).Some? ==>
              var u := Strip(line);
              && QuerySample(line, botLabel).value == Sample(u, "GET", "", botLabel)
              && u != [] && !IsSpace(u[0]) && !IsSpace(u[|u| - 1])
  {
    StripSpec(line);
  }

  function QueryReader(botLabel: int): string -> Option<Sample> {
    line => QuerySample(line, botLabel)
  }

  /** The samples of a run of query-list lines, in line order. */
  function QuerySamples(lines: seq<string>, botLabel: int): seq<Sample> {
    Collect(lines, QueryReader(botLabel))
  }

  /** How many lines a loop that stops at index `limit` looks at. */
  function LinesRead(limit: int, n: nat): (m: nat)
    ensures m <= n
    ensures limit >= 0 ==> m <= limit
    ensures limit <= 0 ==> m == 0
    ensures 0 <= limit <= n ==> m == limit
    ensures n <= limit ==> m == n
  {
    if limit < 0 then 0 else if limit < n then limit else n
  }

  /** The samples of a query-list file: those of its first `limit` lines,
      and none when the file is missing. */
  function QueryFileSamples(file: Option<seq<string>>, botLabel: int, limit: int): seq<Sample> {
    match file
    case None => []
    case Some(lines) => QuerySamples(lines[..LinesRead(limit, |lines|)], botLabel)
  }

  /** What a query sample is: the stripped, non-blank text of one of the
      lines as its url (so stripping it again changes nothing), method GET,
      an empty user agent and the list's label. At most one sample per line. */
  lemma QuerySamplesShape(lines: seq<string>, botLabel: int, k: nat)
    ensures |QuerySamples(lines, botLabel)| <= |lines|
    ensures forall s :: s in QuerySamples(lines, botLabel) ==>
              && s.url != [] && Strip(s.url) == s.url
              && s.httpMethod == "GET" && s.userAgent == "" && s.botLabel == botLabel
    ensures k < |QuerySamples(lines, botLabel)| ==>
              exists j :: 0 <= j < |lines| && QuerySamples(lines, botLabel)[k].url == Strip(lines[j])
  {
    var f := QueryReader(botLabel);
    forall line: string ensures Strip(Strip(line)) == Strip(line) {
      StripIdempotent(line);
    }
    CollectKeeps(lines, f, (s: Sample) => s.url != [] && Strip(s.url) == s.url
                                        && s.httpMethod == "GET" && s.userAgent == "" && s.botLabel == botLabel);
    if k < |QuerySamples(lines, botLabel)| {
      CollectSound(lines, f, k);
    }
  }

  /** A blank line among the first `limit` lines yields nothing yet uses up
      its place: with a limit of one, the non-blank line after it is never read. */
  lemma BlankLineUsesLimit(blank: string, url: string, botLabel: int)
    requires forall i :: 0 <= i < |blank| ==> IsSpace(blank[i])
    requires Strip(url) != []
    ensures QueryFileSamples(Some([blank, url]), botLabel, 2) == [Sample(Strip(url), "GET", "", botLabel)]
    ensures QueryFileSamples(Some([blank, url]), botLabel, 1) == []
  {
    StripSpec(blank);
    var f := QueryReader(botLabel);
    assert f(blank) == None;
    assert [blank, url][..2] == [blank, url];
    assert [blank, url][..1] == [blank];
    assert [blank, url][..1][..0] == [];
    assert [blank][..0] == [];
    assert Collect([blank], f) == [];
  }

  /** `load_query_data`: looks at the first `limit` lines only; each
      non-blank one becomes a GET sample of its stripped text, with an
      empty user agent and the given label. No samples when the file is missing. */
  method LoadQueryData(file: Option<seq<string>>, botLabel: int, limit: int) returns (samples: seq<Sample>)
    ensures samples == QueryFileSamples(file, botLabel, limit)
    ensures limit >= 0 ==> |samples| <= limit
    ensures file.None? ==> samples == []
    ensures file.Some? ==> |samples| <= |file.value|
    ensures forall s :: s in samples ==>
              && s.url != [] && Strip(s.url) == s.url
              && s.httpMethod == "GET" && s.userAgent == "" && s.botLabel == botLabel
  {
    samples := [];
    if file.None? {
      return;
    }
    var lines := file.value;
    ghost var reader := QueryReader(botLabel);
    var i := 0;
    while i < |lines|
      invariant 0 <= i <= LinesRead(limit, |lines|)
      invariant samples == Collect(lines[..i], reader)
    {
      if i >= limit {
        break;
      }
      CollectStep(lines, i, reader);
      var url := Strip(lines[i]);
      if url != [] {
        samples := samples + [Sample(url, "GET", "", botLabel)];
      }
      i := i + 1;
    }
    assert i == LinesRead(limit, |lines|);
    QuerySamplesShape(lines[..i], botLabel, 0);
  }

  // ---------------------------------------------------------------------
  // Combined dataset
  // ---------------------------------------------------------------------

  /** How many lines of a query list are read (`load_query_data`'s default limit). */
  const QueryLimit := 50000

  /** The inputs under the data directory. */
  datatype DataRoot = DataRoot(
    trainAnnotations: seq<seq<string>>,  // phase*/annotations/*/train
    testAnnotations: seq<seq<string>>,   // phase*/annotations/*/test
    logFiles: seq<seq<string>>,          // phase*/data/web_logs/*/*.log
    csic: CsvSource,                     // csic_database.csv
    goodQueries: Option<seq<string>>,    // goodqueries.txt
    badQueries: Option<seq<string>>)     // badqueries.txt

  function CombinedSamples(root: DataRoot, parse: string -> Option<LogFields>): seq<Sample> {
    PhaseSamples(root.trainAnnotations, root.testAnnotations, root.logFiles, parse)
    + CsicSamples(root.csic)
    + QueryFileSamples(root.goodQueries, 0, QueryLimit)
    + QueryFileSamples(root.badQueries, 1, QueryLimit)
  }

  /** `get_combined_dataset`: the Phase samples, then the CSIC samples, then
      the good queries labelled 0, then the bad queries labelled 1. Every
      sample of the result is labelled 0 or 1. */
  method GetCombinedDataset(root: DataRoot, parse: string -> Option<LogFields>) returns (ds: UnifiedDataset)
    ensures ds.data == CombinedSamples(root, parse)
    ensures ds.Length() == |PhaseSamples(root.trainAnnotations, root.testAnnotations, root.logFiles, parse)|
                           + |CsicSamples(root.csic)|
                           + |QueryFileSamples(root.goodQueries, 0, QueryLimit)|
                           + |QueryFileSamples(root.badQueries, 1, QueryLimit)|
    ensures forall s :: s in ds.data ==> Binary(s.botLabel)
  {
    var all: seq<Sample> := [];
    var phase := LoadPhaseData(root.trainAnnotations, root.testAnnotations, root.logFiles, parse);
    assert all + phase == phase;
    all := all + phase;
    var csic := LoadCsicData(root.csic);
    all := all + csic;
    var good := LoadQueryData(root.goodQueries, 0, QueryLimit);
    all := all + good;
    var bad := LoadQueryData(root.badQueries, 1, QueryLimit);
    all := all + bad;
    ds := UnifiedDataset(all);
  }
}
