/** The result-table builder of nerv/utility.py: which files of a directory are
    result files, how one result file becomes rows of (Subject,
    Dataset-Pipeline, Result, Metadata, Color), how the tables of several files
    and several directories are put together, and the summary counts shown
    beside the charts. The directory listings and the parsed JSON documents
    are inputs (a `FileSystem` value); the palette table `COLORS` is a
    parameter. */
module Utility {
  import opened Wrappers
  import opened Seqs
  import opened Strings
  import opened Components

  /** The exceptions the core can raise, by kind. */
  datatype Error =
    | KeyNotFound(key: string)    // KeyError
    | IndexOutOfRange             // IndexError: a list, a palette, or `.iloc[0]` of no rows
    | NoSuchPath(path: string)    // FileNotFoundError from os.listdir or open
    | NothingToConcatenate        // ValueError from pd.concat([])
    | WrongType                   // TypeError or AttributeError: a JSON value of the wrong kind

  /** The details of one pipeline step, each field possibly null. */
  datatype Detail = Detail(status: Option<string>, inputID: Option<int>, outputID: Option<int>,
                           taskID: Option<int>, toolConfigID: Option<int>)

  /** The value under one key of a step record: the details of a pipeline step,
      or the `{"result": ...}` object kept under the key "Result". */
  datatype Entry = StepEntry(detail: Detail) | ResultEntry(result: Option<int>)

  /** A step record, in key order. It is also the row's Metadata. */
  type StepRecord = seq<(string, Entry)>

  /** A parsed result file: subject -> step key -> step record, in key order. */
  type Document = seq<(string, seq<(string, StepRecord)>)>

  type Palette = seq<string>

  /** One row of the table. */
  datatype Row = Row(subject: string, pipeline: string, result: int, metadata: StepRecord, color: string)

  /** A `pull_files` entry: (file path, stem). */
  datatype FileRef = FileRef(path: string, stem: string)

  /** What the core reads from disk: the names each directory lists, and the
      parsed content of each result file. */
  datatype FileSystem = FileSystem(listings: map<string, seq<string>>, documents: map<string, Document>)

  /** The Result value that stands for a missing result. */
  const MissingResult: int := -1

  function ListDir(fs: FileSystem, path: string): Result<seq<string>, Error>
  {
    if path in fs.listings then Success(fs.listings[path]) else Failure(NoSuchPath(path))
  }

  function ReadJson(fs: FileSystem, path: string): Result<Document, Error>
  {
    if path in fs.documents then Success(fs.documents[path]) else Failure(NoSuchPath(path))
  }

  // ---------------------------------------------------------------- pull_files

  /** Python's `s[-n:]`: the last n characters, or all of a shorter string. */
  function LastChars(s: string, n: nat): string
  {
    if |s| >= n then s[|s| - n..] else s
  }

  predicate IsJsonName(name: string)
  {
    LastChars(name, 5) == ".json"
  }

  /** The entry for one result file: its path under the directory, and its name
      without the extension as stem. */
  function FileRefOf(path: string, name: string): (f: FileRef)
    requires IsJsonName(name)
    ensures f.stem + ".json" == name
  {
    FileRef(path + "/" + name, name[..|name| - 5])
  }

  /** The `pull_files` entries for a directory listing. */
  function PulledFiles(path: string, listing: seq<string>): seq<FileRef>
  {
    if listing == [] then []
    else
      var name := listing[|listing| - 1];
      PulledFiles(path, listing[..|listing| - 1]) + (if IsJsonName(name) then [FileRefOf(path, name)] else [])
  }

  /** Every entry comes from a listed ".json" name, as (path + "/" + name, stem)
      with stem + ".json" == name. */
  lemma {:induction false} PulledFilesSound(path: string, listing: seq<string>)
    ensures forall f :: f in PulledFiles(path, listing) ==>
              f.stem + ".json" in listing && IsJsonName(f.stem + ".json") &&
              f.path == path + "/" + f.stem + ".json"
  {
    if listing != [] {
      var init, name := listing[..|listing| - 1], listing[|listing| - 1];
      PulledFilesSound(path, init);
      assert listing == init + [name];
      forall f | f in PulledFiles(path, listing)
        ensures f.stem + ".json" in listing && IsJsonName(f.stem + ".json") &&
                f.path == path + "/" + f.stem + ".json"
      {
        if f !in PulledFiles(path, init) {
          assert f == FileRefOf(path, name);
        }
      }
    }
  }

  /** Every listed ".json" name has its entry. */
  lemma {:induction false} PulledFilesComplete(path: string, listing: seq<string>)
    ensures forall i :: 0 <= i < |listing| && IsJsonName(listing[i]) ==>
              FileRefOf(path, listing[i]) in PulledFiles(path, listing)
  {
    if listing != [] {
      var init := listing[..|listing| - 1];
      PulledFilesComplete(path, init);
      forall i | 0 <= i < |listing| && IsJsonName(listing[i])
        ensures FileRefOf(path, listing[i]) in PulledFiles(path, listing)
      {
        if i < |init| {
          assert listing[i] == init[i];
        }
      }
    }
  }

  /** Entries keep the listing order: the entries of a listing are those of its
      first part followed by those of the rest. */
  lemma {:induction false} PulledFilesAppend(path: string, a: seq<string>, b: seq<string>)
    ensures PulledFiles(path, a + b) == PulledFiles(path, a) + PulledFiles(path, b)
  {
    if b == [] {
      assert a + b == a;
    } else {
      var b' := b[..|b| - 1];
      assert (a + b)[..|a + b| - 1] == a + b';
      PulledFilesAppend(path, a, b');
    }
  }

  /** `pull_files(path)`, given what `os.listdir(path)` returned. */
  method PullFiles(path: string, listing: seq<string>) returns (files: seq<FileRef>)
    ensures files == PulledFiles(path, listing)
  {
    files := [];
    for i := 0 to |listing|
      invariant files == PulledFiles(path, listing[..i])
    {
      assert listing[..i + 1][..i] == listing[..i];
      var name := listing[i];
      if LastChars(name, 5) == ".json" {
        files := files + [FileRefOf(path, name)];
      }
    }
    assert listing[..|listing|] == listing;
  }

  // -------------------------------------------------------------- process_file

  /** Python's `s[z]`, negative indices counting from the end. */
  function PyIndex<T>(s: seq<T>, z: int): (r: Result<T, Error>)
    ensures r.Success? <==> -|s| <= z < |s|
  {
    if 0 <= z < |s| then Success(s[z])
    else if -|s| <= z < 0 then Success(s[|s| + z])
    else Failure(IndexOutOfRange)
  }

  /** `d[key]` on a JSON object. */
  function Lookup<V>(entries: seq<(string, V)>, key: string): (r: Result<V, Error>)
    ensures r.Success? ==> (key, r.value) in entries
    ensures r.Failure? ==> r.error == KeyNotFound(key) && forall i :: 0 <= i < |entries| ==> entries[i].0 != key
  {
    if entries == [] then Failure(KeyNotFound(key))
    else if entries[0].0 == key then Success(entries[0].1)
    else Lookup(entries[1..], key)
  }

  /** `record["Result"]["result"]`. */
  function RawResult(rec: StepRecord): (r: Result<Option<int>, Error>)
    ensures r.Success? <==> Lookup(rec, "Result").Success? && Lookup(rec, "Result").value.ResultEntry?
    ensures r.Success? ==> ("Result", ResultEntry(r.value)) in rec
    ensures (forall i :: 0 <= i < |rec| ==> rec[i].0 != "Result") ==> r == Failure(KeyNotFound("Result"))
    ensures Lookup(rec, "Result").Success? && Lookup(rec, "Result").value.StepEntry? ==> r == Failure(KeyNotFound("result"))
  {
    var v :- Lookup(rec, "Result");
    match v
    case ResultEntry(raw) => Success(raw)
    case StepEntry(_) => Failure(KeyNotFound("result"))
  }

  /** The Result column value: -1 for a null result, the number otherwise. A
      genuine result of -1 cannot be told from a missing one. */
  function Coerce(raw: Option<int>): (v: int)
    ensures v == MissingResult <==> raw == None || raw == Some(MissingResult)
    ensures raw.Some? ==> v == raw.value
  {
    if raw.None? then MissingResult else raw.value
  }

  /** The colour of the step at position i of a subject: the counter starts at
      len(palette) - 1 for each subject and goes down by one per step, and a
      negative counter indexes from the end. */
  function ColorAt(palette: Palette, i: nat): (r: Result<string, Error>)
    ensures r.Success? <==> i < 2 * |palette|
    ensures i < |palette| ==> r == Success(palette[|palette| - 1 - i])
    ensures |palette| <= i < 2 * |palette| ==> r == Success(palette[2 * |palette| - 1 - i])
  {
    PyIndex(palette, |palette| - 1 - i)
  }

  /** The tuple the loop appends: (subject, step key, raw result, record, colour). */
  datatype RawRow = RawRow(subject: string, stepKey: string, raw: Option<int>, metadata: StepRecord, color: string)

  /** The null-to-(-1) coercion and the column construction, for one tuple. */
  function ToRow(stem: string, t: RawRow): Row
  {
    Row(t.subject, stem + "-" + t.stepKey, Coerce(t.raw), t.metadata, t.color)
  }

  function Coerced(stem: string, xs: seq<RawRow>): (rows: seq<Row>)
    ensures |rows| == |xs| && forall i :: 0 <= i < |xs| ==> rows[i] == ToRow(stem, xs[i])
  {
    seq(|xs|, i requires 0 <= i < |xs| => ToRow(stem, xs[i]))
  }

  /** The row of step i of a subject, or the error building it raises. */
  function StepRow(stem: string, subject: string, step: (string, StepRecord), palette: Palette, i: nat): Result<Row, Error>
  {
    var raw :- RawResult(step.1);
    var color :- ColorAt(palette, i);
    Success(ToRow(stem, RawRow(subject, step.0, raw, step.1, color)))
  }

  /** What a row holds: the subject key, "<stem>-<step key>", -1 exactly for a
      null (or a genuine -1) result, the step record unchanged, and the colour
      counted down from the end of the palette, wrapping once past its start;
      building it fails exactly when the record has no result or the palette
      has run out twice over. */
  lemma RowContents(stem: string, subject: string, step: (string, StepRecord), palette: Palette, i: nat)
    ensures StepRow(stem, subject, step, palette, i).Success? <==> RawResult(step.1).Success? && i < 2 * |palette|
    ensures StepRow(stem, subject, step, palette, i).Success? ==>
              var row := StepRow(stem, subject, step, palette, i).value;
              row.subject == subject && row.pipeline == stem + "-" + step.0 && row.metadata == step.1 &&
              (row.result == MissingResult <==> RawResult(step.1).value in {None, Some(MissingResult)}) &&
              (RawResult(step.1).value.Some? ==> row.result == RawResult(step.1).value.value) &&
              (i < |palette| ==> row.color == palette[|palette| - 1 - i]) &&
              (|palette| <= i ==> row.color == palette[2 * |palette| - 1 - i])
  {
  }

  function StepRowAt(stem: string, subject: string, palette: Palette): ((string, StepRecord), nat) -> Result<Row, Error>
  {
    (step: (string, StepRecord), i: nat) => StepRow(stem, subject, step, palette, i)
  }

  /** The rows of one subject: the palette is looked up, then one row per step. */
  function SubjectRows(stem: string, palettes: seq<Palette>, color: nat, subject: (string, seq<(string, StepRecord)>)): Result<seq<Row>, Error>
  {
    var palette :- PyIndex(palettes, color);
    Traverse(StepRowAt(stem, subject.0, palette), subject.1)
  }

  function SubjectRowsAt(stem: string, palettes: seq<Palette>, color: nat): ((string, seq<(string, StepRecord)>), nat) -> Result<seq<Row>, Error>
  {
    (subject: (string, seq<(string, StepRecord)>), i: nat) => SubjectRows(stem, palettes, color, subject)
  }

  /** The rows of a parsed file, subject after subject. */
  function DocRows(stem: string, doc: Document, palettes: seq<Palette>, color: nat): Result<seq<Row>, Error>
  {
    var tables :- Traverse(SubjectRowsAt(stem, palettes, color), doc);
    Success(Flat(tables))
  }

  /** `process_file(file, color)`. */
  function FileRows(file: FileRef, color: nat, palettes: seq<Palette>, fs: FileSystem): Result<seq<Row>, Error>
  {
    var doc :- ReadJson(fs, file.path);
    DocRows(file.stem, doc, palettes, color)
  }

  /** A file with one subject and one step whose result is 5 gives one row
      naming that subject, the pipeline "<stem>-<step>", and Result 5; with a
      null result the row's Result is -1. */
  lemma OneStepFile(palette: Palette)
    requires |palette| > 0
    ensures var rec := [("Result", ResultEntry(Some(5)))];
            DocRows("f", [("S1", [("stepA", rec)])], [palette], 0)
              == Success([Row("S1", "f-stepA", 5, rec, palette[|palette| - 1])])
    ensures var rec := [("Result", ResultEntry(None))];
            DocRows("f", [("S1", [("stepA", rec)])], [palette], 0)
              == Success([Row("S1", "f-stepA", MissingResult, rec, palette[|palette| - 1])])
  {
    OneStepRow(palette, Some(5));
    OneStepRow(palette, None);
  }

  /** A file "f" with one subject "S1" and one step "stepA" gives one row: the
      step's coerced result coloured with the palette's last colour. */
  lemma OneStepRow(palette: Palette, raw: Option<int>)
    requires |palette| > 0
    ensures var rec := [("Result", ResultEntry(raw))];
            DocRows("f", [("S1", [("stepA", rec)])], [palette], 0)
              == Success([Row("S1", "f-stepA", Coerce(raw), rec, palette[|palette| - 1])])
  {
    var rec := [("Result", ResultEntry(raw))];
    var steps := [("stepA", rec)];
    var row := Row("S1", "f-stepA", Coerce(raw), rec, palette[|palette| - 1]);
    assert RawResult(rec) == Success(raw);
    assert "f" + "-" + "stepA" == "f-stepA";
    assert StepRow("f", "S1", steps[0], palette, 0) == Success(row);
    assert StepRowAt("f", "S1", palette)(steps[0], 0) == Success(row);
    var f := StepRowAt("f", "S1", palette);
    TraverseExtend(f, steps, 0);
    assert steps[..0] == [] && steps[..1] == steps;
    assert Traverse(f, steps[..0]) == Success([]);
    assert [] + [row] == [row];
    assert Traverse(StepRowAt("f", "S1", palette), steps) == Success([row]);
    assert SubjectRows("f", [palette], 0, ("S1", steps)) == Success([row]);
    var doc := [("S1", steps)];
    assert SubjectRowsAt("f", [palette], 0)(doc[0], 0) == Success([row]);
    var g := SubjectRowsAt("f", [palette], 0);
    TraverseExtend(g, doc, 0);
    assert doc[..0] == [] && doc[..1] == doc;
    assert Traverse(g, doc[..0]) == Success([]);
    assert [] + [[row]] == [[row]];
    assert Traverse(SubjectRowsAt("f", [palette], 0), doc) == Success([[row]]);
    assert Flat([[row]]) == [row] by {
      assert [[row]][..0] == [];
    }
  }

  /** The number of steps of the subjects before subject s. */
  function StepsBefore(doc: Document, s: nat): nat
    requires s <= |doc|
  {
    if s == 0 then 0 else StepsBefore(doc, s - 1) + |doc[s - 1].1|
  }

  lemma {:induction false} StepsBeforeIsOffset(doc: Document, tables: seq<seq<Row>>, s: nat)
    requires |tables| == |doc| && s <= |doc|
    requires forall k :: 0 <= k < |doc| ==> |tables[k]| == |doc[k].1|
    ensures SumLengths(tables[..s]) == StepsBefore(doc, s)
  {
    if s > 0 {
      assert tables[..s][..s - 1] == tables[..s - 1];
      StepsBeforeIsOffset(doc, tables, s - 1);
    }
  }

  /** The rows of one subject, given its palette exists: one per step, in step
      order, built exactly when every step's row can be built. */
  lemma SubjectRowsAll(stem: string, palettes: seq<Palette>, color: nat, subject: (string, seq<(string, StepRecord)>))
    requires color < |palettes|
    ensures SubjectRows(stem, palettes, color, subject).Success? <==>
              forall j :: 0 <= j < |subject.1| ==> StepRow(stem, subject.0, subject.1[j], palettes[color], j).Success?
    ensures SubjectRows(stem, palettes, color, subject).Success? ==>
              forall j :: 0 <= j < |subject.1| ==>
                StepRow(stem, subject.0, subject.1[j], palettes[color], j) == Success(SubjectRows(stem, palettes, color, subject).value[j])
  {
    TraverseAll(StepRowAt(stem, subject.0, palettes[color]), subject.1);
  }

  /** Building the rows of a parsed file fails exactly when the document has a
      subject and there is no palette at `color`, or some step's row cannot be
      built. */
  lemma DocRowsSucceed(stem: string, doc: Document, palettes: seq<Palette>, color: nat)
    ensures DocRows(stem, doc, palettes, color).Success? <==>
              doc == [] ||
              (color < |palettes| &&
               forall s, j :: 0 <= s < |doc| && 0 <= j < |doc[s].1| ==>
                 StepRow(stem, doc[s].0, doc[s].1[j], palettes[color], j).Success?)
  {
    var f := SubjectRowsAt(stem, palettes, color);
    TraverseAll(f, doc);
    if color < |palettes| {
      forall s | 0 <= s < |doc|
        ensures f(doc[s], s).Success? <==>
                  forall j :: 0 <= j < |doc[s].1| ==> StepRow(stem, doc[s].0, doc[s].1[j], palettes[color], j).Success?
      {
        SubjectRowsAll(stem, palettes, color, doc[s]);
      }
    } else if doc != [] {
      assert f(doc[0], 0).Failure?;
    }
  }

  /** The subject tables of a successful build have one row per step. */
  lemma SubjectTables(stem: string, doc: Document, palettes: seq<Palette>, color: nat)
    requires Traverse(SubjectRowsAt(stem, palettes, color), doc).Success?
    ensures doc != [] ==> color < |palettes|
    ensures var tables := Traverse(SubjectRowsAt(stem, palettes, color), doc).value;
            forall s :: 0 <= s < |doc| ==> SubjectRows(stem, palettes, color, doc[s]) == Success(tables[s])
    ensures var tables := Traverse(SubjectRowsAt(stem, palettes, color), doc).value;
            forall s :: 0 <= s < |doc| ==> |tables[s]| == |doc[s].1|
  {
    var f := SubjectRowsAt(stem, palettes, color);
    TraverseAll(f, doc);
    var tables := Traverse(f, doc).value;
    forall s | 0 <= s < |doc| ensures SubjectRows(stem, palettes, color, doc[s]) == Success(tables[s]) {
      assert f(doc[s], s) == Success(tables[s]);
    }
    if doc != [] {
      assert SubjectRows(stem, palettes, color, doc[0]).Success?;
    }
  }

  /** The row for step j of subject s sits at position StepsBefore(doc, s) + j. */
  lemma DocRowAt(stem: string, doc: Document, palettes: seq<Palette>, color: nat, s: nat, j: nat)
    requires DocRows(stem, doc, palettes, color).Success?
    requires s < |doc| && j < |doc[s].1|
    ensures color < |palettes|
    ensures StepsBefore(doc, s) + j < |DocRows(stem, doc, palettes, color).value|
    ensures Success(DocRows(stem, doc, palettes, color).value[StepsBefore(doc, s) + j]) ==
              StepRow(stem, doc[s].0, doc[s].1[j], palettes[color], j)
  {
    var tables := Traverse(SubjectRowsAt(stem, palettes, color), doc).value;
    assert DocRows(stem, doc, palettes, color).value == Flat(tables);
    assert color < |palettes| && |tables| == |doc| by {
      SubjectTables(stem, doc, palettes, color);
    }
    var here := tables[s];
    assert SubjectRows(stem, palettes, color, doc[s]) == Success(here) by {
      SubjectTables(stem, doc, palettes, color);
    }
    assert StepRow(stem, doc[s].0, doc[s].1[j], palettes[color], j) == Success(here[j]) by {
      SubjectRowsAll(stem, palettes, color, doc[s]);
    }
    assert SumLengths(tables[..s]) == StepsBefore(doc, s) by {
      SubjectTables(stem, doc, palettes, color);
      StepsBeforeIsOffset(doc, tables, s);
    }
    FlatAt(tables, s, j);
  }

  /** A successful build has one row per step of the document. */
  lemma DocRowsLength(stem: string, doc: Document, palettes: seq<Palette>, color: nat)
    requires DocRows(stem, doc, palettes, color).Success?
    ensures doc != [] ==> color < |palettes|
    ensures |DocRows(stem, doc, palettes, color).value| == StepsBefore(doc, |doc|)
  {
    var tables := Traverse(SubjectRowsAt(stem, palettes, color), doc).value;
    SubjectTables(stem, doc, palettes, color);
    StepsBeforeIsOffset(doc, tables, |doc|);
    assert tables[..|doc|] == tables;
  }

  /** A file with at least one subject needs a palette at its position. */
  lemma DocRowsNeedPalette(stem: string, doc: Document, palettes: seq<Palette>, color: nat)
    requires doc != [] && color >= |palettes|
    ensures DocRows(stem, doc, palettes, color) == Failure(IndexOutOfRange)
  {
    var f := SubjectRowsAt(stem, palettes, color);
    assert doc[..1][..0] == [];
    TraverseStops(f, doc, 1);
  }

  lemma CoercedSnoc(stem: string, xs: seq<RawRow>, t: RawRow)
    ensures Coerced(stem, xs + [t]) == Coerced(stem, xs) + [ToRow(stem, t)]
  {
  }

  /** A step whose row cannot be built stops the whole file with its error. */
  lemma DocRowsStopAtStep(stem: string, doc: Document, palettes: seq<Palette>, color: nat, s: nat, j: nat, e: Error)
    requires s < |doc| && color < |palettes| && j < |doc[s].1|
    requires Traverse(SubjectRowsAt(stem, palettes, color), doc[..s]).Success?
    requires Traverse(StepRowAt(stem, doc[s].0, palettes[color]), doc[s].1[..j]).Success?
    requires StepRow(stem, doc[s].0, doc[s].1[j], palettes[color], j) == Failure(e)
    ensures DocRows(stem, doc, palettes, color) == Failure(e)
  {
    var f, g := SubjectRowsAt(stem, palettes, color), StepRowAt(stem, doc[s].0, palettes[color]);
    TraverseExtend(g, doc[s].1, j);
    TraverseStops(g, doc[s].1, j + 1);
    TraverseExtend(f, doc, s);
    TraverseStops(f, doc, s + 1);
  }

  /** Without a palette at `color`, the first subject stops the file. */
  lemma DocRowsStopAtPalette(stem: string, doc: Document, palettes: seq<Palette>, color: nat, s: nat)
    requires s < |doc| && color >= |palettes|
    requires Traverse(SubjectRowsAt(stem, palettes, color), doc[..s]).Success?
    ensures DocRows(stem, doc, palettes, color) == Failure(IndexOutOfRange)
  {
    var f := SubjectRowsAt(stem, palettes, color);
    TraverseExtend(f, doc, s);
    TraverseStops(f, doc, s + 1);
  }

  lemma DocRowsNextSubject(stem: string, doc: Document, palettes: seq<Palette>, color: nat, s: nat,
                           tables: seq<seq<Row>>, here: seq<Row>)
    requires s < |doc| && color < |palettes|
    requires Traverse(SubjectRowsAt(stem, palettes, color), doc[..s]) == Success(tables)
    requires Traverse(StepRowAt(stem, doc[s].0, palettes[color]), doc[s].1) == Success(here)
    ensures Traverse(SubjectRowsAt(stem, palettes, color), doc[..s + 1]) == Success(tables + [here])
  {
    TraverseExtend(SubjectRowsAt(stem, palettes, color), doc, s);
  }

  /** `process_file(file, color)`: the nested loops append one tuple per step,
      with the colour counter z counting down per subject; then the results
      are coerced and the columns built. */
  method ProcessFile(file: FileRef, color: nat, palettes: seq<Palette>, fs: FileSystem) returns (r: Result<seq<Row>, Error>)
    ensures r == FileRows(file, color, palettes, fs)
  {
    if file.path !in fs.documents {
      return Failure(NoSuchPath(file.path));
    }
    var data := fs.documents[file.path];
    ghost var f := SubjectRowsAt(file.stem, palettes, color);
    var x: seq<RawRow> := [];
    ghost var tables: seq<seq<Row>> := [];
    for s := 0 to |data|
      invariant Traverse(f, data[..s]) == Success(tables)
      invariant Coerced(file.stem, x) == Flat(tables)
    {
      var subject := data[s].0;
      var steps := data[s].1;
      if color >= |palettes| {
        DocRowsStopAtPalette(file.stem, data, palettes, color, s);
        return Failure(IndexOutOfRange);
      }
      var palette := palettes[color];
      ghost var g := StepRowAt(file.stem, subject, palette);
      ghost var here: seq<Row> := [];
      var z: int := |palette| - 1;
      for j := 0 to |steps|
        invariant z == |palette| - 1 - j
        invariant Traverse(g, steps[..j]) == Success(here)
        invariant Coerced(file.stem, x) == Flat(tables) + here
      {
        var raw := RawResult(steps[j].1);
        if raw.Failure? {
          DocRowsStopAtStep(file.stem, data, palettes, color, s, j, raw.error);
          return Failure(raw.error);
        }
        var c := PyIndex(palette, z);
        if c.Failure? {
          DocRowsStopAtStep(file.stem, data, palettes, color, s, j, c.error);
          return Failure(c.error);
        }
        var t := RawRow(subject, steps[j].0, raw.value, steps[j].1, c.value);
        assert StepRow(file.stem, subject, steps[j], palette, j) == Success(ToRow(file.stem, t));
        assert Traverse(g, steps[..j + 1]) == Success(here + [ToRow(file.stem, t)]) by {
          TraverseExtend(g, steps, j);
        }
        CoercedSnoc(file.stem, x, t);
        x := x + [t];
        here := here + [ToRow(file.stem, t)];
        z := z - 1;
      }
      assert steps[..|steps|] == steps;
      DocRowsNextSubject(file.stem, data, palettes, color, s, tables, here);
      tables := tables + [here];
    }
    assert data[..|data|] == data;
    return Success(Coerced(file.stem, x));
  }

  // ---------------------------------------------------- process_files, concat

  function FileRowsAt(palettes: seq<Palette>, fs: FileSystem): (FileRef, nat) -> Result<seq<Row>, Error>
  {
    (file: FileRef, i: nat) => FileRows(file, i, palettes, fs)
  }

  /** The per-file tables, the file at position i using palette i. */
  function FileTables(files: seq<FileRef>, palettes: seq<Palette>, fs: FileSystem): Result<seq<seq<Row>>, Error>
  {
    Traverse(FileRowsAt(palettes, fs), files)
  }

  /** `pd.concat(tables)`. */
  function Concat(tables: seq<seq<Row>>): Result<seq<Row>, Error>
  {
    if tables == [] then Failure(NothingToConcatenate) else Success(Flat(tables))
  }

  /** `pd.concat` raises exactly on an empty list; otherwise it lays the
      tables end to end, as many rows as the tables hold together. */
  lemma ConcatShape(tables: seq<seq<Row>>)
    ensures Concat(tables) == Failure(NothingToConcatenate) <==> tables == []
    ensures Concat(tables).Success? ==>
              Concat(tables).value == Flat(tables) && |Concat(tables).value| == SumLengths(tables)
  {
  }

  /** `process_files(path)`. */
  function ProcessedFiles(path: string, palettes: seq<Palette>, fs: FileSystem): Result<seq<Row>, Error>
  {
    var listing :- ListDir(fs, path);
    var tables :- FileTables(PulledFiles(path, listing), palettes, fs);
    Concat(tables)
  }

  /** The table of a directory is the tables of its result files, in listing
      order, laid end to end, the file at position i using palette i. It is
      built exactly when the directory exists, has a result file, and every
      file's rows can be built. */
  lemma ProcessedFilesLayout(path: string, palettes: seq<Palette>, fs: FileSystem)
    ensures ProcessedFiles(path, palettes, fs).Success? <==>
              path in fs.listings &&
              var files := PulledFiles(path, fs.listings[path]);
              files != [] && forall i :: 0 <= i < |files| ==> FileRows(files[i], i, palettes, fs).Success?
    ensures ProcessedFiles(path, palettes, fs).Success? ==>
              var files := PulledFiles(path, fs.listings[path]);
              var tables := FileTables(files, palettes, fs).value;
              ProcessedFiles(path, palettes, fs).value == Flat(tables) &&
              |tables| == |files| &&
              forall i :: 0 <= i < |files| ==> FileRows(files[i], i, palettes, fs) == Success(tables[i])
  {
    if path in fs.listings {
      TraverseAll(FileRowsAt(palettes, fs), PulledFiles(path, fs.listings[path]));
    }
  }

  /** A directory without result files makes `pd.concat` fail. */
  lemma ProcessedFilesNoResultFile(path: string, palettes: seq<Palette>, fs: FileSystem)
    requires path in fs.listings
    requires forall i :: 0 <= i < |fs.listings[path]| ==> !IsJsonName(fs.listings[path][i])
    ensures ProcessedFiles(path, palettes, fs) == Failure(NothingToConcatenate)
  {
    var files := PulledFiles(path, fs.listings[path]);
    PulledFilesSound(path, fs.listings[path]);
  }

  /** With a palette table of n palettes, every result file from position n on
      must have no subjects for the table to be built. */
  lemma ProcessedFilesPaletteLimit(path: string, palettes: seq<Palette>, fs: FileSystem)
    requires ProcessedFiles(path, palettes, fs).Success?
    ensures path in fs.listings
    ensures var files := PulledFiles(path, fs.listings[path]);
              forall i :: |palettes| <= i < |files| ==> ReadJson(fs, files[i].path) == Success([])
  {
    ProcessedFilesLayout(path, palettes, fs);
    var files := PulledFiles(path, fs.listings[path]);
    forall i | |palettes| <= i < |files| ensures ReadJson(fs, files[i].path) == Success([]) {
      var doc := ReadJson(fs, files[i].path).value;
      if doc != [] {
        DocRowsNeedPalette(files[i].stem, doc, palettes, i);
      }
    }
  }

  /** The loop of `process_files` (and of `pull_directories` over one
      directory): `process_file` on each entry with its position. */
  method ProcessFileList(files: seq<FileRef>, palettes: seq<Palette>, fs: FileSystem) returns (r: Result<seq<seq<Row>>, Error>)
    ensures r == FileTables(files, palettes, fs)
  {
    ghost var f := FileRowsAt(palettes, fs);
    var dfs: seq<seq<Row>> := [];
    for i := 0 to |files|
      invariant Traverse(f, files[..i]) == Success(dfs)
    {
      TraverseExtend(f, files, i);
      var t := ProcessFile(files[i], i, palettes, fs);
      if t.Failure? {
        TraverseStops(f, files, i + 1);
        return Failure(t.error);
      }
      dfs := dfs + [t.value];
    }
    assert files[..|files|] == files;
    return Success(dfs);
  }

  /** `process_files(path)`. */
  method ProcessFiles(path: string, palettes: seq<Palette>, fs: FileSystem) returns (r: Result<seq<Row>, Error>)
    ensures r == ProcessedFiles(path, palettes, fs)
  {
    var listing := ListDir(fs, path);
    if listing.Failure? {
      return Failure(listing.error);
    }
    var files := PullFiles(path, listing.value);
    var dfs := ProcessFileList(files, palettes, fs);
    if dfs.Failure? {
      return Failure(dfs.error);
    }
    r := Concat(dfs.value);
  }

  // --------------------------------------------------------- pull_directories

  /** `os.path.join(path, name)`. */
  function Join(path: string, name: string): string
  {
    if |name| > 0 && name[0] == '/' then name
    else if path == "" || path[|path| - 1] == '/' then path + name
    else path + "/" + name
  }

  /** An absolute name replaces the path; otherwise the joined path starts
      with the path and ends with the name, with a single '/' between them
      unless the path is empty or already ends with one. */
  lemma JoinShape(path: string, name: string)
    ensures var r := Join(path, name);
            (|name| > 0 && name[0] == '/' ==> r == name) &&
            (!(|name| > 0 && name[0] == '/') ==> |r| >= |path| && r[..|path|] == path) &&
            |r| >= |name| && r[|r| - |name|..] == name
    ensures !(|name| > 0 && name[0] == '/') && path != "" ==>
              Join(path, name) == if path[|path| - 1] == '/' then path + name else path + "/" + name
  {
  }

  /** The triple `(directory, pull_files(...), [])` whose list is filled later. */
  datatype Group = Group(name: string, files: seq<FileRef>, tables: seq<seq<Row>>)

  function ListGroup(path: string, fs: FileSystem, name: string): Result<Group, Error>
  {
    var listing :- ListDir(fs, Join(path, name));
    Success(Group(name, PulledFiles(Join(path, name), listing), []))
  }

  function ListGroupAt(path: string, fs: FileSystem): (string, nat) -> Result<Group, Error>
  {
    (name: string, i: nat) => ListGroup(path, fs, name)
  }

  /** The group with the tables of its files appended to its list. */
  function FillGroup(palettes: seq<Palette>, fs: FileSystem, g: Group): Result<Group, Error>
  {
    var tables :- FileTables(g.files, palettes, fs);
    Success(g.(tables := g.tables + tables))
  }

  function FillGroupAt(palettes: seq<Palette>, fs: FileSystem): (Group, nat) -> Result<Group, Error>
  {
    (g: Group, i: nat) => FillGroup(palettes, fs, g)
  }

  function GroupRows(g: Group): Result<(string, seq<Row>), Error>
  {
    var rows :- Concat(g.tables);
    Success((g.name, rows))
  }

  function GroupRowsAt(): (Group, nat) -> Result<(string, seq<Row>), Error>
  {
    (g: Group, i: nat) => GroupRows(g)
  }

  /** `pull_directories(path)`: all directories are listed, then all tables are
      built, then each directory's tables are concatenated. */
  function PulledDirectories(path: string, palettes: seq<Palette>, fs: FileSystem): Result<seq<(string, seq<Row>)>, Error>
  {
    var dirs :- ListDir(fs, path);
    var listed :- Traverse(ListGroupAt(path, fs), dirs);
    var filled :- Traverse(FillGroupAt(palettes, fs), listed);
    Traverse(GroupRowsAt(), filled)
  }

  /** The three steps `pull_directories` takes for one directory amount to
      `process_files` on that directory. */
  lemma GroupIsProcessedFiles(path: string, palettes: seq<Palette>, fs: FileSystem, name: string)
    ensures ProcessedFiles(Join(path, name), palettes, fs).Success? <==>
              ListGroup(path, fs, name).Success? &&
              FillGroup(palettes, fs, ListGroup(path, fs, name).value).Success? &&
              GroupRows(FillGroup(palettes, fs, ListGroup(path, fs, name).value).value).Success?
    ensures ProcessedFiles(Join(path, name), palettes, fs).Success? ==>
              GroupRows(FillGroup(palettes, fs, ListGroup(path, fs, name).value).value).value ==
                (name, ProcessedFiles(Join(path, name), palettes, fs).value)
  {
    if ListGroup(path, fs, name).Success? {
      var g := ListGroup(path, fs, name).value;
      assert g.tables == [];
      if FillGroup(palettes, fs, g).Success? {
        assert FillGroup(palettes, fs, g).value.tables == FileTables(g.files, palettes, fs).value;
      }
    }
  }

  /** One (name, table) pair per directory, in listing order, and each table is
      exactly what `process_files` gives for that directory, so the palette
      position starts again at 0 in every directory. */
  lemma PulledDirectoriesPerDirectory(path: string, palettes: seq<Palette>, fs: FileSystem)
    requires PulledDirectories(path, palettes, fs).Success?
    ensures path in fs.listings
    ensures var dirs, out := fs.listings[path], PulledDirectories(path, palettes, fs).value;
            |out| == |dirs| &&
            forall i :: 0 <= i < |dirs| ==>
              out[i].0 == dirs[i] && ProcessedFiles(Join(path, dirs[i]), palettes, fs) == Success(out[i].1)
  {
    var dirs := fs.listings[path];
    var f1, f2, f3 := ListGroupAt(path, fs), FillGroupAt(palettes, fs), GroupRowsAt();
    var listed := Traverse(f1, dirs).value;
    var filled := Traverse(f2, listed).value;
    var out := Traverse(f3, filled).value;
    assert out == PulledDirectories(path, palettes, fs).value;
    forall i | 0 <= i < |dirs|
      ensures out[i].0 == dirs[i] && ProcessedFiles(Join(path, dirs[i]), palettes, fs) == Success(out[i].1)
    {
      assert ListGroup(path, fs, dirs[i]) == Success(listed[i]) by { TraverseAll(f1, dirs); }
      assert FillGroup(palettes, fs, listed[i]) == Success(filled[i]) by { TraverseAll(f2, listed); }
      assert GroupRows(filled[i]) == Success(out[i]) by { TraverseAll(f3, filled); }
      GroupIsProcessedFiles(path, palettes, fs, dirs[i]);
    }
  }

  /** The directories' tables are built exactly when the root can be listed and
      every directory's table can be built on its own. */
  lemma PulledDirectoriesSucceed(path: string, palettes: seq<Palette>, fs: FileSystem)
    ensures PulledDirectories(path, palettes, fs).Success? <==>
              path in fs.listings &&
              forall i :: 0 <= i < |fs.listings[path]| ==>
                ProcessedFiles(Join(path, fs.listings[path][i]), palettes, fs).Success?
  {
    if PulledDirectories(path, palettes, fs).Success? {
      PulledDirectoriesPerDirectory(path, palettes, fs);
    } else if path in fs.listings {
      var dirs := fs.listings[path];
      var f1, f2, f3 := ListGroupAt(path, fs), FillGroupAt(palettes, fs), GroupRowsAt();
      if forall i :: 0 <= i < |dirs| ==> ProcessedFiles(Join(path, dirs[i]), palettes, fs).Success? {
        forall i | 0 <= i < |dirs| ensures f1(dirs[i], i).Success? {
          GroupIsProcessedFiles(path, palettes, fs, dirs[i]);
        }
        TraverseAll(f1, dirs);
        var listed := Traverse(f1, dirs).value;
        forall i | 0 <= i < |listed| ensures f2(listed[i], i).Success? {
          assert ListGroup(path, fs, dirs[i]) == Success(listed[i]);
          GroupIsProcessedFiles(path, palettes, fs, dirs[i]);
        }
        TraverseAll(f2, listed);
        var filled := Traverse(f2, listed).value;
        forall i | 0 <= i < |filled| ensures f3(filled[i], i).Success? {
          assert ListGroup(path, fs, dirs[i]) == Success(listed[i]);
          assert FillGroup(palettes, fs, listed[i]) == Success(filled[i]);
          GroupIsProcessedFiles(path, palettes, fs, dirs[i]);
        }
        TraverseAll(f3, filled);
        assert false;
      }
    }
  }

  /** `pull_directories(path)`: the triples are built, each triple's list is
      filled in place, and then each is concatenated. */
  method PullDirectories(path: string, palettes: seq<Palette>, fs: FileSystem) returns (r: Result<seq<(string, seq<Row>)>, Error>)
    ensures r == PulledDirectories(path, palettes, fs)
  {
    var dirs := ListDir(fs, path);
    if dirs.Failure? {
      return Failure(dirs.error);
    }
    var names := dirs.value;
    ghost var f1, f2, f3 := ListGroupAt(path, fs), FillGroupAt(palettes, fs), GroupRowsAt();
    var groups: seq<Group> := [];
    for i := 0 to |names|
      invariant Traverse(f1, names[..i]) == Success(groups)
    {
      TraverseExtend(f1, names, i);
      var sub := Join(path, names[i]);
      var listing := ListDir(fs, sub);
      if listing.Failure? {
        TraverseStops(f1, names, i + 1);
        return Failure(listing.error);
      }
      var files := PullFiles(sub, listing.value);
      groups := groups + [Group(names[i], files, [])];
    }
    assert names[..|names|] == names;
    ghost var listed := groups;
    for i := 0 to |groups|
      invariant |groups| == |listed|
      invariant Traverse(f2, listed[..i]) == Success(groups[..i])
      invariant groups[i..] == listed[i..]
    {
      TraverseExtend(f2, listed, i);
      var dfs := ProcessFileList(groups[i].files, palettes, fs);
      if dfs.Failure? {
        TraverseStops(f2, listed, i + 1);
        return Failure(dfs.error);
      }
      groups := groups[i := groups[i].(tables := groups[i].tables + dfs.value)];
      assert groups[..i + 1] == groups[..i] + [groups[i]];
    }
    assert listed[..|listed|] == listed && groups[..|groups|] == groups;
    var out: seq<(string, seq<Row>)> := [];
    for i := 0 to |groups|
      invariant Traverse(f3, groups[..i]) == Success(out)
    {
      TraverseExtend(f3, groups, i);
      var rows := Concat(groups[i].tables);
      if rows.Failure? {
        TraverseStops(f3, groups, i + 1);
        return Failure(rows.error);
      }
      out := out + [(groups[i].name, rows.value)];
    }
    return Success(out);
  }

  // --------------------------------------------------------- generate_summary

  function Pipelines(rows: seq<Row>): (ps: seq<string>)
    ensures |ps| == |rows| && forall i :: 0 <= i < |rows| ==> ps[i] == rows[i].pipeline
  {
    seq(|rows|, i requires 0 <= i < |rows| => rows[i].pipeline)
  }

  /** The number of rows whose Result is -1. */
  function CountMissing(rows: seq<Row>): (n: nat)
    ensures n <= |rows|
  {
    if rows == [] then 0
    else CountMissing(rows[..|rows| - 1]) + (if rows[|rows| - 1].result == MissingResult then 1 else 0)
  }

  /** No row is missing exactly when the missing count is 0, and every row is
      missing exactly when it is the row count. */
  lemma {:induction false} CountMissingExtremes(rows: seq<Row>)
    ensures CountMissing(rows) == 0 <==> forall i :: 0 <= i < |rows| ==> rows[i].result != MissingResult
    ensures CountMissing(rows) == |rows| <==> forall i :: 0 <= i < |rows| ==> rows[i].result == MissingResult
  {
    if rows != [] {
      var init := rows[..|rows| - 1];
      CountMissingExtremes(init);
      assert forall i :: 0 <= i < |init| ==> init[i] == rows[i];
    }
  }

  /** The number of rows of pipeline p whose Result is -1. */
  function MissingIn(rows: seq<Row>, p: string): (n: nat)
    ensures n <= CountMissing(rows)
  {
    if rows == [] then 0
    else
      var last := rows[|rows| - 1];
      MissingIn(rows[..|rows| - 1], p) + (if last.pipeline == p && last.result == MissingResult then 1 else 0)
  }

  /** A pipeline has no missing rows exactly when its count is 0. */
  lemma {:induction false} MissingInNone(rows: seq<Row>, p: string)
    ensures MissingIn(rows, p) == 0 <==> forall i :: 0 <= i < |rows| && rows[i].pipeline == p ==> rows[i].result != MissingResult
  {
    if rows != [] {
      var init := rows[..|rows| - 1];
      MissingInNone(init, p);
      assert forall i :: 0 <= i < |init| ==> init[i] == rows[i];
    }
  }

  /** The sum of the per-pipeline missing counts over the pipelines `ps`. */
  function SumMissing(rows: seq<Row>, ps: seq<string>): nat
  {
    if ps == [] then 0 else SumMissing(rows, ps[..|ps| - 1]) + MissingIn(rows, ps[|ps| - 1])
  }

  function Occurrences(ps: seq<string>, p: string): nat
  {
    if ps == [] then 0 else Occurrences(ps[..|ps| - 1], p) + (if ps[|ps| - 1] == p then 1 else 0)
  }

  lemma {:induction false} OccursOnce(ps: seq<string>, p: string)
    requires forall i, j :: 0 <= i < j < |ps| ==> ps[i] != ps[j]
    ensures Occurrences(ps, p) == if p in ps then 1 else 0
  {
    if ps != [] {
      var init := ps[..|ps| - 1];
      OccursOnce(init, p);
      assert ps == init + [ps[|ps| - 1]];
    }
  }

  lemma {:induction false} SumMissingSnoc(rows: seq<Row>, r: Row, ps: seq<string>)
    ensures SumMissing(rows + [r], ps) ==
              SumMissing(rows, ps) + (if r.result == MissingResult then Occurrences(ps, r.pipeline) else 0)
  {
    if ps != [] {
      SumMissingSnoc(rows, r, ps[..|ps| - 1]);
      assert (rows + [r])[..|rows|] == rows;
    }
  }

  lemma {:induction false} SumMissingCovers(rows: seq<Row>, ps: seq<string>)
    requires forall i, j :: 0 <= i < j < |ps| ==> ps[i] != ps[j]
    requires forall i :: 0 <= i < |rows| ==> rows[i].pipeline in ps
    ensures SumMissing(rows, ps) == CountMissing(rows)
  {
    if rows == [] {
      SumMissingNone(ps);
    } else {
      var init, last := rows[..|rows| - 1], rows[|rows| - 1];
      assert forall i :: 0 <= i < |init| ==> init[i] == rows[i];
      SumMissingCovers(init, ps);
      SumMissingSnoc(init, last, ps);
      OccursOnce(ps, last.pipeline);
      assert init + [last] == rows;
      assert CountMissing(rows) == CountMissing(init) + (if last.result == MissingResult then 1 else 0);
    }
  }

  lemma {:induction false} SumMissingNone(ps: seq<string>)
    ensures SumMissing([], ps) == 0
  {
    if ps != [] {
      SumMissingNone(ps[..|ps| - 1]);
    }
  }

  /** The per-pipeline missing counts of the summary add up to its missing total. */
  lemma PerPipelineSumsToMissing(rows: seq<Row>)
    ensures SumMissing(rows, Unique(Pipelines(rows))) == CountMissing(rows)
  {
    var ps := Pipelines(rows);
    UniqueMembers(ps);
    UniqueDistinct(ps);
    forall i | 0 <= i < |rows| ensures rows[i].pipeline in Unique(ps) {
      assert ps[i] == rows[i].pipeline;
    }
    SumMissingCovers(rows, Unique(ps));
  }

  /** The summary line of one pipeline: its name and its number of rows with
      Result -1. */
  function PipelineLine(rows: seq<Row>, p: string): Token
  {
    Text(p + ": " + Str(MissingIn(rows, p)))
  }

  /** The lines of the summary card: the row count, the number of rows with
      Result -1, and one line per distinct pipeline (in first-seen order) with
      its number of rows with Result -1. */
  method GenerateSummary(rows: seq<Row>) returns (card: seq<Token>)
    ensures var ps := Unique(Pipelines(rows));
            |card| == 5 + 2 * |ps| &&
            card[..5] == [Heading("Summary"), Text("Total number of datapoints: " + Str(|rows|)), Break,
                          Text("Total number of missing datapoints: " + Str(CountMissing(rows))), Break] &&
            forall i :: 0 <= i < |ps| ==>
              card[5 + 2 * i] == PipelineLine(rows, ps[i]) && card[6 + 2 * i] == Break
  {
    var total := Str(|rows|);
    var missing := Str(CountMissing(rows));
    var head := [Heading("Summary"), Text("Total number of datapoints: " + total), Break,
                 Text("Total number of missing datapoints: " + missing), Break];
    card := head;
    var pipelines := Unique(Pipelines(rows));
    for k := 0 to |pipelines|
      invariant |card| == 5 + 2 * k
      invariant card[..5] == head
      invariant forall i :: 0 <= i < k ==>
                  card[5 + 2 * i] == PipelineLine(rows, pipelines[i]) && card[6 + 2 * i] == Break
    {
      var line := PipelineLine(rows, pipelines[k]);
      ghost var before := card;
      card := card + [line, Break];
      assert card[..5] == before[..5];
      forall i | 0 <= i < k + 1
        ensures card[5 + 2 * i] == PipelineLine(rows, pipelines[i]) && card[6 + 2 * i] == Break
      {
        if i < k {
          assert card[5 + 2 * i] == before[5 + 2 * i] && card[6 + 2 * i] == before[6 + 2 * i];
        }
      }
    }
  }
}
