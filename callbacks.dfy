/** The click-to-metadata resolver of nerv/callbacks.py: a click on the
    histogram or on the scatter plot becomes a card naming the clicked
    subject, its Dataset-Pipeline and Result, and one collapsed panel per
    pipeline step of its Metadata. Also the rule by which the scatter plot
    picks its axes when none are chosen. */
module Callbacks {
  import opened Wrappers
  import opened Seqs
  import opened Strings
  import opened Components
  import opened Utility

  const UserfilesUrl: string := "https://portal.cbrain.mcgill.ca/userfiles/"
  const TasksUrl: string := "https://portal.cbrain.mcgill.ca/tasks/inser_ID_here"

  /** An element of a histogram point's `customdata` list. */
  datatype CustomValue = CText(text: string) | CMetadata(metadata: StepRecord) | CNumber(number: int)

  /** A clicked histogram bar: its Result (x), its Dataset-Pipeline (y), and
      its `customdata`. */
  datatype HistogramPoint = HistogramPoint(x: int, y: string, customdata: seq<CustomValue>)

  /** A clicked scatter point: the Result on the x axis and on the y axis. */
  datatype ScatterPoint = ScatterPoint(x: int, y: int)

  /** What a click callback gives back: `dash.no_update`, a card, or the
      exception it raised. */
  datatype Outcome = NoUpdate | Card(body: seq<Token>) | Raised(error: Error)

  // ------------------------------------------------------------- formatting

  /** The result line of a card. A Result of -1 reads "N/A"; any other value
      is printed so that it can be read back. */
  function ResultLine(v: int): (s: string)
    ensures |s| > 8 && s[..8] == "Result: "
    ensures s == "Result: N/A" <==> v == MissingResult
    ensures v != MissingResult ==> Numeral(s[8..]) && Parse(s[8..]) == v
  {
    if v == MissingResult then "Result: N/A"
    else
      var t := Str(v);
      StrRoundTrip(v);
      assert ("Result: " + t)[8] == t[0];
      assert ("Result: " + t)[8..] == t;
      "Result: " + t
  }

  /** A step's status, "Incomplete" when it is null. */
  function StatusText(status: Option<string>): (s: string)
    ensures s == "Incomplete" <==> status == None || status == Some("Incomplete")
    ensures status.Some? ==> s == status.value
  {
    if status.None? then "Incomplete" else status.value
  }

  /** An input, output or task ID: "N/A" when it is null, otherwise a link
      whose text is the ID and whose address is `base` followed by the ID. */
  function IdLink(id: Option<int>, base: string): (t: Token)
    ensures t == Text("N/A") <==> id == None
    ensures id.Some? ==> t.Link? && t.href == base + t.text && Numeral(t.text) && Parse(t.text) == id.value
  {
    match id
    case None => Text("N/A")
    case Some(v) => StrRoundTrip(v); Link(Str(v), base + Str(v))
  }

  /** The tool configuration ID: "N/A" when it is null, otherwise plain text
      that reads back as the ID. */
  function ConfigText(id: Option<int>): (t: Token)
    ensures t == Text("N/A") <==> id == None
    ensures id.Some? ==> t.Text? && Numeral(t.text) && Parse(t.text) == id.value
  {
    match id
    case None => Text("N/A")
    case Some(v) =>
      StrRoundTrip(v);
      assert Str(v)[0] != 'N';
      Text(Str(v))
  }

  /** The collapsed panel of one pipeline step, titled with its key. */
  function StepPanel(key: string, d: Detail): (t: Token)
    ensures t.Panel? && t.title == key && |t.body| == 14
  {
    Panel(key, [Text("Status: "), Text(StatusText(d.status)), Break,
                Text("Input ID: "), IdLink(d.inputID, UserfilesUrl), Break,
                Text("Output ID: "), IdLink(d.outputID, UserfilesUrl), Break,
                Text("Task ID: "), IdLink(d.taskID, TasksUrl), Break,
                Text("Tool Configuration ID: "), ConfigText(d.toolConfigID)])
  }

  /** The panel shows the step's status, its input and output IDs as links
      into the userfiles, its task ID as a link to the tasks page, and its
      tool configuration ID. */
  lemma StepPanelShows(key: string, d: Detail)
    ensures var t := StepPanel(key, d);
            t.body[1] == Text(StatusText(d.status)) &&
            t.body[4] == IdLink(d.inputID, UserfilesUrl) && t.body[7] == IdLink(d.outputID, UserfilesUrl) &&
            t.body[10] == IdLink(d.taskID, TasksUrl) && t.body[13] == ConfigText(d.toolConfigID)
  {
  }

  /** The panel of one metadata entry; an entry without step details (such as
      the "Result" object) has no "status" key. */
  function EntryPanel(entry: (string, Entry)): Result<Token, Error>
  {
    match entry.1
    case StepEntry(d) => Success(StepPanel(entry.0, d))
    case ResultEntry(_) => Failure(KeyNotFound("status"))
  }

  function EntryPanelAt(): ((string, Entry), nat) -> Result<Token, Error>
  {
    (entry: (string, Entry), i: nat) => EntryPanel(entry)
  }

  /** The panels of a row's Metadata: every entry but the last. */
  function StepPanels(meta: StepRecord): Result<seq<Token>, Error>
  {
    Traverse(EntryPanelAt(), AllButLast(meta))
  }

  /** The number of panels a Metadata of this size gets. */
  function PanelCount(meta: StepRecord): nat
  {
    |AllButLast(meta)|
  }

  /** The panels are built exactly when every Metadata entry before the last
      holds step details; zero or one entries give no panels. */
  lemma StepPanelsSucceed(meta: StepRecord)
    ensures StepPanels(meta).Success? <==> forall i :: 0 <= i < PanelCount(meta) ==> meta[i].1.StepEntry?
    ensures |meta| <= 1 ==> StepPanels(meta) == Success([])
  {
    var items := AllButLast(meta);
    TraverseAll(EntryPanelAt(), items);
    forall i | 0 <= i < |items| ensures EntryPanelAt()(items[i], i).Success? == meta[i].1.StepEntry? {
      assert items[i] == meta[i];
    }
  }

  /** One panel per Metadata entry except the last, in Metadata order, each
      titled with its entry's key. */
  lemma StepPanelsAt(meta: StepRecord)
    requires StepPanels(meta).Success?
    ensures var panels := StepPanels(meta).value;
            |panels| == PanelCount(meta) &&
            forall i :: 0 <= i < |panels| ==>
              meta[i].1.StepEntry? && panels[i] == StepPanel(meta[i].0, meta[i].1.detail) && panels[i].title == meta[i].0
  {
    var items := AllButLast(meta);
    TraverseAll(EntryPanelAt(), items);
    forall i | 0 <= i < |items| ensures EntryPanelAt()(items[i], i) == EntryPanel(meta[i]) {
      assert items[i] == meta[i];
    }
  }

  /** The loop `for k, v in list(metadata.items())[:-1]` that appends one
      panel per entry to the card built so far. */
  method AppendStepPanels(card: seq<Token>, meta: StepRecord) returns (r: Result<seq<Token>, Error>)
    ensures StepPanels(meta).Success? ==> r == Success(card + StepPanels(meta).value)
    ensures StepPanels(meta).Failure? ==> r == Failure(StepPanels(meta).error)
  {
    var items := AllButLast(meta);
    ghost var f := EntryPanelAt();
    var metadata := card;
    ghost var panels: seq<Token> := [];
    for i := 0 to |items|
      invariant Traverse(f, items[..i]) == Success(panels)
      invariant metadata == card + panels
    {
      TraverseExtend(f, items, i);
      var (k, v) := items[i];
      if v.ResultEntry? {
        TraverseStops(f, items, i + 1);
        return Failure(KeyNotFound("status"));
      }
      var step := StepPanel(k, v.detail);
      metadata := metadata + [step];
      panels := panels + [step];
    }
    assert items[..|items|] == items;
    return Success(metadata);
  }

  /** The lines naming one clicked point: subject, Dataset-Pipeline, Result. */
  function Section(subject: string, pipeline: string, value: int): seq<Token>
  {
    [Text("Subject: " + subject), Break, Text("Dataset-Pipeline: " + pipeline), Break,
     Text(ResultLine(value)), Break, Text("Pipeline steps:"), Break, Break]
  }

  // -------------------------------------------------------------- histogram

  /** `histogram_click_func(clickData)`; `None` stands for a click payload that
      is None or empty. */
  function HistogramCard(clickData: Option<seq<HistogramPoint>>): (out: Outcome)
    ensures out == NoUpdate <==> clickData == None
  {
    match clickData
    case None => NoUpdate
    case Some(points) =>
      if |points| == 0 then Raised(IndexOutOfRange)
      else
        var p := points[0];
        if |p.customdata| == 0 then Raised(IndexOutOfRange)
        else if !p.customdata[0].CText? then Raised(WrongType)
        else if |p.customdata| < 3 then Raised(IndexOutOfRange)
        else if !p.customdata[2].CMetadata? then Raised(WrongType)
        else
          match StepPanels(p.customdata[2].metadata)
          case Failure(e) => Raised(e)
          case Success(panels) =>
            Card([Heading("Metadata")] + Section(p.customdata[0].text, p.y, p.x) + panels)
  }

  /** A histogram card names the subject in `customdata[0]`, the pipeline in
      `y` and the Result in `x`, and has one panel per entry but the last of
      the Metadata in `customdata[2]`; no table is looked at. */
  lemma HistogramCardContents(clickData: Option<seq<HistogramPoint>>)
    requires HistogramCard(clickData).Card?
    ensures clickData.Some? && |clickData.value| > 0
    ensures var p := clickData.value[0];
            |p.customdata| >= 3 && p.customdata[0].CText? && p.customdata[2].CMetadata?
    ensures var p := clickData.value[0];
            var meta := p.customdata[2].metadata;
            var body := HistogramCard(clickData).body;
            |body| == 10 + PanelCount(meta) && body[0] == Heading("Metadata") &&
            ShowsSection(body, 1, p.customdata[0].text, p.y, p.x, meta)
  {
    var p := clickData.value[0];
    var meta := p.customdata[2].metadata;
    var body := HistogramCard(clickData).body;
    var panels := StepPanels(meta).value;
    assert |panels| == PanelCount(meta) by {
      StepPanelsAt(meta);
    }
    assert body == [Heading("Metadata")] + Section(p.customdata[0].text, p.y, p.x) + panels;
    SectionShown([Heading("Metadata")], p.customdata[0].text, p.y, p.x, meta);
  }

  /** `body`, from position `at`, holds the section naming the subject, the
      Dataset-Pipeline and the Result of one point, followed by the panels of
      its Metadata. */
  predicate ShowsSection(body: seq<Token>, at: nat, subject: string, pipeline: string, value: int, meta: StepRecord)
  {
    StepPanels(meta).Success? &&
    at + 9 + PanelCount(meta) <= |body| &&
    body[at..at + 9] == Section(subject, pipeline, value) &&
    body[at + 9..at + 9 + PanelCount(meta)] == StepPanels(meta).value
  }

  /** A section followed by its panels, placed after `before`, is shown at
      position |before|. */
  lemma SectionShown(before: seq<Token>, subject: string, pipeline: string, value: int, meta: StepRecord)
    requires StepPanels(meta).Success?
    ensures ShowsSection(before + Section(subject, pipeline, value) + StepPanels(meta).value,
                         |before|, subject, pipeline, value, meta)
  {
    var section, panels := Section(subject, pipeline, value), StepPanels(meta).value;
    assert |panels| == PanelCount(meta) by {
      StepPanelsAt(meta);
    }
    SlicesOfConcat(before, section, panels);
  }

  /** Whatever is appended after a section leaves it in place. */
  lemma ShowsSectionExtend(body: seq<Token>, at: nat, subject: string, pipeline: string, value: int, meta: StepRecord, more: seq<Token>)
    requires ShowsSection(body, at, subject, pipeline, value, meta)
    ensures ShowsSection(body + more, at, subject, pipeline, value, meta)
  {
    var end := at + 9 + PanelCount(meta);
    assert (body + more)[at..at + 9] == body[at..at + 9];
    assert (body + more)[at + 9..end] == body[at + 9..end];
  }

  /** Metadata with two steps and a final status entry gives exactly two
      panels, titled with the two step keys. */
  lemma ThreeEntryMetadata(a: Detail, b: Detail, last: Entry)
    ensures StepPanels([("stepA", StepEntry(a)), ("stepB", StepEntry(b)), ("finalStatus", last)])
              == Success([StepPanel("stepA", a), StepPanel("stepB", b)])
  {
    var meta := [("stepA", StepEntry(a)), ("stepB", StepEntry(b)), ("finalStatus", last)];
    assert StepPanels(meta).Success? by {
      StepPanelsSucceed(meta);
      assert PanelCount(meta) == 2 && meta[0].1.StepEntry? && meta[1].1.StepEntry?;
    }
    var panels := StepPanels(meta).value;
    assert |panels| == 2 && panels[0] == StepPanel("stepA", a) && panels[1] == StepPanel("stepB", b) by {
      StepPanelsAt(meta);
    }
    assert panels == [StepPanel("stepA", a), StepPanel("stepB", b)];
  }

  /** `histogram_click_func(clickData)`: the card list is built, then the loop
      appends the step panels. */
  method HistogramClick(clickData: Option<seq<HistogramPoint>>) returns (out: Outcome)
    ensures out == HistogramCard(clickData)
  {
    if clickData.None? {
      return NoUpdate;
    }
    var points := clickData.value;
    if |points| == 0 || |points[0].customdata| == 0 {
      return Raised(IndexOutOfRange);
    }
    var p := points[0];
    if !p.customdata[0].CText? {
      return Raised(WrongType);
    }
    var metadata := [Heading("Metadata")] + Section(p.customdata[0].text, p.y, p.x);
    if |p.customdata| < 3 {
      return Raised(IndexOutOfRange);
    }
    if !p.customdata[2].CMetadata? {
      return Raised(WrongType);
    }
    var card := AppendStepPanels(metadata, p.customdata[2].metadata);
    if card.Failure? {
      return Raised(card.error);
    }
    return Card(card.value);
  }

  // ---------------------------------------------------------------- scatter

  /** An axis choice counts as made when it is neither None nor empty. */
  predicate AxisChosen(axis: Option<string>)
  {
    axis.Some? && axis.value != ""
  }

  /** The axes of the scatter plot: the chosen ones, or, when either is not
      chosen, the first and the last distinct Dataset-Pipeline of the table.
      Used both by `plot_scatter_func` and by `scatter_click_func`. */
  function ScatterAxes(x: Option<string>, y: Option<string>, rows: seq<Row>): (r: Result<(string, string), Error>)
    ensures AxisChosen(x) && AxisChosen(y) ==> r == Success((x.value, y.value))
    ensures !(AxisChosen(x) && AxisChosen(y)) ==> (r.Success? <==> rows != [])
  {
    if AxisChosen(x) && AxisChosen(y) then Success((x.value, y.value))
    else
      var xys := Unique(Pipelines(rows));
      if |xys| == 0 then Failure(IndexOutOfRange)
      else Success((xys[0], xys[|xys| - 1]))
  }

  /** When an axis is missing, both are replaced: x by the Dataset-Pipeline
      of the first row, y by the Dataset-Pipeline that first appears latest. */
  lemma DefaultAxes(x: Option<string>, y: Option<string>, rows: seq<Row>)
    requires !(AxisChosen(x) && AxisChosen(y)) && rows != []
    ensures var ps, axes := Pipelines(rows), ScatterAxes(x, y, rows).value;
            axes.0 == rows[0].pipeline && axes.1 in ps &&
            forall i :: 0 <= i < |rows| ==> FirstIndex(ps, ps[i]) <= FirstIndex(ps, axes.1)
  {
    var ps := Pipelines(rows);
    UniqueFirst(ps);
    UniqueLast(ps, 0);
    forall i | 0 <= i < |rows| ensures FirstIndex(ps, ps[i]) <= FirstIndex(ps, Unique(ps)[|Unique(ps)| - 1]) {
      UniqueLast(ps, i);
    }
  }

  /** The Result column of the rows of one Dataset-Pipeline, in table order
      (`df[df["Dataset-Pipeline"] == pipeline]["Result"]`). */
  function AxisResults(rows: seq<Row>, pipeline: string): (r: seq<int>)
    ensures |r| <= |rows|
    ensures forall v :: v in r <==> exists j :: 0 <= j < |rows| && rows[j].pipeline == pipeline && rows[j].result == v
  {
    if rows == [] then []
    else
      var init, last := rows[..|rows| - 1], rows[|rows| - 1];
      assert forall j :: 0 <= j < |init| ==> init[j] == rows[j];
      if last.pipeline == pipeline then AxisResults(init, pipeline) + [last.result] else AxisResults(init, pipeline)
  }

  /** The two Result series `plot_scatter_func` plots against each other, on
      the axes `ScatterAxes` picks; the figure itself is not modelled. */
  function ScatterSeries(x: Option<string>, y: Option<string>, rows: seq<Row>): (r: Result<(seq<int>, seq<int>), Error>)
    ensures r.Success? <==> ScatterAxes(x, y, rows).Success?
    ensures r.Success? ==>
              var axes := ScatterAxes(x, y, rows).value;
              (forall v :: v in r.value.0 <==> exists j :: 0 <= j < |rows| && rows[j].pipeline == axes.0 && rows[j].result == v) &&
              (forall v :: v in r.value.1 <==> exists j :: 0 <= j < |rows| && rows[j].pipeline == axes.1 && rows[j].result == v)
  {
    var axes :- ScatterAxes(x, y, rows);
    Success((AxisResults(rows, axes.0), AxisResults(rows, axes.1)))
  }

  /** Does a row lie on the clicked point of one axis? */
  predicate Matches(row: Row, pipeline: string, value: int)
  {
    row.pipeline == pipeline && row.result == value
  }

  /** The position of the first row, in table order, with this Dataset-Pipeline
      and this Result (`df[...].iloc[0]`), if there is one. */
  function FirstMatch(rows: seq<Row>, pipeline: string, value: int, from: nat): (r: Option<nat>)
    requires from <= |rows|
    ensures r.Some? ==> from <= r.value < |rows| && Matches(rows[r.value], pipeline, value) &&
                        forall j :: from <= j < r.value ==> !Matches(rows[j], pipeline, value)
    ensures r.None? ==> forall j :: from <= j < |rows| ==> !Matches(rows[j], pipeline, value)
    decreases |rows| - from
  {
    if from == |rows| then None
    else if Matches(rows[from], pipeline, value) then Some(from)
    else FirstMatch(rows, pipeline, value, from + 1)
  }

  /** `scatter_click_func(clickData, x, y, df)`; `None` stands for a click
      payload that is None or empty. */
  function ScatterCard(clickData: Option<seq<ScatterPoint>>, x: Option<string>, y: Option<string>, rows: seq<Row>): (out: Outcome)
    ensures out == NoUpdate <==> clickData == None
  {
    match clickData
    case None => NoUpdate
    case Some(points) =>
      match ScatterAxes(x, y, rows)
      case Failure(e) => Raised(e)
      case Success(axes) =>
        if |points| == 0 then Raised(IndexOutOfRange)
        else
          var p := points[0];
          match FirstMatch(rows, axes.0, p.x, 0)
          case None => Raised(IndexOutOfRange)
          case Some(i) =>
            match StepPanels(rows[i].metadata)
            case Failure(e) => Raised(e)
            case Success(xPanels) =>
              match FirstMatch(rows, axes.1, p.y, 0)
              case None => Raised(IndexOutOfRange)
              case Some(k) =>
                match StepPanels(rows[k].metadata)
                case Failure(e) => Raised(e)
                case Success(yPanels) =>
                  Card([Heading("Metadata")] + Section(rows[i].subject, axes.0, p.x) + xPanels +
                       [Break] + Section(rows[k].subject, axes.1, p.y) + yPanels)
  }

  /** A click on values that the plot draws always finds its rows: when the
      clicked x is in the plotted x series and the clicked y in the y series,
      and the Metadata of every row has step details before its last entry,
      the click gives a card. */
  lemma PlottedClickResolves(points: seq<ScatterPoint>, x: Option<string>, y: Option<string>, rows: seq<Row>)
    requires |points| > 0 && ScatterSeries(x, y, rows).Success?
    requires points[0].x in ScatterSeries(x, y, rows).value.0 && points[0].y in ScatterSeries(x, y, rows).value.1
    requires forall j :: 0 <= j < |rows| ==> StepPanels(rows[j].metadata).Success?
    ensures ScatterCard(Some(points), x, y, rows).Card?
  {
    var axes := ScatterAxes(x, y, rows).value;
    var p := points[0];
    assert FirstMatch(rows, axes.0, p.x, 0).Some? by {
      var j :| 0 <= j < |rows| && rows[j].pipeline == axes.0 && rows[j].result == p.x;
      assert Matches(rows[j], axes.0, p.x);
    }
    assert FirstMatch(rows, axes.1, p.y, 0).Some? by {
      var j :| 0 <= j < |rows| && rows[j].pipeline == axes.1 && rows[j].result == p.y;
      assert Matches(rows[j], axes.1, p.y);
    }
  }

  /** A click at (5, 7) on the axes P1 and P2 names subject A on the x side
      and subject B on the y side. */
  lemma TwoRowClick(aMeta: StepRecord, bMeta: StepRecord)
    requires |aMeta| <= 1 && |bMeta| <= 1
    ensures var rows := [Row("A", "P1", 5, aMeta, "c"), Row("B", "P2", 7, bMeta, "c")];
            ScatterCard(Some([ScatterPoint(5, 7)]), Some("P1"), Some("P2"), rows)
              == Card([Heading("Metadata")] + Section("A", "P1", 5) + [Break] + Section("B", "P2", 7))
  {
    var rows := [Row("A", "P1", 5, aMeta, "c"), Row("B", "P2", 7, bMeta, "c")];
    assert StepPanels(aMeta) == Success([]) && StepPanels(bMeta) == Success([]) by {
      StepPanelsSucceed(aMeta);
      StepPanelsSucceed(bMeta);
    }
    assert ScatterAxes(Some("P1"), Some("P2"), rows) == Success(("P1", "P2"));
    assert FirstMatch(rows, "P1", 5, 0) == Some(0);
    assert FirstMatch(rows, "P2", 7, 0) == Some(1) by {
      assert "P1" != "P2";
      assert FirstMatch(rows, "P2", 7, 1) == Some(1);
    }
    var xs, ys := Section("A", "P1", 5), Section("B", "P2", 7);
    assert [Heading("Metadata")] + xs + [] + [Break] + ys + [] == [Heading("Metadata")] + xs + [Break] + ys;
  }

  /** A click whose x value matches no row of the x pipeline raises instead of
      degrading to "no selection". */
  lemma ScatterStaleClick(clickData: Option<seq<ScatterPoint>>, x: Option<string>, y: Option<string>, rows: seq<Row>)
    requires clickData.Some? && |clickData.value| > 0 && ScatterAxes(x, y, rows).Success?
    requires forall j :: 0 <= j < |rows| ==> !Matches(rows[j], ScatterAxes(x, y, rows).value.0, clickData.value[0].x)
    ensures ScatterCard(clickData, x, y, rows) == Raised(IndexOutOfRange)
  {
  }

  /** A click whose x value resolves but whose y value matches no row of the
      y pipeline raises IndexError as well, once the x panels are built. */
  lemma ScatterStaleClickY(points: seq<ScatterPoint>, x: Option<string>, y: Option<string>, rows: seq<Row>,
                           xAxis: string, yAxis: string, i: nat)
    requires |points| > 0 && ScatterAxes(x, y, rows) == Success((xAxis, yAxis))
    requires i < |rows| && FirstMatch(rows, xAxis, points[0].x, 0) == Some(i) && StepPanels(rows[i].metadata).Success?
    requires forall j :: 0 <= j < |rows| ==> !Matches(rows[j], yAxis, points[0].y)
    ensures ScatterCard(Some(points), x, y, rows) == Raised(IndexOutOfRange)
  {
    assert FirstMatch(rows, yAxis, points[0].y, 0) == None;
  }

  /** The card's parts, when the click resolves on both axes. */
  lemma ScatterCardParts(clickData: Option<seq<ScatterPoint>>, x: Option<string>, y: Option<string>, rows: seq<Row>)
    requires ScatterCard(clickData, x, y, rows).Card?
    ensures clickData.Some? && |clickData.value| > 0 && ScatterAxes(x, y, rows).Success?
    ensures var p, axes := clickData.value[0], ScatterAxes(x, y, rows).value;
            FirstMatch(rows, axes.0, p.x, 0).Some? && FirstMatch(rows, axes.1, p.y, 0).Some?
    ensures var p, axes := clickData.value[0], ScatterAxes(x, y, rows).value;
            var i, k := FirstMatch(rows, axes.0, p.x, 0).value, FirstMatch(rows, axes.1, p.y, 0).value;
            StepPanels(rows[i].metadata).Success? && StepPanels(rows[k].metadata).Success? &&
            ScatterCard(clickData, x, y, rows).body ==
              [Heading("Metadata")] + Section(rows[i].subject, axes.0, p.x) + StepPanels(rows[i].metadata).value +
              [Break] + Section(rows[k].subject, axes.1, p.y) + StepPanels(rows[k].metadata).value
  {
  }

  /** A scatter card names, for each axis, the subject of the first row in
      table order on that axis's pipeline with the clicked value, and lists
      the x section, a break, then the y section, with one panel per Metadata
      entry but the last of each of the two rows. */
  lemma ScatterCardContents(clickData: Option<seq<ScatterPoint>>, x: Option<string>, y: Option<string>, rows: seq<Row>)
    requires ScatterCard(clickData, x, y, rows).Card?
    ensures clickData.Some? && |clickData.value| > 0 && ScatterAxes(x, y, rows).Success?
    ensures var p, axes := clickData.value[0], ScatterAxes(x, y, rows).value;
            FirstMatch(rows, axes.0, p.x, 0).Some? && FirstMatch(rows, axes.1, p.y, 0).Some?
    ensures var p, axes := clickData.value[0], ScatterAxes(x, y, rows).value;
            var i, k := FirstMatch(rows, axes.0, p.x, 0).value, FirstMatch(rows, axes.1, p.y, 0).value;
            var n, m := PanelCount(rows[i].metadata), PanelCount(rows[k].metadata);
            var body := ScatterCard(clickData, x, y, rows).body;
            |body| == 20 + n + m && body[0] == Heading("Metadata") &&
            ShowsSection(body, 1, rows[i].subject, axes.0, p.x, rows[i].metadata) &&
            body[10 + n] == Break &&
            ShowsSection(body, 11 + n, rows[k].subject, axes.1, p.y, rows[k].metadata)
  {
    ScatterCardParts(clickData, x, y, rows);
    var p, axes := clickData.value[0], ScatterAxes(x, y, rows).value;
    var i, k := FirstMatch(rows, axes.0, p.x, 0).value, FirstMatch(rows, axes.1, p.y, 0).value;
    TwoSectionsShown(rows[i].subject, axes.0, p.x, rows[i].metadata, rows[k].subject, axes.1, p.y, rows[k].metadata);
  }

  /** A card of a heading, a section with its panels, a break, and a second
      section with its panels shows both sections where they belong. */
  lemma TwoSectionsShown(xSubject: string, xPipeline: string, xValue: int, xMeta: StepRecord,
                         ySubject: string, yPipeline: string, yValue: int, yMeta: StepRecord)
    requires StepPanels(xMeta).Success? && StepPanels(yMeta).Success?
    ensures var n, m := PanelCount(xMeta), PanelCount(yMeta);
            var body := [Heading("Metadata")] + Section(xSubject, xPipeline, xValue) + StepPanels(xMeta).value +
                        [Break] + Section(ySubject, yPipeline, yValue) + StepPanels(yMeta).value;
            |body| == 20 + n + m && body[0] == Heading("Metadata") &&
            ShowsSection(body, 1, xSubject, xPipeline, xValue, xMeta) &&
            body[10 + n] == Break &&
            ShowsSection(body, 11 + n, ySubject, yPipeline, yValue, yMeta)
  {
    var xs, ys := Section(xSubject, xPipeline, xValue), Section(ySubject, yPipeline, yValue);
    var xp, yp := StepPanels(xMeta).value, StepPanels(yMeta).value;
    var head := [Heading("Metadata")] + xs + xp + [Break];
    var body := head + ys + yp;
    var n := PanelCount(xMeta);
    SectionShown([Heading("Metadata")], xSubject, xPipeline, xValue, xMeta);
    ShowsSectionExtend([Heading("Metadata")] + xs + xp, 1, xSubject, xPipeline, xValue, xMeta, [Break]);
    ShowsSectionExtend(head, 1, xSubject, xPipeline, xValue, xMeta, ys);
    ShowsSectionExtend(head + ys, 1, xSubject, xPipeline, xValue, xMeta, yp);
    SectionShown(head, ySubject, yPipeline, yValue, yMeta);
    assert body[10 + n] == head[10 + n];
  }

  /** `scatter_click_func(clickData, x, y, df)`: the x section and its panels,
      then the y section and its panels. */
  method ScatterClick(clickData: Option<seq<ScatterPoint>>, x: Option<string>, y: Option<string>, rows: seq<Row>) returns (out: Outcome)
    ensures out == ScatterCard(clickData, x, y, rows)
  {
    if clickData.None? {
      return NoUpdate;
    }
    var axes := ScatterAxes(x, y, rows);
    if axes.Failure? {
      return Raised(axes.error);
    }
    var (ax, ay) := axes.value;
    var points := clickData.value;
    if |points| == 0 {
      return Raised(IndexOutOfRange);
    }
    var i := FirstMatch(rows, ax, points[0].x, 0);
    if i.None? {
      return Raised(IndexOutOfRange);
    }
    var metadata := [Heading("Metadata")] + Section(rows[i.value].subject, ax, points[0].x);
    var card := AppendStepPanels(metadata, rows[i.value].metadata);
    if card.Failure? {
      return Raised(card.error);
    }
    var k := FirstMatch(rows, ay, points[0].y, 0);
    if k.None? {
      return Raised(IndexOutOfRange);
    }
    metadata := card.value + [Break] + Section(rows[k.value].subject, ay, points[0].y);
    card := AppendStepPanels(metadata, rows[k.value].metadata);
    if card.Failure? {
      return Raised(card.error);
    }
    return Card(card.value);
  }
}
