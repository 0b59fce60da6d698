/**
 * The compiler object itself: `HxGuiCompiler` keeps the six fields `reset` sets up and
 * updates them in place, line by line. Each method is proved to leave the fields as the
 * matching function of the Parsing and Generator modules says; what those functions
 * guarantee is proved there. What `parse` prints is returned to the caller as a
 * sequence of reports rather than written to a console.
 */
module HxGui {
  import opened Wrappers
  import opened Text
  import opened OrderedMap
  import opened Patterns
  import opened Actions
  import opened Parsing
  import opened Generator

  /** The reports a line prints: none, or the one it raised. */
  function Printed(report: Option<Diagnostic>): (r: seq<Diagnostic>)
    ensures report.Some? ==> r == [report.value]
    ensures report.None? ==> r == []
  {
    if report.Some? then [report.value] else []
  }

  class HxGuiCompiler {
    var pythonCode: seq<string>
    var setupCode: seq<string>
    var widgetCounters: map<string, nat>
    var screens: Dict<string, string>
    var namedWidgets: Dict<string, string>
    var gridConfig: Dict<string, Occupancy>

    /** The fields as a `State`, with `printed` as the reports printed so far. */
    function Snapshot(printed: seq<Diagnostic>): State
      reads this
    {
      State(pythonCode, setupCode, widgetCounters, screens, namedWidgets, gridConfig, printed)
    }

    /** A new compiler holds what `reset` leaves. */
    constructor()
      ensures Snapshot([]) == Initial
    {
      pythonCode, setupCode := [], [];
      widgetCounters, screens, namedWidgets := map[], Empty(), Empty();
      gridConfig := Empty();
    }

    /** `reset`: every buffer, counter and table empty. */
    method Reset()
      modifies this
      ensures Snapshot([]) == Initial
    {
      pythonCode, setupCode := [], [];
      widgetCounters, screens, namedWidgets := map[], Empty(), Empty();
      gridConfig := Empty();
    }

    /** `_get_widget_name(bucket)`: the bucket's counter goes up by one, no other counter
        moves, and the name is the sanitised bucket with the new count. */
    method GetWidgetName(bucket: string) returns (name: string)
      modifies this`widgetCounters
      ensures Count(widgetCounters, bucket) == Count(old(widgetCounters), bucket) + 1
      ensures forall b :: b != bucket ==> Count(widgetCounters, b) == Count(old(widgetCounters), b)
      ensures name == VarName(bucket, Count(widgetCounters, bucket))
      ensures (widgetCounters, name) == Allocate(old(widgetCounters), bucket)
    {
      var count := Count(widgetCounters, bucket) + 1;
      widgetCounters := widgetCounters[bucket := count];
      name := Sanitize(bucket) + "_" + NatToString(count);
    }

    /** `_parse_props(optionText)`: each match of the option pattern, stripped, is put in
        a fresh dictionary in order, so a later match of a key overwrites an earlier one. */
    method ParseProps(optionText: string) returns (props: Dict<string, string>)
      ensures props == Props(optionText)
    {
      var matches := FindOptions(optionText, 0);
      ghost var stripped := StripAll(matches);
      props := Empty();
      var i := 0;
      while i < |matches|
        invariant 0 <= i <= |matches|
        invariant props == PutAll(Empty(), stripped[..i])
      {
        assert stripped[..i + 1][..i] == stripped[..i];
        props := Put(props, Strip(matches[i].0), Strip(matches[i].1));
        i := i + 1;
      }
      assert stripped[..|matches|] == stripped;
    }

    /** The grid updates of a widget line: the screen's entry is created if missing, its
        variable is looked up, then the integer row and the integer column are added.
        A row or column that is not an integer stops the updates where they stand. */
    method OccupyGrid(screen: string, row: string, col: string) returns (parent: Option<string>, failure: Option<Failure>)
      modifies this`gridConfig
      ensures parent == Lookup(screens, screen)
      ensures match Occupy(old(gridConfig), screen, row, col)
        case Ok(grid) => failure.None? && gridConfig == grid
        case Err((grid, f)) => failure == Some(f) && gridConfig == grid
    {
      if !HasKey(gridConfig, screen) {
        gridConfig := Put(gridConfig, screen, Unoccupied);
      }
      parent := Lookup(screens, screen);
      var r := ParseInt(row);
      if r.None? {
        return parent, Some(BadRow);
      }
      gridConfig := AddRow(gridConfig, screen, r.value);
      var c := ParseInt(col);
      if c.None? {
        return parent, Some(BadColumn);
      }
      gridConfig := AddCol(gridConfig, screen, c.value);
      failure := None;
    }

    /** The rest of a widget line once the grid is updated: a variable is allocated and
        registered under the widget's name, the consumed options are popped, and the
        widget's statement and its grid statement are appended, unless building the
        statement raises. */
    method DeclareWidget(ghost printed: seq<Diagnostic>, w: WidgetMatch, props: Dict<string, string>,
                         parent: Option<string>, row: string, col: string) returns (failure: Option<Failure>)
      modifies this
      ensures match Declare(old(Snapshot(printed)), w, props, parent, ConfigItems(ConfigProps(props)), row, col)
        case Ok(next) => failure.None? && Snapshot(printed) == next
        case Err(abort) => failure == Some(abort.failure) && Snapshot(printed) == abort.partial
    {
      ghost var st0 := old(Snapshot(printed));
      var widgetName := Lookup(props, "name");
      var widgetVar := GetWidgetName(OrElse(widgetName, w.kind));
      if widgetName.Some? && widgetName.value != "" {
        namedWidgets := Put(namedWidgets, widgetName.value, widgetVar);
      }
      ghost var st1 := st0.(counters := widgetCounters, named := Register(st0.named, widgetName, widgetVar));
      assert Snapshot(printed) == st1;
      var rest := props;
      var actionStr := Lookup(rest, "action");
      rest := Remove(rest, "action");
      rest := Remove(rest, "name");
      var colspan := Lookup(rest, "colspan").GetOr("1");
      rest := Remove(rest, "colspan");
      assert rest == ConfigProps(props);
      assert colspan == Lookup(props, "colspan").GetOr("1");
      var configItems := ConfigItems(rest);
      var stmt := Construct(w.kind, widgetVar, parent, w.content, actionStr, configItems);
      if stmt.Err? {
        assert Declare(st0, w, props, parent, configItems, row, col) == Err(Abort(st1, stmt.error));
        return Some(stmt.error);
      }
      pythonCode := pythonCode + [stmt.value];
      pythonCode := pythonCode + [GridStatement(widgetVar, row, col, colspan)];
      assert Declare(st0, w, props, parent, configItems, row, col)
          == Ok(st1.(body := st1.body + [stmt.value] + [GridStatement(widgetVar, row, col, colspan)]));
      failure := None;
    }

    /** The body of `parse` for a line of the widget shape, up to the statement that
        raises, if one does: what was changed before it stays changed. */
    method PlaceWidget(ghost printed: seq<Diagnostic>, w: WidgetMatch) returns (failure: Option<Failure>)
      modifies this
      ensures match WidgetStep(old(Snapshot(printed)), w)
        case Ok(next) => failure.None? && Snapshot(printed) == next
        case Err(abort) => failure == Some(abort.failure) && Snapshot(printed) == abort.partial
    {
      var pos := SplitOn(w.pos, ',');
      if |pos| != 2 {
        return Some(BadPosition);
      }
      var row, col := pos[0], pos[1];
      var props := ParseProps(w.options);
      var parent, gridFailure := OccupyGrid(w.screen, row, col);
      if gridFailure.Some? {
        return gridFailure;
      }
      failure := DeclareWidget(printed, w, props, parent, row, col);
    }

    /** `screen T`: the screen's occupancy is reset, a frame variable is allocated in
        bucket `screen_T`, the screen table points at it, and the frame is declared. */
    method DeclareScreen(ghost printed: seq<Diagnostic>, target: string)
      modifies this
      ensures Snapshot(printed) == AddScreen(old(Snapshot(printed)), target)
    {
      gridConfig := Put(gridConfig, target, Unoccupied);
      var v := GetWidgetName("screen_" + target);
      screens := Put(screens, target, v);
      setupCode := setupCode + [v + " = tk.Frame(root)"];
    }

    /** The body of `parse` for a line of the simple shape. */
    method ApplySimple(ghost printed: seq<Diagnostic>, m: SimpleMatch)
      modifies this
      ensures Snapshot(printed) == SimpleStep(old(Snapshot(printed)), m)
    {
      ghost var st0 := old(Snapshot(printed));
      var target := StripQuotes(m.target);
      if m.command == "window" {
        setupCode := setupCode + ["root.title(\"" + target + "\")"];
        assert SimpleStep(st0, m) == st0.(setup := setupCode);
      } else if m.command == "screen" {
        DeclareScreen(printed, target);
        assert SimpleStep(st0, m) == AddScreen(st0, target);
      } else if m.command == "show" {
        pythonCode := pythonCode + ["initial_screen = '" + target + "'"];
        assert SimpleStep(st0, m) == st0.(body := pythonCode);
      }
    }

    /** One iteration of the loop of `parse`, returning the report it prints, if any. */
    method ParseLine(ghost printed: seq<Diagnostic>, raw: string) returns (report: Option<Diagnostic>)
      modifies this
      ensures Snapshot(printed + Printed(report)) == Step(old(Snapshot(printed)), raw)
    {
      var line := Strip(raw);
      if line == [] || line[0] == '#' {
        assert printed + [] == printed;
        return None;
      }
      var widgetMatch := MatchWidget(line);
      var simpleMatch := MatchSimple(line);
      report := None;
      if widgetMatch.Some? {
        var failure := PlaceWidget(printed, widgetMatch.value);
        if failure.Some? {
          report := Some(Diagnostic(line, failure.value));
        }
      } else if simpleMatch.Some? {
        ApplySimple(printed, simpleMatch.value);
      }
      assert printed + [] == printed;
    }

    /** `parse(lines)`: reset, then each line in turn; the result is the reports printed. */
    method Parse(lines: seq<string>) returns (printed: seq<Diagnostic>)
      modifies this
      ensures Snapshot(printed) == ParseLines(lines)
    {
      Reset();
      printed := [];
      var i := 0;
      while i < |lines|
        invariant 0 <= i <= |lines|
        invariant Snapshot(printed) == Feed(Initial, lines[..i])
      {
        assert lines[..i + 1][..i] == lines[..i];
        var report := ParseLine(printed, lines[i]);
        printed := printed + Printed(report);
        i := i + 1;
      }
      assert lines[..|lines|] == lines;
    }

    /** The two inner loops of `generate_code_string` for one screen whose variable is
        `v`: a line per row of `config`, then a line per column, appended to `gridCode`. */
    method AppendStretchLines(gridCode: seq<string>, v: string, config: Occupancy) returns (extended: seq<string>)
      ensures extended == gridCode + (RowLines(v, config.rows) + ColumnLines(v, config.cols))
    {
      extended := gridCode;
      var j := 0;
      while j < |config.rows|
        invariant 0 <= j <= |config.rows|
        invariant extended == gridCode + RowLines(v, config.rows[..j])
      {
        RowLinesSnoc(v, config.rows, j);
        extended := extended + [RowLine(v, config.rows[j])];
        j := j + 1;
      }
      assert config.rows[..|config.rows|] == config.rows;
      ghost var withRows := extended;
      j := 0;
      while j < |config.cols|
        invariant 0 <= j <= |config.cols|
        invariant extended == withRows + ColumnLines(v, config.cols[..j])
      {
        ColumnLinesSnoc(v, config.cols, j);
        extended := extended + [ColumnLine(v, config.cols[j])];
        j := j + 1;
      }
      assert config.cols[..|config.cols|] == config.cols;
      assert withRows + ColumnLines(v, config.cols) == gridCode + (RowLines(v, config.rows) + ColumnLines(v, config.cols));
    }

    /** The loop of `generate_code_string` that builds `grid_code`: for each grid entry in
        insertion order whose screen has a non-empty variable, a line per row, then a line
        per column. */
    method GridCodeLines() returns (gridCode: seq<string>)
      ensures gridCode == GridLines(screens, Items(gridConfig))
    {
      var items := Items(gridConfig);
      gridCode := [];
      var i := 0;
      while i < |items|
        invariant 0 <= i <= |items|
        invariant gridCode == GridLines(screens, items[..i])
      {
        GridLinesSnoc(screens, items, i);
        var (screen, config) := items[i];
        var screenVar := Lookup(screens, screen);
        if screenVar.Some? && screenVar.value != "" {
          assert EntryLines(screens, screen, config) == RowLines(screenVar.value, config.rows) + ColumnLines(screenVar.value, config.cols);
          gridCode := AppendStretchLines(gridCode, screenVar.value, config);
        } else {
          assert EntryLines(screens, screen, config) == [];
          assert gridCode + [] == gridCode;
        }
        i := i + 1;
      }
      assert items[..|items|] == items;
    }

    /** `generate_code_string(lines)`: parse, then nothing if neither buffer holds a line,
        else the template around the five sections. The result depends on `lines` alone,
        whatever the compiler held before. */
    method GenerateCodeString(lines: seq<string>) returns (code: Option<string>, printed: seq<Diagnostic>)
      modifies this
      ensures code == Compile(lines)
      ensures Snapshot(printed) == ParseLines(lines)
    {
      printed := Parse(lines);
      if setupCode == [] && pythonCode == [] {
        return None, printed;
      }
      var gridCode := GridCodeLines();
      var screenMap := MapLines("screens", screens);
      var widgetMap := MapLines("named_widgets", namedWidgets);
      var sections := [Join(Indent, setupCode), Join(Indent, pythonCode), Join(Indent, screenMap),
                       Join(Indent, widgetMap), Join(Indent, gridCode)];
      code := Some(Prefix + Join(Indent, sections) + Suffix);
    }
  }
}
