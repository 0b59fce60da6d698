/**
 * What `generate_code_string` emits once the lines are parsed: nothing when neither
 * buffer holds a line; otherwise a fixed program template with five sections spliced
 * into `main()`, one indented line per entry, in this order: the setup lines, the body
 * lines, the screen map, the named-widget map and the grid-stretch lines.
 */
module Generator {
  import opened Wrappers
  import opened Text
  import opened OrderedMap
  import opened Parsing

  // ---------------------------------------------------------------- the grid-stretch lines

  /** `f"{screen_var}.grid_rowconfigure({r}, weight=1)"` */
  function RowLine(v: string, r: nat): string {
    v + ".grid_rowconfigure(" + NatToString(r) + ", weight=1)"
  }

  /** `f"{screen_var}.grid_columnconfigure({c}, weight=1)"` */
  function ColumnLine(v: string, c: nat): string {
    v + ".grid_columnconfigure(" + NatToString(c) + ", weight=1)"
  }

  /** One row line per row, in the order of `rows`. */
  function RowLines(v: string, rows: seq<nat>): (r: seq<string>)
    ensures |r| == |rows|
    ensures forall i :: 0 <= i < |rows| ==> r[i] == RowLine(v, rows[i])
  {
    seq(|rows|, i requires 0 <= i < |rows| => RowLine(v, rows[i]))
  }

  /** One column line per column, in the order of `cols`. */
  function ColumnLines(v: string, cols: seq<nat>): (r: seq<string>)
    ensures |r| == |cols|
    ensures forall i :: 0 <= i < |cols| ==> r[i] == ColumnLine(v, cols[i])
  {
    seq(|cols|, i requires 0 <= i < |cols| => ColumnLine(v, cols[i]))
  }

  /** The lines of one grid entry: none unless the screen table gives the screen a
      non-empty variable (`if screen_var:`), else its rows, then its columns. */
  function EntryLines(screens: Dict<string, string>, name: string, occ: Occupancy): seq<string> {
    match Lookup(screens, name)
    case Some(v) => if v != "" then RowLines(v, occ.rows) + ColumnLines(v, occ.cols) else []
    case None => []
  }

  /** The lines of the grid entries `entries`, in order. */
  function GridLines(screens: Dict<string, string>, entries: seq<(string, Occupancy)>): seq<string>
    decreases |entries|
  {
    if entries == [] then []
    else
      var last := entries[|entries| - 1];
      GridLines(screens, entries[..|entries| - 1]) + EntryLines(screens, last.0, last.1)
  }

  /** `grid_code`: the entries of `grid_config` in insertion order. */
  function GridCode(st: State): seq<string> {
    GridLines(st.screens, Items(st.grid))
  }

  // ---------------------------------------------------------------- the two maps

  /** `f"{table}['{n}'] = {v}"` */
  function MapLine(table: string, n: string, v: string): string {
    table + "['" + n + "'] = " + v
  }

  /** One line per entry of `d`, in insertion order. */
  function MapLines(table: string, d: Dict<string, string>): seq<string> {
    var items := Items(d);
    seq(|items|, i requires 0 <= i < |items| => MapLine(table, items[i].0, items[i].1))
  }

  /** `screen_map` */
  function ScreenMap(st: State): seq<string> {
    MapLines("screens", st.screens)
  }

  /** `widget_map` */
  function WidgetMap(st: State): seq<string> {
    MapLines("named_widgets", st.named)
  }

  // ---------------------------------------------------------------- the template

  /** What separates two lines of a section, and two sections: a line break and the
      indentation of the body of `main()`. */
  const Indent: string := "\n    "

  /** The template up to the first section, with its `{{}}` already turned into `{}`. */
  const Prefix: string := @"
# Generated by HxGUI 5.2
import tkinter as tk

def main():
    root = tk.Tk()
    root.geometry(""400x600"")

    screens, named_widgets = {}, {}
    initial_screen = None

    def show_screen(name):
        for s in screens.values(): s.pack_forget()
        if name in screens: screens[name].pack(fill='both', expand=True)

    def set_entry_text(name, text):
        if name in named_widgets:
            named_widgets[name].delete(0, tk.END)
            named_widgets[name].insert(0, text)
    
    def append_entry_text(name, text):
        if name in named_widgets:
            named_widgets[name].insert(tk.END, text)

    def evaluate_entry(name):
        if name in named_widgets:
            try:
                # A safe eval replacement for simple math
                allowed_chars = ""0123456789.+-*/() ""
                expr = named_widgets[name].get()
                if all(char in allowed_chars for char in expr):
                    result = eval(expr)
                    set_entry_text(name, str(result))
                else:
                    set_entry_text(name, ""Invalid Chars"")
            except:
                set_entry_text(name, ""Error"")

    "

  /** The template after the last section. */
  const Suffix: string := @"
    
    if initial_screen:
        show_screen(initial_screen)
    
    if not root.title(): root.title(""HxGUI App"")
    root.mainloop()

if __name__ == ""__main__"":
    main()
"

  /** The five sections, in the order they are spliced in. */
  function Sections(st: State): seq<seq<string>> {
    [st.setup, st.body, ScreenMap(st), WidgetMap(st), GridCode(st)]
  }

  /** `'\n    '.join(section)` for each section, the five joined by the same separator. */
  function Body(st: State): string {
    var s := Sections(st);
    Join(Indent, [Join(Indent, s[0]), Join(Indent, s[1]), Join(Indent, s[2]), Join(Indent, s[3]), Join(Indent, s[4])])
  }

  /** The value of `generate_code_string` once `parse` has left the state `st`. */
  function Render(st: State): (r: Option<string>)
    ensures r.None? <==> st.setup == [] && st.body == []
  {
    if st.setup == [] && st.body == [] then None else Some(Prefix + Body(st) + Suffix)
  }

  /** `generate_code_string(text)` on the lines of `text`: parse from the reset state, then render. */
  function Compile(lines: seq<string>): (r: Option<string>)
    ensures r.None? <==> ParseLines(lines).setup == [] && ParseLines(lines).body == []
  {
    Render(ParseLines(lines))
  }

  // ---------------------------------------------------------------- properties

  /** A script of blank and comment lines only compiles to nothing. */
  lemma CompileCommentsOnly(lines: seq<string>)
    requires forall i :: 0 <= i < |lines| ==> Strip(lines[i]) == [] || Strip(lines[i])[0] == '#'
    ensures Compile(lines) == None
  {
    FeedSkipsBlankAndComments(Initial, lines);
  }

  /** Two row lines of one screen variable are equal only for the same row. */
  lemma RowLineInjective(v: string, r1: nat, r2: nat)
    requires RowLine(v, r1) == RowLine(v, r2)
    ensures r1 == r2
  {
    var p := v + ".grid_rowconfigure(";
    var n1, n2 := NatToString(r1), NatToString(r2);
    assert |n1| == |n2|;
    assert RowLine(v, r1)[|p|..|p| + |n1|] == n1;
    assert RowLine(v, r2)[|p|..|p| + |n2|] == n2;
    if r1 != r2 {
      NatToStringInjective(r1, r2);
    }
  }

  /** Two column lines of one screen variable are equal only for the same column. */
  lemma ColumnLineInjective(v: string, c1: nat, c2: nat)
    requires ColumnLine(v, c1) == ColumnLine(v, c2)
    ensures c1 == c2
  {
    var p := v + ".grid_columnconfigure(";
    var n1, n2 := NatToString(c1), NatToString(c2);
    assert |n1| == |n2|;
    assert ColumnLine(v, c1)[|p|..|p| + |n1|] == n1;
    assert ColumnLine(v, c2)[|p|..|p| + |n2|] == n2;
    if c1 != c2 {
      NatToStringInjective(c1, c2);
    }
  }

  /** A row line is never a column line. */
  lemma RowColumnDistinct(v: string, r: nat, c: nat)
    ensures RowLine(v, r) != ColumnLine(v, c)
  {
    assert RowLine(v, r)[|v| + 6] == 'r';
    assert ColumnLine(v, c)[|v| + 6] == 'c';
  }

  /** A screen whose occupancy sets hold no duplicate gets each of its stretch lines once. */
  lemma EntryLinesNoDup(screens: Dict<string, string>, name: string, occ: Occupancy)
    requires OccupancyValid(occ)
    ensures NoDup(EntryLines(screens, name, occ))
  {
    var lines := EntryLines(screens, name, occ);
    if lines != [] {
      var v := Lookup(screens, name).value;
      var rows, cols := RowLines(v, occ.rows), ColumnLines(v, occ.cols);
      assert lines == rows + cols;
      forall i, j | 0 <= i < j < |lines|
        ensures lines[i] != lines[j]
      {
        if i < |rows| && j < |rows| {
          if rows[i] == rows[j] {
            RowLineInjective(v, occ.rows[i], occ.rows[j]);
          }
        } else if i < |rows| {
          RowColumnDistinct(v, occ.rows[i], occ.cols[j - |rows|]);
        } else {
          if cols[i - |rows|] == cols[j - |rows|] {
            ColumnLineInjective(v, occ.cols[i - |rows|], occ.cols[j - |rows|]);
          }
        }
      }
    }
  }

  /** One more row adds its line at the end. */
  lemma RowLinesSnoc(v: string, rows: seq<nat>, j: nat)
    requires j < |rows|
    ensures RowLines(v, rows[..j + 1]) == RowLines(v, rows[..j]) + [RowLine(v, rows[j])]
  {
    assert rows[..j + 1][j] == rows[j];
  }

  /** One more column adds its line at the end. */
  lemma ColumnLinesSnoc(v: string, cols: seq<nat>, j: nat)
    requires j < |cols|
    ensures ColumnLines(v, cols[..j + 1]) == ColumnLines(v, cols[..j]) + [ColumnLine(v, cols[j])]
  {
    assert cols[..j + 1][j] == cols[j];
  }

  /** One more grid entry adds its lines at the end. */
  lemma GridLinesSnoc(screens: Dict<string, string>, entries: seq<(string, Occupancy)>, i: nat)
    requires i < |entries|
    ensures GridLines(screens, entries[..i + 1]) == GridLines(screens, entries[..i]) + EntryLines(screens, entries[i].0, entries[i].1)
  {
    assert entries[..i + 1][..i] == entries[..i];
  }

  /** `line` stretches a row or a column recorded in `occ` for the screen `name`, and the
      screen table gives that screen a non-empty variable. */
  ghost predicate StretchLine(screens: Dict<string, string>, name: string, occ: Occupancy, line: string) {
    match Lookup(screens, name)
    case None => false
    case Some(v) =>
      && v != ""
      && ((exists i :: 0 <= i < |occ.rows| && line == RowLine(v, occ.rows[i]))
          || (exists i :: 0 <= i < |occ.cols| && line == ColumnLine(v, occ.cols[i])))
  }

  /** The lines of one grid entry are exactly its stretch lines. */
  lemma EntryLinesExact(screens: Dict<string, string>, name: string, occ: Occupancy, line: string)
    ensures line in EntryLines(screens, name, occ) <==> StretchLine(screens, name, occ, line)
  {
    match Lookup(screens, name)
    case None =>
    case Some(v) =>
      if v != "" {
        var rows, cols := RowLines(v, occ.rows), ColumnLines(v, occ.cols);
        assert EntryLines(screens, name, occ) == rows + cols;
        if line in rows {
          var i :| 0 <= i < |rows| && rows[i] == line;
        }
        if line in cols {
          var i :| 0 <= i < |cols| && cols[i] == line;
        }
        if exists i :: 0 <= i < |occ.rows| && line == RowLine(v, occ.rows[i]) {
          var i :| 0 <= i < |occ.rows| && line == RowLine(v, occ.rows[i]);
          assert rows[i] == line;
        }
        if exists i :: 0 <= i < |occ.cols| && line == ColumnLine(v, occ.cols[i]) {
          var i :| 0 <= i < |occ.cols| && line == ColumnLine(v, occ.cols[i]);
          assert cols[i] == line;
        }
      }
  }

  /** The lines of a list of grid entries are exactly the stretch lines of those entries. */
  lemma {:induction false} GridLinesExact(screens: Dict<string, string>, entries: seq<(string, Occupancy)>, line: string)
    ensures line in GridLines(screens, entries)
        <==> exists j :: 0 <= j < |entries| && StretchLine(screens, entries[j].0, entries[j].1, line)
    decreases |entries|
  {
    if entries != [] {
      var init, last := entries[..|entries| - 1], entries[|entries| - 1];
      assert GridLines(screens, entries) == GridLines(screens, init) + EntryLines(screens, last.0, last.1);
      GridLinesExact(screens, init, line);
      EntryLinesExact(screens, last.0, last.1, line);
      SomeEntryStretches(screens, entries, line);
    }
  }

  /** Some entry stretches `line` exactly when one before the last does or the last does. */
  lemma SomeEntryStretches(screens: Dict<string, string>, entries: seq<(string, Occupancy)>, line: string)
    requires entries != []
    ensures var init, last := entries[..|entries| - 1], entries[|entries| - 1];
      (exists j :: 0 <= j < |entries| && StretchLine(screens, entries[j].0, entries[j].1, line))
        <==> (exists j :: 0 <= j < |init| && StretchLine(screens, init[j].0, init[j].1, line))
             || StretchLine(screens, last.0, last.1, line)
  {
    var init := entries[..|entries| - 1];
    if exists j :: 0 <= j < |entries| && StretchLine(screens, entries[j].0, entries[j].1, line) {
      var j :| 0 <= j < |entries| && StretchLine(screens, entries[j].0, entries[j].1, line);
      EntryStretchesSplit(screens, entries, line, j);
    }
    if exists j :: 0 <= j < |init| && StretchLine(screens, init[j].0, init[j].1, line) {
      var j :| 0 <= j < |init| && StretchLine(screens, init[j].0, init[j].1, line);
      assert entries[j] == init[j];
    }
  }

  /** An entry that stretches `line` is the last one or one before it. */
  lemma EntryStretchesSplit(screens: Dict<string, string>, entries: seq<(string, Occupancy)>, line: string, j: nat)
    requires j < |entries| && StretchLine(screens, entries[j].0, entries[j].1, line)
    ensures var init := entries[..|entries| - 1];
      (j < |init| && StretchLine(screens, init[j].0, init[j].1, line)) || j == |entries| - 1
  {
    if j < |entries| - 1 {
      assert entries[..|entries| - 1][j] == entries[j];
    }
  }

  /** Every entry of a well-formed grid table shows up among its items. */
  lemma ItemsCover(grid: Dict<string, Occupancy>, name: string)
    requires WellFormed(grid) && HasKey(grid, name)
    ensures exists j :: 0 <= j < |Items(grid)| && Items(grid)[j] == (name, grid.values[name])
  {
    ItemsWellFormed(grid);
    assert name in grid.keys;
    var j :| 0 <= j < |grid.keys| && grid.keys[j] == name;
    assert Lookup(grid, Items(grid)[j].0) == Some(Items(grid)[j].1);
  }

  /** A line is in `grid_code` exactly when it stretches a recorded row or column of a
      screen in `grid_config` that the screen table gives a non-empty variable: an
      occupancy entry created for an undeclared screen contributes nothing. */
  lemma GridCodeExact(st: State, line: string)
    requires WellFormed(st.grid)
    ensures line in GridCode(st)
        <==> exists name :: HasKey(st.grid, name) && StretchLine(st.screens, name, st.grid.values[name], line)
  {
    var screens, grid := st.screens, st.grid;
    var items := Items(grid);
    assert GridCode(st) == GridLines(screens, items);
    GridLinesExact(screens, items, line);
    if exists j :: 0 <= j < |items| && StretchLine(screens, items[j].0, items[j].1, line) {
      var j :| 0 <= j < |items| && StretchLine(screens, items[j].0, items[j].1, line);
      assert Lookup(grid, items[j].0) == Some(items[j].1);
      assert HasKey(grid, items[j].0);
    }
    if exists name :: HasKey(grid, name) && StretchLine(screens, name, grid.values[name], line) {
      var name :| HasKey(grid, name) && StretchLine(screens, name, grid.values[name], line);
      ItemsCover(grid, name);
      var j :| 0 <= j < |items| && items[j] == (name, grid.values[name]);
      assert StretchLine(screens, items[j].0, items[j].1, line);
    }
  }

  /** The lines of a map table follow its insertion order, one per key, each giving that
      key's current value; so every entry is listed. */
  lemma MapLinesExact(table: string, d: Dict<string, string>)
    requires WellFormed(d)
    ensures |MapLines(table, d)| == |d.keys|
    ensures forall i :: 0 <= i < |d.keys| ==> MapLines(table, d)[i] == MapLine(table, d.keys[i], d.values[d.keys[i]])
    ensures forall n :: HasKey(d, n) ==> MapLine(table, n, d.values[n]) in MapLines(table, d)
  {
    var items := Items(d);
    ItemsWellFormed(d);
    forall i | 0 <= i < |d.keys|
      ensures MapLines(table, d)[i] == MapLine(table, d.keys[i], d.values[d.keys[i]])
    {
      assert Lookup(d, items[i].0) == Some(items[i].1);
    }
    forall n | HasKey(d, n)
      ensures MapLine(table, n, d.values[n]) in MapLines(table, d)
    {
      assert n in d.keys;
      var i :| 0 <= i < |d.keys| && d.keys[i] == n;
      assert MapLines(table, d)[i] == MapLine(table, n, d.values[n]);
    }
  }

  /** Joining five pieces puts the separator between neighbours. */
  lemma JoinFiveParts(sep: string, x1: string, x2: string, x3: string, x4: string, x5: string)
    ensures Join(sep, [x1, x2, x3, x4, x5]) == x1 + sep + (x2 + sep + (x3 + sep + (x4 + sep + x5)))
  {
    assert [x1, x2, x3, x4, x5][1..] == [x2, x3, x4, x5];
    assert [x2, x3, x4, x5][1..] == [x3, x4, x5];
    assert [x3, x4, x5][1..] == [x4, x5];
    assert [x4, x5][1..] == [x5];
    assert Join(sep, [x4, x5]) == x4 + sep + x5;
    assert Join(sep, [x3, x4, x5]) == x3 + sep + Join(sep, [x4, x5]);
    assert Join(sep, [x2, x3, x4, x5]) == x2 + sep + Join(sep, [x3, x4, x5]);
  }

  /** Joining five non-empty groups of lines concatenated puts the separator between the
      groups as well as inside them. */
  lemma JoinFiveGroups(sep: string, a: seq<string>, b: seq<string>, c: seq<string>, d: seq<string>, e: seq<string>)
    requires a != [] && b != [] && c != [] && d != [] && e != []
    ensures Join(sep, a + b + c + d + e)
         == Join(sep, a) + sep + (Join(sep, b) + sep + (Join(sep, c) + sep + (Join(sep, d) + sep + Join(sep, e))))
  {
    assert a + b + c + d + e == a + (b + (c + (d + e)));
    JoinAppend(sep, d, e);
    JoinAppend(sep, c, d + e);
    JoinAppend(sep, b, c + (d + e));
    JoinAppend(sep, a, b + (c + (d + e)));
  }

  /** Whatever the script: `grid_code` holds exactly the stretch lines of the screens
      in the screen table, and each screen's lines come once per distinct row and column. */
  lemma ParsedGridCode(lines: seq<string>, name: string, line: string)
    ensures var st := ParseLines(lines);
      && (line in GridCode(st) <==> exists n :: HasKey(st.grid, n) && StretchLine(st.screens, n, st.grid.values[n], line))
      && (HasKey(st.grid, name) ==> NoDup(EntryLines(st.screens, name, st.grid.values[name])))
  {
    var st := ParseLines(lines);
    ParseLinesValid(lines);
    GridCodeExact(st, line);
    if HasKey(st.grid, name) {
      EntryLinesNoDup(st.screens, name, st.grid.values[name]);
    }
  }

  /** Whatever the script: each table lists each of its names once, and the screen map
      and the named-widget map give a line per entry, in insertion order, with the
      entry's current variable. */
  lemma ParsedMaps(lines: seq<string>)
    ensures var st := ParseLines(lines);
      && WellFormed(st.screens) && WellFormed(st.named)
      && |ScreenMap(st)| == |st.screens.keys|
      && (forall i :: 0 <= i < |st.screens.keys| ==> ScreenMap(st)[i] == MapLine("screens", st.screens.keys[i], st.screens.values[st.screens.keys[i]]))
      && |WidgetMap(st)| == |st.named.keys|
      && (forall i :: 0 <= i < |st.named.keys| ==> WidgetMap(st)[i] == MapLine("named_widgets", st.named.keys[i], st.named.values[st.named.keys[i]]))
  {
    var st := ParseLines(lines);
    ParseLinesValid(lines);
    MapLinesExact("screens", st.screens);
    MapLinesExact("named_widgets", st.named);
  }

  /** Five non-empty groups of lines, each joined and then joined together, read as the
      five groups concatenated and joined once. */
  lemma JoinFive(sep: string, a: seq<string>, b: seq<string>, c: seq<string>, d: seq<string>, e: seq<string>)
    requires a != [] && b != [] && c != [] && d != [] && e != []
    ensures Join(sep, [Join(sep, a), Join(sep, b), Join(sep, c), Join(sep, d), Join(sep, e)])
         == Join(sep, a + b + c + d + e)
  {
    JoinFiveParts(sep, Join(sep, a), Join(sep, b), Join(sep, c), Join(sep, d), Join(sep, e));
    JoinFiveGroups(sep, a, b, c, d, e);
  }

  /** When no section is empty, the five sections read as one indented block: the setup
      lines, then the body lines, the screen map, the named-widget map and the grid lines. */
  lemma BodyLayout(st: State)
    requires st.setup != [] && st.body != [] && ScreenMap(st) != [] && WidgetMap(st) != [] && GridCode(st) != []
    ensures Body(st) == Join(Indent, st.setup + st.body + ScreenMap(st) + WidgetMap(st) + GridCode(st))
  {
    JoinFive(Indent, st.setup, st.body, ScreenMap(st), WidgetMap(st), GridCode(st));
  }
}
