/**
 * What `HxGuiCompiler.parse` accumulates, line by line, as a value: the state after
 * each source line is `Step` of the state before it. The class in hxgui.dfy performs
 * the same updates in place and is proved to agree with these functions.
 */
module Parsing {
  import opened Wrappers
  import opened Text
  import opened OrderedMap
  import opened Patterns
  import opened Actions

  /** A screen's `{'rows': set(), 'cols': set()}`: each set is a duplicate-free sequence
      in the order its elements were first added. */
  datatype Occupancy = Occupancy(rows: seq<nat>, cols: seq<nat>)

  const Unoccupied: Occupancy := Occupancy([], [])

  /** The exceptions a widget line can raise part-way through. */
  datatype Failure =
    | BadPosition    // `row, col = pos.split(',')` does not find exactly two parts
    | BadRow         // `int(row)` on an empty row
    | BadColumn      // `int(col)` on an empty column
    | MissingParent  // a `text` widget on an undeclared screen: the join meets `None`
    | NoActionVerb   // a button whose action has no token: `parts[0]` is out of range

  /** The report printed for a line that raised: the stripped line and why. */
  datatype Diagnostic = Diagnostic(line: string, failure: Failure)

  /** The compiler's fields after `reset`, plus the reports printed so far. */
  datatype State = State(
    body: seq<string>,             // python_code
    setup: seq<string>,            // setup_code
    counters: map<string, nat>,    // widget_counters
    screens: Dict<string, string>, // screen name -> frame variable
    named: Dict<string, string>,   // widget name -> widget variable
    grid: Dict<string, Occupancy>, // grid_config
    diagnostics: seq<Diagnostic>)

  /** The state `reset` leaves: every buffer, counter and table empty. */
  const Initial: State := State([], [], map[], Empty(), Empty(), Empty(), [])

  /** `s.add(x)` on a set kept as a duplicate-free sequence. */
  function AddOnce(s: seq<nat>, x: nat): (r: seq<nat>)
    ensures forall y :: y in r <==> y in s || y == x
    ensures |r| <= |s| + 1
  {
    if x in s then s else s + [x]
  }

  // ---------------------------------------------------------------- name allocation

  /** `self.widget_counters.get(bucket, 0)` */
  function Count(counters: map<string, nat>, bucket: string): nat {
    if bucket in counters then counters[bucket] else 0
  }

  /** The variable named for the `n`-th widget of a bucket. */
  function VarName(bucket: string, n: nat): string {
    Sanitize(bucket) + "_" + NatToString(n)
  }

  /** `_get_widget_name(bucket)`: the new counters and the variable name. */
  function Allocate(counters: map<string, nat>, bucket: string): (r: (map<string, nat>, string))
    ensures Count(r.0, bucket) == Count(counters, bucket) + 1
    ensures forall b :: b != bucket ==> Count(r.0, b) == Count(counters, b)
    ensures r.1 == VarName(bucket, Count(r.0, bucket))
  {
    var count := Count(counters, bucket) + 1;
    (counters[bucket := count], VarName(bucket, count))
  }

  /** Different counts of one bucket never name the same variable. */
  lemma VarNameDistinct(bucket: string, m: nat, n: nat)
    requires m != n
    ensures VarName(bucket, m) != VarName(bucket, n)
  {
    NatToStringInjective(m, n);
    var p := Sanitize(bucket) + "_";
    assert VarName(bucket, m)[|p|..] == NatToString(m);
    assert VarName(bucket, n)[|p|..] == NatToString(n);
  }

  /** Two allocations in one bucket, one after the other, give different variables. */
  lemma AllocateTwice(counters: map<string, nat>, bucket: string)
    ensures var (c1, v1) := Allocate(counters, bucket);
      var (c2, v2) := Allocate(c1, bucket);
      v1 != v2 && Count(c2, bucket) == Count(counters, bucket) + 2
  {
    var c1 := Allocate(counters, bucket).0;
    VarNameDistinct(bucket, Count(c1, bucket), Count(c1, bucket) + 1);
  }

  /** Buckets that differ only in a character outside `[A-Za-z0-9_]` share variable
      names: the screens `"a b"` and `ab` (buckets `screen_a b` and `screen_ab`) both
      get `screen_ab_1` in a fresh compiler. */
  lemma SanitizedBucketsCollide(counters: map<string, nat>, a: string, c: char, b: string)
    requires !IsWordChar(c)
    requires Count(counters, a + [c] + b) == Count(counters, a + b)
    ensures a + [c] + b != a + b
    ensures Allocate(counters, a + [c] + b).1 == Allocate(counters, a + b).1
  {
    assert |a + [c] + b| != |a + b|;
    SanitizeDrops(a, c, b);
  }

  /** `re.sub(r'[^a-zA-Z0-9_]', '', …)` deletes a character outside the class wherever it stands. */
  lemma SanitizeDrops(a: string, c: char, b: string)
    requires !IsWordChar(c)
    ensures Sanitize(a + [c] + b) == Sanitize(a + b)
  {
    var fa, fb := Filter(a, IsWordChar), Filter(b, IsWordChar);
    assert Filter([c], IsWordChar) == [];
    FilterAppend(a, [c], IsWordChar);
    assert Filter(a + [c], IsWordChar) == fa;
    FilterAppend(a + [c], b, IsWordChar);
    FilterAppend(a, b, IsWordChar);
  }

  // ---------------------------------------------------------------- option parsing

  /** `(key.strip(), value.strip())` for each match. */
  function StripAll(ms: seq<(string, string)>): seq<(string, string)> {
    seq(|ms|, i requires 0 <= i < |ms| => (Strip(ms[i].0), Strip(ms[i].1)))
  }

  /** `props[key] = value` for each pair, in order. */
  function PutAll(props: Dict<string, string>, ms: seq<(string, string)>): Dict<string, string>
    decreases |ms|
  {
    if ms == [] then props
    else Put(PutAll(props, ms[..|ms| - 1]), ms[|ms| - 1].0, ms[|ms| - 1].1)
  }

  /** `_parse_props(prop_str)` */
  function Props(optionText: string): Dict<string, string> {
    PutAll(Empty(), StripAll(FindOptions(optionText, 0)))
  }

  /** `k` is given `v` by match `i`, and by no later match. */
  predicate LastMatch(ms: seq<(string, string)>, k: string, v: string, i: nat) {
    i < |ms| && ms[i] == (k, v) && forall j :: i < j < |ms| ==> ms[j].0 != k
  }

  /** A last match stays last when a match for another key follows it. */
  lemma LastMatchExtend(ms: seq<(string, string)>, k: string, v: string, i: nat)
    requires ms != [] && LastMatch(ms[..|ms| - 1], k, v, i) && ms[|ms| - 1].0 != k
    ensures LastMatch(ms, k, v, i)
  {
    assert forall j :: 0 <= j < |ms| - 1 ==> ms[..|ms| - 1][j] == ms[j];
  }

  /** What the option pattern guarantees of each match: a `\w+` key and a value with
      no whitespace at either end. */
  predicate OptionShaped(m: (string, string)) {
    m.0 != [] && (forall k :: 0 <= k < |m.0| ==> IsWordChar(m.0[k]))
    && m.1 != [] && NotSpace(m.1[0]) && NotSpace(m.1[|m.1| - 1])
  }

  lemma FindOptionsShaped(s: string)
    ensures forall n :: 0 <= n < |FindOptions(s, 0)| ==> OptionShaped(FindOptions(s, 0)[n])
  {
  }

  /** So the `strip()` calls of `_parse_props` change nothing. */
  lemma StripShaped(m: (string, string))
    requires OptionShaped(m)
    ensures Strip(m.0) == m.0 && Strip(m.1) == m.1
  {
    assert NotSpace(m.0[0]) && NotSpace(m.0[|m.0| - 1]);
  }

  lemma StripAllShaped(ms: seq<(string, string)>)
    requires forall n :: 0 <= n < |ms| ==> OptionShaped(ms[n])
    ensures StripAll(ms) == ms
  {
    forall n | 0 <= n < |ms| ensures StripAll(ms)[n] == ms[n] {
      StripShaped(ms[n]);
    }
  }

  /** Putting the pairs of `ms` in order leaves a key with its last pair's value. */
  lemma {:induction false} PutAllLast(ms: seq<(string, string)>, k: string, v: string, i: nat)
    requires LastMatch(ms, k, v, i)
    ensures Lookup(PutAll(Empty(), ms), k) == Some(v)
    decreases |ms|
  {
    var n := |ms| - 1;
    if i < n {
      assert LastMatch(ms[..n], k, v, i);
      PutAllLast(ms[..n], k, v, i);
      PutAllOther(ms, k);
    }
  }

  /** A last pair for another key leaves a key's value as the earlier pairs set it. */
  lemma PutAllOther(ms: seq<(string, string)>, k: string)
    requires ms != [] && ms[|ms| - 1].0 != k
    ensures Lookup(PutAll(Empty(), ms), k) == Lookup(PutAll(Empty(), ms[..|ms| - 1]), k)
  {
  }

  /** Whatever a key is given, some pair gave it, and no later pair names the key. */
  lemma {:induction false} PutAllFound(ms: seq<(string, string)>, k: string, v: string) returns (i: nat)
    requires Lookup(PutAll(Empty(), ms), k) == Some(v)
    ensures LastMatch(ms, k, v, i)
    decreases |ms|
  {
    var n := |ms| - 1;
    var front := ms[..n];
    if ms[n].0 == k {
      i := n;
      assert ms[n].1 == v;
      assert LastMatch(ms, k, v, i);
    } else {
      assert forall j :: 0 <= j < n ==> front[j] == ms[j];
      PutAllOther(ms, k);
      i := PutAllFound(front, k, v);
      LastMatchExtend(ms, k, v, i);
    }
  }

  /** A key no pair names stays absent. */
  lemma {:induction false} PutAllNone(ms: seq<(string, string)>, k: string)
    requires forall i :: 0 <= i < |ms| ==> ms[i].0 != k
    ensures Lookup(PutAll(Empty(), ms), k) == None
    decreases |ms|
  {
    if ms != [] {
      var n := |ms| - 1;
      assert forall i :: 0 <= i < n ==> ms[..n][i] == ms[i];
      PutAllNone(ms[..n], k);
      PutAllOther(ms, k);
    }
  }

  /** A key some pair names is present. */
  lemma {:induction false} PutAllSome(ms: seq<(string, string)>, k: string, i: nat)
    requires i < |ms| && ms[i].0 == k
    ensures Lookup(PutAll(Empty(), ms), k).Some?
    decreases |ms|
  {
    var n := |ms| - 1;
    if i < n {
      assert ms[..n][i] == ms[i];
      PutAllSome(ms[..n], k, i);
      if ms[n].0 != k {
        PutAllOther(ms, k);
      }
    }
  }

  /** Each key ends up with the value of its last pair, and only named keys appear. */
  lemma PutAllLastWins(ms: seq<(string, string)>, k: string, v: string)
    ensures Lookup(PutAll(Empty(), ms), k) == Some(v) <==> exists i :: LastMatch(ms, k, v, i)
    ensures Lookup(PutAll(Empty(), ms), k).None? <==> forall i :: 0 <= i < |ms| ==> ms[i].0 != k
  {
    if Lookup(PutAll(Empty(), ms), k) == Some(v) {
      var i := PutAllFound(ms, k, v);
    }
    if i :| LastMatch(ms, k, v, i) {
      PutAllLast(ms, k, v, i);
    }
    if i :| 0 <= i < |ms| && ms[i].0 == k {
      PutAllSome(ms, k, i);
    } else {
      PutAllNone(ms, k);
    }
  }

  /** `_parse_props`: a key maps to the value of its last match; unmatched keys are absent. */
  lemma PropsLastWins(optionText: string, ms: seq<(string, string)>, k: string, v: string)
    requires ms == FindOptions(optionText, 0)
    ensures Lookup(Props(optionText), k) == Some(v) <==> exists i :: LastMatch(ms, k, v, i)
    ensures Lookup(Props(optionText), k).None? <==> forall i :: 0 <= i < |ms| ==> ms[i].0 != k
  {
    FindOptionsShaped(optionText);
    StripAllShaped(ms);
    assert Props(optionText) == PutAll(Empty(), ms);
    PutAllLastWins(ms, k, v);
  }

  // ---------------------------------------------------------------- widget lines

  /** Why a line was abandoned, and the state as the exception left it. */
  datatype Abort = Abort(partial: State, failure: Failure)

  const ButtonFont: string := "font=(\"Arial\", 14)"
  const EntryFont: string := "font=(\"Arial\", 20)"
  const RightJustify: string := "justify=\"right\""

  /** `[arg for arg in args if arg]`: `None` and the empty string are dropped. */
  function Present(args: seq<Option<string>>): (r: seq<string>)
    ensures forall i :: 0 <= i < |r| ==> r[i] != ""
    ensures forall x :: x != "" ==> (x in r <==> Some(x) in args)
    decreases |args|
  {
    if args == [] then []
    else
      assert args == [args[0]] + args[1..];
      (if args[0].Some? && args[0].value != "" then [args[0].value] else []) + Present(args[1..])
  }

  /** Filtering a concatenation filters each part, so the kept arguments stay in order. */
  lemma {:induction false} PresentAppend(a: seq<Option<string>>, b: seq<Option<string>>)
    ensures Present(a + b) == Present(a) + Present(b)
    decreases |a|
  {
    if a == [] {
      assert a + b == b;
    } else {
      assert (a + b)[0] == a[0] && (a + b)[1..] == a[1..] + b;
      PresentAppend(a[1..], b);
    }
  }

  /** Arguments that are all present and non-empty are all kept, in order. */
  lemma {:induction false} PresentAsArgs(config: seq<string>)
    requires forall i :: 0 <= i < |config| ==> config[i] != ""
    ensures Present(AsArgs(config)) == config
    decreases |config|
  {
    if config != [] {
      assert AsArgs(config)[1..] == AsArgs(config[1..]);
      PresentAsArgs(config[1..]);
    }
  }

  /** The strings of `config` as arguments that are all present. */
  function AsArgs(config: seq<string>): (r: seq<Option<string>>)
    ensures |r| == |config| && forall i :: 0 <= i < |r| ==> r[i] == Some(config[i])
  {
    seq(|config|, i requires 0 <= i < |config| => Some(config[i]))
  }

  /** `[f'{k}={v}' for k, v in props.items()]` */
  function ConfigItems(props: Dict<string, string>): seq<string> {
    var items := Items(props);
    seq(|items|, i requires 0 <= i < |items| => items[i].0 + "=" + items[i].1)
  }

  /** A `k=v` item is never empty, so the filtered argument lists keep every one of them. */
  lemma ConfigItemsKept(props: Dict<string, string>)
    ensures Present(AsArgs(ConfigItems(props))) == ConfigItems(props)
  {
    var config := ConfigItems(props);
    forall i | 0 <= i < |config| ensures config[i] != "" {
      assert config[i][|Items(props)[i].0|] == '=';
    }
    PresentAsArgs(config);
  }

  /** The parent as a filtered argument list keeps it: not at all when it is `None` or empty. */
  function Lead(parent: Option<string>): seq<string> {
    if parent.Some? && parent.value != "" then [parent.value] else []
  }

  /** The statement that creates the widget: a `text` becomes a Label, a `button` a
      Button, anything else an Entry. A Label's arguments are joined unfiltered, so an
      undeclared screen (`parent` is `None`) aborts the line; a Button and an Entry drop
      the missing parent. */
  function Construct(kind: string, v: string, parent: Option<string>, content: string,
                     action: Option<string>, config: seq<string>): Result<string, Failure>
  {
    if kind == "text" then
      if parent.None? then Err(MissingParent)
      else Ok(v + " = tk.Label(" + Join(", ", [parent.value, "text=" + content] + config) + ")")
    else if kind == "button" then
      match ActionCode(action)
      case None => Err(NoActionVerb)
      case Some(code) =>
        var args := [parent, Some("text=" + content), Some(code), Some(ButtonFont)] + AsArgs(config);
        Ok(v + " = tk.Button(" + Join(", ", Present(args)) + ")")
    else
      var args := [parent, Some(EntryFont), Some(RightJustify)] + AsArgs(config);
      Ok(v + " = tk.Entry(" + Join(", ", Present(args)) + ")")
  }

  /** The statement placing the widget, with the row and column text as written. */
  function GridStatement(v: string, row: string, col: string, colspan: string): string {
    v + ".grid(row=" + row + ", column=" + col + ", columnspan=" + colspan + ", sticky=\"nsew\", padx=1, pady=1)"
  }

  /** `if screen not in grid_config: grid_config[screen] = {'rows': set(), 'cols': set()}` */
  function EnsureScreen(grid: Dict<string, Occupancy>, screen: string): (r: Dict<string, Occupancy>)
    ensures HasKey(r, screen)
    ensures HasKey(grid, screen) ==> r == grid
    ensures !HasKey(grid, screen) ==> Lookup(r, screen) == Some(Unoccupied)
    ensures forall k :: k != screen ==> Lookup(r, k) == Lookup(grid, k)
    ensures !HasKey(grid, screen) ==> r.keys == if screen in grid.keys then grid.keys else grid.keys + [screen]
  {
    if HasKey(grid, screen) then grid else Put(grid, screen, Unoccupied)
  }

  /** `grid_config[screen]`, or no occupancy when the screen has no entry. */
  function OccupancyOf(grid: Dict<string, Occupancy>, screen: string): Occupancy {
    Lookup(grid, screen).GetOr(Unoccupied)
  }

  /** `grid_config[screen]['rows'].add(r)` */
  function AddRow(grid: Dict<string, Occupancy>, screen: string, r: nat): Dict<string, Occupancy> {
    var occ := OccupancyOf(grid, screen);
    Put(grid, screen, occ.(rows := AddOnce(occ.rows, r)))
  }

  /** `grid_config[screen]['cols'].add(c)` */
  function AddCol(grid: Dict<string, Occupancy>, screen: string, c: nat): Dict<string, Occupancy> {
    var occ := OccupancyOf(grid, screen);
    Put(grid, screen, occ.(cols := AddOnce(occ.cols, c)))
  }

  /** The dictionary without the keys the widget consumes itself. */
  function ConfigProps(props: Dict<string, string>): Dict<string, string> {
    Remove(Remove(Remove(props, "action"), "name"), "colspan")
  }

  /** The counter bucket of a widget: its `name:` option when present, else its kind. */
  function Bucket(props: Dict<string, string>, kind: string): string {
    OrElse(Lookup(props, "name"), kind)
  }

  /** The body of `parse` for a line of the widget shape, up to the statement that
      raises, if one does. */
  function WidgetStep(st: State, w: WidgetMatch): Result<State, Abort> {
    Place(st, w, Props(w.options))
  }

  /** `WidgetStep` once the options are parsed into `props`. */
  function Place(st: State, w: WidgetMatch, props: Dict<string, string>): Result<State, Abort> {
    var pos := SplitOn(w.pos, ',');
    if |pos| != 2 then Err(Abort(st, BadPosition))
    else
      match Occupy(st.grid, w.screen, pos[0], pos[1])
      case Err((grid, f)) => Err(Abort(st.(grid := grid), f))
      case Ok(grid) =>
        var config := ConfigItems(ConfigProps(props));
        Declare(st.(grid := grid), w, props, Lookup(st.screens, w.screen), config, pos[0], pos[1])
  }

  /** The grid updates of a widget line: the screen's entry is created if missing, then
      the integer row is added, then the integer column. When `int()` fails, the grid
      as it stood at that point comes with the failure. */
  function Occupy(grid: Dict<string, Occupancy>, screen: string, row: string, col: string)
    : (r: Result<Dict<string, Occupancy>, (Dict<string, Occupancy>, Failure)>)
    ensures r.Ok? <==> ParseInt(row).Some? && ParseInt(col).Some?
    ensures r.Err? ==> r.error.1 == (if ParseInt(row).None? then BadRow else BadColumn)
    ensures HasKey(if r.Ok? then r.value else r.error.0, screen)
    ensures forall k :: k != screen ==> Lookup(if r.Ok? then r.value else r.error.0, k) == Lookup(grid, k)
  {
    var grid0 := EnsureScreen(grid, screen);
    match ParseInt(row)
    case None => Err((grid0, BadRow))
    case Some(r) =>
      var grid1 := AddRow(grid0, screen, r);
      match ParseInt(col)
      case None => Err((grid1, BadColumn))
      case Some(c) => Ok(AddCol(grid1, screen, c))
  }

  /** `if widget_name: self.named_widgets[widget_name] = widget_var` */
  function Register(named: Dict<string, string>, name: Option<string>, v: string): (r: Dict<string, string>)
    ensures name.Some? && name.value != "" ==> Lookup(r, name.value) == Some(v)
    ensures forall k :: (name.None? || name.value == "" || name.value != k) ==> Lookup(r, k) == Lookup(named, k)
  {
    if name.Some? && name.value != "" then Put(named, name.value, v) else named
  }

  /** The rest of a widget line once the grid is updated: a variable is allocated and
      registered under the widget's name, then the widget's statement is built from the
      `config` arguments (the options the widget does not consume), which may raise,
      and it is appended with the grid statement to the body. */
  function Declare(st: State, w: WidgetMatch, props: Dict<string, string>, parent: Option<string>,
                   config: seq<string>, row: string, col: string): Result<State, Abort>
  {
    var (counters, v) := Allocate(st.counters, Bucket(props, w.kind));
    var st1 := st.(counters := counters, named := Register(st.named, Lookup(props, "name"), v));
    match Construct(w.kind, v, parent, w.content, Lookup(props, "action"), config)
    case Err(f) => Err(Abort(st1, f))
    case Ok(stmt) => Ok(st1.(body := st1.body + [stmt] + [GridStatement(v, row, col, Lookup(props, "colspan").GetOr("1"))]))
  }

  // ---------------------------------------------------------------- simple lines and the loop

  /** The body of `parse` for a line of the simple shape. */
  function SimpleStep(st: State, m: SimpleMatch): State {
    var target := StripQuotes(m.target);
    if m.command == "window" then
      st.(setup := st.setup + ["root.title(\"" + target + "\")"])
    else if m.command == "screen" then
      AddScreen(st, target)
    else if m.command == "show" then
      st.(body := st.body + ["initial_screen = '" + target + "'"])
    else
      st
  }

  /** `screen T`: a frame variable is allocated in bucket `screen_T`, the screen's
      occupancy is reset, the screen table points at the frame, and the frame is declared. */
  function AddScreen(st: State, target: string): State {
    var (counters, v) := Allocate(st.counters, "screen_" + target);
    st.(grid := Put(st.grid, target, Unoccupied), counters := counters,
        screens := Put(st.screens, target, v), setup := st.setup + [v + " = tk.Frame(root)"])
  }

  /** One iteration of the loop of `parse`: the line is stripped; blank and `#` lines are
      skipped; the widget shape is tried before the simple shape; a line that raises is
      reported and what it changed before raising stays. */
  function Step(st: State, raw: string): State {
    var line := Strip(raw);
    if line == [] || line[0] == '#' then st
    else
      match MatchWidget(line)
      case Some(w) => WidgetLine(st, line, w)
      case None =>
        match MatchSimple(line)
        case Some(m) => SimpleStep(st, m)
        case None => st
  }

  /** A widget line: applied, or reported with what it changed before raising. */
  function WidgetLine(st: State, line: string, w: WidgetMatch): State {
    match WidgetStep(st, w)
    case Ok(next) => next
    case Err(abort) => abort.partial.(diagnostics := abort.partial.diagnostics + [Diagnostic(line, abort.failure)])
  }

  /** The loop of `parse` run over `lines` from `st`. */
  function Feed(st: State, lines: seq<string>): State
    decreases |lines|
  {
    if lines == [] then st else Step(Feed(st, lines[..|lines| - 1]), lines[|lines| - 1])
  }

  /** `parse(text)` on the lines of `text`: reset, then the loop. */
  function ParseLines(lines: seq<string>): State {
    Feed(Initial, lines)
  }

  // ---------------------------------------------------------------- the reachable states

  predicate OccupancyValid(occ: Occupancy) {
    NoDup(occ.rows) && NoDup(occ.cols)
  }

  /** The grid lists each screen once and no occupancy set holds a duplicate. */
  ghost predicate GridValid(grid: Dict<string, Occupancy>) {
    WellFormed(grid) && forall k :: k in grid.values ==> OccupancyValid(grid.values[k])
  }

  /** What holds of the compiler's tables after any sequence of lines: each table lists
      each of its keys once, the occupancy sets hold no duplicates, and every declared
      screen has an occupancy entry. */
  ghost predicate Valid(st: State) {
    && WellFormed(st.screens) && WellFormed(st.named) && GridValid(st.grid)
    && forall n :: HasKey(st.screens, n) ==> HasKey(st.grid, n)
  }

  lemma InitialValid()
    ensures Valid(Initial)
  {
    EmptyWellFormed<string, string>();
    EmptyWellFormed<string, Occupancy>();
  }

  lemma OccupancyOfValid(grid: Dict<string, Occupancy>, screen: string)
    requires GridValid(grid)
    ensures OccupancyValid(OccupancyOf(grid, screen))
  {
  }

  lemma PutGridValid(grid: Dict<string, Occupancy>, screen: string, occ: Occupancy)
    requires GridValid(grid) && OccupancyValid(occ)
    ensures GridValid(Put(grid, screen, occ))
  {
    PutWellFormed(grid, screen, occ);
  }

  /** The grid steps of a widget line keep the grid valid and drop no screen. */
  lemma GridStepsValid(grid: Dict<string, Occupancy>, screen: string, r: nat, c: nat)
    requires GridValid(grid)
    ensures GridValid(EnsureScreen(grid, screen))
    ensures GridValid(AddRow(EnsureScreen(grid, screen), screen, r))
    ensures GridValid(AddCol(AddRow(EnsureScreen(grid, screen), screen, r), screen, c))
    ensures forall n :: HasKey(grid, n) ==> HasKey(AddCol(AddRow(EnsureScreen(grid, screen), screen, r), screen, c), n)
    ensures forall n :: HasKey(grid, n) ==> HasKey(AddRow(EnsureScreen(grid, screen), screen, r), n)
    ensures forall n :: HasKey(grid, n) ==> HasKey(EnsureScreen(grid, screen), n)
  {
    var g0 := EnsureScreen(grid, screen);
    if !HasKey(grid, screen) {
      PutGridValid(grid, screen, Unoccupied);
    }
    OccupancyOfValid(g0, screen);
    var o0 := OccupancyOf(g0, screen);
    PutGridValid(g0, screen, o0.(rows := AddOnce(o0.rows, r)));
    var g1 := AddRow(g0, screen, r);
    OccupancyOfValid(g1, screen);
    var o1 := OccupancyOf(g1, screen);
    PutGridValid(g1, screen, o1.(cols := AddOnce(o1.cols, c)));
  }

  /** Registering a widget name keeps the table well formed. */
  lemma RegisterWellFormed(named: Dict<string, string>)
    requires WellFormed(named)
    ensures forall name, v :: WellFormed(Register(named, name, v))
  {
    forall name, v ensures WellFormed(Register(named, name, v)) {
      if name.Some? && name.value != "" {
        PutWellFormed(named, name.value, v);
      }
    }
  }

  /** The grid updates of a widget line, whether they finish or stop at a bad number,
      keep the grid valid and drop no screen. */
  lemma OccupyValid(grid: Dict<string, Occupancy>, screen: string, row: string, col: string)
    requires GridValid(grid)
    ensures Occupy(grid, screen, row, col).Ok? ==>
      var g := Occupy(grid, screen, row, col).value;
      GridValid(g) && forall n :: HasKey(grid, n) ==> HasKey(g, n)
    ensures Occupy(grid, screen, row, col).Err? ==>
      var g := Occupy(grid, screen, row, col).error.0;
      GridValid(g) && forall n :: HasKey(grid, n) ==> HasKey(g, n)
  {
    GridStepsValid(grid, screen, ParseInt(row).GetOr(0), ParseInt(col).GetOr(0));
  }

  /** Declaring a widget, whether its statement is built or raises, keeps the tables valid. */
  lemma DeclareValid(st: State, w: WidgetMatch, props: Dict<string, string>, parent: Option<string>,
                     config: seq<string>, row: string, col: string)
    requires Valid(st)
    ensures Declare(st, w, props, parent, config, row, col).Ok? ==> Valid(Declare(st, w, props, parent, config, row, col).value)
    ensures Declare(st, w, props, parent, config, row, col).Err? ==> Valid(Declare(st, w, props, parent, config, row, col).error.partial)
  {
    RegisterWellFormed(st.named);
  }

  /** A widget line that goes through keeps the tables valid. */
  lemma WidgetStepValid(st: State, w: WidgetMatch, props: Dict<string, string>)
    requires Valid(st) && Place(st, w, props).Ok?
    ensures Valid(Place(st, w, props).value)
  {
    var pos := SplitOn(w.pos, ',');
    OccupyValid(st.grid, w.screen, pos[0], pos[1]);
    var grid := Occupy(st.grid, w.screen, pos[0], pos[1]).value;
    DeclareValid(st.(grid := grid), w, props, Lookup(st.screens, w.screen), ConfigItems(ConfigProps(props)), pos[0], pos[1]);
  }

  /** A widget line that raises keeps the tables valid in the state it leaves. */
  lemma WidgetAbortValid(st: State, w: WidgetMatch, props: Dict<string, string>)
    requires Valid(st) && Place(st, w, props).Err?
    ensures Valid(Place(st, w, props).error.partial)
  {
    var pos := SplitOn(w.pos, ',');
    if |pos| == 2 {
      OccupyValid(st.grid, w.screen, pos[0], pos[1]);
      match Occupy(st.grid, w.screen, pos[0], pos[1])
      case Err(_) =>
      case Ok(grid) =>
        DeclareValid(st.(grid := grid), w, props, Lookup(st.screens, w.screen), ConfigItems(ConfigProps(props)), pos[0], pos[1]);
    }
  }

  lemma AddScreenValid(st: State, target: string)
    requires Valid(st)
    ensures Valid(AddScreen(st, target))
  {
    var v := Allocate(st.counters, "screen_" + target).1;
    var grid, screens := Put(st.grid, target, Unoccupied), Put(st.screens, target, v);
    PutGridValid(st.grid, target, Unoccupied);
    PutWellFormed(st.screens, target, v);
    assert forall n :: HasKey(screens, n) ==> n == target || HasKey(st.screens, n);
    assert forall n :: HasKey(st.grid, n) ==> HasKey(grid, n);
  }

  lemma SimpleStepValid(st: State, m: SimpleMatch)
    requires Valid(st)
    ensures Valid(SimpleStep(st, m))
  {
    if m.command == "screen" {
      AddScreenValid(st, StripQuotes(m.target));
    }
  }

  lemma WidgetLineValid(st: State, line: string, w: WidgetMatch)
    requires Valid(st)
    ensures Valid(WidgetLine(st, line, w))
  {
    var props := Props(w.options);
    assert WidgetStep(st, w) == Place(st, w, props);
    if Place(st, w, props).Ok? {
      WidgetStepValid(st, w, props);
    } else {
      WidgetAbortValid(st, w, props);
    }
  }

  /** Every line keeps the tables valid, whether it is skipped, applied or reported. */
  lemma StepValid(st: State, raw: string)
    requires Valid(st)
    ensures Valid(Step(st, raw))
  {
    var line := Strip(raw);
    if line != [] && line[0] != '#' {
      match MatchWidget(line)
      case Some(w) => WidgetLineValid(st, line, w);
      case None =>
        match MatchSimple(line)
        case Some(m) => SimpleStepValid(st, m);
        case None =>
    }
  }

  lemma {:induction false} FeedValid(st: State, lines: seq<string>)
    requires Valid(st)
    ensures Valid(Feed(st, lines))
    decreases |lines|
  {
    if lines != [] {
      FeedValid(st, lines[..|lines| - 1]);
      StepValid(Feed(st, lines[..|lines| - 1]), lines[|lines| - 1]);
    }
  }

  /** After `parse`, whatever the text, the tables are valid. */
  lemma ParseLinesValid(lines: seq<string>)
    ensures Valid(ParseLines(lines))
  {
    FeedValid(Initial, lines);
  }

  // ---------------------------------------------------------------- what one line does

  /** Blank lines and `#` comments change nothing. */
  lemma StepSkipsBlankAndComments(st: State, raw: string)
    requires Strip(raw) == [] || Strip(raw)[0] == '#'
    ensures Step(st, raw) == st
  {
  }

  /** A run of blank and comment lines leaves the state as it was. */
  lemma {:induction false} FeedSkipsBlankAndComments(st: State, lines: seq<string>)
    requires forall i :: 0 <= i < |lines| ==> Strip(lines[i]) == [] || Strip(lines[i])[0] == '#'
    ensures Feed(st, lines) == st
    decreases |lines|
  {
    if lines != [] {
      var init := lines[..|lines| - 1];
      assert forall i :: 0 <= i < |init| ==> init[i] == lines[i];
      FeedSkipsBlankAndComments(st, init);
      StepSkipsBlankAndComments(st, lines[|lines| - 1]);
    }
  }

  /** The line matched the simple shape only; it is not blank and not a comment. */
  predicate SimpleLine(raw: string, m: SimpleMatch) {
    MatchWidget(Strip(raw)).None? && MatchSimple(Strip(raw)) == Some(m)
  }

  lemma SimpleLineIsCommand(raw: string, m: SimpleMatch)
    requires SimpleLine(raw, m)
    ensures forall st :: Step(st, raw) == SimpleStep(st, m)
  {
    var line := Strip(raw);
    assert line[0] == m.command[0] && IsWordChar(m.command[0]);
  }

  /** A simple-shape line whose command is not `window`, `screen` or `show` changes
      nothing (a widget line cut short, such as `text "x" at`, is one). */
  lemma StepUnknownCommand(st: State, raw: string, m: SimpleMatch)
    requires SimpleLine(raw, m) && m.command != "window" && m.command != "screen" && m.command != "show"
    ensures Step(st, raw) == st
  {
    SimpleLineIsCommand(raw, m);
  }

  /** `window T` appends `root.title("T")` to the setup lines and changes nothing else. */
  lemma StepWindow(st: State, raw: string, m: SimpleMatch)
    requires SimpleLine(raw, m) && m.command == "window"
    ensures Step(st, raw) == st.(setup := st.setup + ["root.title(\"" + StripQuotes(m.target) + "\")"])
  {
    SimpleLineIsCommand(raw, m);
  }

  /** `show T` appends `initial_screen = 'T'` to the body lines and changes nothing else. */
  lemma StepShow(st: State, raw: string, m: SimpleMatch)
    requires SimpleLine(raw, m) && m.command == "show"
    ensures Step(st, raw) == st.(body := st.body + ["initial_screen = '" + StripQuotes(m.target) + "'"])
  {
    SimpleLineIsCommand(raw, m);
  }

  /** `screen T` allocates a fresh frame variable in bucket `screen_T`, points the screen
      table at it, declares the frame, and empties the screen's occupancy, forgetting
      rows and columns recorded for it before. Body lines and named widgets are untouched. */
  lemma StepScreen(st: State, raw: string, m: SimpleMatch)
    requires SimpleLine(raw, m) && m.command == "screen"
    ensures var t, n := StripQuotes(m.target), Step(st, raw);
      var b := "screen_" + t;
      var v := VarName(b, Count(n.counters, b));
      && Count(n.counters, b) == Count(st.counters, b) + 1
      && Lookup(n.screens, t) == Some(v)
      && Lookup(n.grid, t) == Some(Unoccupied)
      && n.setup == st.setup + [v + " = tk.Frame(root)"]
      && n.body == st.body && n.named == st.named && n.diagnostics == st.diagnostics
      && (forall k :: k != t ==> Lookup(n.grid, k) == Lookup(st.grid, k) && Lookup(n.screens, k) == Lookup(st.screens, k))
      && (forall c :: c != b ==> Count(n.counters, c) == Count(st.counters, c))
  {
    SimpleLineIsCommand(raw, m);
  }

  // ---------------------------------------------------------------- what a widget line does

  /** A line of the widget shape is handled by the widget branch: the state it leaves
      when it goes through, or the state as the exception left it with one more report
      naming the stripped line and the failure. */
  lemma StepWidget(st: State, raw: string, w: WidgetMatch)
    requires MatchWidget(Strip(raw)) == Some(w)
    ensures var n, r := Step(st, raw), WidgetStep(st, w);
      && n.diagnostics == st.diagnostics + (if r.Ok? then [] else [Diagnostic(Strip(raw), r.error.failure)])
      && (r.Ok? ==> n == r.value)
      && (r.Err? ==> n == r.error.partial.(diagnostics := n.diagnostics))
  {
    StepIsWidgetLine(st, raw, w);
    WidgetLineReports(st, Strip(raw), w);
  }

  lemma StepIsWidgetLine(st: State, raw: string, w: WidgetMatch)
    requires MatchWidget(Strip(raw)) == Some(w)
    ensures Step(st, raw) == WidgetLine(st, Strip(raw), w)
  {
    WidgetLineStarts(Strip(raw), w);
  }

  /** A widget line written the usual way, `KIND "TEXT" at ROW,COL on SCREEN`, reaches the
      widget branch with the groups it reads as. */
  lemma StepReadsWidget(st: State, kind: string, text: string, row: string, col: string, screen: string)
    requires kind != [] && forall n :: 0 <= n < |kind| ==> IsWordChar(kind[n])
    requires '"' !in text && '\n' !in text
    requires row != [] && AllDigits(row) && col != [] && AllDigits(col)
    requires screen != [] && forall n :: 0 <= n < |screen| ==> IsWordChar(screen[n])
    ensures var line := kind + " \"" + text + "\" at " + row + "," + col + " on " + screen;
      Step(st, line) == WidgetLine(st, line, WidgetMatch(kind, "\"" + text + "\"", row + "," + col, screen, ""))
  {
    var line := kind + " \"" + text + "\" at " + row + "," + col + " on " + screen;
    assert line[0] == kind[0] && line[|line| - 1] == screen[|screen| - 1];
    assert Strip(line) == line;
    WidgetLineReads(kind, text, row, col, screen);
    StepIsWidgetLine(st, line, WidgetMatch(kind, "\"" + text + "\"", row + "," + col, screen, ""));
  }

  /** A widget line starts with a word character, so it is neither blank nor a comment. */
  lemma WidgetLineStarts(line: string, w: WidgetMatch)
    requires MatchWidget(line) == Some(w)
    ensures line != [] && line[0] != '#'
  {
    assert line[0] == w.kind[0] && IsWordChar(w.kind[0]);
  }

  lemma WidgetLineReports(st: State, line: string, w: WidgetMatch)
    ensures var n, r := WidgetLine(st, line, w), WidgetStep(st, w);
      && n.diagnostics == st.diagnostics + (if r.Ok? then [] else [Diagnostic(line, r.error.failure)])
      && (r.Ok? ==> n == r.value)
      && (r.Err? ==> n == r.error.partial.(diagnostics := n.diagnostics))
  {
    WidgetStepReports(st, w);
  }

  /** The widget branch itself never prints: reports are added only by the loop. */
  lemma WidgetStepReports(st: State, w: WidgetMatch)
    ensures WidgetStep(st, w).Ok? ==> WidgetStep(st, w).value.diagnostics == st.diagnostics
    ensures WidgetStep(st, w).Err? ==> WidgetStep(st, w).error.partial.diagnostics == st.diagnostics
  {
  }

  /** The position splits into a row and a column that are both integers. */
  predicate GoodPosition(w: WidgetMatch, row: string, col: string) {
    SplitOn(w.pos, ',') == [row, col] && ParseInt(row).Some? && ParseInt(col).Some?
  }

  /** The variable a successful or late-failing widget line allocates. */
  function WidgetVar(counters: map<string, nat>, w: WidgetMatch, props: Dict<string, string>): string {
    VarName(Bucket(props, w.kind), Count(counters, Bucket(props, w.kind)) + 1)
  }

  /** A widget line that goes through has a two-part position, a grid update that
      went through, and is then declared. */
  lemma PlaceDeclares(st: State, w: WidgetMatch, props: Dict<string, string>)
    requires Place(st, w, props).Ok?
    ensures var pos := SplitOn(w.pos, ',');
      && |pos| == 2 && Occupy(st.grid, w.screen, pos[0], pos[1]).Ok?
      && Place(st, w, props) ==
         Declare(st.(grid := Occupy(st.grid, w.screen, pos[0], pos[1]).value), w, props, Lookup(st.screens, w.screen),
                 ConfigItems(ConfigProps(props)), pos[0], pos[1])
  {
  }

  /** A declared widget: its bucket's counter goes up by one, and only the counters,
      the named widgets and the body change. */
  lemma DeclareKeeps(st: State, w: WidgetMatch, props: Dict<string, string>, parent: Option<string>, config: seq<string>, row: string, col: string)
    requires Declare(st, w, props, parent, config, row, col).Ok?
    ensures var n, b := Declare(st, w, props, parent, config, row, col).value, Bucket(props, w.kind);
      && Count(n.counters, b) == Count(st.counters, b) + 1
      && n.setup == st.setup && n.screens == st.screens && n.grid == st.grid && n.diagnostics == st.diagnostics
  {
  }

  /** A declared widget appends two statements, the second placing the new variable at
      the row and column as written, with `colspan` defaulting to `1`. */
  lemma DeclareStatements(st: State, w: WidgetMatch, props: Dict<string, string>, parent: Option<string>, config: seq<string>, row: string, col: string)
    requires Declare(st, w, props, parent, config, row, col).Ok?
    ensures var n := Declare(st, w, props, parent, config, row, col).value;
      && |n.body| == |st.body| + 2 && n.body[..|st.body|] == st.body
      && n.body[|st.body|] == Construct(w.kind, WidgetVar(st.counters, w, props), parent, w.content, Lookup(props, "action"), config).value
      && n.body[|st.body| + 1] == GridStatement(WidgetVar(st.counters, w, props), row, col, Lookup(props, "colspan").GetOr("1"))
  {
  }

  /** A placed widget: its bucket's counter goes up by one, the two statements are
      appended, and the second one places the new variable at the row and column as
      written, with `colspan` defaulting to `1`. */
  lemma WidgetStatements(st: State, w: WidgetMatch, props: Dict<string, string>, row: string, col: string)
    requires SplitOn(w.pos, ',') == [row, col] && Place(st, w, props).Ok?
    ensures var n, b := Place(st, w, props).value, Bucket(props, w.kind);
      && Count(n.counters, b) == Count(st.counters, b) + 1
      && |n.body| == |st.body| + 2 && n.body[..|st.body|] == st.body
      && n.body[|st.body|] == Construct(w.kind, WidgetVar(st.counters, w, props), Lookup(st.screens, w.screen), w.content,
                                        Lookup(props, "action"), ConfigItems(ConfigProps(props))).value
      && n.body[|st.body| + 1] == GridStatement(WidgetVar(st.counters, w, props), row, col, Lookup(props, "colspan").GetOr("1"))
      && n.setup == st.setup && n.screens == st.screens && n.diagnostics == st.diagnostics
  {
    PlaceDeclares(st, w, props);
    var grid := Occupy(st.grid, w.screen, row, col).value;
    DeclareKeeps(st.(grid := grid), w, props, Lookup(st.screens, w.screen), ConfigItems(ConfigProps(props)), row, col);
    DeclareStatements(st.(grid := grid), w, props, Lookup(st.screens, w.screen), ConfigItems(ConfigProps(props)), row, col);
  }

  /** A placed widget counts one more widget in its bucket. */
  lemma PlaceCounts(st: State, w: WidgetMatch, props: Dict<string, string>)
    requires Place(st, w, props).Ok?
    ensures var b := Bucket(props, w.kind); Count(Place(st, w, props).value.counters, b) == Count(st.counters, b) + 1
  {
    PlaceDeclares(st, w, props);
    var pos := SplitOn(w.pos, ',');
    var grid := Occupy(st.grid, w.screen, pos[0], pos[1]).value;
    DeclareKeeps(st.(grid := grid), w, props, Lookup(st.screens, w.screen), ConfigItems(ConfigProps(props)), pos[0], pos[1]);
  }

  /** The integer row and column join the screen's occupancy as set elements. */
  lemma WidgetOccupancy(st: State, w: WidgetMatch, props: Dict<string, string>, row: string, col: string)
    requires SplitOn(w.pos, ',') == [row, col] && Place(st, w, props).Ok?
    ensures ParseInt(row).Some? && ParseInt(col).Some?
    ensures var n, was := Place(st, w, props).value, OccupancyOf(st.grid, w.screen);
      var r, c := ParseInt(row).value, ParseInt(col).value;
      && HasKey(n.grid, w.screen)
      && (forall x :: x in OccupancyOf(n.grid, w.screen).rows <==> x in was.rows || x == r)
      && (forall x :: x in OccupancyOf(n.grid, w.screen).cols <==> x in was.cols || x == c)
  {
    PlaceDeclares(st, w, props);
    var grid := Occupy(st.grid, w.screen, row, col).value;
    DeclareKeeps(st.(grid := grid), w, props, Lookup(st.screens, w.screen), ConfigItems(ConfigProps(props)), row, col);
    var g0 := EnsureScreen(st.grid, w.screen);
    assert OccupancyOf(g0, w.screen) == OccupancyOf(st.grid, w.screen);
  }

  /** A declared widget with a `name:` option is counted under its name and registered
      under it. */
  lemma DeclareNamed(st: State, w: WidgetMatch, props: Dict<string, string>, parent: Option<string>, config: seq<string>, row: string, col: string, x: string)
    requires Lookup(props, "name") == Some(x) && x != ""
    ensures Bucket(props, w.kind) == x
    ensures Declare(st, w, props, parent, config, row, col).Ok? ==>
      Lookup(Declare(st, w, props, parent, config, row, col).value.named, x) == Some(WidgetVar(st.counters, w, props))
  {
    var v := WidgetVar(st.counters, w, props);
    assert Lookup(Register(st.named, Lookup(props, "name"), v), x) == Some(v);
  }

  /** A widget line that goes through registers its variable under its `name:` option. */
  lemma PlaceNamedIs(st: State, w: WidgetMatch, props: Dict<string, string>)
    requires Place(st, w, props).Ok?
    ensures Place(st, w, props).value.named == Register(st.named, Lookup(props, "name"), WidgetVar(st.counters, w, props))
  {
    PlaceDeclares(st, w, props);
    var pos := SplitOn(w.pos, ',');
    var st0 := st.(grid := Occupy(st.grid, w.screen, pos[0], pos[1]).value);
    DeclareNamedIs(st0, w, props, Lookup(st.screens, w.screen), ConfigItems(ConfigProps(props)), pos[0], pos[1]);
    assert st0.counters == st.counters && st0.named == st.named;
  }

  lemma DeclareNamedIs(st: State, w: WidgetMatch, props: Dict<string, string>, parent: Option<string>, config: seq<string>, row: string, col: string)
    requires Declare(st, w, props, parent, config, row, col).Ok?
    ensures Declare(st, w, props, parent, config, row, col).value.named == Register(st.named, Lookup(props, "name"), WidgetVar(st.counters, w, props))
  {
  }

  /** With a `name:` option the name is the bucket and the named-widget table points at
      the new variable, replacing an earlier widget of that name. */
  lemma WidgetNamed(st: State, w: WidgetMatch, props: Dict<string, string>, x: string)
    requires Place(st, w, props).Ok? && Lookup(props, "name") == Some(x) && x != ""
    ensures Bucket(props, w.kind) == x
    ensures Lookup(Place(st, w, props).value.named, x) == Some(WidgetVar(st.counters, w, props))
  {
    PlaceNamedIs(st, w, props);
  }

  /** Two widgets counted one after the other in the same bucket get different variables. */
  lemma WidgetVarsDistinct(c0: map<string, nat>, c1: map<string, nat>, w1: WidgetMatch, p1: Dict<string, string>,
                           w2: WidgetMatch, p2: Dict<string, string>)
    requires Bucket(p1, w1.kind) == Bucket(p2, w2.kind)
    requires Count(c1, Bucket(p2, w2.kind)) == Count(c0, Bucket(p1, w1.kind)) + 1
    ensures WidgetVar(c0, w1, p1) != WidgetVar(c1, w2, p2)
  {
    var b := Bucket(p1, w1.kind);
    VarNameDistinct(b, Count(c0, b) + 1, Count(c1, b) + 1);
  }

  /** Two widgets with the same name: the table keeps the second, and the two
      variables differ. */
  lemma SameNameTwice(st: State, w1: WidgetMatch, p1: Dict<string, string>, w2: WidgetMatch, p2: Dict<string, string>, x: string)
    requires Lookup(p1, "name") == Some(x) && Lookup(p2, "name") == Some(x) && x != ""
    requires Place(st, w1, p1).Ok? && Place(Place(st, w1, p1).value, w2, p2).Ok?
    ensures var s1 := Place(st, w1, p1).value;
      && Lookup(Place(s1, w2, p2).value.named, x) == Some(WidgetVar(s1.counters, w2, p2))
      && WidgetVar(st.counters, w1, p1) != WidgetVar(s1.counters, w2, p2)
  {
    var s1 := Place(st, w1, p1).value;
    WidgetNamed(s1, w2, p2, x);
    WidgetNamed(st, w1, p1, x);
    PlaceCounts(st, w1, p1);
    WidgetVarsDistinct(st.counters, s1.counters, w1, p1, w2, p2);
  }

  /** Any kind other than `text` and `button` is an Entry, which never receives the content. */
  lemma EntryIgnoresContent(st: State, w: WidgetMatch, content: string)
    requires w.kind != "text" && w.kind != "button"
    ensures WidgetStep(st, w) == WidgetStep(st, w.(content := content))
  {
  }

  // ---------------------------------------------------------------- widget lines that raise

  /** A position that does not split in two raises before anything changes. */
  lemma WidgetBadPosition(st: State, w: WidgetMatch)
    requires |SplitOn(w.pos, ',')| != 2
    ensures WidgetStep(st, w) == Err(Abort(st, BadPosition))
  {
  }

  /** A row that is not an integer raises after the screen's occupancy entry is created,
      and that entry stays. */
  lemma WidgetBadRow(st: State, w: WidgetMatch, row: string, col: string)
    requires SplitOn(w.pos, ',') == [row, col] && ParseInt(row).None?
    ensures WidgetStep(st, w) == Err(Abort(st.(grid := EnsureScreen(st.grid, w.screen)), BadRow))
  {
  }

  /** A column that is not an integer raises after the row is recorded, and the row
      stays recorded; nothing but the grid has changed. */
  lemma WidgetBadColumn(st: State, w: WidgetMatch, row: string, col: string)
    requires SplitOn(w.pos, ',') == [row, col] && ParseInt(row).Some? && ParseInt(col).None?
    ensures WidgetStep(st, w).Err? && WidgetStep(st, w).error.failure == BadColumn
    ensures var p := WidgetStep(st, w).error.partial;
      p == st.(grid := p.grid) && HasKey(p.grid, w.screen)
      && ParseInt(row).value in OccupancyOf(p.grid, w.screen).rows
  {
    var grid0 := EnsureScreen(st.grid, w.screen);
    var r := ParseInt(row).value;
    var grid1 := AddRow(grid0, w.screen, r);
    assert Occupy(st.grid, w.screen, row, col) == Err((grid1, BadColumn));
    assert OccupancyOf(grid1, w.screen) == OccupancyOf(grid0, w.screen).(rows := AddOnce(OccupancyOf(grid0, w.screen).rows, r));
  }

  /** With a well-formed position the grid update goes through and the widget is declared. */
  lemma GoodPlace(st: State, w: WidgetMatch, props: Dict<string, string>, row: string, col: string)
    requires GoodPosition(w, row, col)
    ensures Occupy(st.grid, w.screen, row, col).Ok?
    ensures Place(st, w, props) == Declare(st.(grid := Occupy(st.grid, w.screen, row, col).value), w, props,
                                           Lookup(st.screens, w.screen), ConfigItems(ConfigProps(props)), row, col)
  {
  }

  /** Building the statement raises exactly for a Label without a parent and for a
      Button whose action has no verb; a Button or an Entry without a parent is built
      with the parent left out. */
  lemma ConstructFails(kind: string, v: string, parent: Option<string>, content: string,
                       action: Option<string>, config: seq<string>)
    ensures Construct(kind, v, parent, content, action, config).Err?
        <==> (kind == "text" && parent.None?) || (kind == "button" && ActionCode(action).None?)
    ensures Construct(kind, v, parent, content, action, config).Err? ==>
      Construct(kind, v, parent, content, action, config).error == (if kind == "text" then MissingParent else NoActionVerb)
  {
  }

  /** The statement a widget line builds: `v = tk.<Class>(args)`. A Label's arguments are
      the parent, the quoted content and the config items, unfiltered; a Button's are the
      parent if present, the content, the callback, its font and the non-empty config
      items; an Entry's are the parent if present, its font, its justification and the
      non-empty config items. */
  lemma ConstructShape(kind: string, v: string, parent: Option<string>, content: string,
                       action: Option<string>, config: seq<string>)
    requires Construct(kind, v, parent, content, action, config).Ok?
    ensures var stmt := Construct(kind, v, parent, content, action, config).value;
      && (kind == "text" ==>
            stmt == v + " = tk.Label(" + Join(", ", [parent.value, "text=" + content] + config) + ")")
      && (kind == "button" ==>
            stmt == v + " = tk.Button(" + Join(", ", Lead(parent) + ["text=" + content, ActionCode(action).value, ButtonFont]
                                                     + Present(AsArgs(config))) + ")")
      && (kind != "text" && kind != "button" ==>
            stmt == v + " = tk.Entry(" + Join(", ", Lead(parent) + [EntryFont, RightJustify] + Present(AsArgs(config))) + ")")
  {
    if kind == "button" {
      ButtonShape(v, parent, content, action, config);
    } else if kind != "text" {
      EntryShape(kind, v, parent, content, action, config);
    }
  }

  lemma ButtonShape(v: string, parent: Option<string>, content: string, action: Option<string>, config: seq<string>)
    requires ActionCode(action).Some?
    ensures Construct("button", v, parent, content, action, config).value
         == v + " = tk.Button(" + Join(", ", Lead(parent) + ["text=" + content, ActionCode(action).value, ButtonFont]
                                             + Present(AsArgs(config))) + ")"
  {
    PresentLeadingThree(parent, "text=" + content, ActionCode(action).value, ButtonFont, config);
  }

  lemma EntryShape(kind: string, v: string, parent: Option<string>, content: string, action: Option<string>, config: seq<string>)
    requires kind != "text" && kind != "button"
    ensures Construct(kind, v, parent, content, action, config).value
         == v + " = tk.Entry(" + Join(", ", Lead(parent) + [EntryFont, RightJustify] + Present(AsArgs(config))) + ")"
  {
    PresentLeadingTwo(parent, EntryFont, RightJustify, config);
  }

  lemma PresentLeadingThree(parent: Option<string>, a: string, b: string, c: string, config: seq<string>)
    requires a != "" && b != "" && c != ""
    ensures Present([parent, Some(a), Some(b), Some(c)] + AsArgs(config)) == Lead(parent) + [a, b, c] + Present(AsArgs(config))
  {
    var fixed := [a, b, c];
    assert AsArgs(fixed) == [Some(a), Some(b), Some(c)];
    assert [parent, Some(a), Some(b), Some(c)] + AsArgs(config) == [parent] + AsArgs(fixed) + AsArgs(config);
    PresentLeading(parent, fixed, config);
  }

  lemma PresentLeadingTwo(parent: Option<string>, a: string, b: string, config: seq<string>)
    requires a != "" && b != ""
    ensures Present([parent, Some(a), Some(b)] + AsArgs(config)) == Lead(parent) + [a, b] + Present(AsArgs(config))
  {
    var fixed := [a, b];
    assert AsArgs(fixed) == [Some(a), Some(b)];
    assert [parent, Some(a), Some(b)] + AsArgs(config) == [parent] + AsArgs(fixed) + AsArgs(config);
    PresentLeading(parent, fixed, config);
  }

  /** The filtered argument list of a Button or an Entry: the parent if present, the
      fixed non-empty arguments, then the non-empty config items. */
  lemma PresentLeading(parent: Option<string>, fixed: seq<string>, config: seq<string>)
    requires forall i :: 0 <= i < |fixed| ==> fixed[i] != ""
    ensures Present([parent] + AsArgs(fixed) + AsArgs(config)) == Lead(parent) + fixed + Present(AsArgs(config))
  {
    PresentAppend([parent] + AsArgs(fixed), AsArgs(config));
    PresentAppend([parent], AsArgs(fixed));
    PresentAsArgs(fixed);
  }

  /** A declaration that raises keeps its allocated counter and its name registration,
      and appends no statement. */
  lemma DeclareAbort(st: State, w: WidgetMatch, props: Dict<string, string>, parent: Option<string>,
                     config: seq<string>, row: string, col: string)
    requires Declare(st, w, props, parent, config, row, col).Err?
    ensures var p, b := Declare(st, w, props, parent, config, row, col).error.partial, Bucket(props, w.kind);
      && p.body == st.body && p.setup == st.setup && p.screens == st.screens && p.grid == st.grid
      && p.diagnostics == st.diagnostics
      && Count(p.counters, b) == Count(st.counters, b) + 1
      && p.named == Register(st.named, Lookup(props, "name"), WidgetVar(st.counters, w, props))
  {
  }

  /** With a well-formed position a widget line raises exactly when it is a `text` on an
      undeclared screen or a `button` whose action has no verb; a `button` or any other
      kind on an undeclared screen goes through. When it raises, the grid update, the
      counter and the name registration stay, and no statement is appended. */
  lemma WidgetLateFailure(st: State, w: WidgetMatch, row: string, col: string)
    requires GoodPosition(w, row, col)
    ensures var props := Props(w.options);
      (WidgetStep(st, w).Err? <==>
         (w.kind == "text" && Lookup(st.screens, w.screen).None?)
         || (w.kind == "button" && ActionCode(Lookup(props, "action")).None?))
    ensures WidgetStep(st, w).Err? ==>
      var p, props := WidgetStep(st, w).error.partial, Props(w.options);
      var b := Bucket(props, w.kind);
      && p.body == st.body && p.setup == st.setup && p.screens == st.screens
      && p.grid == Occupy(st.grid, w.screen, row, col).value
      && Count(p.counters, b) == Count(st.counters, b) + 1
      && p.named == Register(st.named, Lookup(props, "name"), WidgetVar(st.counters, w, props))
  {
    var props := Props(w.options);
    GoodPlace(st, w, props, row, col);
    var st0 := st.(grid := Occupy(st.grid, w.screen, row, col).value);
    var parent, config := Lookup(st.screens, w.screen), ConfigItems(ConfigProps(props));
    var v := WidgetVar(st.counters, w, props);
    assert Declare(st0, w, props, parent, config, row, col).Err?
        <==> Construct(w.kind, v, parent, w.content, Lookup(props, "action"), config).Err?;
    ConstructFails(w.kind, v, parent, w.content, Lookup(props, "action"), config);
    if WidgetStep(st, w).Err? {
      DeclareAbort(st0, w, props, parent, config, row, col);
    }
  }
}
