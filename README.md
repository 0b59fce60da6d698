# HxGUI compiler core in Dafny

HxGUI compiles a small line-oriented GUI description language into the source text of a
Python/tkinter program. Its compiler is the class `HxGuiCompiler` in `HxGUI.py`. `parse`
resets the compiler, then reads the script line by line:

- it skips blank and `#` lines;
- it matches each other line against a *widget* shape
  (`kind "content" at row,col on screen options`), or else a *simple* shape (`command target`);
- it accumulates a setup buffer and a body buffer of Python statements, per-bucket name
  counters, a screen table, a named-widget table, and per-screen row and column occupancy sets.

A line that raises is reported and the loop goes on; whatever the line changed before
raising stays changed. `generate_code_string` parses, then returns nothing when both
buffers are empty. Otherwise it returns a fixed program template with five sections
spliced in: setup lines, body lines, the screen map, the named-widget map and the
grid-stretch lines.

The project has three layers:

- **Value model** (`Parsing`, `Generator`). `Step` is one iteration of the `parse` loop on
  a `State` value. `Feed` and `ParseLines` are the loop. `Render` and `Compile` are
  `generate_code_string`.
- **Object model** (`HxGui`). `HxGuiCompiler` is a class whose fields are the six fields
  of `reset`. Its methods update them in place, in the order the source does. Each method
  is proved to agree with the matching function of the value model.
- **Properties** (lemmas in every module), stated about the value model:
  - allocation, option parsing and action translation;
  - what each kind of line does, including the lines that raise;
  - invariants kept by every line;
  - what the generated text contains.

Supporting modules:

- `Text`: ASCII character classes, `strip`, `split`, `join`, `int`/`str` on naturals, and
  the `re.sub` sanitiser.
- `OrderedMap`: Python dicts with insertion order.
- `Patterns`: hand-written scanners for the three regular expressions.
- `Actions`: the action translator.

## Model

| member | source | states |
|---|---|---|
| Text.Run | HxGUI.py:56 | the end of the longest run of characters of a class starting at `i`: every character before it is in the class and the next one is not (a greedy `\w+`, `\s+`, `\S+`, `[\d,]+`) |
| Text.RunAll | HxGUI.py:69 | every character of a greedy run is in its class |
| Text.RunBack | HxGUI.py:64 | the start of the longest run of characters of a class ending at `j`: what `strip` cuts from the right |
| Text.StripWhile | HxGUI.py:64 | `strip`: the result is the slice left between two runs of stripped characters, one at each end, and neither end of the result is stripped; a string with no stripped character at either end is kept whole, an all-stripped string becomes empty |
| Text.StripQuotes | HxGUI.py:111 | `target.strip('"')`: the result is the target with runs of quotes cut from its two ends and nothing else removed; neither end of the result is a quote, and a target with no quote at either end is kept whole |
| Text.FilterPasses | HxGUI.py:51 | every character the sanitiser keeps is in `[A-Za-z0-9_]` |
| Text.FilterKeepsAll | HxGUI.py:51 | a string already made of kept characters passes unchanged |
| Text.FilterDropsAll | HxGUI.py:51 | a string with no kept character is deleted entirely |
| Text.FilterAppend | HxGUI.py:51 | `re.sub` deletion distributes over concatenation |
| Text.ParseInt | HxGUI.py:81-82 | `int()` of a position part succeeds exactly when the part is a non-empty digit string |
| Text.ParseIntLeadingZero | HxGUI.py:81-82 | a leading zero does not change the value `int()` reads, so `1` and `01` name the same row or column |
| Text.ParseIntNatToString | HxGUI.py:51 | `int(str(n)) == n`: the decimal rendering of a count reads back as the count |
| Text.NatToString | HxGUI.py:51 | `str(n)` of a count is a non-empty digit string in canonical form: `0` exactly for zero, and no leading zero otherwise |
| Text.NatToStringInjective | HxGUI.py:51 | different counts render as different digit strings |
| Text.JoinAppend | HxGUI.py:191-195 | joining a concatenation is joining each part with the separator between them |
| Text.SplitOn | HxGUI.py:74 | `pos.split(',')` yields at least one part and no part contains a comma |
| Text.SplitOnCount | HxGUI.py:74 | the split has one more part than the text has commas, so `row, col = …` succeeds exactly for one comma |
| Text.SplitOnJoin | HxGUI.py:74 | joining the parts with the separator gives back the original text |
| Text.SplitWs | HxGUI.py:127 | `split()` yields non-empty tokens without whitespace |
| Text.SplitWsRuns | HxGUI.py:127 | the tokens of `split()` are the maximal runs of non-whitespace: the text is the tokens interleaved with whitespace runs, of which only the two outer ones may be empty |
| Text.SplitWsEmpty | HxGUI.py:127 | `split()` gives no token exactly when the text is all whitespace |
| Text.SplitWsConcat | HxGUI.py:127 | the tokens of `split()`, concatenated, are exactly the non-whitespace characters of the text, in order |
| OrderedMap.Items | HxGUI.py:92 | every listed item is an entry of the dict |
| OrderedMap.EmptyWellFormed | HxGUI.py:44-46 | the empty dict `{}` is well formed |
| OrderedMap.ItemsWellFormed | HxGUI.py:144 | a well-formed dict lists one item per key, in insertion order |
| OrderedMap.Put | HxGUI.py:86 | `d[k] = v`: `k` maps to `v`, other keys keep their values, a new key goes last and an existing key keeps its place |
| OrderedMap.PutWellFormed | HxGUI.py:86 | assignment keeps keys unique and keys equal to the domain |
| OrderedMap.Remove | HxGUI.py:88-90 | `d.pop(k, None)`: `k` is gone, other keys keep their values, remaining keys keep their order |
| OrderedMap.Without | HxGUI.py:88-90 | the key list without the popped key holds exactly the other keys, and a key that is not listed leaves the list unchanged |
| OrderedMap.WithoutAppend | HxGUI.py:88-90 | dropping a key from a concatenation drops it from each part, so the keys that stay keep their order |
| OrderedMap.WithoutNoDup | HxGUI.py:88-90 | dropping a key keeps the remaining keys distinct |
| OrderedMap.RemoveWellFormed | HxGUI.py:88-90 | popping keeps the dict well formed |
| Patterns.MatchTail | HxGUI.py:69 | the tail ` at POS on SCREEN OPTS` gives a non-empty `[\d,]+` position, a `\w+` screen and options with no line break |
| Patterns.Keyword | HxGUI.py:69 | `\s+at\s+` and `\s+on\s+` consume at least one character and stay within the line |
| Patterns.KeywordParts | HxGUI.py:69 | `\s+at\s+` and `\s+on\s+` consume non-empty whitespace, the word, then the longest run of whitespace |
| Patterns.MatchScreen | HxGUI.py:69 | `\s+on\s+(\w+)(.*)` gives a non-empty `\w+` screen and options with no line break |
| Patterns.MatchScreenParts | HxGUI.py:69 | the text after the position is whitespace, `on`, whitespace, the whole `\w+` run as the screen, then the rest of the line as the options |
| Patterns.MatchTailParts | HxGUI.py:69 | the text after the content is whitespace, `at`, whitespace, the position, whitespace, `on`, whitespace, the screen, the options and the rest after a line break |
| Patterns.FirstClose | HxGUI.py:69 | the lazy `".*?"` closes at a quote before any line break, and the rest of the widget pattern matches after it |
| Patterns.FirstCloseLeftmost | HxGUI.py:69 | the lazy group takes the shortest span: no earlier quote on the line lets the rest of the pattern match, and when there is no match, no quote on the line does |
| Patterns.MatchWidget | HxGUI.py:69 | a widget match starts with its `\w+` kind, its content is a quoted string, its position is `[\d,]+` and its screen is `\w+` |
| Patterns.MatchWidgetWith | HxGUI.py:69 | the kind is a `\w+` prefix of the line and the content is the quoted span after its whitespace, after which the rest of the pattern matches |
| Patterns.WidgetFrom | HxGUI.py:69 | the widget groups exist exactly when the lazy quote found its closing quote, and sit where that quote and the rest of the pattern put them |
| Patterns.KeywordFinds | HxGUI.py:69 | conversely, whitespace, the word, then whitespace that stops at a non-space character, is consumed up to that character |
| Patterns.MatchScreenFinds | HxGUI.py:69 | conversely, whitespace, `on`, whitespace, a `\w+` run and the rest of the line are matched with that run as the screen and that rest as the options |
| Patterns.MatchTailFinds | HxGUI.py:69 | conversely, text built from the ten tail pieces, each in its class, is matched with exactly that position, screen and options |
| Patterns.FirstCloseFinds | HxGUI.py:69 | the lazy `".*?"` followed by the rest of the pattern succeeds exactly when some quote on the line lets the rest match |
| Patterns.MatchWidgetWithFinds | HxGUI.py:69 | after a `\w+` kind and whitespace, the widget pattern matches exactly when a quote opens there and a later quote on the line closes it |
| Patterns.MatchWidgetFinds | HxGUI.py:69 | conversely, a line built from the kind, whitespace, a one-line quoted content and a tail of the right shape is matched, with exactly those groups when the content holds no inner quote |
| Patterns.WidgetLineReads | HxGUI.py:69 | `KIND "TEXT" at ROW,COL on SCREEN` is matched with kind `KIND`, content `"TEXT"`, position `ROW,COL`, screen `SCREEN` and no options |
| Patterns.MatchWidgetParts | HxGUI.py:69 | a matched line is the kind, whitespace, the quoted content, whitespace, `at`, whitespace, the position, whitespace, `on`, whitespace, the screen and the options, in that order, and nothing else before a line break |
| Patterns.FirstQuote | HxGUI.py:70 | the first quote at or after `j` with no earlier quote or line break, or, when none is found, every later quote comes after a line break |
| Patterns.FirstQuoteFinds | HxGUI.py:70 | the lazy `".*?"` finds a closing quote exactly when a quote follows with no line break before it |
| Patterns.MatchSimple | HxGUI.py:70 | a simple match starts with its `\w+` command and has a non-empty target |
| Patterns.MatchSimpleFinds | HxGUI.py:70 | after a command word and whitespace, the simple pattern matches exactly when a word character or a quote closed later on the line comes next |
| Patterns.MatchSimpleParts | HxGUI.py:70 | a matched line is the command, whitespace, the target and the rest; a quoted target ends at the first closing quote, any other target is the whole run of word characters |
| Patterns.MatchOptionAt | HxGUI.py:56 | an option match has a `\w+` key and a non-empty value with no whitespace at either end, and it advances |
| Patterns.OptionMatchShape | HxGUI.py:56 | the key is the whole word run before a colon; a value opening a closed quote runs to the first closing quote, quotes and spaces kept; any other value is the maximal run of non-whitespace |
| Patterns.OptionMatchFinds | HxGUI.py:56 | the option pattern matches at a position exactly when a word starts there, a colon follows it and a non-whitespace character follows the colon |
| Patterns.FindOptions | HxGUI.py:57 | every `re.findall` pair has a `\w+` key and a value with no whitespace at either end |
| Patterns.FindOptionsFirst | HxGUI.py:57 | `re.findall` reports the leftmost match first, then scans on from where that match ends |
| Patterns.FindOptionsEmpty | HxGUI.py:57 | `re.findall` finds nothing exactly when the pattern matches at no position |
| Actions.ActionCode | HxGUI.py:125-137 | the translator raises exactly for a non-empty action with no token once its quotes are stripped; otherwise it yields a `command=` argument |
| Actions.ActionAbsent | HxGUI.py:126 | no action, or an empty one, gives `command=lambda: None` |
| Actions.ActionEmptyQuotes | HxGUI.py:127-128 | `action:""` raises |
| Actions.ActionRaises | HxGUI.py:126-128 | the translator raises exactly for a non-empty action that is all whitespace once the quotes at its ends are stripped |
| Actions.ActionShow | HxGUI.py:132 | `show T` gives `command=lambda: show_screen('T')` |
| Actions.ActionQuit | HxGUI.py:133 | `quit` gives `command=root.destroy` whatever follows it |
| Actions.ActionNoOp | HxGUI.py:132-137 | an unknown verb, or a verb other than `quit` without a target, gives the no-op callback |
| Actions.ActionSetEntry | HxGUI.py:134 | `set_entry` passes its value unquoted, or `""` when there is none |
| Actions.ActionAppendEntry | HxGUI.py:135 | `append_entry` quotes its value and quotes `None` when there is none |
| Actions.ActionEvalEntry | HxGUI.py:136 | `eval_entry T` gives `command=lambda: evaluate_entry('T')` |
| Actions.ActionFirstThree | HxGUI.py:128-137 | two actions agreeing on their first three tokens give the same callback |
| Parsing.AddOnce | HxGUI.py:81-82 | `set.add`: the elements are the old ones plus the new one, and the set grows by at most one |
| Parsing.Allocate | HxGUI.py:48-51 | the bucket's counter goes up by exactly one, every other bucket's counter is unchanged, and the name is the sanitised bucket, `_`, and the new count |
| Parsing.VarNameDistinct | HxGUI.py:48-51 | different counts of one bucket give different names |
| Parsing.AllocateTwice | HxGUI.py:48-51 | two allocations in one bucket give different names and raise its counter by two |
| Parsing.SanitizedBucketsCollide | HxGUI.py:48-51 | two different buckets that differ only by a character outside `[A-Za-z0-9_]` and have equal counts get the same name |
| Parsing.SanitizeDrops | HxGUI.py:51 | a character outside the class is deleted wherever it stands |
| Parsing.StripAllShaped | HxGUI.py:58 | the `strip()` calls of `_parse_props` never change a match |
| Parsing.FindOptionsShaped | HxGUI.py:56-58 | every match of the option pattern has a `\w+` key and a value with no whitespace at either end |
| Parsing.StripShaped | HxGUI.py:58 | `key.strip()` and `value.strip()` leave a match of the option pattern unchanged |
| Parsing.PutAllLast | HxGUI.py:57-58 | a key's last pair sets its final value |
| Parsing.PutAllLastWins | HxGUI.py:57-58 | after putting the pairs in order, a key maps to `v` exactly when its last pair gives `v`, and is absent exactly when no pair names it |
| Parsing.PropsLastWins | HxGUI.py:53-59 | `_parse_props`: a key maps to the value of its last match, and a key no match names is absent |
| Parsing.Present | HxGUI.py:99-104 | `[arg for arg in args if arg]`: no kept argument is empty, and a non-empty string is kept exactly when it was an argument |
| Parsing.PresentAppend | HxGUI.py:99-104 | the filter distributes over concatenation, so the kept arguments keep their order |
| Parsing.PresentAsArgs | HxGUI.py:99-104 | arguments that are all present and non-empty are all kept, in order |
| Parsing.ConfigItemsKept | HxGUI.py:92-104 | every `k=v` config item survives the filter, in insertion order |
| Parsing.EnsureScreen | HxGUI.py:77-78 | an existing entry is left alone; a missing one is created empty, goes last in the key order, and no other screen's entry changes |
| Parsing.Occupy | HxGUI.py:77-82 | the grid update goes through exactly when the row and the column are both integers, fails with `BadRow` before `BadColumn`, always leaves the screen with an occupancy entry, and touches no other screen |
| Parsing.Register | HxGUI.py:86 | a non-empty name now maps to the new variable; every other name, and every name when the name is absent or empty, keeps its entry |
| Parsing.InitialValid | HxGUI.py:43-46 | the reset state is valid |
| Parsing.StepValid | HxGUI.py:63-123 | every line keeps the state valid: tables with unique keys, occupancy sets without duplicates, and an occupancy entry for every declared screen |
| Parsing.FeedValid | HxGUI.py:63-123 | the loop keeps the state valid |
| Parsing.ParseLinesValid | HxGUI.py:61-123 | after `parse`, whatever the text, the state is valid |
| Parsing.StepSkipsBlankAndComments | HxGUI.py:65 | a blank or `#` line changes nothing |
| Parsing.StepReadsWidget | HxGUI.py:64-72 | a line `KIND "TEXT" at ROW,COL on SCREEN` is handled by the widget branch with the groups it reads as |
| Parsing.StepIsWidgetLine | HxGUI.py:69-72 | a line the widget pattern matches is handled as a widget line: the simple pattern is never consulted for it |
| Parsing.StepWidget | HxGUI.py:66-123 | a line of the widget shape leaves the state the widget branch gives when it goes through; when it raises, the state as the exception left it plus exactly one report naming the stripped line and the failure |
| Parsing.WidgetStepReports | HxGUI.py:71-107 | the widget branch adds no report itself, whether it goes through or raises |
| Parsing.FeedSkipsBlankAndComments | HxGUI.py:63-65 | a run of blank and comment lines changes nothing |
| Parsing.SimpleLineIsCommand | HxGUI.py:109-111 | a line that only has the simple shape is handled by its command |
| Parsing.StepUnknownCommand | HxGUI.py:109-121 | a simple line whose command is not `window`, `screen` or `show` changes nothing, which includes a truncated widget line |
| Parsing.StepWindow | HxGUI.py:113-114 | `window T` appends `root.title("T")` to the setup lines and changes nothing else |
| Parsing.StepShow | HxGUI.py:120-121 | `show T` appends `initial_screen = 'T'` to the body lines and changes nothing else |
| Parsing.StepScreen | HxGUI.py:115-119 | `screen T` allocates a fresh frame in bucket `screen_T`, points the table at it, declares the frame, and resets the screen's occupancy to empty, forgetting earlier rows and columns; other screens' table and occupancy entries, other counters, the body and the named widgets are untouched |
| Parsing.PlaceDeclares | HxGUI.py:74-107 | a widget line that goes through has a two-part position and a grid update that went through |
| Parsing.DeclareKeeps | HxGUI.py:84-107 | a declared widget raises its bucket's counter by one and leaves setup, screens, grid and reports alone |
| Parsing.DeclareStatements | HxGUI.py:94-107 | a declared widget appends two statements: the statement `Construct` builds for the new variable, then the grid statement placing it at the row and column as written, with `colspan` defaulting to `1` |
| Parsing.WidgetStatements | HxGUI.py:72-107 | a placed widget raises its counter by one and appends the two statements: the widget's construction with the screen's frame as parent and the unconsumed options as config items, then the grid statement echoing the raw row and column text and the `colspan` option |
| Parsing.PlaceCounts | HxGUI.py:85 | a placed widget counts one more widget in its bucket |
| Parsing.WidgetOccupancy | HxGUI.py:77-82 | the integer row and column join the screen's occupancy as set elements, so duplicates collapse |
| Parsing.DeclareNamed | HxGUI.py:84-86 | with `name:` set, the name is the bucket and the named-widget table points at the new variable |
| Parsing.PlaceNamedIs | HxGUI.py:84-86 | a placed widget registers its variable under its `name:` option, if set |
| Parsing.DeclareNamedIs | HxGUI.py:84-86 | a declared widget leaves the named-widget table as registering its new variable under its `name:` option makes it |
| Parsing.WidgetNamed | HxGUI.py:84-86 | with `name:` set, the table entry for the name is overwritten with the new variable (last wins) |
| Parsing.WidgetVarsDistinct | HxGUI.py:85 | two widgets counted one after the other in the same bucket get different variables |
| Parsing.SameNameTwice | HxGUI.py:84-86 | two widgets with the same name: the table keeps the second, and the two variables differ |
| Parsing.EntryIgnoresContent | HxGUI.py:102-105 | a kind other than `text` and `button` produces an Entry that never receives the content |
| Parsing.WidgetBadPosition | HxGUI.py:74 | a position that does not split in two raises before anything changes |
| Parsing.WidgetBadRow | HxGUI.py:77-81 | a row that is not an integer raises after the occupancy entry is created, and the entry stays |
| Parsing.WidgetBadColumn | HxGUI.py:77-82 | a column that is not an integer raises after the row is recorded; the row stays and nothing but the grid changed |
| Parsing.GoodPlace | HxGUI.py:74-82 | with a well-formed position the grid update goes through and the widget is declared |
| Parsing.ConstructFails | HxGUI.py:94-105 | building the statement raises exactly for a Label without a parent and for a Button whose action has no verb |
| Parsing.ConstructShape | HxGUI.py:94-105 | a Label is built from the parent, `text=` with the quoted content and the config items, unfiltered; a Button from the parent if present, the content, the callback, its font and the config items; an Entry from the parent if present, its font, `justify` and the config items |
| Parsing.ButtonShape | HxGUI.py:98-101 | the Button statement: parent if present, `text=` content, the translated callback, the font, then the non-empty config items |
| Parsing.EntryShape | HxGUI.py:102-105 | the Entry statement: parent if present, the font, `justify="right"`, then the non-empty config items; the content is not used |
| Parsing.DeclareAbort | HxGUI.py:84-105 | a declaration that raises keeps its counter and its name registration, and appends no statement |
| Parsing.WidgetLateFailure | HxGUI.py:74-107 | with a well-formed position a line raises exactly for a `text` on an undeclared screen or a `button` whose action has no verb, so a `button` or entry on an undeclared screen still goes through; a line that raises keeps its grid update, counter and registration and appends no statement |
| Generator.Render | HxGUI.py:141-205 | the output is nothing exactly when both the setup and the body buffers are empty |
| Generator.Compile | HxGUI.py:139-141 | `generate_code_string` returns nothing exactly when the parsed script leaves both buffers empty |
| Generator.CompileCommentsOnly | HxGUI.py:139-141 | a script of blank and comment lines compiles to nothing |
| Generator.RowLineInjective | HxGUI.py:146 | two row lines of one screen are equal only for the same row |
| Generator.ColumnLineInjective | HxGUI.py:147 | two column lines of one screen are equal only for the same column |
| Generator.RowColumnDistinct | HxGUI.py:146-147 | a row line is never a column line |
| Generator.EntryLinesNoDup | HxGUI.py:144-147 | a screen whose occupancy sets have no duplicates gets each stretch line once |
| Generator.EntryLinesExact | HxGUI.py:144-147 | a grid entry's lines are exactly the row and column lines of a screen with a non-empty variable |
| Generator.GridLinesExact | HxGUI.py:143-147 | the lines of a list of grid entries are exactly the stretch lines of those entries |
| Generator.GridCodeExact | HxGUI.py:143-147 | a line is in `grid_code` exactly when it is the row or column line of a recorded row or column of a screen the screen table gives a non-empty variable, so occupancy created for an undeclared screen contributes nothing |
| Generator.ParsedGridCode | HxGUI.py:139-147 | after any script, a line is in `grid_code` exactly when it stretches a recorded row or column of a declared screen, and each screen's entry lists each of its stretch lines once |
| Generator.MapLinesExact | HxGUI.py:150-151 | a map section has one line per key, in insertion order, with the key's current value, so every entry is listed |
| Generator.ParsedMaps | HxGUI.py:139-151 | after any script, the screen map and the widget map list each table entry once, in insertion order, with its current variable |
| Generator.JoinFive | HxGUI.py:191-195 | five non-empty sections, each joined and then joined together, read as the sections concatenated and joined once |
| Generator.BodyLayout | HxGUI.py:191-195 | with no section empty, the spliced text is the setup lines, then the body lines, the screen map, the widget map and the grid lines, one indented line each |
| HxGui.HxGuiCompiler.constructor | HxGUI.py:43-46 | a new compiler holds the reset state |
| HxGui.HxGuiCompiler.Reset | HxGUI.py:43-46 | `reset` empties every buffer, counter and table |
| HxGui.HxGuiCompiler.GetWidgetName | HxGUI.py:48-51 | the bucket's counter goes up by one, no other counter moves, the name is the sanitised bucket with the new count, and no other field is touched |
| HxGui.HxGuiCompiler.ParseProps | HxGUI.py:53-59 | the loop over the matches builds exactly `Props`, where the last match of a key wins |
| HxGui.HxGuiCompiler.OccupyGrid | HxGUI.py:77-82 | the occupancy entry is created if missing, the parent variable is looked up, then the row and the column are added; a non-integer row or column stops the updates where they stand |
| HxGui.HxGuiCompiler.DeclareWidget | HxGUI.py:84-107 | allocation, registration, option popping and the two appends leave the fields as `Declare` says, or as it stood when building the statement raised |
| HxGui.HxGuiCompiler.PlaceWidget | HxGUI.py:72-107 | the widget branch leaves the fields as `WidgetStep` says, including the partial state of a line that raises |
| HxGui.HxGuiCompiler.DeclareScreen | HxGUI.py:115-119 | the `screen` branch leaves the fields as `AddScreen` says |
| HxGui.HxGuiCompiler.ApplySimple | HxGUI.py:109-121 | the simple-shape branch leaves the fields as `SimpleStep` says |
| HxGui.HxGuiCompiler.ParseLine | HxGUI.py:64-123 | one iteration of the loop leaves the fields and the printed reports as `Step` says |
| HxGui.HxGuiCompiler.Parse | HxGUI.py:61-123 | after `parse(lines)` the fields and reports are `ParseLines(lines)`, whatever the compiler held before |
| HxGui.HxGuiCompiler.AppendStretchLines | HxGUI.py:146-147 | the two inner loops append the row lines, then the column lines, of one screen |
| HxGui.HxGuiCompiler.GridCodeLines | HxGUI.py:143-147 | the nested loops build exactly `GridLines` over the grid entries in insertion order |
| HxGui.HxGuiCompiler.GenerateCodeString | HxGUI.py:139-205 | the result is `Compile(lines)`, whatever the compiler held before, so compiling the same text twice gives the same output |

## Left out

- `interactive_shell` (HxGUI.py:207-251) and `show_help` (HxGUI.py:8-40) are console input and output, temporary files and subprocesses; they are not modelled.
- The helpers the generated program defines (`show_screen`, `set_entry_text`, `append_entry_text`, `evaluate_entry`) run inside tkinter and `eval`. They appear only as fixed text in `Generator.Prefix`.
- `\w`, `\d`, `\s`, `str.strip()` and `str.split()` are restricted to ASCII. The regular expressions are modelled only as the three dedicated scanners.
- `int()` is modelled only on the digit strings the position scanner can produce. CPython's limit on the number of digits `int()` accepts is not modelled, so a very long row is an integer in the model.
- The script is given as a sequence of lines: `splitlines()` is not modelled.
- What a raising line prints is modelled as a `Diagnostic(line, failure)` record returned by `Parse`, not as the printed message text. The failure is one of the five ways a widget line can raise.
- `HxGuiCompiler` has no `__init__`; the model's constructor gives the reset state.
- Python's set iteration order is not modelled. Occupancy sets are duplicate-free sequences in first-insertion order, so the order of stretch lines within a screen may differ from CPython's.
- Generator.GridCodeExact: states which lines appear in `grid_code`, not their order across rows, because that order follows set iteration.
- Generator.Render: its contract states when there is output. What the output holds is stated by Generator.BodyLayout, Generator.ParsedMaps and Generator.ParsedGridCode; the fixed template text around the sections is given once, in `Generator.Prefix` and `Generator.Suffix`, and not restated.
- Generator.Compile: like Generator.Render, its contract states when there is output; the text is stated by the lemmas named above.
- Generator.BodyLayout: states the layout only when all five sections are non-empty. An empty section leaves a line holding only the indentation, as `Generator.Body` spells out.
- The template is modelled with `\n` line breaks, as Python reads a source file with CRLF endings.
- The f-string expressions `{'\n    '.join(…)}` (HxGUI.py:191-195) need Python 3.12 or later, since earlier versions reject a backslash there. The model follows the 3.12 meaning.
- Printing to a console, the clock and the file system do not occur in the modelled core.
