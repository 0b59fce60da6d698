/**
 * Hand-written scanners for the three fixed regular expressions of HxGUI.py, with the
 * match that Python's backtracking `re` engine returns:
 *   widget line   `(\w+)\s+(".*?")\s+at\s+([\d,]+)\s+on\s+(\w+)(.*)`   (re.match)
 *   simple line   `(\w+)\s+(".*?"|\w+)`                               (re.match)
 *   option        `(\w+):(".*?"|\S+)`                                 (re.findall)
 * Every greedy repetition in these patterns is followed by a character its own class
 * excludes, so it never gives characters back; the only real backtracking is the lazy
 * `".*?"` of the widget pattern, which tries each later quote as the closing one until
 * the rest of the line matches.
 */
module Patterns {
  import opened Wrappers
  import opened Text

  /** The five groups of the widget pattern. */
  datatype WidgetMatch = WidgetMatch(kind: string, content: string, pos: string, screen: string, options: string)

  /** The two groups of the simple pattern. */
  datatype SimpleMatch = SimpleMatch(command: string, target: string)

  /** One match of the option pattern: its two groups and the index just past it. */
  datatype OptionMatch = OptionMatch(key: string, value: string, end: nat)

  /** What follows the content's closing quote: `\s+at\s+([\d,]+)\s+on\s+(\w+)(.*)`. */
  datatype Tail = Tail(pos: string, screen: string, options: string)

  predicate HasAt(s: string, i: nat, lit: string) {
    i + |lit| <= |s| && s[i..i + |lit|] == lit
  }

  predicate NotQuoteOrNewline(c: char) {
    c != '"' && c != '\n'
  }

  /** `\s+` then `lit` then `\s+`, starting at `q`: the index after the second run. */
  function Keyword(s: string, q: nat, lit: string): (r: Option<nat>)
    requires q <= |s|
    ensures r.Some? ==> q < r.value <= |s|
  {
    var a := Run(s, q, IsSpace);
    RunAll(s, q, IsSpace);
    if a == q || !HasAt(s, a, lit) then None
    else
      var b := Run(s, a + |lit|, IsSpace);
      RunAll(s, a + |lit|, IsSpace);
      if b == a + |lit| then None else Some(b)
  }

  /** `\s+at\s+([\d,]+)\s+on\s+(\w+)(.*)` at index `q` (nothing when `q` is past the end). */
  function MatchTail(s: string, q: nat): (r: Option<Tail>)
    ensures r.Some? ==> r.value.pos != [] && forall k :: 0 <= k < |r.value.pos| ==> IsDigitOrComma(r.value.pos[k])
    ensures r.Some? ==> r.value.screen != [] && forall k :: 0 <= k < |r.value.screen| ==> IsWordChar(r.value.screen[k])
    ensures r.Some? ==> '\n' !in r.value.options
  {
    if q > |s| then None
    else
      match Keyword(s, q, "at")
      case None => None
      case Some(b) =>
        var c := Run(s, b, IsDigitOrComma);
        RunAll(s, b, IsDigitOrComma);
        if c == b then None
        else
          match MatchScreen(s, c)
          case None => None
          case Some((screen, options)) => Some(Tail(s[b..c], screen, options))
  }

  /** `\s+on\s+(\w+)(.*)` at index `c`. */
  function MatchScreen(s: string, c: nat): (r: Option<(string, string)>)
    requires c <= |s|
    ensures r.Some? ==> r.value.0 != [] && forall k :: 0 <= k < |r.value.0| ==> IsWordChar(r.value.0[k])
    ensures r.Some? ==> '\n' !in r.value.1
  {
    match Keyword(s, c, "on")
    case None => None
    case Some(e) =>
      var f := Run(s, e, IsWordChar);
      RunAll(s, e, IsWordChar);
      if f == e then None
      else
        var g := Run(s, f, NotNewline);
        RunAll(s, f, NotNewline);
        assert forall k :: 0 <= k < g - f ==> s[f..g][k] == s[f + k];
        Some((s[e..f], s[f..g]))
  }

  /** The quote at index `m` can close the lazy `".*?"`: the rest of the pattern matches after it. */
  predicate ClosesAt(s: string, m: nat, rest: (string, nat) -> Option<Tail>) {
    m < |s| && s[m] == '"' && rest(s, m + 1).Some?
  }

  /** No line break in `s[j..k]`: the span a lazy `.*?` can cover. */
  predicate NoBreak(s: string, j: nat, k: nat)
    requires j <= k <= |s|
  {
    forall m :: j <= m < k ==> NotNewline(s[m])
  }

  /** The lazy `".*?"` followed by the rest of the pattern, `rest`: the first quote at or
      after `j`, before any line break, after which `rest` matches, with that match. */
  function FirstClose(s: string, j: nat, rest: (string, nat) -> Option<Tail>): (r: Option<(nat, Tail)>)
    requires j <= |s|
    ensures r.Some? ==> j <= r.value.0 < |s| && s[r.value.0] == '"' && rest(s, r.value.0 + 1) == Some(r.value.1)
    ensures r.Some? ==> NoBreak(s, j, r.value.0)
    decreases |s| - j
  {
    if j == |s| || s[j] == '\n' then None
    else if s[j] == '"' && rest(s, j + 1).Some? then Some((j, rest(s, j + 1).value))
    else FirstClose(s, j + 1, rest)
  }

  /** The lazy `.*?` takes the shortest span: no earlier quote on the line closes it,
      and when none is found, no quote on the line closes it at all. */
  lemma {:induction false} FirstCloseLeftmost(s: string, j: nat, rest: (string, nat) -> Option<Tail>)
    requires j <= |s|
    ensures FirstClose(s, j, rest).Some? ==> forall m :: j <= m < FirstClose(s, j, rest).value.0 ==> !ClosesAt(s, m, rest)
    ensures FirstClose(s, j, rest).None? ==> forall m :: j <= m < |s| && NoBreak(s, j, m) ==> !ClosesAt(s, m, rest)
    decreases |s| - j
  {
    if j < |s| && s[j] != '\n' && !(s[j] == '"' && rest(s, j + 1).Some?) {
      FirstCloseLeftmost(s, j + 1, rest);
      forall m | j < m < |s| && NoBreak(s, j, m) ensures NoBreak(s, j + 1, m) {
      }
    }
  }

  /** `re.match(r'(\w+)\s+(".*?")\s+at\s+([\d,]+)\s+on\s+(\w+)(.*)', line)` */
  function MatchWidget(line: string): (r: Option<WidgetMatch>)
    ensures r.Some? ==> 0 < |r.value.kind| <= |line| && line[..|r.value.kind|] == r.value.kind
    ensures r.Some? ==> forall k :: 0 <= k < |r.value.kind| ==> IsWordChar(r.value.kind[k])
    ensures r.Some? ==> |r.value.content| >= 2 && r.value.content[0] == '"' && r.value.content[|r.value.content| - 1] == '"'
    ensures r.Some? ==> r.value.pos != [] && forall k :: 0 <= k < |r.value.pos| ==> IsDigitOrComma(r.value.pos[k])
    ensures r.Some? ==> r.value.screen != [] && forall k :: 0 <= k < |r.value.screen| ==> IsWordChar(r.value.screen[k])
    ensures r.Some? ==> WidgetAt(line, Run(line, |r.value.kind|, IsSpace), r.value, MatchTail)
  {
    var r := MatchWidgetWith(line, MatchTail);
    assert r.Some? ==> |r.value.content| >= 2 && r.value.content[0] == '"' && r.value.content[|r.value.content| - 1] == '"';
    r
  }

  /** `(\w+)\s+(".*?")` followed by the pattern `rest`, which yields the position, the
      screen and the options. */
  function MatchWidgetWith(line: string, rest: (string, nat) -> Option<Tail>): (r: Option<WidgetMatch>)
    ensures r.Some? ==> 0 < |r.value.kind| <= |line| && line[..|r.value.kind|] == r.value.kind
    ensures r.Some? ==> forall k :: 0 <= k < |r.value.kind| ==> IsWordChar(r.value.kind[k])
    ensures r.Some? ==> |r.value.content| >= 2 && r.value.content[0] == '"' && r.value.content[|r.value.content| - 1] == '"'
    ensures r.Some? ==> WidgetAt(line, Run(line, |r.value.kind|, IsSpace), r.value, rest)
  {
    var k := Run(line, 0, IsWordChar);
    RunAll(line, 0, IsWordChar);
    var sp := Run(line, k, IsSpace);
    RunAll(line, k, IsSpace);
    if k == 0 || sp == k || sp == |line| || line[sp] != '"' then None
    else WidgetFrom(line, k, sp, FirstClose(line, sp + 1, rest), rest)
  }

  /** Where the groups of widget match `m` sit in `line`, with the quoted content
      starting at `sp`. */
  predicate WidgetAt(line: string, sp: nat, m: WidgetMatch, rest: (string, nat) -> Option<Tail>) {
    var close := sp + |m.content| - 1;
    && |m.kind| < sp < close < |line| && line[sp..close + 1] == m.content && NoBreak(line, sp + 1, close)
    && rest(line, close + 1) == Some(Tail(m.pos, m.screen, m.options))
  }

  /** The groups of a widget line, given the end `k` of the kind, the opening quote at `sp`
      and what the lazy `".*?"` and the rest of the pattern found after it. */
  function WidgetFrom(line: string, k: nat, sp: nat, found: Option<(nat, Tail)>, rest: (string, nat) -> Option<Tail>): (r: Option<WidgetMatch>)
    requires 0 < k < sp < |line| && line[sp] == '"'
    requires found.Some? ==> var close := found.value.0;
      && sp < close < |line| && line[close] == '"' && NoBreak(line, sp + 1, close)
      && rest(line, close + 1) == Some(found.value.1)
    ensures r.Some? <==> found.Some?
    ensures r.Some? ==> |r.value.kind| == k && line[..k] == r.value.kind && WidgetAt(line, sp, r.value, rest)
    ensures r.Some? ==> |r.value.content| >= 2 && r.value.content[0] == '"' && r.value.content[|r.value.content| - 1] == '"'
  {
    if found.None? then None
    else
      var close, t := found.value.0, found.value.1;
      // the group `line[sp..close + 1]`, whose two ends are quotes
      var m := WidgetMatch(line[..k], line[sp..close + 1], t.pos, t.screen, t.options);
      assert |m.content| == close + 1 - sp && m.content[0] == line[sp] && m.content[|m.content| - 1] == line[close];
      assert Tail(m.pos, m.screen, m.options) == t;
      Some(m)
  }

  /** `".*?"` on its own: the first quote at or after `j`, before any line break. */
  function FirstQuote(s: string, j: nat): (k: Option<nat>)
    requires j <= |s|
    ensures k.Some? ==> j <= k.value < |s| && s[k.value] == '"'
    ensures k.Some? ==> forall m :: j <= m < k.value ==> NotQuoteOrNewline(s[m])
    ensures k.None? ==> forall m :: j <= m < |s| && s[m] == '"' ==> exists n :: j <= n < m && s[n] == '\n'
  {
    var e := Run(s, j, NotQuoteOrNewline);
    RunAll(s, j, NotQuoteOrNewline);
    if e < |s| && s[e] == '"' then Some(e) else None
  }

  /** `re.match(r'(\w+)\s+(".*?"|\w+)', line)` */
  function MatchSimple(line: string): (r: Option<SimpleMatch>)
    ensures r.Some? ==> 0 < |r.value.command| <= |line| && line[..|r.value.command|] == r.value.command
    ensures r.Some? ==> forall k :: 0 <= k < |r.value.command| ==> IsWordChar(r.value.command[k])
    ensures r.Some? ==> r.value.target != []
  {
    var k := Run(line, 0, IsWordChar);
    RunAll(line, 0, IsWordChar);
    var sp := Run(line, k, IsSpace);
    RunAll(line, k, IsSpace);
    if k == 0 || sp == k || sp == |line| then None
    else if line[sp] == '"' then
      match FirstQuote(line, sp + 1)
      case Some(close) => Some(SimpleMatch(line[..k], line[sp..close + 1]))
      case None => None
    else
      var w := Run(line, sp, IsWordChar);
      RunAll(line, sp, IsWordChar);
      if w == sp then None else Some(SimpleMatch(line[..k], line[sp..w]))
  }

  /** The option pattern tried at index `i` (one step of `re.findall`). */
  function MatchOptionAt(s: string, i: nat): (r: Option<OptionMatch>)
    requires i <= |s|
    ensures r.Some? ==> i < r.value.end <= |s|
    ensures r.Some? ==> r.value.key != [] && forall k :: 0 <= k < |r.value.key| ==> IsWordChar(r.value.key[k])
    ensures r.Some? ==> r.value.value != [] && NotSpace(r.value.value[0]) && NotSpace(r.value.value[|r.value.value| - 1])
  {
    var k := Run(s, i, IsWordChar);
    RunAll(s, i, IsWordChar);
    if k == i || k == |s| || s[k] != ':' then None
    else
      var v := k + 1;
      var quoted := if v < |s| && s[v] == '"' then FirstQuote(s, v + 1) else None;
      match quoted
      case Some(close) => Some(OptionMatch(s[i..k], s[v..close + 1], close + 1))
      case None =>
        var e := Run(s, v, NotSpace);
        RunAll(s, v, NotSpace);
        if e == v then None else Some(OptionMatch(s[i..k], s[v..e], e))
  }

  /** A match of the option pattern at `i`: the key is the whole run of word characters
      at `i`, followed by a colon. A value that opens with a quote closed later on the
      line runs to the first closing quote, keeping both quotes and any spaces between
      them; any other value is the whole run of non-whitespace after the colon. */
  lemma OptionMatchShape(s: string, i: nat)
    requires i <= |s| && MatchOptionAt(s, i).Some?
    ensures var m, k := MatchOptionAt(s, i).value, Run(s, i, IsWordChar);
      var v := k + 1;
      && m.key == s[i..k] && k < |s| && s[k] == ':'
      && (v < |s| && s[v] == '"' && FirstQuote(s, v + 1).Some? ==>
            m.value == s[v..FirstQuote(s, v + 1).value + 1] && m.end == FirstQuote(s, v + 1).value + 1)
      && (!(v < |s| && s[v] == '"' && FirstQuote(s, v + 1).Some?) ==>
            m.value == s[v..m.end] && (m.end == |s| || !NotSpace(s[m.end]))
            && forall n :: v <= n < m.end ==> NotSpace(s[n]))
  {
    var k := Run(s, i, IsWordChar);
    if k < |s| {
      RunAll(s, k + 1, NotSpace);
    }
  }

  /** The option pattern matches at `i` exactly when a word starts there, a colon follows
      it, and a non-whitespace character follows the colon: a quote that is never closed
      still starts a `\S+` value. */
  lemma OptionMatchFinds(s: string, i: nat)
    requires i <= |s|
    ensures var k := Run(s, i, IsWordChar);
      MatchOptionAt(s, i).Some? <==> i < k && k + 1 < |s| && s[k] == ':' && NotSpace(s[k + 1])
  {
    var k := Run(s, i, IsWordChar);
    if i < k && k + 1 < |s| && s[k] == ':' && NotSpace(s[k + 1]) {
      assert Run(s, k + 1, NotSpace) > k + 1;
    }
  }

  /** `re.findall(r'(\w+):(".*?"|\S+)', s[i:])`: the (key, value) groups of every
      non-overlapping match, scanning left to right. */
  function FindOptions(s: string, i: nat): (ms: seq<(string, string)>)
    requires i <= |s|
    ensures forall n :: 0 <= n < |ms| ==> ms[n].0 != [] && forall k :: 0 <= k < |ms[n].0| ==> IsWordChar(ms[n].0[k])
    ensures forall n :: 0 <= n < |ms| ==> ms[n].1 != [] && NotSpace(ms[n].1[0]) && NotSpace(ms[n].1[|ms[n].1| - 1])
    decreases |s| - i
  {
    if i == |s| then []
    else
      match MatchOptionAt(s, i)
      case Some(m) => [(m.key, m.value)] + FindOptions(s, m.end)
      case None => FindOptions(s, i + 1)
  }

  /** A quote at or after `j` closes a `".*?"` opened just before `j`: no line break comes first. */
  predicate QuoteClosed(s: string, j: nat)
    requires j <= |s|
  {
    exists close :: j <= close < |s| && s[close] == '"' && NoBreak(s, j, close)
  }

  /** `".*?"` on its own finds a closing quote exactly when the line has one. */
  lemma FirstQuoteFinds(s: string, j: nat)
    requires j <= |s|
    ensures FirstQuote(s, j).Some? <==> QuoteClosed(s, j)
  {
    if FirstQuote(s, j).Some? {
      var close := FirstQuote(s, j).value;
      assert NoBreak(s, j, close);
    }
  }

  /** A run of characters satisfying `p` that stops where `p` fails is the run `Run` finds. */
  lemma {:induction false} RunStops(s: string, i: nat, j: nat, p: char -> bool)
    requires i <= j <= |s| && (forall k :: i <= k < j ==> p(s[k])) && (j == |s| || !p(s[j]))
    ensures Run(s, i, p) == j
    decreases j - i
  {
    if i < j {
      RunStops(s, i + 1, j, p);
    }
  }

  /** On a line that opens with a command word ending at `k` and whitespace ending at `sp`,
      the simple pattern matches exactly when a word character or a quote closed later on
      the line comes next. */
  lemma MatchSimpleFinds(line: string, k: nat, sp: nat)
    requires 0 < k < sp < |line| && (forall n :: 0 <= n < k ==> IsWordChar(line[n]))
    requires Blank(line[k..sp]) && !IsSpace(line[sp])
    ensures MatchSimple(line).Some? <==> IsWordChar(line[sp]) || (line[sp] == '"' && QuoteClosed(line, sp + 1))
  {
    assert forall n :: k <= n < sp ==> IsSpace(line[n]) by {
      forall n | k <= n < sp ensures IsSpace(line[n]) {
        assert line[k..sp][n - k] == line[n];
      }
    }
    RunStops(line, 0, k, IsWordChar);
    RunStops(line, k, sp, IsSpace);
    FirstQuoteFinds(line, sp + 1);
  }

  /** `re.match(r'(\w+)\s+(".*?"|\w+)', line)`: the line is the command, whitespace, the
      target and the rest. A target that opens with a quote ends at the first closing quote
      on the line; any other target is the whole run of word characters there. */
  lemma MatchSimpleParts(line: string) returns (ws: string, rest: string)
    requires MatchSimple(line).Some?
    ensures var r := MatchSimple(line).value;
      && Blank(ws) && line == r.command + ws + r.target + rest
      && (r.target[0] == '"' ==>
            && 2 <= |r.target| && r.target[|r.target| - 1] == '"'
            && forall n :: 0 < n < |r.target| - 1 ==> NotQuoteOrNewline(r.target[n]))
      && (r.target[0] != '"' ==>
            && (forall n :: 0 <= n < |r.target| ==> IsWordChar(r.target[n]))
            && (rest == [] || !IsWordChar(rest[0])))
  {
    var r := MatchSimple(line).value;
    var k := |r.command|;
    var sp := Run(line, k, IsSpace);
    RunAll(line, k, IsSpace);
    SpaceSlice(line, k, sp);
    ws := line[k..sp];
    var e := SimpleTarget(line, k, sp);
    rest := line[e..];
    Split4(line, k, sp, e);
  }

  /** Where the target of a simple match ends, once the command ends at `k` and the
      whitespace after it at `sp`. */
  lemma SimpleTarget(line: string, k: nat, sp: nat) returns (e: nat)
    requires MatchSimple(line).Some? && k == |MatchSimple(line).value.command|
    requires sp == Run(line, k, IsSpace)
    ensures var t := MatchSimple(line).value.target;
      && sp < e <= |line| && t == line[sp..e]
      && (t[0] == '"' ==>
            && 2 <= |t| && t[|t| - 1] == '"'
            && forall n :: 0 < n < |t| - 1 ==> NotQuoteOrNewline(t[n]))
      && (t[0] != '"' ==>
            && (forall n :: 0 <= n < |t| ==> IsWordChar(t[n]))
            && (e == |line| || !IsWordChar(line[e])))
  {
    if line[sp] == '"' {
      var close := FirstQuote(line, sp + 1).value;
      QuotedRun(line, sp, close);
      e := close + 1;
    } else {
      e := Run(line, sp, IsWordChar);
      RunAll(line, sp, IsWordChar);
      SliceRun(line, sp, e, IsWordChar);
    }
  }

  /** The slice from an opening quote at `i` to the first closing quote at `close`. */
  lemma QuotedRun(s: string, i: nat, close: nat)
    requires i < close < |s| && s[close] == '"' && forall m :: i + 1 <= m < close ==> NotQuoteOrNewline(s[m])
    ensures var t := s[i..close + 1];
      && 2 <= |t| && t[|t| - 1] == '"' && forall n :: 0 < n < |t| - 1 ==> NotQuoteOrNewline(t[n])
  {
    var t := s[i..close + 1];
    forall n | 0 < n < |t| - 1 ensures NotQuoteOrNewline(t[n]) {
      assert t[n] == s[i + n];
    }
  }

  /** A string cut at `i`, `j` and `e` is its four pieces. */
  lemma Split4(s: string, i: nat, j: nat, e: nat)
    requires i <= j <= e <= |s|
    ensures s == s[..i] + s[i..j] + s[j..e] + s[e..]
  {
    assert s == s[..i] + s[i..];
    assert s[i..] == s[i..j] + s[j..];
    assert s[j..] == s[j..e] + s[e..];
  }

  /** `re.findall` reports the leftmost match first, then carries on from where it ends. */
  lemma {:induction false} FindOptionsFirst(s: string, i: nat, p: nat)
    requires i <= p < |s| && MatchOptionAt(s, p).Some?
    requires forall j :: i <= j < p ==> MatchOptionAt(s, j).None?
    ensures var m := MatchOptionAt(s, p).value;
      FindOptions(s, i) == [(m.key, m.value)] + FindOptions(s, m.end)
    decreases p - i
  {
    if i < p {
      FindOptionsFirst(s, i + 1, p);
    }
  }

  /** `re.findall` finds nothing exactly when the pattern matches at no position. */
  lemma {:induction false} FindOptionsEmpty(s: string, i: nat)
    requires i <= |s|
    ensures FindOptions(s, i) == [] <==> forall j :: i <= j < |s| ==> MatchOptionAt(s, j).None?
    decreases |s| - i
  {
    if i < |s| && MatchOptionAt(s, i).None? {
      FindOptionsEmpty(s, i + 1);
    }
  }

  // ---------------------------------------------------------------- where the groups come from

  /** A non-empty run of whitespace: what `\s+` matches. */
  predicate Blank(ws: string) {
    ws != [] && AllSpace(ws)
  }

  /** Consecutive slices concatenate to the slice spanning them. */
  lemma Glue(s: string, i: nat, j: nat, k: nat)
    requires i <= j <= k <= |s|
    ensures s[i..k] == s[i..j] + s[j..k]
  {
  }

  /** A slice of `s` that is the concatenation of `xs`, followed by the suffix that is the
      concatenation of `ys`, is a suffix that is the concatenation of both lists. */
  lemma Chain(s: string, i: nat, j: nat, xs: seq<string>, ys: seq<string>)
    requires i <= j <= |s| && s[i..j] == Concat(xs) && s[j..] == Concat(ys)
    ensures s[i..] == Concat(xs + ys)
  {
    ConcatAppend(xs, ys);
    Glue(s, i, j, |s|);
  }

  /** Cut points into `s`, in order. */
  predicate Cuts(s: string, cuts: seq<nat>) {
    && cuts != []
    && (forall i :: 0 <= i < |cuts| ==> cuts[i] <= |s|)
    && (forall i :: 0 <= i < |cuts| - 1 ==> cuts[i] <= cuts[i + 1])
  }

  /** The slices of `s` between consecutive cut points. */
  function Pieces(s: string, cuts: seq<nat>): seq<string>
    requires Cuts(s, cuts)
  {
    seq(|cuts| - 1, i requires 0 <= i < |cuts| - 1 => s[cuts[i]..cuts[i + 1]])
  }

  /** The slices between consecutive cut points, concatenated, span the first cut to the last. */
  lemma {:induction false} ConcatPieces(s: string, cuts: seq<nat>)
    requires Cuts(s, cuts)
    ensures cuts[0] <= cuts[|cuts| - 1] && Concat(Pieces(s, cuts)) == s[cuts[0]..cuts[|cuts| - 1]]
    decreases |cuts|
  {
    if |cuts| > 1 {
      var tail := cuts[1..];
      assert Cuts(s, tail) by {
        forall i | 0 <= i < |tail| - 1 ensures tail[i] <= tail[i + 1] {
          assert tail[i] == cuts[i + 1] && tail[i + 1] == cuts[i + 2];
        }
      }
      ConcatPieces(s, tail);
      assert Pieces(s, cuts)[1..] == Pieces(s, tail);
      assert tail[|tail| - 1] == cuts[|cuts| - 1];
      Glue(s, cuts[0], cuts[1], cuts[|cuts| - 1]);
    }
  }

  /** A run of whitespace, as a slice, is all whitespace. */
  lemma SpaceSlice(s: string, i: nat, j: nat)
    requires i <= j <= |s| && forall k :: i <= k < j ==> IsSpace(s[k])
    ensures AllSpace(s[i..j])
  {
    SliceRun(s, i, j, IsSpace);
  }

  /** Where `Keyword` found its word: at `a`, after whitespace from `q`, and followed by
      whitespace up to the end of its match, which whitespace does not follow. */
  lemma KeywordAt(s: string, q: nat, lit: string) returns (a: nat)
    requires q <= |s| && Keyword(s, q, lit).Some?
    ensures var b := Keyword(s, q, lit).value;
      && q < a && a + |lit| < b && s[a..a + |lit|] == lit
      && Blank(s[q..a]) && Blank(s[a + |lit|..b]) && (b == |s| || !IsSpace(s[b]))
  {
    a := Run(s, q, IsSpace);
    RunAll(s, q, IsSpace);
    var b := Keyword(s, q, lit).value;
    RunAll(s, a + |lit|, IsSpace);
    SpaceSlice(s, q, a);
    SpaceSlice(s, a + |lit|, b);
  }

  /** `\s+lit\s+`: the span `Keyword` consumes is whitespace, the word, then the longest
      run of whitespace. */
  lemma KeywordParts(s: string, q: nat, lit: string) returns (ws1: string, ws2: string)
    requires q <= |s| && Keyword(s, q, lit).Some?
    ensures var b := Keyword(s, q, lit).value;
      && Blank(ws1) && Blank(ws2) && s[q..b] == Concat([ws1, lit, ws2])
      && (b == |s| || !IsSpace(s[b]))
  {
    var a := KeywordAt(s, q, lit);
    var b := Keyword(s, q, lit).value;
    var cuts := [q, a, a + |lit|, b];
    ConcatPieces(s, cuts);
    ws1, ws2 := s[q..a], s[a + |lit|..b];
    assert Pieces(s, cuts) == [ws1, lit, ws2];
  }


  /** The indices of a match of `\s+on\s+(\w+)(.*)` at `c`: the word at `a`, the screen
      `s[e..f]`, the options `s[f..g]`, which stop at a line break or the end. */
  lemma MatchScreenAt(s: string, c: nat) returns (a: nat, e: nat, f: nat, g: nat)
    requires c <= |s| && MatchScreen(s, c).Some?
    ensures c < a && a + 2 < e < f <= g <= |s| && s[a..a + 2] == "on"
    ensures Blank(s[c..a]) && Blank(s[a + 2..e]) && e == Keyword(s, c, "on").value
    ensures MatchScreen(s, c).value == (s[e..f], s[f..g])
    ensures f == |s| || !IsWordChar(s[f])
    ensures g == |s| || s[g] == '\n'
  {
    a := KeywordAt(s, c, "on");
    e := Keyword(s, c, "on").value;
    f := Run(s, e, IsWordChar);
    RunAll(s, e, IsWordChar);
    g := Run(s, f, NotNewline);
    RunAll(s, f, NotNewline);
  }

  /** `\s+on\s+(\w+)(.*)`: the text from `c` is whitespace, `on`, whitespace, the whole
      run of word characters as the screen, then the rest of the line as the options. */
  lemma MatchScreenParts(s: string, c: nat) returns (ws1: string, ws2: string, rest: string)
    requires c <= |s| && MatchScreen(s, c).Some?
    ensures var screen, options := MatchScreen(s, c).value.0, MatchScreen(s, c).value.1;
      && Blank(ws1) && Blank(ws2) && (rest == [] || rest[0] == '\n')
      && s[c..] == Concat([ws1, "on", ws2, screen, options, rest])
      && (options == [] || !IsWordChar(options[0]))
  {
    var a, e, f, g := MatchScreenAt(s, c);
    ws1, ws2, rest := s[c..a], s[a + 2..e], s[g..];
    ScreenPieces(s, c, a, e, f, g);
  }

  /** The text from `c`, cut at `a`, `a + 2`, `e`, `f` and `g`, with `on` between the
      first two cuts. */
  lemma ScreenPieces(s: string, c: nat, a: nat, e: nat, f: nat, g: nat)
    requires c <= a && a + 2 <= e <= f <= g <= |s| && s[a..a + 2] == "on"
    ensures s[c..] == Concat([s[c..a], "on", s[a + 2..e], s[e..f], s[f..g], s[g..]])
  {
    var cuts := [c, a, a + 2, e, f, g, |s|];
    ConcatPieces(s, cuts);
    var ps := Pieces(s, cuts);
    assert ps[0] == s[c..a] && ps[1] == "on" && ps[2] == s[a + 2..e];
    assert ps[3] == s[e..f] && ps[4] == s[f..g] && ps[5] == s[g..];
    assert ps == [s[c..a], "on", s[a + 2..e], s[e..f], s[f..g], s[g..]];
  }


  /** The indices of a match of the tail at `q`: `at` at `a1`, the position `s[b..c]`,
      then the screen part from `c`. */
  lemma MatchTailAt(s: string, q: nat) returns (a1: nat, b: nat, c: nat)
    requires MatchTail(s, q).Some?
    ensures q < a1 && a1 + 2 < b < c <= |s| && s[a1..a1 + 2] == "at"
    ensures Blank(s[q..a1]) && Blank(s[a1 + 2..b])
    ensures b == Keyword(s, q, "at").value && MatchTail(s, q).value.pos == s[b..c]
    ensures c == |s| || !IsDigitOrComma(s[c])
    ensures MatchScreen(s, c) == Some((MatchTail(s, q).value.screen, MatchTail(s, q).value.options))
  {
    a1 := KeywordAt(s, q, "at");
    b := Keyword(s, q, "at").value;
    c := Run(s, b, IsDigitOrComma);
    RunAll(s, b, IsDigitOrComma);
  }

  /** `\s+at\s+([\d,]+)\s+on\s+(\w+)(.*)`: the text from `q` is whitespace, `at`,
      whitespace, the position, whitespace, `on`, whitespace, the screen and the options. */
  lemma MatchTailParts(s: string, q: nat, t: Tail) returns (ws1: string, ws2: string, ws3: string, ws4: string, rest: string)
    requires MatchTail(s, q) == Some(t)
    ensures && Blank(ws1) && Blank(ws2) && Blank(ws3) && Blank(ws4) && (rest == [] || rest[0] == '\n')
      && s[q..] == Concat([ws1, "at", ws2, t.pos, ws3, "on", ws4, t.screen, t.options, rest])
  {
    var a1, b, c := MatchTailAt(s, q);
    ws1, ws2 := KeywordParts(s, q, "at");
    ws3, ws4, rest := MatchScreenParts(s, c);
    var after := [ws3, "on", ws4, t.screen, t.options, rest];
    ConcatOne(t.pos);
    Chain(s, b, c, [t.pos], after);
    Chain(s, q, b, [ws1, "at", ws2], [t.pos] + after);
    TailList(ws1, ws2, t.pos, ws3, ws4, t.screen, t.options, rest);
  }

  /** The list of the tail's pieces, as built from its keyword part, the position and its screen part. */
  lemma TailList(ws1: string, ws2: string, pos: string, ws3: string, ws4: string, screen: string, options: string, rest: string)
    ensures [ws1, "at", ws2] + ([pos] + [ws3, "on", ws4, screen, options, rest])
         == [ws1, "at", ws2, pos, ws3, "on", ws4, screen, options, rest]
  {
  }


  /** The tail of a widget line matched with `MatchTail` as its pattern is what `MatchTail` finds there. */
  lemma WidgetTail(line: string, sp: nat, m: WidgetMatch) returns (q: nat, t: Tail)
    requires WidgetAt(line, sp, m, MatchTail)
    ensures q == sp + |m.content| && t == Tail(m.pos, m.screen, m.options)
    ensures sp < q <= |line| && line[sp..q] == m.content
    ensures MatchTail(line, q) == Some(t)
  {
    q, t := sp + |m.content|, Tail(m.pos, m.screen, m.options);
    Applied(MatchTail, line, q);
  }

  /** Applying the tail pattern passed as a value is calling it. */
  lemma Applied(rest: (string, nat) -> Option<Tail>, s: string, q: nat)
    requires rest == MatchTail
    ensures rest(s, q) == MatchTail(s, q)
  {
  }

  /** `re.match(r'(\w+)\s+(".*?")\s+at\s+([\d,]+)\s+on\s+(\w+)(.*)', line)`: the line is
      the kind, whitespace, the quoted content, whitespace, `at`, whitespace, the position,
      whitespace, `on`, whitespace, the screen and the options, in that order. */
  lemma MatchWidgetParts(line: string) returns (ws0: string, ws1: string, ws2: string, ws3: string, ws4: string, rest: string)
    requires MatchWidget(line).Some?
    ensures var m := MatchWidget(line).value;
      && Blank(ws0) && Blank(ws1) && Blank(ws2) && Blank(ws3) && Blank(ws4) && (rest == [] || rest[0] == '\n')
      && line == Concat([m.kind, ws0, m.content] + [ws1, "at", ws2, m.pos, ws3, "on", ws4, m.screen, m.options, rest])
  {
    var sp := WidgetStart(line);
    ws0, ws1, ws2, ws3, ws4, rest := WidgetParts(line, |MatchWidget(line).value.kind|, sp, MatchWidget(line).value);
  }

  /** A widget match's content starts at `sp`, after the kind and a run of whitespace. */
  lemma WidgetStart(line: string) returns (sp: nat)
    requires MatchWidget(line).Some?
    ensures var m := MatchWidget(line).value;
      && |m.kind| <= sp <= |line| && line[..|m.kind|] == m.kind && Blank(line[|m.kind|..sp])
      && WidgetAt(line, sp, m, MatchTail)
  {
    var k := |MatchWidget(line).value.kind|;
    sp := Run(line, k, IsSpace);
    RunAll(line, k, IsSpace);
    SpaceSlice(line, k, sp);
  }

  /** The pieces of a line on which the widget pattern matched `m`, with the kind ending
      at `k` and the content starting at `sp`. */
  lemma WidgetParts(line: string, k: nat, sp: nat, m: WidgetMatch)
    returns (ws0: string, ws1: string, ws2: string, ws3: string, ws4: string, rest: string)
    requires k <= sp <= |line| && line[..k] == m.kind && Blank(line[k..sp]) && WidgetAt(line, sp, m, MatchTail)
    ensures && Blank(ws0) && Blank(ws1) && Blank(ws2) && Blank(ws3) && Blank(ws4) && (rest == [] || rest[0] == '\n')
      && line == Concat([m.kind, ws0, m.content] + [ws1, "at", ws2, m.pos, ws3, "on", ws4, m.screen, m.options, rest])
  {
    var q, t := WidgetTail(line, sp, m);
    ws1, ws2, ws3, ws4, rest := MatchTailParts(line, q, t);
    ws0 := line[k..sp];
    Assemble(line, k, sp, q, m.kind, ws0, m.content, [ws1, "at", ws2, m.pos, ws3, "on", ws4, m.screen, m.options, rest]);
  }

  /** A line cut in four at `k`, `sp` and `q` is the concatenation of its pieces. */
  lemma Assemble(line: string, k: nat, sp: nat, q: nat, kind: string, ws0: string, content: string, tail: seq<string>)
    requires k <= sp <= q <= |line|
    requires line[..k] == kind && line[k..sp] == ws0 && line[sp..q] == content && line[q..] == Concat(tail)
    ensures line == Concat([kind, ws0, content] + tail)
  {
    ConcatOne(content);
    Chain(line, sp, q, [content], tail);
    ConcatOne(ws0);
    Chain(line, k, sp, [ws0], [content] + tail);
    ConcatOne(kind);
    Chain(line, 0, k, [kind], [ws0] + ([content] + tail));
    assert [kind] + ([ws0] + ([content] + tail)) == [kind, ws0, content] + tail;
    assert line == line[0..];
  }

  // ---------------------------------------------------------------- lines of the right shape match

  /** The first piece of a suffix that is a concatenation, and the suffix after it. */
  lemma Peel(s: string, i: nat, xs: seq<string>)
    requires i <= |s| && xs != [] && s[i..] == Concat(xs)
    ensures i + |xs[0]| <= |s| && s[i..i + |xs[0]|] == xs[0] && s[i + |xs[0]|..] == Concat(xs[1..])
  {
    var j := i + |xs[0]|;
    assert s[i..] == xs[0] + Concat(xs[1..]);
    assert s[i..j] == s[i..][..|xs[0]|];
    assert s[j..] == s[i..][|xs[0]|..];
  }

  /** A slice `w` of characters satisfying `p`, after which `p` fails, is the run `Run` finds. */
  lemma RunOver(s: string, i: nat, w: string, p: char -> bool)
    requires i + |w| <= |s| && s[i..i + |w|] == w && (forall k :: 0 <= k < |w| ==> p(w[k]))
    requires i + |w| == |s| || !p(s[i + |w|])
    ensures Run(s, i, p) == i + |w|
  {
    forall k | i <= k < i + |w| ensures p(s[k]) {
      assert s[k] == w[k - i];
    }
    RunStops(s, i, i + |w|, p);
  }

  /** The converse of `KeywordAt`: whitespace from `q` to `a`, the word, then whitespace
      up to `b`, which whitespace does not follow, is what `Keyword` finds. */
  lemma KeywordFinds(s: string, q: nat, a: nat, lit: string, b: nat)
    requires q < a && a + |lit| < b <= |s| && lit != [] && !IsSpace(lit[0])
    requires Blank(s[q..a]) && s[a..a + |lit|] == lit && Blank(s[a + |lit|..b]) && (b == |s| || !IsSpace(s[b]))
    ensures Keyword(s, q, lit) == Some(b)
  {
    assert s[a] == s[a..a + |lit|][0];
    RunOver(s, q, s[q..a], IsSpace);
    RunOver(s, a + |lit|, s[a + |lit|..b], IsSpace);
  }

  /** The converse of `MatchScreenAt`: text from `c` that is whitespace, `on` at `a`,
      whitespace up to `e`, the run of word characters `s[e..f]` and the rest of the line
      `s[f..g]` is matched with those two as the screen and the options. */
  lemma ScreenAtFinds(s: string, c: nat, a: nat, e: nat, f: nat, g: nat)
    requires c < a && a + 2 < e < f <= g <= |s| && s[a..a + 2] == "on"
    requires Blank(s[c..a]) && Blank(s[a + 2..e])
    requires forall k :: e <= k < f ==> IsWordChar(s[k])
    requires forall k :: f <= k < g ==> NotNewline(s[k])
    requires f == |s| || !IsWordChar(s[f])
    requires g == |s| || s[g] == '\n'
    ensures MatchScreen(s, c) == Some((s[e..f], s[f..g]))
  {
    KeywordFinds(s, c, a, "on", e);
    RunStops(s, e, f, IsWordChar);
    RunStops(s, f, g, NotNewline);
  }

  /** The first three pieces of a suffix that is a concatenation, and the suffix after them. */
  lemma Peel3(s: string, i: nat, x: string, y: string, z: string, more: seq<string>)
    requires i <= |s| && s[i..] == Concat([x, y, z] + more)
    ensures i + |x| + |y| + |z| <= |s| && s[i..i + |x|] == x && s[i + |x|..i + |x| + |y|] == y
    ensures s[i + |x| + |y|..i + |x| + |y| + |z|] == z && s[i + |x| + |y| + |z|..] == Concat(more)
  {
    var xs := [x, y, z] + more;
    Peel(s, i, xs);
    assert xs[1..] == [y, z] + more;
    Peel(s, i + |x|, xs[1..]);
    assert xs[2..] == [z] + more;
    Peel(s, i + |x| + |y|, xs[2..]);
    assert xs[3..] == more;
  }

  /** Where the pieces of a screen part sit, from `c`. */
  lemma ScreenCuts(s: string, c: nat, ws1: string, ws2: string, screen: string, options: string, rest: string)
    returns (a: nat, e: nat, f: nat, g: nat)
    requires c <= |s| && s[c..] == Concat([ws1, "on", ws2, screen, options, rest])
    ensures a == c + |ws1| && e == a + 2 + |ws2| && f == e + |screen| && g == f + |options| && g <= |s|
    ensures s[c..a] == ws1 && s[a..a + 2] == "on" && s[a + 2..e] == ws2
    ensures s[e..f] == screen && s[f..g] == options && s[g..] == rest
  {
    a := c + |ws1|;
    e := a + 2 + |ws2|;
    f := e + |screen|;
    g := f + |options|;
    assert [ws1, "on", ws2, screen, options, rest] == [ws1, "on", ws2] + [screen, options, rest];
    Peel3(s, c, ws1, "on", ws2, [screen, options, rest]);
    assert [screen, options, rest] == [screen, options, rest] + [];
    Peel3(s, e, screen, options, rest, []);
  }

  /** Where the pieces of a tail sit, from `q`. */
  lemma TailCuts(s: string, q: nat, ws1: string, ws2: string, pos: string, more: seq<string>)
    returns (a: nat, b: nat, c: nat)
    requires q <= |s| && s[q..] == Concat([ws1, "at", ws2, pos] + more)
    ensures a == q + |ws1| && b == a + 2 + |ws2| && c == b + |pos| && c <= |s|
    ensures s[q..a] == ws1 && s[a..a + 2] == "at" && s[a + 2..b] == ws2 && s[b..c] == pos
    ensures s[c..] == Concat(more)
  {
    a := q + |ws1|;
    b := a + 2 + |ws2|;
    c := b + |pos|;
    assert [ws1, "at", ws2, pos] + more == [ws1, "at", ws2] + ([pos] + more);
    Peel3(s, q, ws1, "at", ws2, [pos] + more);
    Peel(s, b, [pos] + more);
    assert ([pos] + more)[1..] == more;
  }

  /** The converse of `MatchScreenParts`: text from `c` made of whitespace, `on`,
      whitespace, a run of word characters, and the rest of the line, is matched with
      that run as the screen and that rest as the options. */
  lemma MatchScreenFinds(s: string, c: nat, ws1: string, ws2: string, screen: string, options: string, rest: string)
    requires c <= |s| && s[c..] == Concat([ws1, "on", ws2, screen, options, rest])
    requires Blank(ws1) && Blank(ws2) && (rest == [] || rest[0] == '\n')
    requires screen != [] && forall k :: 0 <= k < |screen| ==> IsWordChar(screen[k])
    requires '\n' !in options && (options == [] || !IsWordChar(options[0]))
    ensures MatchScreen(s, c) == Some((screen, options))
  {
    var a, e, f, g := ScreenCuts(s, c, ws1, ws2, screen, options, rest);
    ScreenClasses(s, e, f, g, screen, options, rest);
    ScreenAtFinds(s, c, a, e, f, g);
  }

  /** The character classes of a screen part's pieces, read off the text. */
  lemma ScreenClasses(s: string, e: nat, f: nat, g: nat, screen: string, options: string, rest: string)
    requires e < f <= g <= |s| && s[e..f] == screen && s[f..g] == options && s[g..] == rest
    requires (rest == [] || rest[0] == '\n') && forall k :: 0 <= k < |screen| ==> IsWordChar(screen[k])
    requires '\n' !in options && (options == [] || !IsWordChar(options[0]))
    ensures forall k :: e <= k < f ==> IsWordChar(s[k])
    ensures forall k :: f <= k < g ==> NotNewline(s[k])
    ensures f == |s| || !IsWordChar(s[f])
    ensures g == |s| || s[g] == '\n'
  {
    forall k | e <= k < f ensures IsWordChar(s[k]) {
      assert s[k] == screen[k - e];
    }
    forall k | f <= k < g ensures NotNewline(s[k]) {
      assert s[k] == options[k - f];
    }
    if g < |s| {
      assert s[g] == rest[0];
    }
    if f < g {
      assert s[f] == options[0];
    }
  }

  /** The converse of `MatchTailParts`: text from `q` made of its ten pieces, each in its
      class, is matched with those pieces as the position, the screen and the options. */
  lemma MatchTailFinds(s: string, q: nat, ws1: string, ws2: string, pos: string, ws3: string, ws4: string,
                       screen: string, options: string, rest: string)
    requires q <= |s| && s[q..] == Concat([ws1, "at", ws2, pos, ws3, "on", ws4, screen, options, rest])
    requires Blank(ws1) && Blank(ws2) && Blank(ws3) && Blank(ws4) && (rest == [] || rest[0] == '\n')
    requires pos != [] && forall k :: 0 <= k < |pos| ==> IsDigitOrComma(pos[k])
    requires screen != [] && forall k :: 0 <= k < |screen| ==> IsWordChar(screen[k])
    requires '\n' !in options && (options == [] || !IsWordChar(options[0]))
    ensures MatchTail(s, q) == Some(Tail(pos, screen, options))
  {
    var more := [ws3, "on", ws4, screen, options, rest];
    assert [ws1, "at", ws2, pos, ws3, "on", ws4, screen, options, rest] == [ws1, "at", ws2, pos] + more;
    var a, b, c := TailCuts(s, q, ws1, ws2, pos, more);
    MatchScreenFinds(s, c, ws3, ws4, screen, options, rest);
    Peel(s, c, more);
    assert s[c] == ws3[0];
    TailAtFinds(s, q, a, b, c, pos);
  }

  /** The converse of `MatchTailAt`, given the screen part's match at `c`. */
  lemma TailAtFinds(s: string, q: nat, a: nat, b: nat, c: nat, pos: string)
    requires q < a && a + 2 < b < c < |s| && s[a..a + 2] == "at"
    requires Blank(s[q..a]) && Blank(s[a + 2..b]) && s[b..c] == pos && IsSpace(s[c])
    requires forall k :: 0 <= k < |pos| ==> IsDigitOrComma(pos[k])
    requires MatchScreen(s, c).Some?
    ensures MatchTail(s, q) == Some(Tail(pos, MatchScreen(s, c).value.0, MatchScreen(s, c).value.1))
  {
    assert s[b] == pos[0];
    KeywordFinds(s, q, a, "at", b);
    RunOver(s, b, pos, IsDigitOrComma);
  }

  /** A quote at or after `j` closes the lazy `".*?"`: no line break comes before it, and
      the rest of the pattern matches after it. */
  predicate Closable(s: string, j: nat, rest: (string, nat) -> Option<Tail>)
    requires j <= |s|
  {
    exists m :: j <= m < |s| && NoBreak(s, j, m) && ClosesAt(s, m, rest)
  }

  /** The lazy `".*?"` followed by `rest` finds a closing quote exactly when one exists. */
  lemma FirstCloseFinds(s: string, j: nat, rest: (string, nat) -> Option<Tail>)
    requires j <= |s|
    ensures FirstClose(s, j, rest).Some? <==> Closable(s, j, rest)
  {
    FirstCloseLeftmost(s, j, rest);
    if FirstClose(s, j, rest).Some? {
      var m := FirstClose(s, j, rest).value.0;
      assert NoBreak(s, j, m) && ClosesAt(s, m, rest);
    }
  }

  /** On a line that opens with a kind word ending at `k` and whitespace ending at `sp`,
      `(\w+)\s+(".*?")` followed by `rest` matches exactly when a quote opens at `sp` and
      a later quote on the line closes it. */
  lemma MatchWidgetWithFinds(line: string, k: nat, sp: nat, rest: (string, nat) -> Option<Tail>)
    requires 0 < k < sp < |line| && (forall n :: 0 <= n < k ==> IsWordChar(line[n]))
    requires Blank(line[k..sp]) && !IsSpace(line[sp])
    ensures MatchWidgetWith(line, rest).Some? <==> line[sp] == '"' && Closable(line, sp + 1, rest)
  {
    assert forall n :: k <= n < sp ==> IsSpace(line[n]) by {
      forall n | k <= n < sp ensures IsSpace(line[n]) {
        assert line[k..sp][n - k] == line[n];
      }
    }
    RunStops(line, 0, k, IsWordChar);
    RunStops(line, k, sp, IsSpace);
    FirstCloseFinds(line, sp + 1, rest);
  }

  /** The converse of `MatchWidgetParts`: a line made of a kind word, whitespace, a quoted
      content on one line, and a tail of the right shape matches the widget pattern, and
      when the content holds no further quote, its groups are exactly those pieces. */
  lemma MatchWidgetFinds(line: string, kind: string, ws0: string, x: string, tail: string, ws1: string, ws2: string,
                         pos: string, ws3: string, ws4: string, screen: string, options: string, rest: string)
    requires line == kind + ws0 + "\"" + x + "\"" + tail
    requires tail == Concat([ws1, "at", ws2, pos, ws3, "on", ws4, screen, options, rest])
    requires kind != [] && forall n :: 0 <= n < |kind| ==> IsWordChar(kind[n])
    requires Blank(ws0) && '\n' !in x
    requires Blank(ws1) && Blank(ws2) && Blank(ws3) && Blank(ws4) && (rest == [] || rest[0] == '\n')
    requires pos != [] && forall n :: 0 <= n < |pos| ==> IsDigitOrComma(pos[n])
    requires screen != [] && forall n :: 0 <= n < |screen| ==> IsWordChar(screen[n])
    requires '\n' !in options && (options == [] || !IsWordChar(options[0]))
    ensures MatchWidget(line).Some?
    ensures '"' !in x ==> MatchWidget(line) == Some(WidgetMatch(kind, "\"" + x + "\"", pos, screen, options))
  {
    var q := |kind| + |ws0| + |x| + 2;
    WidgetLineCuts(line, kind, ws0, x, tail);
    MatchTailFinds(line, q, ws1, ws2, pos, ws3, ws4, screen, options, rest);
    TailedWidgetFinds(line, kind, ws0, x, q, Tail(pos, screen, options));
  }

  /** `MatchWidgetFinds` once the line is cut into its kind, whitespace and content, and
      the tail pattern matches `t` after the content. */
  lemma TailedWidgetFinds(line: string, kind: string, ws0: string, x: string, q: nat, t: Tail)
    requires q == |kind| + |ws0| + |x| + 2 <= |line|
    requires line[..|kind|] == kind && line[|kind|..|kind| + |ws0|] == ws0 && line[|kind| + |ws0|..q] == "\"" + x + "\""
    requires MatchTail(line, q) == Some(t)
    requires kind != [] && forall n :: 0 <= n < |kind| ==> IsWordChar(kind[n])
    requires Blank(ws0) && '\n' !in x
    ensures MatchWidget(line).Some?
    ensures '"' !in x ==> MatchWidget(line) == Some(WidgetMatch(kind, "\"" + x + "\"", t.pos, t.screen, t.options))
  {
    Applied(MatchTail, line, q);
    CutWidgetFinds(line, kind, ws0, x, MatchTail, t);
  }

  /** `MatchWidgetFinds` for any tail pattern `rest`, once the line is cut into its kind,
      whitespace and content, and `rest` matches after the content. */
  lemma CutWidgetFinds(line: string, kind: string, ws0: string, x: string, rest: (string, nat) -> Option<Tail>, t: Tail)
    requires var k, sp, q := |kind|, |kind| + |ws0|, |kind| + |ws0| + |x| + 2;
      && q <= |line| && line[..k] == kind && line[k..sp] == ws0 && line[sp..q] == "\"" + x + "\""
      && rest(line, q) == Some(t)
    requires kind != [] && forall n :: 0 <= n < |kind| ==> IsWordChar(kind[n])
    requires Blank(ws0) && '\n' !in x
    ensures MatchWidgetWith(line, rest).Some?
    ensures '"' !in x ==> MatchWidgetWith(line, rest) == Some(WidgetMatch(kind, "\"" + x + "\"", t.pos, t.screen, t.options))
  {
    var k, sp := |kind|, |kind| + |ws0|;
    var q := sp + |x| + 2;
    var close := q - 1;
    WidgetClasses(line, k, sp, close, kind, ws0, x);
    if '"' !in x {
      forall n | sp < n < close ensures line[n] != '"' {
        assert line[n] == x[n - sp - 1];
      }
    }
    WidgetSpans(line, k, sp);
    WidgetWithFinds(line, k, sp, close, rest, t);
  }

  /** The character classes of a widget line's leading pieces, read off the line. */
  lemma WidgetClasses(line: string, k: nat, sp: nat, close: nat, kind: string, ws0: string, x: string)
    requires k == |kind| && sp == k + |ws0| && close == sp + |x| + 1 < |line|
    requires line[..k] == kind && line[k..sp] == ws0 && line[sp..close + 1] == "\"" + x + "\""
    requires kind != [] && (forall n :: 0 <= n < |kind| ==> IsWordChar(kind[n])) && Blank(ws0) && '\n' !in x
    ensures 0 < k < sp < close && (forall n :: 0 <= n < k ==> IsWordChar(line[n])) && Blank(line[k..sp])
    ensures line[sp] == '"' && line[close] == '"' && NoBreak(line, sp + 1, close)
    ensures forall n :: sp < n < close ==> line[n] == x[n - sp - 1]
  {
    var content := "\"" + x + "\"";
    forall n | 0 <= n < k ensures IsWordChar(line[n]) {
      assert line[n] == line[..k][n];
    }
    assert line[sp] == content[0];
    assert line[close] == content[|content| - 1];
    forall n | sp < n < close ensures line[n] == x[n - sp - 1] {
      assert line[n] == content[n - sp];
    }
  }

  /** The kind and the whitespace after it are the runs the widget scanner takes. */
  lemma WidgetSpans(line: string, k: nat, sp: nat)
    requires 0 < k < sp < |line| && (forall n :: 0 <= n < k ==> IsWordChar(line[n])) && Blank(line[k..sp])
    requires !IsSpace(line[sp])
    ensures Run(line, 0, IsWordChar) == k && Run(line, k, IsSpace) == sp
  {
    assert line[k] == line[k..sp][0];
    RunStops(line, 0, k, IsWordChar);
    forall n | k <= n < sp ensures IsSpace(line[n]) {
      assert line[k..sp][n - k] == line[n];
    }
    RunStops(line, k, sp, IsSpace);
  }

  /** `(\w+)\s+(".*?")` followed by `rest`, on a line whose runs end at `k` and `sp`, with a
      quote at `close` after which `rest` matches `t`: a match exists, and it is that
      one when no quote comes between. */
  lemma WidgetWithFinds(line: string, k: nat, sp: nat, close: nat, rest: (string, nat) -> Option<Tail>, t: Tail)
    requires 0 < k < sp < close < |line| && Run(line, 0, IsWordChar) == k && Run(line, k, IsSpace) == sp
    requires line[sp] == '"' && line[close] == '"' && NoBreak(line, sp + 1, close) && rest(line, close + 1) == Some(t)
    ensures MatchWidgetWith(line, rest).Some?
    ensures (forall n :: sp < n < close ==> line[n] != '"') ==>
      MatchWidgetWith(line, rest) == Some(WidgetMatch(line[..k], line[sp..close + 1], t.pos, t.screen, t.options))
  {
    assert ClosesAt(line, close, rest);
    FirstCloseLeftmost(line, sp + 1, rest);
    var found := FirstClose(line, sp + 1, rest);
    assert found.Some?;
    if forall n :: sp < n < close ==> line[n] != '"' {
      assert found.value.0 == close;
    }
  }

  /** Where the pieces of a widget line sit: the kind, the whitespace and the quoted
      content one after another from the start, and the tail from the content's end. */
  lemma WidgetLineCuts(line: string, kind: string, ws0: string, x: string, tail: string)
    requires line == kind + ws0 + "\"" + x + "\"" + tail
    ensures var k, sp, q := |kind|, |kind| + |ws0|, |kind| + |ws0| + |x| + 2;
      && q <= |line| && line[..k] == kind && line[k..sp] == ws0 && line[sp..q] == "\"" + x + "\"" && line[q..] == tail
  {
    var k, sp, q := |kind|, |kind| + |ws0|, |kind| + |ws0| + |x| + 2;
    assert line == kind + ws0 + ("\"" + x + "\"") + tail;
    assert line[..k] == kind;
    assert line[k..sp] == ws0;
    assert line[sp..q] == "\"" + x + "\"";
  }

  /** A widget line written the usual way, `KIND "TEXT" at ROW,COL on SCREEN` with single
      spaces, is matched with the groups it reads as. */
  lemma WidgetLineReads(kind: string, text: string, row: string, col: string, screen: string)
    requires kind != [] && forall n :: 0 <= n < |kind| ==> IsWordChar(kind[n])
    requires '"' !in text && '\n' !in text
    requires row != [] && AllDigits(row) && col != [] && AllDigits(col)
    requires screen != [] && forall n :: 0 <= n < |screen| ==> IsWordChar(screen[n])
    ensures MatchWidget(kind + " \"" + text + "\" at " + row + "," + col + " on " + screen)
         == Some(WidgetMatch(kind, "\"" + text + "\"", row + "," + col, screen, ""))
  {
    var pos := row + "," + col;
    forall n | 0 <= n < |pos| ensures IsDigitOrComma(pos[n]) {
      if n < |row| {
        assert pos[n] == row[n];
      } else if n > |row| {
        assert pos[n] == col[n - |row| - 1];
      }
    }
    var tail := " at " + pos + " on " + screen;
    TailText(pos, screen);
    assert kind + " \"" + text + "\" at " + row + "," + col + " on " + screen
        == kind + " " + "\"" + text + "\"" + tail;
    MatchWidgetFinds(kind + " " + "\"" + text + "\"" + tail, kind, " ", text, tail, " ", " ", pos, " ", " ", screen, "", "");
  }

  /** ` at POS on SCREEN` as the ten pieces of a tail. */
  lemma TailText(pos: string, screen: string)
    ensures " at " + pos + " on " + screen == Concat([" ", "at", " ", pos, " ", "on", " ", screen, "", ""])
  {
    var xs := [" ", "at", " ", pos, " ", "on", " ", screen, "", ""];
    ConcatOne("");
    assert xs[9..] == [""];
    assert Concat(xs[8..]) == "" + Concat(xs[9..]);
    assert Concat(xs[7..]) == screen;
    assert Concat(xs[6..]) == " " + screen;
    assert Concat(xs[5..]) == "on" + " " + screen;
    assert Concat(xs[4..]) == " " + "on" + " " + screen;
    assert Concat(xs[3..]) == pos + " on " + screen;
    assert Concat(xs[2..]) == " " + pos + " on " + screen;
    assert Concat(xs[1..]) == "at" + " " + pos + " on " + screen;
    assert Concat(xs) == " " + "at" + " " + pos + " on " + screen;
  }
}
