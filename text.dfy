/**
 * The handful of Python string operations the compiler relies on, restricted to ASCII:
 * the character classes `\w`, `\d` and `\s` of the `re` module, `str.strip`,
 * `str.split`, `str.join`, `int()` on a digit string and `str()` of an integer.
 */
module Text {
  import opened Wrappers

  /** `\w` restricted to ASCII (also the class kept by `re.sub(r'[^a-zA-Z0-9_]', '', …)`). */
  predicate IsWordChar(c: char) {
    'a' <= c <= 'z' || 'A' <= c <= 'Z' || '0' <= c <= '9' || c == '_'
  }

  /** `\d` restricted to ASCII. */
  predicate IsDigit(c: char) {
    '0' <= c <= '9'
  }

  /** Python's ASCII whitespace, shared by `\s`, `str.strip()` and `str.split()`:
      tab, line feed, vertical tab, form feed, carriage return, the separators
      \x1c-\x1f, and space. */
  predicate IsSpace(c: char) {
    c == ' ' || '\t' <= c <= '\r' || '\U{1C}' <= c <= '\U{1F}'
  }

  /** `\S` */
  predicate NotSpace(c: char) {
    !IsSpace(c)
  }

  /** `.` (without the DOTALL flag) */
  predicate NotNewline(c: char) {
    c != '\n'
  }

  /** `[\d,]` */
  predicate IsDigitOrComma(c: char) {
    IsDigit(c) || c == ','
  }

  predicate IsQuote(c: char) {
    c == '"'
  }

  /** The end of the longest run of characters satisfying `p` that starts at `i`:
      what a greedy `p+` or `p*` consumes. */
  function Run(s: string, i: nat, p: char -> bool): (j: nat)
    requires i <= |s|
    ensures i <= j <= |s|
    ensures j == |s| || !p(s[j])
    decreases |s| - i
  {
    if i < |s| && p(s[i]) then Run(s, i + 1, p) else i
  }

  /** Every character of the run satisfies `p`. */
  lemma {:induction false} RunAll(s: string, i: nat, p: char -> bool)
    requires i <= |s|
    ensures forall k :: i <= k < Run(s, i, p) ==> p(s[k])
    decreases |s| - i
  {
    if i < |s| && p(s[i]) {
      RunAll(s, i + 1, p);
    }
  }

  /** The start of the longest run of characters satisfying `p` that ends at `j`,
      going no further left than `lo`. */
  function RunBack(s: string, lo: nat, j: nat, p: char -> bool): (b: nat)
    requires lo <= j <= |s|
    ensures lo <= b <= j
    ensures forall k :: b <= k < j ==> p(s[k])
    ensures b == lo || !p(s[b - 1])
    decreases j - lo
  {
    if lo < j && p(s[j - 1]) then RunBack(s, lo, j - 1, p) else j
  }

  /** `s.strip(chars)`: drop the characters satisfying `p` from both ends. */
  function StripWhile(s: string, p: char -> bool): (r: string)
    ensures |r| <= |s|
    ensures r == [] || (!p(r[0]) && !p(r[|r| - 1]))
    ensures s == [] || (!p(s[0]) && !p(s[|s| - 1])) ==> r == s
    ensures (forall k :: 0 <= k < |s| ==> p(s[k])) ==> r == []
    ensures exists a, b :: (0 <= a <= b <= |s| && r == s[a..b]
                            && (forall k :: 0 <= k < a ==> p(s[k])) && (forall k :: b <= k < |s| ==> p(s[k])))
  {
    var a := Run(s, 0, p);
    RunAll(s, 0, p);
    var b := RunBack(s, a, |s|, p);
    assert 0 <= a <= b <= |s| && s[a..b] == s[a..b];
    s[a..b]
  }

  /** `s.strip()` */
  function Strip(s: string): string {
    StripWhile(s, IsSpace)
  }

  /** `s.strip('"')` */
  function StripQuotes(s: string): (r: string)
    ensures r == [] || (r[0] != '"' && r[|r| - 1] != '"')
    ensures s == [] || (s[0] != '"' && s[|s| - 1] != '"') ==> r == s
    ensures exists a, b :: (0 <= a <= b <= |s| && r == s[a..b]
                            && (forall k :: 0 <= k < a ==> s[k] == '"') && (forall k :: b <= k < |s| ==> s[k] == '"'))
  {
    StripWhile(s, IsQuote)
  }

  /** The characters of `s` that satisfy `p`, in order. */
  function Filter(s: string, p: char -> bool): (r: string)
    ensures |r| <= |s|
    decreases |s|
  {
    if s == [] then [] else (if p(s[0]) then [s[0]] else []) + Filter(s[1..], p)
  }

  /** Every character kept satisfies `p`. */
  lemma {:induction false} FilterPasses(s: string, p: char -> bool)
    ensures forall k :: 0 <= k < |Filter(s, p)| ==> p(Filter(s, p)[k])
    decreases |s|
  {
    if s != [] {
      FilterPasses(s[1..], p);
    }
  }

  /** A string whose every character satisfies `p` is kept whole. */
  lemma {:induction false} FilterKeepsAll(s: string, p: char -> bool)
    requires forall k :: 0 <= k < |s| ==> p(s[k])
    ensures Filter(s, p) == s
    decreases |s|
  {
    if s != [] {
      assert forall k :: 0 <= k < |s[1..]| ==> s[1..][k] == s[k + 1];
      FilterKeepsAll(s[1..], p);
      assert s == [s[0]] + s[1..];
    }
  }

  /** A string none of whose characters satisfies `p` is dropped whole. */
  lemma {:induction false} FilterDropsAll(s: string, p: char -> bool)
    requires forall k :: 0 <= k < |s| ==> !p(s[k])
    ensures Filter(s, p) == []
    decreases |s|
  {
    if s != [] {
      assert forall k :: 0 <= k < |s[1..]| ==> s[1..][k] == s[k + 1];
      FilterDropsAll(s[1..], p);
    }
  }

  lemma {:induction false} FilterAppend(a: string, b: string, p: char -> bool)
    ensures Filter(a + b, p) == Filter(a, p) + Filter(b, p)
    decreases |a|
  {
    if a == [] {
      assert a + b == b;
    } else {
      var head := if p(a[0]) then [a[0]] else [];
      assert (a + b)[0] == a[0];
      assert (a + b)[1..] == a[1..] + b;
      FilterAppend(a[1..], b, p);
      calc {
        Filter(a + b, p);
        head + Filter(a[1..] + b, p);
        head + (Filter(a[1..], p) + Filter(b, p));
        { SeqAssoc(head, Filter(a[1..], p), Filter(b, p)); }
        (head + Filter(a[1..], p)) + Filter(b, p);
      }
    }
  }

  /** `re.sub(r'[^a-zA-Z0-9_]', '', s)` */
  function Sanitize(s: string): string {
    Filter(s, IsWordChar)
  }

  function DigitChar(d: nat): (c: char)
    requires d < 10
    ensures IsDigit(c) && c as int - '0' as int == d
  {
    ('0' as int + d) as char
  }

  function DigitValue(c: char): (d: nat)
    requires IsDigit(c)
    ensures d < 10 && DigitChar(d) == c
  {
    c as int - '0' as int
  }

  predicate AllDigits(s: string) {
    forall k :: 0 <= k < |s| ==> IsDigit(s[k])
  }

  /** `str(n)` for a non-negative integer */
  function NatToString(n: nat): (r: string)
    ensures r != [] && AllDigits(r)
    ensures r == "0" <==> n == 0
    ensures |r| == 1 || r[0] != '0'
    decreases n
  {
    if n < 10 then [DigitChar(n)] else NatToString(n / 10) + [DigitChar(n % 10)]
  }

  /** The decimal value of a digit string (leading zeros allowed, as `int()` allows them). */
  function DigitsValue(s: string): nat
    requires AllDigits(s)
  {
    if s == [] then 0 else DigitsValue(s[..|s| - 1]) * 10 + DigitValue(s[|s| - 1])
  }

  /** `int(s)` for the strings the position scanner can produce (ASCII digits only):
      the empty string raises `ValueError`, which is `None` here. */
  function ParseInt(s: string): (r: Option<nat>)
    ensures r.Some? <==> s != [] && AllDigits(s)
  {
    if s != [] && AllDigits(s) then Some(DigitsValue(s)) else None
  }

  /** A leading zero does not change the value `int()` reads, so with `ParseIntNatToString`
      the value of every digit string is fixed. */
  lemma {:induction false} ParseIntLeadingZero(s: string)
    requires s != [] && AllDigits(s)
    ensures ParseInt("0" + s) == ParseInt(s)
  {
    DigitsLeadingZero(s);
  }

  lemma {:induction false} DigitsLeadingZero(s: string)
    requires AllDigits(s)
    ensures AllDigits("0" + s) && DigitsValue("0" + s) == DigitsValue(s)
    decreases |s|
  {
    var z := "0" + s;
    if s == [] {
      assert z[..|z| - 1] == [];
    } else {
      assert z[..|z| - 1] == "0" + s[..|s| - 1];
      DigitsLeadingZero(s[..|s| - 1]);
    }
  }

  /** `int(str(n)) == n` */
  lemma {:induction false} ParseIntNatToString(n: nat)
    ensures ParseInt(NatToString(n)) == Some(n)
    decreases n
  {
    var s := NatToString(n);
    if n < 10 {
      assert s[..|s| - 1] == [];
      assert DigitsValue(s) == DigitValue(DigitChar(n)) == n;
    } else {
      ParseIntNatToString(n / 10);
      assert s[..|s| - 1] == NatToString(n / 10);
      assert DigitsValue(s) == (n / 10) * 10 + DigitValue(DigitChar(n % 10)) == n;
    }
  }

  lemma NatToStringInjective(m: nat, n: nat)
    requires m != n
    ensures NatToString(m) != NatToString(n)
  {
    ParseIntNatToString(m);
    ParseIntNatToString(n);
  }

  /** `sep.join(parts)` */
  function Join(sep: string, parts: seq<string>): string
    decreases |parts|
  {
    if |parts| == 0 then ""
    else if |parts| == 1 then parts[0]
    else parts[0] + sep + Join(sep, parts[1..])
  }

  lemma {:induction false} JoinAppend(sep: string, a: seq<string>, b: seq<string>)
    requires a != [] && b != []
    ensures Join(sep, a + b) == Join(sep, a) + sep + Join(sep, b)
    decreases |a|
  {
    assert (a + b)[0] == a[0];
    if |a| == 1 {
      assert (a + b)[1..] == b;
    } else {
      assert (a + b)[1..] == a[1..] + b;
      JoinAppend(sep, a[1..], b);
    }
  }

  /** `s.split(c)` for a one-character separator */
  function SplitOn(s: string, c: char): (parts: seq<string>)
    ensures parts != []
    ensures forall i :: 0 <= i < |parts| ==> c !in parts[i]
    decreases |s|
  {
    if s == [] then [""]
    else
      var rest := SplitOn(s[1..], c);
      if s[0] == c then [""] + rest else [[s[0]] + rest[0]] + rest[1..]
  }

  /** A split has one more piece than the string has separators. */
  lemma {:induction false} SplitOnCount(s: string, c: char)
    ensures |SplitOn(s, c)| == multiset(s)[c] + 1
    decreases |s|
  {
    if s != [] {
      SplitOnCount(s[1..], c);
      assert s == [s[0]] + s[1..];
      assert multiset(s) == multiset([s[0]]) + multiset(s[1..]);
    }
  }

  /** Gluing `x` to the front of the first part glues it to the front of the joined text. */
  lemma JoinPrepend(sep: string, x: string, parts: seq<string>)
    requires parts != []
    ensures Join(sep, [x + parts[0]] + parts[1..]) == x + Join(sep, parts)
  {
    var glued := [x + parts[0]] + parts[1..];
    assert glued[0] == x + parts[0] && glued[1..] == parts[1..];
    if |parts| > 1 {
      var tail := sep + Join(sep, parts[1..]);
      SeqAssoc(x + parts[0], sep, Join(sep, parts[1..]));
      SeqAssoc(parts[0], sep, Join(sep, parts[1..]));
      SeqAssoc(x, parts[0], tail);
    }
  }

  /** Concatenation regroups freely (stated once, so proofs need not rediscover it). */
  lemma SeqAssoc(x: string, y: string, z: string)
    ensures x + (y + z) == (x + y) + z
  {
  }

  /** Joining the pieces of a split with the separator gives the string back. */
  lemma {:induction false} SplitOnJoin(s: string, c: char)
    ensures Join([c], SplitOn(s, c)) == s
    decreases |s|
  {
    if s != [] {
      var rest := SplitOn(s[1..], c);
      SplitOnJoin(s[1..], c);
      assert s == [s[0]] + s[1..];
      if s[0] == c {
        var parts := [""] + rest;
        assert SplitOn(s, c) == parts;
        assert parts[1..] == rest;
        assert Join([c], parts) == "" + [c] + Join([c], rest);
      } else {
        var parts := [[s[0]] + rest[0]] + rest[1..];
        assert SplitOn(s, c) == parts;
        JoinPrepend([c], [s[0]], rest);
      }
    }
  }

  /** `s.split()`: the maximal runs of non-whitespace, in order. */
  function SplitWs(s: string): (tokens: seq<string>)
    ensures forall i :: 0 <= i < |tokens| ==> tokens[i] != [] && forall k :: 0 <= k < |tokens[i]| ==> NotSpace(tokens[i][k])
    decreases |s|
  {
    var a := Run(s, 0, IsSpace);
    RunAll(s, 0, IsSpace);
    if a == |s| then []
    else
      var b := Run(s, a, NotSpace);
      RunAll(s, a, NotSpace);
      [s[a..b]] + SplitWs(s[b..])
  }

  predicate AllSpace(s: string) {
    forall k :: 0 <= k < |s| ==> IsSpace(s[k])
  }

  /** `s.split()` is empty exactly when `s` is all whitespace. */
  lemma SplitWsEmpty(s: string)
    ensures SplitWs(s) == [] <==> AllSpace(s)
  {
    RunAll(s, 0, IsSpace);
  }

  /** Gaps and tokens interleaved: `gaps[0] + tokens[0] + gaps[1] + ... + gaps[|tokens|]`. */
  function Weave(gaps: seq<string>, tokens: seq<string>): string
    requires |gaps| == |tokens| + 1
    decreases |tokens|
  {
    if tokens == [] then gaps[0] else gaps[0] + tokens[0] + Weave(gaps[1..], tokens[1..])
  }

  /** Whitespace runs separating `tokens` in a weave: all whitespace, and only the two
      outer ones may be empty. */
  predicate Gaps(gaps: seq<string>, tokens: seq<string>) {
    && |gaps| == |tokens| + 1
    && (forall i :: 0 <= i < |gaps| ==> AllSpace(gaps[i]))
    && (forall i :: 0 < i < |gaps| - 1 ==> gaps[i] != [])
  }

  /** The tokens of `s.split()` are the maximal runs of non-whitespace: `s` is the tokens
      interleaved with runs of whitespace, and only the two outer runs may be empty. */
  lemma SplitWsRuns(s: string)
    ensures exists gaps :: Gaps(gaps, SplitWs(s)) && s == Weave(gaps, SplitWs(s))
  {
    var gaps := SplitWsGaps(s);
  }

  lemma {:induction false} SplitWsGaps(s: string) returns (gaps: seq<string>)
    ensures Gaps(gaps, SplitWs(s)) && s == Weave(gaps, SplitWs(s))
    decreases |s|
  {
    var a := Run(s, 0, IsSpace);
    RunAll(s, 0, IsSpace);
    if a == |s| {
      gaps := [s];
      assert AllSpace(gaps[0]);
    } else {
      var b := Run(s, a, NotSpace);
      RunAll(s, a, NotSpace);
      var rest := s[b..];
      var tokens := SplitWs(rest);
      assert SplitWs(s) == [s[a..b]] + tokens;
      var g := SplitWsGaps(rest);
      gaps := [s[..a]] + g;
      assert AllSpace(s[..a]) by {
        forall k | 0 <= k < a ensures IsSpace(s[..a][k]) {
          assert s[..a][k] == s[k];
        }
      }
      if tokens != [] {
        WeaveFirst(g, tokens);
      }
      GapsCons(s[..a], g, s[a..b], tokens);
      WeaveCons(s[..a], g, s[a..b], tokens);
      SliceThree(s, a, b);
    }
  }

  lemma GapsCons(h: string, g: seq<string>, t: string, tokens: seq<string>)
    requires Gaps(g, tokens) && AllSpace(h) && (tokens != [] ==> g[0] != [])
    ensures Gaps([h] + g, [t] + tokens)
  {
    var gaps := [h] + g;
    forall i | 0 < i < |gaps| ensures gaps[i] == g[i - 1] {
    }
  }

  lemma WeaveCons(h: string, g: seq<string>, t: string, tokens: seq<string>)
    requires |g| == |tokens| + 1
    ensures Weave([h] + g, [t] + tokens) == h + t + Weave(g, tokens)
  {
    assert ([h] + g)[1..] == g && ([t] + tokens)[1..] == tokens;
  }

  /** The first character of a weave: that of its first gap, or of its first token. */
  lemma WeaveFirst(g: seq<string>, tokens: seq<string>)
    requires |g| == |tokens| + 1 && tokens != [] && tokens[0] != []
    ensures Weave(g, tokens) != []
    ensures Weave(g, tokens)[0] == if g[0] == [] then tokens[0][0] else g[0][0]
  {
  }

  function Concat(parts: seq<string>): string
    decreases |parts|
  {
    if parts == [] then "" else parts[0] + Concat(parts[1..])
  }

  lemma ConcatOne(x: string)
    ensures Concat([x]) == x
  {
    assert [x][1..] == [];
  }

  lemma {:induction false} ConcatAppend(xs: seq<string>, ys: seq<string>)
    ensures Concat(xs + ys) == Concat(xs) + Concat(ys)
    decreases |xs|
  {
    if xs == [] {
      assert xs + ys == ys;
    } else {
      assert (xs + ys)[1..] == xs[1..] + ys;
      ConcatAppend(xs[1..], ys);
    }
  }

  /** The tokens of `s.split()` are exactly the non-whitespace characters of `s`. */
  lemma {:induction false} SplitWsConcat(s: string)
    ensures Concat(SplitWs(s)) == Filter(s, NotSpace)
    decreases |s|
  {
    var a := Run(s, 0, IsSpace);
    RunAll(s, 0, IsSpace);
    if a == |s| {
      FilterDropsAll(s, NotSpace);
    } else {
      var b := Run(s, a, NotSpace);
      RunAll(s, a, NotSpace);
      var token, rest := s[a..b], s[b..];
      var tokens := SplitWs(rest);
      assert SplitWs(s) == [token] + tokens;
      SplitWsConcat(rest);
      assert ([token] + tokens)[1..] == tokens;
      FilterAfterRuns(s, a, b);
    }
  }

  /** Filtering out the whitespace of a string that opens with a run of whitespace and
      then a run of non-whitespace leaves that second run, then the rest filtered. */
  lemma FilterAfterRuns(s: string, a: nat, b: nat)
    requires a <= b <= |s|
    requires forall k :: 0 <= k < a ==> IsSpace(s[k])
    requires forall k :: a <= k < b ==> NotSpace(s[k])
    ensures Filter(s, NotSpace) == s[a..b] + Filter(s[b..], NotSpace)
  {
    SliceRun(s, 0, a, IsSpace);
    SliceRun(s, a, b, NotSpace);
    assert s[0..a] == s[..a];
    FilterThree(s[..a], s[a..b], s[b..]);
    SliceThree(s, a, b);
  }

  /** A slice of a run satisfying `p` satisfies `p` throughout. */
  lemma SliceRun(s: string, a: nat, b: nat, p: char -> bool)
    requires a <= b <= |s|
    requires forall k :: a <= k < b ==> p(s[k])
    ensures forall k :: 0 <= k < |s[a..b]| ==> p(s[a..b][k])
  {
    forall k | 0 <= k < |s[a..b]| ensures p(s[a..b][k]) {
      assert s[a..b][k] == s[a + k];
    }
  }

  lemma SliceThree(s: string, a: nat, b: nat)
    requires a <= b <= |s|
    ensures s == s[..a] + s[a..b] + s[b..]
  {
  }

  lemma FilterThree(lead: string, token: string, rest: string)
    requires forall k :: 0 <= k < |lead| ==> IsSpace(lead[k])
    requires forall k :: 0 <= k < |token| ==> NotSpace(token[k])
    ensures Filter(lead + token + rest, NotSpace) == token + Filter(rest, NotSpace)
  {
    FilterDropsAll(lead, NotSpace);
    FilterKeepsAll(token, NotSpace);
    FilterAppend(lead, token, NotSpace);
    assert Filter(lead + token, NotSpace) == token;
    FilterAppend(lead + token, rest, NotSpace);
  }
}
