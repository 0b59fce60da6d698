/**
 * The action translator: a button's `action:` option becomes the `command=` argument
 * of the generated `tk.Button`. The option value is stripped of its quotes and split
 * on whitespace into a verb, an optional target and an optional value; tokens after
 * the third are never looked at.
 */
module Actions {
  import opened Wrappers
  import opened Text

  /** The callback of a button with no action, an unknown verb, or a verb lacking its target. */
  const NoOp: string := "command=lambda: None"

  const Destroy: string := "command=root.destroy"

  /** Python's `x or default` on an optional string: `None` and `""` are both false. */
  function OrElse(x: Option<string>, default: string): (r: string)
    ensures x.Some? && x.value != "" ==> r == x.value
    ensures x.None? || x.value == "" ==> r == default
  {
    if x.Some? && x.value != "" then x.value else default
  }

  /** An optional string as an f-string renders it: `None` becomes the text `None`. */
  function Show(x: Option<string>): (r: string)
    ensures x.Some? ==> r == x.value
    ensures x.None? ==> r == "None"
  {
    match x
    case Some(v) => v
    case None => "None"
  }

  /** The token at index `i`, or `None` when there are fewer tokens. */
  function TokenAt(parts: seq<string>, i: nat): (r: Option<string>)
    ensures r.Some? <==> i < |parts|
    ensures r.Some? ==> r.value == parts[i]
  {
    if i < |parts| then Some(parts[i]) else None
  }

  /** The callback for the tokens of a non-empty action. */
  function Callback(parts: seq<string>): (r: string)
    requires parts != []
    ensures "command=" < r
  {
    var verb, target, value := parts[0], TokenAt(parts, 1), TokenAt(parts, 2);
    var hasTarget := target.Some? && target.value != "";
    if verb == "show" && hasTarget then
      "command=lambda: show_screen('" + target.value + "')"
    else if verb == "quit" then
      Destroy
    else if verb == "set_entry" && hasTarget then
      "command=lambda: set_entry_text('" + target.value + "', " + OrElse(value, "\"\"") + ")"
    else if verb == "append_entry" && hasTarget then
      "command=lambda: append_entry_text('" + target.value + "', '" + Show(value) + "')"
    else if verb == "eval_entry" && hasTarget then
      "command=lambda: evaluate_entry('" + target.value + "')"
    else
      NoOp
  }

  /** `action_str.strip('"').split()`: the tokens an action is split into. */
  function Tokens(action: string): seq<string> {
    SplitWs(StripQuotes(action))
  }

  /** `_generate_action_code(action_str)`. `None` is the `IndexError` raised when the
      action is a non-empty string with no token once its quotes are stripped
      (`action:""`). */
  function ActionCode(action: Option<string>): (r: Option<string>)
    ensures r.None? <==> action.Some? && action.value != "" && Tokens(action.value) == []
    ensures r.Some? ==> "command=" < r.value
  {
    if action.None? || action.value == "" then Some(NoOp)
    else
      var parts := Tokens(action.value);
      if parts == [] then None else Some(Callback(parts))
  }

  /** No action, or an empty one, gives the no-op callback. */
  lemma ActionAbsent()
    ensures ActionCode(None) == Some(NoOp)
    ensures ActionCode(Some("")) == Some(NoOp)
  {
  }

  /** `action:""` has no token left after its quotes are stripped: the translator fails. */
  lemma ActionEmptyQuotes()
    ensures ActionCode(Some("\"\"")) == None
  {
    assert StripQuotes("\"\"") == [];
  }

  /** The translator raises exactly for a non-empty action that is only quotes and
      whitespace. */
  lemma ActionRaises(action: Option<string>)
    ensures ActionCode(action).None? <==> action.Some? && action.value != "" && AllSpace(StripQuotes(action.value))
  {
    if action.Some? {
      SplitWsEmpty(StripQuotes(action.value));
    }
  }

  /** `show T` switches to screen `T`. */
  lemma ActionShow(action: string)
    requires action != "" && |Tokens(action)| >= 2 && Tokens(action)[0] == "show"
    ensures ActionCode(Some(action)) == Some("command=lambda: show_screen('" + Tokens(action)[1] + "')")
  {
  }

  /** `eval_entry T` evaluates the entry `T`. */
  lemma ActionEvalEntry(action: string)
    requires action != "" && |Tokens(action)| >= 2 && Tokens(action)[0] == "eval_entry"
    ensures ActionCode(Some(action)) == Some("command=lambda: evaluate_entry('" + Tokens(action)[1] + "')")
  {
  }

  /** `quit` closes the window whatever follows it. */
  lemma ActionQuit(action: string)
    requires action != "" && Tokens(action) != [] && Tokens(action)[0] == "quit"
    ensures ActionCode(Some(action)) == Some(Destroy)
  {
  }

  /** A verb other than `quit` with no target, or any unknown verb, gives the no-op. */
  lemma ActionNoOp(action: string)
    requires action != "" && Tokens(action) != []
    requires var verb := Tokens(action)[0];
      verb != "quit" && (|Tokens(action)| == 1 || verb !in ["show", "set_entry", "append_entry", "eval_entry"])
    ensures ActionCode(Some(action)) == Some(NoOp)
  {
  }

  /** `set_entry` passes its value unquoted, or `""` when there is none. */
  lemma ActionSetEntry(action: string)
    requires action != "" && |Tokens(action)| >= 2 && Tokens(action)[0] == "set_entry"
    ensures var t := Tokens(action);
      ActionCode(Some(action)) ==
        Some("command=lambda: set_entry_text('" + t[1] + "', " + (if |t| > 2 then t[2] else "\"\"") + ")")
  {
  }

  /** `append_entry` quotes its value, and with no value it quotes the text `None`. */
  lemma ActionAppendEntry(action: string)
    requires action != "" && |Tokens(action)| >= 2 && Tokens(action)[0] == "append_entry"
    ensures var t := Tokens(action);
      ActionCode(Some(action)) ==
        Some("command=lambda: append_entry_text('" + t[1] + "', '" + (if |t| > 2 then t[2] else "None") + "')")
  {
  }

  /** Only the first three tokens decide the callback. */
  lemma ActionFirstThree(a: string, b: string)
    requires a != "" && b != ""
    requires |Tokens(a)| >= 3 && |Tokens(b)| >= 3 && Tokens(a)[..3] == Tokens(b)[..3]
    ensures ActionCode(Some(a)) == ActionCode(Some(b))
  {
    var ta, tb := Tokens(a), Tokens(b);
    assert ta[0] == ta[..3][0] && ta[1] == ta[..3][1] && ta[2] == ta[..3][2];
    assert tb[0] == tb[..3][0] && tb[1] == tb[..3][1] && tb[2] == tb[..3][2];
    assert TokenAt(ta, 1) == TokenAt(tb, 1) && TokenAt(ta, 2) == TokenAt(tb, 2);
    assert Callback(ta) == Callback(tb);
  }
}
