/**
 The part of Go's text/template that the manifest merger relies on, and the
 escaping that makes Helm output literal in it (hack/cilium-manifest/main.go).

 `Lex` splits a template into text, quoted strings and control actions, from
 left to right; `Exec` runs the tokens on a stack of open if-blocks. Only the
 actions the merger writes are understood, anything else is `Invalid`.
 */
module ManifestTemplate {
  import opened Options
  import opened Strings

  datatype Token = Text(text: string) | If(cond: string) | IfNot(cond: string) | Else | End | Invalid

  /** An open if-block: whether the branch being read is taken, and whether its else was seen. */
  datatype Frame = Frame(taken: bool, inElse: bool)

  // ---------------------------------------------------------------------------
  // Lexer
  // ---------------------------------------------------------------------------

  predicate IsAlphaNumeric(c: char) {
    'a' <= c <= 'z' || 'A' <= c <= 'Z' || '0' <= c <= '9'
  }

  /** A field of the template data, such as ".Talos". */
  predicate IsField(cond: string) {
    |cond| >= 2 && cond[0] == '.' && forall k :: 1 <= k < |cond| ==> IsAlphaNumeric(cond[k])
  }

  /** The first position of "}}" in s, or |s|. */
  function IndexClose(s: string): (n: nat)
    ensures n <= |s|
    ensures n < |s| ==> Closes(s[n..])
  {
    if s == "" || Closes(s) then 0 else IndexClose(s[1..]) + 1
  }

  predicate Opens(t: string) {
    |t| >= 2 && t[0] == '{' && t[1] == '{'
  }

  predicate OpensQuote(t: string) {
    |t| >= 3 && Opens(t) && t[2] == '\"'
  }

  predicate Closes(t: string) {
    |t| >= 2 && t[0] == '}' && t[1] == '}'
  }

  function ParseAction(s: string): Token {
    if s == " else " then Else
    else if s == " end " then End
    else if " if not " <= s && |s| > 8 && s[|s| - 1] == ' ' && IsField(s[8..|s| - 1]) then IfNot(s[8..|s| - 1])
    else if " if " <= s && |s| > 4 && s[|s| - 1] == ' ' && IsField(s[4..|s| - 1]) then If(s[4..|s| - 1])
    else Invalid
  }

  function Lex(t: string): seq<Token>
    decreases |t|
  {
    if t == "" then []
    else if OpensQuote(t) then
      var body := t[3..];
      var n := IndexChar(body, '\"');
      if n < |body| && '\\' !in body[..n] && '\n' !in body[..n] && Closes(body[n + 1..]) then
        [Text(body[..n])] + Lex(body[n + 3..])
      else
        [Invalid]
    else if Opens(t) then
      var body := t[2..];
      var n := IndexClose(body);
      if n < |body| then [ParseAction(body[..n])] + Lex(body[n + 2..]) else [Invalid]
    else
      [Text([t[0]])] + Lex(t[1..])
  }

  // ---------------------------------------------------------------------------
  // Interpreter
  // ---------------------------------------------------------------------------

  predicate Active(stack: seq<Frame>) {
    forall f <- stack :: f.taken
  }

  /** Text s in front of the result r: printed in an active block, dropped otherwise. */
  function Emit(s: string, stack: seq<Frame>, r: Option<string>): Option<string> {
    if r.Some? && Active(stack) then Some(s + r.value) else r
  }

  lemma EmitEmpty(stack: seq<Frame>, r: Option<string>)
    ensures Emit("", stack, r) == r
  {
    if r.Some? {
      assert "" + r.value == r.value;
    }
  }

  lemma EmitConcat(s: string, t: string, stack: seq<Frame>, r: Option<string>)
    ensures Emit(s, stack, Emit(t, stack, r)) == Emit(s + t, stack, r)
  {
    if r.Some? {
      assert s + (t + r.value) == (s + t) + r.value;
    }
  }

  /** What the tokens print, or None when the template is malformed. */
  function Exec(ts: seq<Token>, env: string -> bool, stack: seq<Frame>): Option<string>
    decreases |ts|
  {
    if ts == [] then (if stack == [] then Some("") else None)
    else
      match ts[0]
      case Text(s) => Emit(s, stack, Exec(ts[1..], env, stack))
      case If(c) => Exec(ts[1..], env, [Frame(env(c), false)] + stack)
      case IfNot(c) => Exec(ts[1..], env, [Frame(!env(c), false)] + stack)
      case Else =>
        if stack == [] || stack[0].inElse then None
        else Exec(ts[1..], env, [Frame(!stack[0].taken, true)] + stack[1..])
      case End => if stack == [] then None else Exec(ts[1..], env, stack[1..])
      case Invalid => None
  }

  function Run(t: string, env: string -> bool, stack: seq<Frame>): Option<string> {
    Exec(Lex(t), env, stack)
  }

  /** Executes a whole template. */
  function Render(t: string, env: string -> bool): Option<string> {
    Run(t, env, [])
  }

  // ---------------------------------------------------------------------------
  // Escaping
  // ---------------------------------------------------------------------------

  predicate IsBrace(c: char) {
    c == '{' || c == '}'
  }

  /** The length of the brace run a line starts with. */
  function RunLength(l: string): (n: nat)
    ensures n <= |l|
    ensures forall k :: 0 <= k < n ==> IsBrace(l[k])
    ensures n < |l| ==> !IsBrace(l[n])
  {
    if l == "" || !IsBrace(l[0]) then 0 else RunLength(l[1..]) + 1
  }

  /** Text that a brace run or an action may follow without joining it. */
  predicate StartsPlain(t: string) {
    t == "" || !IsBrace(t[0])
  }

  /** p is one piece of a line that goes on with `rest`. */
  predicate IsPiece(p: string, rest: string) {
    (|p| == 1 && !IsBrace(p[0])) || ((forall c <- p :: IsBrace(c)) && StartsPlain(rest))
  }

  predicate DoubleAt(s: string, k: int) {
    0 <= k < |s| - 1 && IsBrace(s[k]) && s[k] == s[k + 1]
  }

  /** The run contains "{{" or "}}". */
  predicate HasDouble(run: string) {
    exists k :: 0 <= k < |run| && DoubleAt(run, k)
  }

  /** A brace run as it is written in the template. */
  function EscapeRun(run: string): string {
    if HasDouble(run) then "{{\"" + run + "\"}}" else run
  }

  /** A line is read in pieces: a maximal brace run, or one other character. */
  function PieceLength(l: string): (n: nat)
    requires l != ""
    ensures 0 < n <= |l|
    ensures IsPiece(l[..n], l[n..])
  {
    if IsBrace(l[0]) then RunLength(l) else 1
  }

  function EscapeLine(l: string): string {
    if l == "" then "" else EscapeRun(l[..PieceLength(l)]) + EscapeLine(l[PieceLength(l)..])
  }

  function EscapeLines(ls: seq<string>): (out: seq<string>)
    ensures |out| == |ls|
    ensures forall i :: 0 <= i < |ls| ==> out[i] == EscapeLine(ls[i])
  {
    seq(|ls|, i requires 0 <= i < |ls| => EscapeLine(ls[i]))
  }

  /** The `escape` of main.go:366-377. */
  method Escape(ls: seq<string>) returns (out: array<string>)
    ensures fresh(out) && out[..] == EscapeLines(ls)
  {
    out := new string[|ls|](i => "");
    for i := 0 to |ls|
      invariant forall k :: 0 <= k < i ==> out[k] == EscapeLine(ls[k])
    {
      out[i] := EscapeLine(ls[i]);
    }
  }

  lemma EscapeLineStart(l: string, rest: string)
    requires StartsPlain(l) && StartsPlain(rest)
    ensures StartsPlain(EscapeLine(l) + rest)
  {
  }

  /** A character that opens no action is printed. */
  lemma RunChar(c: char, rest: string, env: string -> bool, stack: seq<Frame>)
    requires !Opens([c] + rest)
    ensures Run([c] + rest, env, stack) == Emit([c], stack, Run(rest, env, stack))
  {
  }

  lemma NoDoubleInTail(run: string)
    requires run != "" && !HasDouble(run)
    ensures !HasDouble(run[1..])
  {
    if HasDouble(run[1..]) {
      var k :| 0 <= k < |run[1..]| && DoubleAt(run[1..], k);
      assert DoubleAt(run, k + 1);
    }
  }

  /** A run without a double brace is plain text. */
  lemma {:induction false} RunPlain(run: string, rest: string, env: string -> bool, stack: seq<Frame>)
    requires !HasDouble(run) && StartsPlain(rest)
    ensures Run(run + rest, env, stack) == Emit(run, stack, Run(rest, env, stack))
  {
    if run == "" {
      assert run + rest == rest;
      EmitEmpty(stack, Run(rest, env, stack));
    } else {
      var tail := run[1..] + rest;
      assert run + rest == [run[0]] + tail;
      if |run| > 1 {
        assert !DoubleAt(run, 0);
      }
      NoDoubleInTail(run);
      RunPlain(run[1..], rest, env, stack);
      RunChar(run[0], tail, env, stack);
      EmitConcat([run[0]], run[1..], stack, Run(rest, env, stack));
      assert [run[0]] + run[1..] == run;
    }
  }

  lemma {:induction false} IndexCharSkips(s: string, c: char, rest: string)
    requires c !in s
    ensures IndexChar(s + [c] + rest, c) == |s|
  {
    if s == "" {
    } else {
      IndexCharSkips(s[1..], c, rest);
      assert (s + [c] + rest)[1..] == s[1..] + [c] + rest;
    }
  }

  lemma QuotedParts(run: string, rest: string)
    ensures var t := "{{\"" + run + "\"}}" + rest;
            && OpensQuote(t)
            && t[3..] == run + ['\"'] + ("}}" + rest)
            && t[3..][..|run|] == run
            && Closes(t[3..][|run| + 1..])
            && t[3..][|run| + 3..] == rest
  {
  }

  /** A quoted brace run is one literal. */
  lemma RunQuoted(run: string, rest: string, env: string -> bool, stack: seq<Frame>)
    requires forall c <- run :: IsBrace(c)
    ensures Run("{{\"" + run + "\"}}" + rest, env, stack) == Emit(run, stack, Run(rest, env, stack))
  {
    QuotedParts(run, rest);
    IndexCharSkips(run, '\"', "}}" + rest);
    assert Lex("{{\"" + run + "\"}}" + rest) == [Text(run)] + Lex(rest);
  }

  /** A piece, as it is written in the template, prints the piece. */
  lemma RunPiece(p: string, rest: string, env: string -> bool, stack: seq<Frame>)
    requires IsPiece(p, rest)
    ensures Run(EscapeRun(p) + rest, env, stack) == Emit(p, stack, Run(rest, env, stack))
  {
    if |p| == 1 && !IsBrace(p[0]) {
      RunChar(p[0], rest, env, stack);
      assert [p[0]] == p;
    } else if HasDouble(p) {
      RunQuoted(p, rest, env, stack);
    } else {
      RunPlain(p, rest, env, stack);
    }
  }

  /** Whatever follows it, an escaped line prints the line. */
  lemma {:induction false} RunEscaped(l: string, rest: string, env: string -> bool, stack: seq<Frame>)
    requires StartsPlain(rest)
    ensures Run(EscapeLine(l) + rest, env, stack) == Emit(l, stack, Run(rest, env, stack))
    decreases |l|
  {
    var r := Run(rest, env, stack);
    if l == "" {
      assert EscapeLine(l) + rest == rest;
      EmitEmpty(stack, r);
    } else {
      var p, tail := l[..PieceLength(l)], l[PieceLength(l)..];
      assert p + tail == l;
      var after := EscapeLine(tail) + rest;
      RunEscaped(tail, rest, env, stack);
      if StartsPlain(tail) {
        EscapeLineStart(tail, rest);
      }
      assert EscapeLine(l) + rest == EscapeRun(p) + after;
      RunPiece(p, after, env, stack);
      EmitConcat(p, tail, stack, r);
    }
  }

  /** The positions of an escaped line that belong to an inserted quoted-string action. */
  function Inserted(l: string): (mask: seq<bool>)
    ensures |mask| == |EscapeLine(l)|
  {
    if l == "" then []
    else
      var n := PieceLength(l);
      seq(|EscapeRun(l[..n])|, _ => HasDouble(l[..n])) + Inserted(l[n..])
  }

  /** No delimiter is left outside the inserted actions, not even across their borders. */
  lemma {:induction false} NoDelimiterOutside(l: string, k: nat)
    requires k + 1 < |EscapeLine(l)|
    requires EscapeLine(l)[k] == EscapeLine(l)[k + 1] == '{' || EscapeLine(l)[k] == EscapeLine(l)[k + 1] == '}'
    ensures Inserted(l)[k] && Inserted(l)[k + 1]
    decreases |l|
  {
    var n := PieceLength(l);
    var p, tail := l[..n], EscapeLine(l[n..]);
    var head := EscapeRun(p);
    if k >= |head| {
      assert DoubleAt(tail, k - |head|);
      NoDelimiterOutside(l[n..], k - |head|);
    } else if k + 1 < |head| {
      if !HasDouble(p) {
        assert DoubleAt(p, k);
      }
    } else {
      EscapeLineStart(l[n..], "");
      assert false;
    }
  }

  /**
   Escaping, piece by piece: other characters and brace runs without "{{" or "}}"
   stay as they are, a run with one becomes a quoted string action.
   */
  lemma EscapeExactly(c: char, run: string, rest: string)
    requires c != '{' && c != '}'
    requires run != "" && (forall d <- run :: d == '{' || d == '}') && (rest == "" || rest[0] !in "{}")
    ensures EscapeLine("") == "" && EscapeLine([c] + rest) == [c] + EscapeLine(rest)
    ensures EscapeLine(run + rest)
         == (if Contains(run, "{{") || Contains(run, "}}") then "{{\"" + run + "\"}}" else run) + EscapeLine(rest)
    ensures Inserted("") == [] && Inserted([c] + rest) == [false] + Inserted(rest)
    ensures Inserted(run + rest)
         == seq(|EscapeRun(run)|, _ => Contains(run, "{{") || Contains(run, "}}")) + Inserted(rest)
  {
    assert ([c] + rest)[..1] == [c] && ([c] + rest)[1..] == rest;
    NoDoubleInOne(c);
    WholeRun(run, rest);
    assert (run + rest)[..|run|] == run && (run + rest)[|run|..] == rest;
    DoubleExactly(run);
  }

  lemma NoDoubleInOne(c: char)
    ensures !HasDouble([c])
  {
  }

  lemma {:induction false} WholeRun(run: string, rest: string)
    requires (forall d <- run :: IsBrace(d)) && (rest == "" || !IsBrace(rest[0]))
    ensures RunLength(run + rest) == |run|
  {
    if run != "" {
      assert (run + rest)[1..] == run[1..] + rest;
      WholeRun(run[1..], rest);
    } else {
      assert run + rest == rest;
    }
  }

  lemma DoubleExactly(run: string)
    requires forall d <- run :: d == '{' || d == '}'
    ensures HasDouble(run) <==> Contains(run, "{{") || Contains(run, "}}")
  {
    forall k | 0 <= k < |run| && DoubleAt(run, k) ensures PartAt(run, "{{", k) || PartAt(run, "}}", k) {
      assert run[k..k + 2] == [run[k], run[k + 1]];
    }
    forall k | 0 <= k <= |run| && (PartAt(run, "{{", k) || PartAt(run, "}}", k)) ensures DoubleAt(run, k) {
      assert run[k..k + 2] == [run[k], run[k + 1]];
    }
  }

  /** The conditions the tool uses are fields, and so is a dot in front of any letters and digits. */
  lemma ConditionsAreFields(name: string)
    requires name != "" && forall c <- name :: 'a' <= c <= 'z' || 'A' <= c <= 'Z' || '0' <= c <= '9'
    ensures IsField("." + name) && IsField(".Talos") && IsField(".KubeProxyReplacement")
  {
    var cond := "." + name;
    forall k | 1 <= k < |cond| ensures IsAlphaNumeric(cond[k]) {
      assert cond[k] == name[k - 1] && name[k - 1] in name;
    }
  }

  /** A block inside another prints when both conditions hold. */
  lemma NestedBlocks(c: string, d: string, l: string, env: string -> bool)
    requires IsField(c) && IsField(d)
    ensures Render(IfAction(c) + (IfAction(d) + (EscapeLine(l) + "\n" + (END_ACTION + (END_ACTION + "")))), env)
         == Some(if env(c) && env(d) then l + "\n" else "")
  {
    var f, g := Frame(env(c), false), Frame(env(d), false);
    RunIf(c, IfAction(d) + (EscapeLine(l) + "\n" + (END_ACTION + (END_ACTION + ""))), env, []);
    RunIf(d, EscapeLine(l) + "\n" + (END_ACTION + (END_ACTION + "")), env, [f]);
    assert [f] + [] == [f] && [g] + [f] == [g, f] && [g, f][1..] == [f] && [f][1..] == [];
    RunLine(l, END_ACTION + (END_ACTION + ""), env, [g, f]);
    RunEnd(END_ACTION + "", env, [g, f]);
    RunEnd("", env, [f]);
    assert l + "\n" + "" == l + "\n";
  }

  /** A block that is not closed is an error. */
  lemma UnclosedBlock(cond: string, env: string -> bool)
    requires IsField(cond)
    ensures Render("{{ if " + cond + " }}", env) == None && Render("{{ if not " + cond + " }}", env) == None
  {
    RunIf(cond, "", env, []);
    RunIfNot(cond, "", env, []);
    assert IfAction(cond) + "" == IfAction(cond) && IfNotAction(cond) + "" == IfNotAction(cond);
  }

  /** So is an end without a block. */
  lemma StrayEnd(rest: string, env: string -> bool)
    ensures Render("{{ end }}" + rest, env) == None
  {
    assert END_ACTION + rest == "{{" + " end " + "}}" + rest;
    LexAction(" end ", rest);
  }

  /** And an else without a block. */
  lemma StrayElse(rest: string, env: string -> bool)
    ensures Render("{{ else }}" + rest, env) == None
  {
    assert ELSE_ACTION + rest == "{{" + " else " + "}}" + rest;
    LexAction(" else ", rest);
  }

  /** With an action in front, only that action and the inserted ones open, even when the line starts with braces. */
  lemma NoOtherOpening(action: string, l: string, k: nat)
    requires '{' !in action && k < |"{{" + action + "}}" + EscapeLine(l)|
    requires Opens(("{{" + action + "}}" + EscapeLine(l))[k..])
    ensures k == 0 || (k >= |action| + 4 && k - |action| - 3 < |Inserted(l)|
                       && Inserted(l)[k - |action| - 4] && Inserted(l)[k - |action| - 3])
  {
    var t, n := "{{" + action + "}}" + EscapeLine(l), |action| + 4;
    assert t[k] == '{' && t[k + 1] == '{';
    assert forall i :: 2 <= i < n - 2 ==> t[i] == action[i - 2];
    assert k == 0 || k >= n;
    if k >= n {
      assert EscapeLine(l)[k - n] == t[k] && EscapeLine(l)[k - n + 1] == t[k + 1];
      NoDelimiterOutside(l, k - n);
    }
  }

  /** As a template of its own, an escaped line prints the line, whatever the data. */
  lemma EscapeRoundTrip(l: string, env: string -> bool)
    ensures Render(EscapeLine(l), env) == Some(l)
  {
    RunEscaped(l, "", env, []);
    assert EscapeLine(l) + "" == EscapeLine(l) && l + "" == l;
  }

  // ---------------------------------------------------------------------------
  // Lines and actions in front of the rest of a template
  // ---------------------------------------------------------------------------

  /** An escaped line with its newline prints exactly that, in an active block. */
  lemma RunLine(l: string, rest: string, env: string -> bool, stack: seq<Frame>)
    ensures Run(EscapeLine(l) + "\n" + rest, env, stack) == Emit(l + "\n", stack, Run(rest, env, stack))
  {
    var tail := ['\n'] + rest;
    assert EscapeLine(l) + "\n" + rest == EscapeLine(l) + tail;
    RunEscaped(l, tail, env, stack);
    RunChar('\n', rest, env, stack);
    EmitConcat(l, "\n", stack, Run(rest, env, stack));
  }

  lemma {:induction false} IndexCloseSkips(s: string, rest: string)
    requires '}' !in s
    ensures IndexClose(s + "}}" + rest) == |s|
  {
    var t := s + "}}" + rest;
    if s == "" {
      assert t[..2] == "}}";
    } else {
      IndexCloseSkips(s[1..], rest);
      assert t[1..] == s[1..] + "}}" + rest;
      assert t[0] != '}';
    }
  }

  /** An action is lexed up to its closing delimiter, even when a brace follows it. */
  lemma LexAction(s: string, rest: string)
    requires s != "" && s[0] == ' ' && '}' !in s
    ensures Lex("{{" + s + "}}" + rest) == [ParseAction(s)] + Lex(rest)
  {
    var t := "{{" + s + "}}" + rest;
    assert t[..2] == "{{" && t[2] == ' ';
    var body := t[2..];
    assert body == s + "}}" + rest;
    IndexCloseSkips(s, rest);
    assert body[..|s|] == s && body[|s| + 2..] == rest;
  }

  function IfAction(c: string): string { "{{ if " + c + " }}" }

  function IfNotAction(c: string): string { "{{ if not " + c + " }}" }

  const ELSE_ACTION := "{{ else }}"

  const END_ACTION := "{{ end }}"

  lemma RunIf(c: string, rest: string, env: string -> bool, stack: seq<Frame>)
    requires IsField(c)
    ensures Run(IfAction(c) + rest, env, stack) == Run(rest, env, [Frame(env(c), false)] + stack)
  {
    var s := " if " + c + " ";
    assert s[4..|s| - 1] == c && s[4] == '.' && s[..4] == " if ";
    assert IfAction(c) + rest == "{{" + s + "}}" + rest;
    assert s != " else " && s != " end " by { assert s[1] == 'i'; }
    LexAction(s, rest);
  }

  lemma RunIfNot(c: string, rest: string, env: string -> bool, stack: seq<Frame>)
    requires IsField(c)
    ensures Run(IfNotAction(c) + rest, env, stack) == Run(rest, env, [Frame(!env(c), false)] + stack)
  {
    var s := " if not " + c + " ";
    assert s[8..|s| - 1] == c && s[..8] == " if not ";
    assert IfNotAction(c) + rest == "{{" + s + "}}" + rest;
    assert s != " else " && s != " end " by { assert s[1] == 'i'; }
    LexAction(s, rest);
  }

  lemma RunElse(rest: string, env: string -> bool, stack: seq<Frame>)
    requires stack != [] && !stack[0].inElse
    ensures Run(ELSE_ACTION + rest, env, stack)
         == Run(rest, env, [Frame(!stack[0].taken, true)] + stack[1..])
  {
    assert ELSE_ACTION + rest == "{{" + " else " + "}}" + rest;
    LexAction(" else ", rest);
  }

  lemma RunEnd(rest: string, env: string -> bool, stack: seq<Frame>)
    requires stack != []
    ensures Run(END_ACTION + rest, env, stack) == Run(rest, env, stack[1..])
  {
    assert END_ACTION + rest == "{{" + " end " + "}}" + rest;
    LexAction(" end ", rest);
  }
}
