/** Shell quoting in the sandbox runner and, as its inverse, the token recognition of the
    POSIX.1-2017 Shell Command Language (sections 2.2 and 2.3) for text that needs no
    expansion. A command built by the runner is read back by a shell; a command quoted
    inside another command is read back by a second shell. */
module ShellQuoting {
  import opened Text

  // ---- The printer ----

  function ReplaceQuotes(value: string): string {
    if value == [] then ""
    else (if value[0] == '\'' then "'\"'\"'" else [value[0]]) + ReplaceQuotes(value[1..])
  }

  function ShQuote(value: string): string {
    if value == "" then "''" else "'" + ReplaceQuotes(value) + "'"
  }

  datatype Binding = Binding(key: string, value: string)

  predicate IsSafeEnvKey(key: string) {
    && key != ""
    && (forall c <- key :: 'A' <= c <= 'Z' || '0' <= c <= '9' || c == '_')
    && !Contains(key, "KEY")
    && !Contains(key, "TOKEN")
    && !Contains(key, "SECRET")
    && !Contains(key, "PASSWORD")
  }

  lemma ContainsIff(s: string, word: string)
    ensures Contains(s, word) <==> exists k: nat :: OccursAt(s, word, k)
  {
  }

  /** A safe key consists of capitals, digits and underscores, and none of the four words for secrets occurs in it
      anywhere. */
  lemma SafeKeyIff(key: string)
    ensures IsSafeEnvKey(key) <==>
            && key != "" && (forall c :: c in key ==> 'A' <= c <= 'Z' || '0' <= c <= '9' || c == '_')
            && forall k: nat ::
                 !OccursAt(key, "KEY", k) && !OccursAt(key, "TOKEN", k) && !OccursAt(key, "SECRET", k) && !OccursAt(key, "PASSWORD", k)
  {
    hide Contains, OccursAt;
    ContainsIff(key, "KEY");
    ContainsIff(key, "TOKEN");
    ContainsIff(key, "SECRET");
    ContainsIff(key, "PASSWORD");
  }

  /** The bindings that reach the remote environment, in map order. */
  function Kept(env: seq<Binding>): (r: seq<Binding>)
    ensures forall b <- r :: IsSafeEnvKey(b.key) && b in env
    ensures forall b <- env :: IsSafeEnvKey(b.key) ==> b in r
  {
    if env == [] then []
    else (if IsSafeEnvKey(env[0].key) then [env[0]] else []) + Kept(env[1..])
  }

  lemma UnfoldKept(env: seq<Binding>)
    requires env != []
    ensures Kept(env) == (if IsSafeEnvKey(env[0].key) then [env[0]] else []) + Kept(env[1..])
  {
    hide IsSafeEnvKey;
  }

  /** Exactly the safe bindings are kept, each as often as it stands there, and in order. */
  lemma {:induction false} KeptInOrder(a: seq<Binding>, b: seq<Binding>)
    ensures Kept(a + b) == Kept(a) + Kept(b)
    ensures |b| == 1 ==> Kept(b) == if IsSafeEnvKey(b[0].key) then b else []
  {
    hide Kept, IsSafeEnvKey;
    NothingKept();
    if |b| == 1 {
      UnfoldKept(b);
      assert b[1..] == [] && b == [b[0]];
    }
    if a == [] {
      assert a + b == b;
    } else {
      assert (a + b)[1..] == a[1..] + b;
      KeptInOrder(a[1..], b);
      UnfoldKept(a);
      UnfoldKept(a + b);
    }
  }

  lemma NothingKept()
    ensures Kept([]) == []
  {
  }

  function Assignments(kept: seq<Binding>): seq<string> {
    seq(|kept|, i requires 0 <= i < |kept| => kept[i].key + "=" + ShQuote(kept[i].value))
  }

  function EnvPrefix(env: seq<Binding>): string {
    if Kept(env) == [] then "" else "env " + (Join(Assignments(Kept(env)), " ") + " ")
  }

  function BashCall(command: string): string {
    "bash " + ("-lc " + ShQuote(command))
  }

  function RemoteCommand(cwd: string, env: seq<Binding>, command: string): string {
    "cd " + (ShQuote(cwd) + (" && " + (EnvPrefix(env) + BashCall(command))))
  }

  /** The guest side of a root upload; the host pipeline passes it on quoted once more. */
  function RemoteUnpack(mount: string): string {
    "mkdir " + ("-p " + (ShQuote(mount) + (" && " + ("tar " + ("-C " + (ShQuote(mount) + " -xf -"))))))
  }

  // ---- The lexer ----

  datatype Token = Word(text: string) | Operator(text: string)

  /** `Escape` follows a backslash outside quotes; `DoubleEscape` one inside double quotes. */
  datatype Mode = Plain | Escape | Single | Double | DoubleEscape | InOperator(op: string)

  /** `word` is the word in progress, if one has been started. `Stuck` is text the shell
      would reject or expand. */
  datatype LexState = Lexing(mode: Mode, word: seq<string>, tokens: seq<Token>) | Stuck

  const OPERATORS := {"&", "&&", "|", "||", ";", ";;", "<", "<<", "<&", "<>", "<<-", ">", ">>", ">&", ">|", "(", ")", "\n"}

  /** Characters that make the shell expand or drop text when they stand unquoted. */
  const EXPANDING := {'$', '`', '*', '?', '[', '#', '~', '!', '{', '}'}

  function Flush(word: seq<string>, tokens: seq<Token>): seq<Token> {
    if word == [] then tokens else tokens + [Word(word[0])]
  }

  function Grow(word: seq<string>, text: string): seq<string> {
    if word == [] then [text] else [word[0] + text]
  }

  function PlainStep(word: seq<string>, tokens: seq<Token>, c: char): LexState {
    if c == '\'' then Lexing(Single, Grow(word, ""), tokens)
    else if c == '"' then Lexing(Double, Grow(word, ""), tokens)
    else if c == '\\' then Lexing(Escape, word, tokens)
    else if c == ' ' || c == '\t' then Lexing(Plain, [], Flush(word, tokens))
    else if [c] in OPERATORS then Lexing(InOperator([c]), [], Flush(word, tokens))
    else if c in EXPANDING then Stuck
    else Lexing(Plain, Grow(word, [c]), tokens)
  }

  function Step(st: LexState, c: char): LexState {
    if st.Stuck? || c == '\0' then Stuck
    else
      match st.mode
      case Plain => PlainStep(st.word, st.tokens, c)
      case Escape => if c == '\n' then st.(mode := Plain) else st.(mode := Plain, word := Grow(st.word, [c]))
      case Single => if c == '\'' then st.(mode := Plain) else st.(word := Grow(st.word, [c]))
      case Double =>
        if c == '"' then st.(mode := Plain)
        else if c == '\\' then st.(mode := DoubleEscape)
        else if c == '$' || c == '`' then Stuck
        else st.(word := Grow(st.word, [c]))
      case DoubleEscape =>
        if c == '\n' then st.(mode := Double)
        else if c in {'$', '`', '"', '\\'} then st.(mode := Double, word := Grow(st.word, [c]))
        else st.(mode := Double, word := Grow(st.word, ['\\', c]))
      case InOperator(op) =>
        if op + [c] in OPERATORS then st.(mode := InOperator(op + [c]))
        else PlainStep([], st.tokens + [Operator(op)], c)
  }

  function Run(st: LexState, s: string): LexState
    decreases |s|
  {
    if s == "" then st else Run(Step(st, s[0]), s[1..])
  }

  const START := Lexing(Plain, [], [])

  /** The tokens of a complete command, or nothing if it ends inside a quotation or needs expansion. */
  function Lex(s: string): seq<Token> {
    match Run(START, s)
    case Lexing(Plain, word, tokens) => Flush(word, tokens)
    case Lexing(InOperator(op), _, tokens) => tokens + [Operator(op)]
    case _ => []
  }

  // ---- Compositional proofs ----

  lemma {:induction false} RunConcat(st: LexState, a: string, b: string)
    ensures Run(st, a + b) == Run(Run(st, a), b)
    decreases |a|
  {
    if a == "" {
      assert a + b == b;
    } else {
      assert (a + b)[1..] == a[1..] + b;
      RunConcat(Step(st, a[0]), a[1..], b);
    }
  }

  lemma {:induction false} RunStuck(s: string)
    ensures Run(Stuck, s) == Stuck
  {
    if s != "" { RunStuck(s[1..]); }
  }

  /** Inside single quotes the replaced text spells the value itself. */
  lemma {:induction false} RunReplaced(text: string, tokens: seq<Token>, value: string)
    ensures Run(Lexing(Single, [text], tokens), ReplaceQuotes(value)) ==
            if '\0' in value then Stuck else Lexing(Single, [text + value], tokens)
    decreases |value|
  {
    var st := Lexing(Single, [text], tokens);
    if value == "" {
      assert text + value == text;
    } else {
      var c, rest := value[0], value[1..];
      var head := if c == '\'' then "'\"'\"'" else [c];
      RunConcat(st, head, ReplaceQuotes(rest));
      if c == '\'' {
        RunOpenedQuote(text, tokens);
      } else {
        assert head[1..] == "";
        assert Run(st, head) == Step(st, c);
      }
      if c == '\0' {
        RunStuck(ReplaceQuotes(rest));
      } else {
        assert Run(st, head) == Lexing(Single, [text + [c]], tokens);
        RunReplaced(text + [c], tokens, rest);
        assert text + [c] + rest == text + value;
      }
    }
  }

  lemma RunOpenedQuote(text: string, tokens: seq<Token>)
    ensures Run(Lexing(Single, [text], tokens), "'\"'\"'") == Lexing(Single, [text + "'"], tokens)
  {
    var s0 := Lexing(Single, [text], tokens);
    var q := "'\"'\"'";
    assert text + "" == text;
    assert q[1..] == "\"'\"'" && q[1..][1..] == "'\"'" && q[1..][1..][1..] == "\"'" && q[1..][1..][1..][1..] == "'";
    var s1 := Step(s0, '\'');
    var s2 := Step(s1, '"');
    var s3 := Step(s2, '\'');
    var s4 := Step(s3, '"');
    var s5 := Step(s4, '\'');
    assert s5 == Lexing(Single, [text + "'"], tokens) by { assert text + "'" + "" == text + "'"; }
    calc {
      Run(s0, q);
      Run(s1, q[1..]);
      Run(s2, q[1..][1..]);
      Run(s3, q[1..][1..][1..]);
      Run(s4, q[1..][1..][1..][1..]);
      { assert q[1..][1..][1..][1..][1..] == ""; }
      s5;
    }
  }

  /** Wherever a quoted value stands, the lexer appends exactly the value to the word in progress. */
  lemma RunQuoted(word: seq<string>, tokens: seq<Token>, value: string)
    requires |word| <= 1
    ensures Run(Lexing(Plain, word, tokens), ShQuote(value)) ==
            if '\0' in value then Stuck else Lexing(Plain, Grow(word, value), tokens)
  {
    var st := Lexing(Plain, word, tokens);
    var text := Grow(word, "")[0];
    if word != [] { assert word[0] + "" == word[0]; }
    var body := ReplaceQuotes(value);
    assert ShQuote(value) == "'" + (body + "'");
    RunConcat(st, "'", body + "'");
    assert "'"[1..] == "";
    assert Run(st, "'") == Step(st, '\'') == Lexing(Single, [text], tokens);
    RunConcat(Lexing(Single, [text], tokens), body, "'");
    RunReplaced(text, tokens, value);
    if '\0' in value {
      RunStuck("'");
    } else {
      assert Run(Lexing(Single, [text + value], tokens), "'") == Lexing(Plain, [text + value], tokens);
      if word == [] { assert text + value == value; }
    }
  }

  /** Text without any character the shell treats specially. */
  predicate IsLiteral(s: string) {
    forall i :: 0 <= i < |s| ==> IsLiteralChar(s[i])
  }

  predicate IsLiteralChar(c: char) {
    c !in EXPANDING && [c] !in OPERATORS && c !in {'\'', '"', '\\', ' ', '\t', '\0'}
  }

  lemma {:induction false} RunLiteral(word: seq<string>, tokens: seq<Token>, s: string)
    requires |word| <= 1 && IsLiteral(s)
    ensures Run(Lexing(Plain, word, tokens), s) ==
            if s == "" then Lexing(Plain, word, tokens) else Lexing(Plain, Grow(word, s), tokens)
    decreases |s|
  {
    if s != "" {
      var c, rest := s[0], s[1..];
      assert Step(Lexing(Plain, word, tokens), c) == Lexing(Plain, Grow(word, [c]), tokens);
      RunLiteral(Grow(word, [c]), tokens, rest);
      assert [c] + rest == s;
      if word != [] { assert word[0] + [c] + rest == word[0] + s; }
      if rest == "" { assert s == [c]; }
    }
  }

  /** A literal and the blank after it complete the word in progress. */
  lemma RunWord(word: seq<string>, tokens: seq<Token>, s: string)
    requires |word| <= 1 && IsLiteral(s) && (s != "" || word != [])
    ensures Run(Lexing(Plain, word, tokens), s + " ") ==
            Lexing(Plain, [], tokens + [Word(if word == [] then s else word[0] + s)])
  {
    RunConcat(Lexing(Plain, word, tokens), s, " ");
    RunLiteral(word, tokens, s);
    if s == "" { assert word[0] + s == word[0]; }
    assert " "[1..] == "";
  }

  // ---- What a shell reads back ----

  lemma {:induction false} NulIsStuck(st: LexState, s: string)
    requires '\0' in s
    ensures Run(st, s) == Stuck
    decreases |s|
  {
    if s[0] == '\0' { RunStuck(s[1..]); } else { NulIsStuck(Step(st, s[0]), s[1..]); }
  }

  lemma {:induction false} ReplaceKeepsNul(value: string)
    requires '\0' in value
    ensures '\0' in ReplaceQuotes(value)
  {
    if value[0] != '\0' { ReplaceKeepsNul(value[1..]); }
  }

  /** Quoting round-trips through the shell for exactly the values that can be shell words at all. */
  lemma QuoteRoundTrip(value: string)
    ensures Lex(ShQuote(value)) == [Word(value)] <==> '\0' !in value
  {
    RunQuoted([], [], value);
  }

  function BindingWords(kept: seq<Binding>): seq<Token> {
    seq(|kept|, i requires 0 <= i < |kept| => Word(kept[i].key + "=" + kept[i].value))
  }

  function EnvWords(env: seq<Binding>): seq<Token> {
    if Kept(env) == [] then [] else [Word("env")] + BindingWords(Kept(env))
  }

  function RemoteTokens(cwd: string, env: seq<Binding>, command: string): seq<Token> {
    [Word("cd"), Word(cwd), Operator("&&")] + EnvWords(env) + [Word("bash"), Word("-lc"), Word(command)]
  }

  predicate NulFree(env: seq<Binding>) {
    forall i :: 0 <= i < |env| ==> '\0' !in env[i].value
  }

  lemma SafeKeyIsLiteral(key: string)
    requires IsSafeEnvKey(key)
    ensures IsLiteral(key + "=")
  {
    forall i | 0 <= i < |key + "="| ensures IsLiteralChar((key + "=")[i]) {
      if i < |key| { assert key[i] in key; }
    }
  }

  /** One binding is read back as one word. */
  lemma RunBinding(tokens: seq<Token>, b: Binding)
    requires IsSafeEnvKey(b.key) && '\0' !in b.value
    ensures Run(Lexing(Plain, [], tokens), b.key + "=" + ShQuote(b.value) + " ") ==
            Lexing(Plain, [], tokens + [Word(b.key + "=" + b.value)])
  {
    var name := b.key + "=";
    var st := Lexing(Plain, [], tokens);
    SafeKeyIsLiteral(b.key);
    assert name + ShQuote(b.value) + " " == name + (ShQuote(b.value) + " ");
    RunConcat(st, name, ShQuote(b.value) + " ");
    RunLiteral([], tokens, name);
    RunConcat(Lexing(Plain, [name], tokens), ShQuote(b.value), " ");
    RunQuoted([name], tokens, b.value);
    RunWord([name + b.value], tokens, "");
    assert "" + " " == " " && name + b.value + "" == name + b.value;
  }

  lemma {:induction false} RunBindings(tokens: seq<Token>, kept: seq<Binding>)
    requires kept != [] && NulFree(kept)
    requires forall b <- kept :: IsSafeEnvKey(b.key)
    ensures Run(Lexing(Plain, [], tokens), Join(Assignments(kept), " ") + " ") ==
            Lexing(Plain, [], tokens + BindingWords(kept))
    decreases |kept|
  {
    hide Run;
    hide Step;
    hide ShQuote;
    hide IsSafeEnvKey;
    hide Join;
    hide Assignments;
    var b, rest := kept[0], kept[1..];
    var word := Word(b.key + "=" + b.value);
    var first := b.key + "=" + ShQuote(b.value) + " ";
    assert b in kept;
    RunBinding(tokens, b);
    if rest == [] {
      AssignmentsOne(kept);
      assert BindingWords(kept) == [word];
    } else {
      AssignmentsCons(kept);
      var more := Join(Assignments(rest), " ") + " ";
      RunConcat(Lexing(Plain, [], tokens), first, more);
      RunBindings(tokens + [word], rest);
      assert tokens + [word] + BindingWords(rest) == tokens + BindingWords(kept);
    }
  }

  lemma AssignmentsOne(kept: seq<Binding>)
    requires |kept| == 1
    ensures Join(Assignments(kept), " ") + " " == kept[0].key + "=" + ShQuote(kept[0].value) + " "
  {
    assert Assignments(kept) == [kept[0].key + "=" + ShQuote(kept[0].value)];
  }

  lemma AssignmentsCons(kept: seq<Binding>)
    requires |kept| > 1
    ensures Join(Assignments(kept), " ") + " " ==
            kept[0].key + "=" + ShQuote(kept[0].value) + " " + (Join(Assignments(kept[1..]), " ") + " ")
  {
    hide ShQuote;
    var list := Assignments(kept);
    assert list[1..] == Assignments(kept[1..]);
    Reassociate(list[0], " ", Join(list[1..], " "), " ");
  }

  lemma Reassociate(a: string, b: string, c: string, d: string)
    ensures a + b + c + d == a + b + (c + d)
  {
  }

  lemma RunNothing(st: LexState)
    ensures Run(st, "") == st
  {
  }

  lemma RunEnvPrefix(tokens: seq<Token>, env: seq<Binding>)
    requires NulFree(Kept(env))
    ensures Run(Lexing(Plain, [], tokens), EnvPrefix(env)) == Lexing(Plain, [], tokens + EnvWords(env))
  {
    hide Run;
    hide Step;
    hide ShQuote;
    hide IsSafeEnvKey;
    hide Kept;
    hide Join;
    RunNothing(Lexing(Plain, [], tokens));
    if Kept(env) == [] {
      assert tokens + [] == tokens;
    } else {
      RunEnvCall(tokens, Kept(env));
      assert tokens + [Word("env")] + BindingWords(Kept(env)) == tokens + EnvWords(env);
    }
  }

  lemma RunEnvCall(tokens: seq<Token>, kept: seq<Binding>)
    requires kept != [] && NulFree(kept)
    requires forall b <- kept :: IsSafeEnvKey(b.key)
    ensures Run(Lexing(Plain, [], tokens), "env " + (Join(Assignments(kept), " ") + " ")) ==
            Lexing(Plain, [], tokens + [Word("env")] + BindingWords(kept))
  {
    hide Run;
    hide Step;
    hide ShQuote;
    RunFixed(tokens, "env", "env ", Join(Assignments(kept), " ") + " ");
    RunBindings(tokens + [Word("env")], kept);
  }

  /** A fixed word at the front of a command. */
  lemma RunFixed(tokens: seq<Token>, word: string, text: string, rest: string)
    requires IsLiteral(word) && word != "" && text == word + " "
    ensures Run(Lexing(Plain, [], tokens), text + rest) == Run(Lexing(Plain, [], tokens + [Word(word)]), rest)
  {
    hide Run;
    hide Step;
    RunConcat(Lexing(Plain, [], tokens), text, rest);
    RunWord([], tokens, word);
  }

  /** `&&` between blanks ends the word before it and stands alone. */
  lemma RunAnd(tokens: seq<Token>, word: string)
    ensures Run(Lexing(Plain, [word], tokens), " && ") ==
            Lexing(Plain, [], tokens + [Word(word), Operator("&&")])
  {
    var s := " && ";
    assert s[1..] == "&& " && s[1..][1..] == "& " && s[1..][1..][1..] == " " && s[1..][1..][1..][1..] == "";
    assert "&" + "&" == "&&" && "&&" + " " == "&& ";
    assert |"&& "| == 3 && "&& " !in OPERATORS;
    assert tokens + [Word(word)] + [Operator("&&")] == tokens + [Word(word), Operator("&&")];
    var st := Lexing(Plain, [word], tokens);
    var s1, s2 := Step(st, ' '), Step(Step(st, ' '), '&');
    assert s2 == Lexing(InOperator("&"), [], tokens + [Word(word)]);
    var s3 := Step(s2, '&');
    assert s3 == Lexing(InOperator("&&"), [], tokens + [Word(word)]);
    calc { Run(st, s); Run(s1, s[1..]); Run(s2, s[1..][1..]); Run(s3, s[1..][1..][1..]); Step(s3, ' '); }
  }

  /** The remote shell reads back the directory, each kept binding and the command, all
      unchanged and in place, for exactly the NUL-free requests. */
  lemma RemoteCommandRoundTrip(cwd: string, env: seq<Binding>, command: string)
    ensures Lex(RemoteCommand(cwd, env, command)) == RemoteTokens(cwd, env, command) <==>
            '\0' !in cwd && NulFree(Kept(env)) && '\0' !in command
  {
    if '\0' !in cwd && NulFree(Kept(env)) && '\0' !in command {
      RemoteCommandReads(cwd, env, command);
    } else {
      NulReachesCommand(cwd, env, command);
      NulIsStuck(START, RemoteCommand(cwd, env, command));
    }
  }

  lemma RemoteCommandReads(cwd: string, env: seq<Binding>, command: string)
    requires '\0' !in cwd && NulFree(Kept(env)) && '\0' !in command
    ensures Lex(RemoteCommand(cwd, env, command)) == RemoteTokens(cwd, env, command)
  {
    hide Run;
    hide Step;
    hide ShQuote;
    hide EnvPrefix;
    hide EnvWords;
    hide BashCall;
    var t0 := [Word("cd")];
    var t1 := t0 + [Word(cwd), Operator("&&")];
    var t2 := t1 + EnvWords(env);
    var rest := EnvPrefix(env) + BashCall(command);
    RunFixed([], "cd", "cd ", ShQuote(cwd) + (" && " + rest));
    assert [] + [Word("cd")] == t0;
    RunConcat(Lexing(Plain, [], t0), ShQuote(cwd), " && " + rest);
    RunQuoted([], t0, cwd);
    RunConcat(Lexing(Plain, [cwd], t0), " && ", rest);
    RunAnd(t0, cwd);
    RunConcat(Lexing(Plain, [], t1), EnvPrefix(env), BashCall(command));
    RunEnvPrefix(t1, env);
    RunBashCall(t2, command);
    assert t2 + [Word("bash"), Word("-lc"), Word(command)] == RemoteTokens(cwd, env, command);
  }

  lemma RunBashCall(tokens: seq<Token>, command: string)
    requires '\0' !in command
    ensures var st := Run(Lexing(Plain, [], tokens), BashCall(command));
            st == Lexing(Plain, [command], tokens + [Word("bash"), Word("-lc")]) &&
            Flush(st.word, st.tokens) == tokens + [Word("bash"), Word("-lc"), Word(command)]
  {
    hide Run;
    hide Step;
    hide ShQuote;
    RunFixed(tokens, "bash", "bash ", "-lc " + ShQuote(command));
    RunFixed(tokens + [Word("bash")], "-lc", "-lc ", ShQuote(command));
    RunQuoted([], tokens + [Word("bash")] + [Word("-lc")], command);
    assert tokens + [Word("bash")] + [Word("-lc")] == tokens + [Word("bash"), Word("-lc")];
  }

  lemma NulReachesCommand(cwd: string, env: seq<Binding>, command: string)
    requires '\0' in cwd || !NulFree(Kept(env)) || '\0' in command
    ensures '\0' in RemoteCommand(cwd, env, command)
  {
    hide ShQuote;
    if '\0' in cwd { QuoteKeepsNul(cwd); }
    if '\0' in command { QuoteKeepsNul(command); }
    if !NulFree(Kept(env)) { NulReachesBindings(Kept(env)); }
  }

  lemma {:induction false} NulReachesBindings(kept: seq<Binding>)
    requires !NulFree(kept)
    ensures '\0' in Join(Assignments(kept), " ")
    decreases |kept|
  {
    hide ShQuote;
    var list := Assignments(kept);
    if '\0' in kept[0].value {
      QuoteKeepsNul(kept[0].value);
      assert '\0' in list[0];
    } else {
      assert list[1..] == Assignments(kept[1..]);
      NulReachesBindings(kept[1..]);
    }
  }

  lemma QuoteKeepsNul(value: string)
    requires '\0' in value
    ensures '\0' in ShQuote(value)
  {
    ReplaceKeepsNul(value);
  }

  /** A second layer: whatever complete words and operators come first, the outer shell hands a
      quoted inner command over as one word, so the inner shell reads it as if it came unquoted. */
  lemma NestedCommand(prefix: string, before: seq<Token>, inner: string)
    requires Run(START, prefix) == Lexing(Plain, [], before)
    requires '\0' !in inner
    ensures Lex(prefix + ShQuote(inner)) == before + [Word(inner)]
  {
    RunConcat(START, prefix, ShQuote(inner));
    RunQuoted([], before, inner);
  }

  lemma ReadableIsNulFree(s: string)
    requires Lex(s) != []
    ensures '\0' !in s
  {
    if '\0' in s { NulIsStuck(START, s); }
  }

  /** The remote command survives a second layer of quoting. */
  lemma NestedRemoteCommand(prefix: string, before: seq<Token>, cwd: string, env: seq<Binding>, command: string)
    requires Run(START, prefix) == Lexing(Plain, [], before)
    requires '\0' !in cwd && NulFree(Kept(env)) && '\0' !in command
    ensures var outer := Lex(prefix + ShQuote(RemoteCommand(cwd, env, command)));
            |outer| == |before| + 1 && outer[..|before|] == before && outer[|before|].Word? &&
            Lex(outer[|before|].text) == RemoteTokens(cwd, env, command)
  {
    hide Run;
    hide Step;
    hide Lex;
    hide RemoteCommand;
    var remote := RemoteCommand(cwd, env, command);
    RemoteCommandReads(cwd, env, command);
    assert RemoteTokens(cwd, env, command)[0] == Word("cd");
    ReadableIsNulFree(remote);
    NestedCommand(prefix, before, remote);
  }

  /** The guest creates and unpacks into exactly the mount path, both times it is mentioned,
      also when the whole guest command went through the host shell first. */
  lemma NestedUnpack(prefix: string, before: seq<Token>, mount: string)
    requires Run(START, prefix) == Lexing(Plain, [], before)
    requires '\0' !in mount
    ensures var outer := Lex(prefix + ShQuote(RemoteUnpack(mount)));
            outer == before + [Word(RemoteUnpack(mount))]
    ensures Lex(RemoteUnpack(mount)) ==
            [Word("mkdir"), Word("-p"), Word(mount), Operator("&&"),
             Word("tar"), Word("-C"), Word(mount), Word("-xf"), Word("-")]
  {
    hide Run;
    hide Lex;
    hide RemoteUnpack;
    UnpackReads(mount);
    var inner := RemoteUnpack(mount);
    ReadableIsNulFree(inner);
    NestedCommand(prefix, before, inner);
  }

  lemma UnpackReads(mount: string)
    requires '\0' !in mount
    ensures Lex(RemoteUnpack(mount)) ==
            [Word("mkdir"), Word("-p"), Word(mount), Operator("&&"),
             Word("tar"), Word("-C"), Word(mount), Word("-xf"), Word("-")]
  {
    hide Run;
    hide Step;
    hide ShQuote;
    var second := "tar " + ("-C " + (ShQuote(mount) + " -xf -"));
    var t2 := [Word("mkdir"), Word("-p")];
    RunFixed([], "mkdir", "mkdir ", "-p " + (ShQuote(mount) + (" && " + second)));
    RunFixed([Word("mkdir")], "-p", "-p ", ShQuote(mount) + (" && " + second));
    assert [] + [Word("mkdir")] == [Word("mkdir")] && [Word("mkdir")] + [Word("-p")] == t2;
    RunConcat(Lexing(Plain, [], t2), ShQuote(mount), " && " + second);
    RunQuoted([], t2, mount);
    RunConcat(Lexing(Plain, [mount], t2), " && ", second);
    RunAnd(t2, mount);
    RunTar(t2 + [Word(mount), Operator("&&")], mount);
  }

  lemma RunTar(tokens: seq<Token>, mount: string)
    requires '\0' !in mount
    ensures Run(Lexing(Plain, [], tokens), "tar " + ("-C " + (ShQuote(mount) + " -xf -"))) ==
            Lexing(Plain, ["-"], tokens + [Word("tar"), Word("-C"), Word(mount), Word("-xf")])
  {
    hide Run;
    hide Step;
    hide ShQuote;
    var t2 := tokens + [Word("tar"), Word("-C")];
    RunFixed(tokens, "tar", "tar ", "-C " + (ShQuote(mount) + " -xf -"));
    RunFixed(tokens + [Word("tar")], "-C", "-C ", ShQuote(mount) + " -xf -");
    assert tokens + [Word("tar")] + [Word("-C")] == t2;
    RunConcat(Lexing(Plain, [], t2), ShQuote(mount), " -xf -");
    RunQuoted([], t2, mount);
    RunOptions(t2, mount);
    assert t2 + [Word(mount), Word("-xf")] == tokens + [Word("tar"), Word("-C"), Word(mount), Word("-xf")];
  }

  lemma RunOptions(tokens: seq<Token>, word: string)
    ensures Run(Lexing(Plain, [word], tokens), " -xf -") ==
            Lexing(Plain, ["-"], tokens + [Word(word), Word("-xf")])
  {
    hide Run;
    hide Step;
    var st := Lexing(Plain, [word], tokens);
    assert " -xf -" == ("" + " ") + ("-xf " + "-");
    RunConcat(st, "" + " ", "-xf " + "-");
    RunWord([word], tokens, "");
    assert word + "" == word;
    RunFixed(tokens + [Word(word)], "-xf", "-xf ", "-");
    RunLiteral([], tokens + [Word(word)] + [Word("-xf")], "-");
    assert tokens + [Word(word)] + [Word("-xf")] == tokens + [Word(word), Word("-xf")];
  }
}
