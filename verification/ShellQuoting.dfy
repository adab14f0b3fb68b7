/** ShellJoin, shellQuote and the sourced env file, against the quoting and token rules of the POSIX shell. */
module ShellQuoting {
  import opened Common

  // ---------------------------------------------------------------- printing

  /** strings.ReplaceAll(argument, "'", `'"'"'`). */
  function Escape(argument: string): string {
    if argument == "" then ""
    else (if argument[0] == '\'' then "'\"'\"'" else [argument[0]]) + Escape(argument[1..])
  }

  function ShellQuote(argument: string): string {
    "'" + Escape(argument) + "'"
  }

  /** The quoted arguments separated by single spaces. */
  function Joined(arguments: seq<string>): string
    requires arguments != []
  {
    if |arguments| == 1 then ShellQuote(arguments[0])
    else Joined(arguments[..|arguments| - 1]) + " " + ShellQuote(arguments[|arguments| - 1])
  }

  // ---------------------------------------------------------------- reading (sections 2.2 and 2.3 of POSIX.1-2017 XCU)

  /** Escaped and DoubleEscaped: right after a backslash, outside quotes and inside double quotes. */
  datatype Mode = Plain | Single | Double | Escaped | DoubleEscaped

  /**
   * The lexer: the token being built and whether none of it was quoted so far, the words of the current
   * command, and the finished commands.
   */
  datatype Lexer = Lexer(mode: Mode, token: Option<string>, bare: bool, words: seq<string>, commands: seq<seq<string>>)

  const START := Lexer(Plain, None, true, [], [])

  /** Words that are not a command name when they stand unquoted where one is expected (section 2.4). */
  const RESERVED := {"case", "do", "done", "elif", "else", "esac", "fi", "for", "if", "then", "until", "while"}

  /** Unquoted characters that always stand for themselves; what is not listed is refused, so nothing expands. */
  predicate Ordinary(c: char) {
    'a' <= c <= 'z' || 'A' <= c <= 'Z' || '0' <= c <= '9' || c == '_' || c in "-/.,:@%+^"
  }

  function Token(st: Lexer): string {
    if st.token.Some? then st.token.value else ""
  }

  function Put(st: Lexer, c: char): Lexer {
    st.(token := Some(Token(st) + [c]))
  }

  function EndWord(st: Lexer): Option<Lexer> {
    if st.token.None? then Some(st)
    else if st.words == [] && st.bare && st.token.value in RESERVED then None
    else Some(st.(token := None, bare := true, words := st.words + [st.token.value]))
  }

  function EndCommand(st: Lexer): Option<Lexer> {
    var e := EndWord(st);
    if e.None? || e.value.words == [] then e
    else Some(e.value.(words := [], commands := e.value.commands + [e.value.words]))
  }

  function Open(st: Lexer, mode: Mode): Lexer {
    st.(mode := mode, token := Some(Token(st)), bare := false)
  }

  /** An unquoted equals sign before the command name would be an assignment (section 2.9.1), and is refused. */
  function Step(st: Lexer, c: char): Option<Lexer> {
    if c == '\0' then None
    else match st.mode
    case Plain =>
      if c == '\'' then Some(Open(st, Single))
      else if c == '"' then Some(Open(st, Double))
      else if c == ' ' || c == '\t' then EndWord(st)
      else if c == '\n' then EndCommand(st)
      else if c == '\\' then Some(st.(mode := Escaped))
      else if Ordinary(c) || (c == '=' && st.words != []) then Some(Put(st, c))
      else None
    case Single =>
      if c == '\'' then Some(st.(mode := Plain)) else Some(Put(st, c))
    case Double =>
      if c == '"' then Some(st.(mode := Plain))
      else if c == '$' || c == '`' then None
      else if c == '\\' then Some(st.(mode := DoubleEscaped))
      else Some(Put(st, c))
    case Escaped =>
      // A backslash and a newline are a line continuation; any other character is taken as it is.
      if c == '\n' then Some(st.(mode := Plain)) else Some(Put(Open(st, Plain), c))
    case DoubleEscaped =>
      if c == '\n' then Some(st.(mode := Double))
      else if c in "$`\"\\" then Some(Put(st.(mode := Double), c))
      else Some(Put(Put(st.(mode := Double), '\\'), c))
  }

  function Lex(st: Option<Lexer>, text: string): Option<Lexer>
    decreases |text|
  {
    if text == "" || st.None? then st else Lex(Step(st.value, text[0]), text[1..])
  }

  /** The commands of a script, each a list of words after quote removal; None for anything this reader refuses. */
  function Parse(text: string): Option<seq<seq<string>>> {
    var end := Lex(Some(START), text);
    if end.None? || !end.value.mode.Plain? then None
    else match EndCommand(end.value) case None => None case Some(e) => Some(e.commands)
  }

  lemma {:induction false} LexAppend(st: Option<Lexer>, a: string, b: string)
    ensures Lex(st, a + b) == Lex(Lex(st, a), b)
    decreases |a|
  {
    if a == "" {
      assert a + b == b;
    } else if st.Some? {
      LexAppend(Step(st.value, a[0]), a[1..], b);
      assert (a + b)[1..] == a[1..] + b;
    }
  }

  lemma LexOne(st: Lexer, c: char)
    ensures Lex(Some(st), [c]) == Step(st, c)
  {
    assert [c][1..] == "";
  }

  // ---------------------------------------------------------------- the round trips

  predicate NulFree(s: string) { '\0' !in s }

  /** Closing the quote, a double-quoted single quote, and reopening adds exactly one single quote. */
  lemma EscapedQuote(st: Lexer)
    requires st.mode.Single? && !st.bare
    ensures Lex(Some(st), "'\"'\"'") == Some(Put(st, '\''))
  {
    var s1 := st.(mode := Plain);
    var s2 := s1.(mode := Double, token := Some(Token(st)));
    var s3 := Put(s2, '\'');
    var s4 := s3.(mode := Plain);
    LexOne(st, '\'');
    LexAppend(Some(st), "'", "\"");
    LexOne(s1, '"');
    LexAppend(Some(st), "'\"", "'");
    LexOne(s2, '\'');
    LexAppend(Some(st), "'\"'", "\"");
    LexOne(s3, '"');
    LexAppend(Some(st), "'\"'\"", "'");
    LexOne(s4, '\'');
    assert "'\"'\"'" == "'\"'\"" + "'" && "'\"'\"" == "'\"'" + "\"" && "'\"'" == "'\"" + "'" && "'\"" == "'" + "\"";
  }

  lemma {:induction false} EscapeReadsBack(st: Lexer, argument: string)
    requires st.mode.Single? && st.token.Some? && !st.bare
    ensures Lex(Some(st), Escape(argument)) ==
            if NulFree(argument) then Some(st.(token := Some(st.token.value + argument))) else None
    decreases |argument|
  {
    if argument == "" {
      assert st.token.value + argument == st.token.value;
    } else {
      var c, rest := argument[0], argument[1..];
      var head := if c == '\'' then "'\"'\"'" else [c];
      LexAppend(Some(st), head, Escape(rest));
      if c == '\'' { EscapedQuote(st); } else { LexOne(st, c); }
      if c != '\0' {
        EscapeReadsBack(Put(st, c), rest);
        assert st.token.value + [c] + rest == st.token.value + argument;
      }
      assert argument == [c] + rest;
    }
  }

  /** A quoted argument adds exactly its characters to the current word, and fails exactly on a NUL. */
  lemma QuoteReadsBack(st: Lexer, argument: string)
    requires st.mode.Plain?
    ensures Lex(Some(st), ShellQuote(argument)) ==
            if NulFree(argument) then Some(st.(token := Some(Token(st) + argument), bare := false)) else None
  {
    var open := Open(st, Single);
    LexAppend(Some(st), "'" + Escape(argument), "'");
    LexAppend(Some(st), "'", Escape(argument));
    LexOne(st, '\'');
    EscapeReadsBack(open, argument);
    if NulFree(argument) { LexOne(open.(token := Some(Token(st) + argument)), '\''); }
  }

  ghost predicate AllNulFree(arguments: seq<string>) {
    forall a <- arguments :: NulFree(a)
  }

  /** A blank after the last word and one more quoted argument. */
  lemma NextWord(front: seq<string>, last: string)
    requires front != []
    ensures var st := Lex(Some(Lexer(Plain, Some(front[|front| - 1]), false, front[..|front| - 1], [])), " ");
            Lex(st, ShellQuote(last)) == if NulFree(last) then Some(Lexer(Plain, Some(last), false, front, [])) else None
  {
    LexOne(Lexer(Plain, Some(front[|front| - 1]), false, front[..|front| - 1], []), ' ');
    assert front[..|front| - 1] + [front[|front| - 1]] == front;
    QuoteReadsBack(Lexer(Plain, None, true, front, []), last);
    assert "" + last == last;
  }

  lemma {:induction false} JoinedLexes(arguments: seq<string>)
    requires arguments != []
    ensures Lex(Some(START), Joined(arguments)) ==
            if AllNulFree(arguments)
            then Some(Lexer(Plain, Some(arguments[|arguments| - 1]), false, arguments[..|arguments| - 1], []))
            else None
  {
    var last := arguments[|arguments| - 1];
    if |arguments| == 1 {
      QuoteReadsBack(START, last);
      assert "" + last == last;
      assert arguments[..0] == [];
    } else {
      var front := arguments[..|arguments| - 1];
      JoinedLexes(front);
      assert arguments == front + [last];
      LexAppend(Some(START), Joined(front) + " ", ShellQuote(last));
      LexAppend(Some(START), Joined(front), " ");
      if AllNulFree(front) { NextWord(front, last); }
    }
  }

  /** Splitting the joined command gives back exactly the arguments; it fails exactly if one of them holds a NUL. */
  lemma JoinRoundTrip(arguments: seq<string>)
    requires arguments != []
    ensures Parse(Joined(arguments)) == if AllNulFree(arguments) then Some([arguments]) else None
  {
    JoinedLexes(arguments);
    assert arguments[..|arguments| - 1] + [arguments[|arguments| - 1]] == arguments;
    assert [] + [arguments] == [arguments];
  }

  // ---------------------------------------------------------------- the loops of the source

  datatype Joining = Command(text: string) | EmptyCommand

  /** The quoted arguments, in order. */
  function Quoted(arguments: seq<string>): seq<string> {
    seq(|arguments|, i requires 0 <= i < |arguments| => ShellQuote(arguments[i]))
  }

  /** strings.Join. */
  function Join(parts: seq<string>, separator: string): string {
    if parts == [] then ""
    else if |parts| == 1 then parts[0]
    else Join(parts[..|parts| - 1], separator) + separator + parts[|parts| - 1]
  }

  lemma {:induction false} JoinOfQuoted(arguments: seq<string>)
    requires arguments != []
    ensures Join(Quoted(arguments), " ") == Joined(arguments)
  {
    if |arguments| > 1 {
      var front := arguments[..|arguments| - 1];
      JoinOfQuoted(front);
      assert Quoted(arguments)[..|arguments| - 1] == Quoted(front);
    }
  }

  /** Fails exactly on an empty argument list; otherwise a shell reads the text back as exactly the arguments. */
  method ShellJoin(arguments: seq<string>) returns (r: Joining)
    ensures r.EmptyCommand? <==> arguments == []
    ensures r.Command? ==> Parse(r.text) == if AllNulFree(arguments) then Some([arguments]) else None
  {
    if |arguments| == 0 { return EmptyCommand; }
    var quoted := new string[|arguments|](_ => "");
    for i := 0 to |arguments|
      invariant forall k :: 0 <= k < i ==> quoted[k] == ShellQuote(arguments[k])
    {
      if arguments[i] == "" {
        quoted[i] := "''";
      } else {
        quoted[i] := ShellQuote(arguments[i]);
      }
    }
    assert quoted[..] == Quoted(arguments);
    JoinOfQuoted(arguments);
    JoinRoundTrip(arguments);
    return Command(Join(quoted[..], " "));
  }

  /** The loop of entrypointCommand. */
  method QuoteAll(arguments: seq<string>) returns (quoted: seq<string>)
    ensures quoted == Quoted(arguments)
  {
    quoted := [];
    for i := 0 to |arguments|
      invariant |quoted| == i && forall k :: 0 <= k < i ==> quoted[k] == ShellQuote(arguments[k])
    {
      quoted := quoted + [ShellQuote(arguments[i])];
    }
  }

  /** What the guest runs when the template names no entrypoint. */
  const DEFAULT_ENTRYPOINT: seq<string> := ["tail", "-f", "/dev/null"]

  function EffectiveEntrypoint(entrypoint: seq<string>): seq<string> {
    if entrypoint == [] then DEFAULT_ENTRYPOINT else entrypoint
  }

  lemma EffectiveNulFree(entrypoint: seq<string>)
    ensures AllNulFree(EffectiveEntrypoint(entrypoint)) <==> AllNulFree(entrypoint)
  {
    assert NulFree("tail") && NulFree("-f") && NulFree("/dev/null");
  }

  /** The command line a shell reads back as the entrypoint, or as the default for an empty one. */
  method EntrypointCommand(entrypoint: seq<string>) returns (command: string)
    ensures command == Joined(EffectiveEntrypoint(entrypoint))
    ensures Parse(command) ==
            if AllNulFree(entrypoint) then Some([EffectiveEntrypoint(entrypoint)]) else None
  {
    var effective := entrypoint;
    if |entrypoint| == 0 { effective := ["tail", "-f", "/dev/null"]; }
    assert effective == EffectiveEntrypoint(entrypoint);
    var quoted := QuoteAll(effective);
    JoinOfQuoted(effective);
    JoinRoundTrip(effective);
    EffectiveNulFree(entrypoint);
    command := Join(quoted, " ");
  }
}
