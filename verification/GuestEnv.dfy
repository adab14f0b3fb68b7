/** The environment file the guest init sources: which variables it sets, and to what. */
module GuestEnv {
  import opened Common
  import opened ShellQuoting

  // ---------------------------------------------------------------- mergeGuestEnvs

  /** `^[A-Za-z_][A-Za-z0-9_]*$`. */
  predicate ValidEnvName(name: string) {
    && name != ""
    && !('0' <= name[0] <= '9')
    && forall c <- name :: 'a' <= c <= 'z' || 'A' <= c <= 'Z' || '0' <= c <= '9' || c == '_'
  }

  datatype Env = Env(name: string, value: string)

  /** `name=value`, split at the first equals sign at or after `at`. */
  function Assignment(word: string, at: nat): Option<Env>
    decreases |word| - at
  {
    if at >= |word| then None
    else if word[at] == '=' then Some(Env(word[..at], word[at + 1..]))
    else Assignment(word, at + 1)
  }

  /** The source image's environment as the pull stage left it on disk. */
  datatype ImageFile = Missing | Unreadable | Content(payload: string)

  datatype Merging = Merged(envs: map<string, string>) | Refused

  /** An environment entry of the template; `literal` is false when it names a valueFrom source. */
  datatype SpecEnv = SpecEnv(name: string, value: string, literal: bool)

  predicate Acceptable(e: SpecEnv) {
    e.literal && ValidEnvName(e.name)
  }

  function Lookup(envs: map<string, string>, name: string): Option<string> {
    if name in envs then Some(envs[name]) else None
  }

  /** A line of the image environment that can be used: KEY=VALUE with a valid name. */
  function Usable(line: string): Option<Env> {
    var a := Assignment(line, 0);
    if a.Some? && ValidEnvName(a.value.name) then a else None
  }

  /** The inherited value of a name, searched backwards: the last usable one of the first n lines. */
  function Inherited(lines: seq<string>, n: nat, name: string): Option<string>
    requires n <= |lines|
  {
    if n == 0 then None
    else if Usable(lines[n - 1]).Some? && Usable(lines[n - 1]).value.name == name then Some(Usable(lines[n - 1]).value.value)
    else Inherited(lines, n - 1, name)
  }

  function ImageLines(file: ImageFile): seq<string> {
    if file.Content? then Split(file.payload, '\n') else []
  }

  /** readImageEnvs: a missing file is empty, an unreadable one an error, an unusable line is skipped. */
  method ReadImageEnvs(file: ImageFile) returns (r: Merging)
    ensures r.Refused? <==> file.Unreadable?
    ensures r.Merged? ==> forall name :: Lookup(r.envs, name) == Inherited(ImageLines(file), |ImageLines(file)|, name)
    ensures r.Merged? ==> forall name <- r.envs :: ValidEnvName(name)
  {
    if file.Unreadable? { return Refused; }
    var envs: map<string, string> := map[];
    if file.Missing? { return Merged(envs); }
    var lines := Split(file.payload, '\n');
    for i := 0 to |lines|
      invariant forall name :: Lookup(envs, name) == Inherited(lines, i, name)
      invariant forall name <- envs :: ValidEnvName(name)
    {
      if lines[i] == "" { continue; }
      var entry := Assignment(lines[i], 0);
      if entry.None? || !ValidEnvName(entry.value.name) { continue; }
      envs := envs[entry.value.name := entry.value.value];
    }
    return Merged(envs);
  }

  /** The value of a name: that of the last of the first n template entries with it, else the inherited one. */
  function LastValue(file: ImageFile, spec: seq<SpecEnv>, n: nat, name: string): Option<string>
    requires n <= |spec|
  {
    if n == 0 then Inherited(ImageLines(file), |ImageLines(file)|, name)
    else if spec[n - 1].name == name then Some(spec[n - 1].value)
    else LastValue(file, spec, n - 1, name)
  }

  /** Refuses exactly an unreadable image environment and template entries that are not literals with valid names. */
  method MergeGuestEnvs(file: ImageFile, spec: seq<SpecEnv>) returns (r: Merging)
    ensures r.Merged? <==> !file.Unreadable? && forall i :: 0 <= i < |spec| ==> Acceptable(spec[i])
    ensures r.Merged? ==> forall name :: Lookup(r.envs, name) == LastValue(file, spec, |spec|, name)
    ensures r.Merged? ==> forall name <- r.envs :: ValidEnvName(name)
  {
    r := ReadImageEnvs(file);
    if r.Refused? { return; }
    var merged := r.envs;
    for i := 0 to |spec|
      invariant forall k :: 0 <= k < i ==> Acceptable(spec[k])
      invariant forall name :: Lookup(merged, name) == LastValue(file, spec, i, name)
      invariant forall name <- merged :: ValidEnvName(name)
    {
      if !spec[i].literal || !ValidEnvName(spec[i].name) {
        assert !Acceptable(spec[i]);
        return Refused;
      }
      merged := merged[spec[i].name := spec[i].value];
    }
    return Merged(merged);
  }

  // ---------------------------------------------------------------- one line of the file

  function ExportLine(e: Env): string {
    "export " + e.name + "=" + ShellQuote(e.value)
  }

  /** The command such a line stands for: one word assigning exactly the value. */
  function ExportCommand(e: Env): seq<string> {
    ["export", e.name + "=" + e.value]
  }

  const TRUST_GATE := "OPENSANDBOX_EGRESS_" + "MITMPROXY_TRANSPARENT"

  /** The unquoted characters that are read as themselves at this point. */
  predicate ReadAsIs(st: Lexer, c: char) {
    Ordinary(c) || (c == '=' && st.words != [])
  }

  lemma {:induction false} OrdinaryReadsBack(st: Lexer, text: string)
    requires st.mode.Plain? && text != "" && forall c <- text :: ReadAsIs(st, c)
    ensures Lex(Some(st), text) == Some(st.(token := Some(Token(st) + text)))
    decreases |text|
  {
    var c, rest := text[0], text[1..];
    assert text == [c] + rest;
    LexAppend(Some(st), [c], rest);
    LexOne(st, c);
    assert ReadAsIs(st, c) && Step(st, c) == Some(Put(st, c));
    if rest != "" {
      assert forall d <- rest :: d in text;
      assert forall d <- rest :: ReadAsIs(Put(st, c), d) <==> ReadAsIs(st, d);
      OrdinaryReadsBack(Put(st, c), rest);
      assert Token(Put(st, c)) + rest == Token(st) + text;
    } else {
      assert text == [c];
      assert Put(st, c) == st.(token := Some(Token(st) + text));
    }
  }

  /** Nothing of a command has been read yet. */
  predicate LineStart(st: Lexer) {
    st.mode.Plain? && st.token.None? && st.bare && st.words == []
  }

  lemma ReservedAreShort(word: string)
    requires word in RESERVED
    ensures |word| <= 5
  {}

  /** Everything before the value: the word `export`, a blank, the name and the equals sign. */
  lemma PrefixReadsBack(st: Lexer, name: string)
    requires LineStart(st) && ValidEnvName(name)
    ensures Lex(Some(st), "export " + name + "=") ==
            Some(st.(token := Some(name + "="), words := ["export"]))
  {
    var s1 := st.(token := Some("export"));
    var s2 := st.(words := ["export"]);
    if "export" in RESERVED { ReservedAreShort("export"); }
    OrdinaryReadsBack(st, "export");
    assert "" + "export" == "export";
    LexAppend(Some(st), "export", " ");
    assert "export" + " " == "export ";
    LexOne(s1, ' ');
    assert [] + ["export"] == ["export"];
    LexAppend(Some(st), "export ", name + "=");
    assert "export " + (name + "=") == "export " + name + "=";
    OrdinaryReadsBack(s2, name + "=");
    assert "" + (name + "=") == name + "=";
  }

  /** A line with its newline adds exactly one command; it fails exactly on a NUL in the value. */
  lemma LineReadsBack(st: Lexer, e: Env)
    requires LineStart(st) && ValidEnvName(e.name)
    ensures Lex(Some(st), ExportLine(e) + "\n") ==
            if NulFree(e.value) then Some(st.(commands := st.commands + [ExportCommand(e)])) else None
  {
    var mid := st.(token := Some(e.name + "="), words := ["export"]);
    PrefixReadsBack(st, e.name);
    LexAppend(Some(st), "export " + e.name + "=", ShellQuote(e.value));
    QuoteReadsBack(mid, e.value);
    LexAppend(Some(st), ExportLine(e), "\n");
    if NulFree(e.value) {
      LexOne(mid.(token := Some(e.name + "=" + e.value), bare := false), '\n');
      assert ["export"] + [e.name + "=" + e.value] == ExportCommand(e);
    }
  }

  /** A line whose value is written without quotes, as the gate line is. */
  function BareLine(e: Env): string { "export " + e.name + "=" + e.value }

  predicate Bare(e: Env) { ValidEnvName(e.name) && e.value != "" && forall c <- e.value :: Ordinary(c) }

  lemma BareReadsBack(st: Lexer, e: Env)
    requires LineStart(st) && Bare(e)
    ensures Lex(Some(st), BareLine(e) + "\n") == Some(st.(commands := st.commands + [ExportCommand(e)]))
  {
    var mid := st.(token := Some(e.name + "="), words := ["export"]);
    PrefixReadsBack(st, e.name);
    LexAppend(Some(st), "export " + e.name + "=", e.value);
    OrdinaryReadsBack(mid, e.value);
    LexAppend(Some(st), BareLine(e), "\n");
    LexOne(mid.(token := Some(e.name + "=" + e.value)), '\n');
    assert ["export"] + [e.name + "=" + e.value] == ExportCommand(e);
  }

  lemma GateIsBare()
    ensures Bare(Env(TRUST_GATE, "true"))
  {
    assert ValidEnvName("OPENSANDBOX_EGRESS_") && ValidEnvName("MITMPROXY_TRANSPARENT");
    ValidNamesJoin("OPENSANDBOX_EGRESS_", "MITMPROXY_TRANSPARENT");
  }

  lemma ValidNamesJoin(a: string, b: string)
    requires ValidEnvName(a) && ValidEnvName(b)
    ensures ValidEnvName(a + b)
  {
    assert (a + b)[0] == a[0];
  }

  // ---------------------------------------------------------------- the whole file

  function Lines(written: seq<Env>): seq<string> {
    seq(|written|, i requires 0 <= i < |written| => ExportLine(written[i]))
  }

  function Commands(written: seq<Env>): seq<seq<string>> {
    seq(|written|, i requires 0 <= i < |written| => ExportCommand(written[i]))
  }

  ghost predicate Exportable(written: seq<Env>) {
    forall i :: 0 <= i < |written| ==> ValidEnvName(written[i].name)
  }

  ghost predicate ValuesNulFree(written: seq<Env>) {
    forall i :: 0 <= i < |written| ==> NulFree(written[i].value)
  }

  /** The lines joined by newlines, and a last newline. */
  function FileText(lines: seq<string>): string { Join(lines, "\n") + "\n" }

  lemma FileTextSnoc(lines: seq<string>, line: string)
    requires lines != []
    ensures FileText(lines + [line]) == FileText(lines) + (line + "\n")
  {
    assert (lines + [line])[..|lines|] == lines;
    assert Join(lines, "\n") + "\n" + line + "\n" == (Join(lines, "\n") + "\n") + (line + "\n");
  }

  lemma {:induction false} FileReadsBack(written: seq<Env>)
    requires written != [] && Exportable(written)
    ensures Lex(Some(START), FileText(Lines(written))) ==
            if ValuesNulFree(written) then Some(START.(commands := Commands(written))) else None
    decreases |written|
  {
    var last := written[|written| - 1];
    if |written| == 1 {
      assert Lines(written) == [ExportLine(last)];
      LineReadsBack(START, last);
      assert [] + [ExportCommand(last)] == Commands(written);
    } else {
      var front := written[..|written| - 1];
      FileReadsBack(front);
      LinesSnoc(front, last);
      assert written == front + [last];
      FileTextSnoc(Lines(front), ExportLine(last));
      LexAppend(Some(START), FileText(Lines(front)), ExportLine(last) + "\n");
      if ValuesNulFree(front) {
        LineReadsBack(START.(commands := Commands(front)), last);
        assert Commands(front) + [ExportCommand(last)] == Commands(written);
      }
    }
  }

  // ---------------------------------------------------------------- sourcing it

  /** Runs a script of exports in order; None as soon as a command is anything else. */
  function Execute(commands: seq<seq<string>>, env: map<string, string>): Option<map<string, string>> {
    if commands == [] then Some(env)
    else
      var before := Execute(commands[..|commands| - 1], env);
      var last := commands[|commands| - 1];
      if before.Some? && |last| == 2 && last[0] == "export" && Assignment(last[1], 0).Some? then
        var a := Assignment(last[1], 0).value;
        Some(before.value[a.name := a.value])
      else None
  }

  function Source(text: string): Option<map<string, string>> {
    var commands := Parse(text);
    if commands.Some? then Execute(commands.value, map[]) else None
  }

  /** The variables a list of exports leaves set: the last one of a name wins. */
  function EnvOf(written: seq<Env>): map<string, string> {
    if written == [] then map[]
    else EnvOf(written[..|written| - 1])[written[|written| - 1].name := written[|written| - 1].value]
  }

  lemma {:induction false} AssignmentFound(e: Env, at: nat)
    requires ValidEnvName(e.name) && at <= |e.name|
    ensures Assignment(e.name + "=" + e.value, at) == Some(e)
    decreases |e.name| - at
  {
    var word := e.name + "=" + e.value;
    if at < |e.name| {
      assert word[at] == e.name[at] && e.name[at] in e.name;
      AssignmentFound(e, at + 1);
    } else {
      assert word[..at] == e.name && word[at + 1..] == e.value;
    }
  }

  lemma ExecuteSnoc(commands: seq<seq<string>>, env: map<string, string>, e: Env)
    requires ValidEnvName(e.name) && Execute(commands, map[]) == Some(env)
    ensures Execute(commands + [ExportCommand(e)], map[]) == Some(env[e.name := e.value])
  {
    AssignmentFound(e, 0);
    assert (commands + [ExportCommand(e)])[..|commands|] == commands;
  }

  lemma {:induction false} ExecuteExports(written: seq<Env>)
    requires Exportable(written)
    ensures Execute(Commands(written), map[]) == Some(EnvOf(written))
    decreases |written|
  {
    if written != [] {
      var front, last := written[..|written| - 1], written[|written| - 1];
      ExecuteExports(front);
      ExecuteSnoc(Commands(front), EnvOf(front), last);
      assert Commands(written) == Commands(front) + [ExportCommand(last)];
    }
  }

  lemma {:induction false} EscapeNulFree(argument: string)
    ensures NulFree(Escape(argument)) <==> NulFree(argument)
    decreases |argument|
  {
    if argument != "" {
      EscapeNulFree(argument[1..]);
      assert argument == [argument[0]] + argument[1..];
    }
  }

  lemma {:induction false} JoinedNulFree(arguments: seq<string>)
    requires arguments != []
    ensures NulFree(Joined(arguments)) <==> AllNulFree(arguments)
    decreases |arguments|
  {
    var last := arguments[|arguments| - 1];
    EscapeNulFree(last);
    if |arguments| > 1 {
      var front := arguments[..|arguments| - 1];
      JoinedNulFree(front);
      assert arguments == front + [last];
    } else {
      assert arguments == [last];
    }
  }

  /** What sourcing the file must leave: the entrypoint, then the merged variables, then the gate, later ones winning. */
  function Expected(command: string, merged: map<string, string>, gate: bool): map<string, string> {
    var env := map["ENTRYPOINT" := command] + merged;
    if gate then env[TRUST_GATE := "true"] else env
  }

  // ---------------------------------------------------------------- injectRuntime's env file

  /** Sourcing the joined lines. */
  lemma SourceExports(written: seq<Env>)
    requires written != [] && Exportable(written)
    ensures Source(FileText(Lines(written))) == if ValuesNulFree(written) then Some(EnvOf(written)) else None
  {
    FileReadsBack(written);
    ExecuteExports(written);
  }

  lemma ParseGated(written: seq<Env>, gate: Env)
    requires written != [] && Exportable(written) && Bare(gate)
    ensures Parse(FileText(Lines(written) + [BareLine(gate)])) ==
            if ValuesNulFree(written) then Some(Commands(written) + [ExportCommand(gate)]) else None
  {
    FileReadsBack(written);
    FileTextSnoc(Lines(written), BareLine(gate));
    LexAppend(Some(START), FileText(Lines(written)), BareLine(gate) + "\n");
    if ValuesNulFree(written) { BareReadsBack(START.(commands := Commands(written)), gate); }
  }

  /** Sourcing the joined lines and, after them, the gate line. */
  lemma SourceGated(written: seq<Env>, gate: Env)
    requires written != [] && Exportable(written) && Bare(gate)
    ensures Source(FileText(Lines(written) + [BareLine(gate)])) ==
            if ValuesNulFree(written) then Some(EnvOf(written)[gate.name := gate.value]) else None
  {
    ParseGated(written, gate);
    ExecuteExports(written);
    ExecuteSnoc(Commands(written), EnvOf(written), gate);
  }

  ghost predicate Written(written: seq<Env>, command: string, merged: map<string, string>, left: set<string>) {
    && |written| >= 1 && written[0] == Env("ENTRYPOINT", command)
    && (forall i :: 1 <= i < |written| ==>
          written[i].name in merged && written[i].value == merged[written[i].name])
    && (forall name :: name in merged && name !in left ==> Env(name, merged[name]) in written[1..])
    && EnvOf(written) == map["ENTRYPOINT" := command] + (merged - left)
  }

  lemma NoneWritten(command: string, merged: map<string, string>)
    ensures Written([Env("ENTRYPOINT", command)], command, merged, merged.Keys)
    ensures Lines([Env("ENTRYPOINT", command)]) == [ExportLine(Env("ENTRYPOINT", command))]
  {
    var e := Env("ENTRYPOINT", command);
    assert merged - merged.Keys == map[];
    assert [e][..0] == [];
  }

  lemma LinesSnoc(written: seq<Env>, e: Env)
    ensures Lines(written + [e]) == Lines(written) + [ExportLine(e)]
  {}

  lemma WriteOne(written: seq<Env>, command: string, merged: map<string, string>, left: set<string>, name: string)
    requires Written(written, command, merged, left) && name in left && name in merged
    ensures Written(written + [Env(name, merged[name])], command, merged, left - {name})
  {
    var e := Env(name, merged[name]);
    var after := written + [e];
    assert after[..|written|] == written;
    assert after[1..] == written[1..] + [e];
    assert merged - (left - {name}) == (merged - left)[name := merged[name]];
  }

  /** Once every name is written, the values are those of the request, and so is the environment left. */
  lemma AllWritten(written: seq<Env>, entrypoint: seq<string>, merged: map<string, string>)
    requires forall name <- merged :: ValidEnvName(name)
    requires Written(written, Joined(EffectiveEntrypoint(entrypoint)), merged, {})
    ensures Exportable(written)
    ensures ValuesNulFree(written) <==> AllNulFree(entrypoint) && forall name <- merged :: NulFree(merged[name])
    ensures EnvOf(written) == Expected(Joined(EffectiveEntrypoint(entrypoint)), merged, false)
  {
    var command := Joined(EffectiveEntrypoint(entrypoint));
    JoinedNulFree(EffectiveEntrypoint(entrypoint));
    EffectiveNulFree(entrypoint);
    assert written[0].value == command;
    if ValuesNulFree(written) {
      forall name <- merged ensures NulFree(merged[name]) {
        var i :| 0 <= i < |written[1..]| && written[1..][i] == Env(name, merged[name]);
        assert NulFree(written[i + 1].value);
      }
    }
    assert merged - {} == merged;
  }

  /** The export lines of the entrypoint and of every merged variable, in any order of the names. */
  method EnvLines(command: string, merged: map<string, string>) returns (lines: seq<string>, ghost written: seq<Env>)
    ensures lines == Lines(written) && Written(written, command, merged, {})
  {
    lines := [ExportLine(Env("ENTRYPOINT", command))];
    written := [Env("ENTRYPOINT", command)];
    var left := merged.Keys;
    NoneWritten(command, merged);
    while left != {}
      invariant left <= merged.Keys
      invariant lines == Lines(written)
      invariant Written(written, command, merged, left)
    {
      var name :| name in left;
      WriteOne(written, command, merged, left, name);
      LinesSnoc(written, Env(name, merged[name]));
      lines := lines + [ExportLine(Env(name, merged[name]))];
      written := written + [Env(name, merged[name])];
      left := left - {name};
    }
  }

  // ---------------------------------------------------------------- what the guest starts

  /**
   * What renderGuestInit's script starts once the file is sourced: the value of ENTRYPOINT as a command line;
   * with an empty one the bootstrap, where present, runs its default, and otherwise nothing runs.
   */
  function Started(env: map<string, string>, bootstrap: bool): Option<seq<seq<string>>> {
    var entrypoint := if "ENTRYPOINT" in env then env["ENTRYPOINT"] else "";
    if entrypoint != "" then Parse(entrypoint)
    else if bootstrap then Parse("tail -f /dev/null")
    else Some([])
  }

  /** The merged variables do not name ENTRYPOINT, or name it with a command line for the very same arguments. */
  ghost predicate LetsRun(merged: map<string, string>, argv: seq<string>, bootstrap: bool) {
    "ENTRYPOINT" in merged ==>
      || (merged["ENTRYPOINT"] != "" && Parse(merged["ENTRYPOINT"]) == Some([argv]))
      || (merged["ENTRYPOINT"] == "" && bootstrap && argv == DEFAULT_ENTRYPOINT)
  }

  predicate AllOrdinary(word: string) { word != "" && forall c <- word :: Ordinary(c) }

  lemma UnquotedWord(st: Lexer, word: string)
    requires st.mode.Plain? && st.token.None? && st.bare && AllOrdinary(word)
    requires st.words == [] ==> word !in RESERVED
    ensures Lex(Some(st), word + " ") == Some(st.(words := st.words + [word]))
  {
    OrdinaryReadsBack(st, word);
    assert "" + word == word;
    LexAppend(Some(st), word, " ");
    LexOne(st.(token := Some(word)), ' ');
  }

  lemma ThreeWords(a: string, b: string, c: string)
    requires AllOrdinary(a) && AllOrdinary(b) && AllOrdinary(c) && a !in RESERVED
    ensures Parse(a + " " + (b + " ") + c) == Some([[a, b, c]])
  {
    var s1 := START.(words := [a]);
    var s2 := START.(words := [a, b]);
    UnquotedWord(START, a);
    assert [] + [a] == [a];
    UnquotedWord(s1, b);
    assert [a] + [b] == [a, b];
    LexAppend(Some(START), a + " ", b + " ");
    OrdinaryReadsBack(s2, c);
    assert "" + c == c;
    LexAppend(Some(START), a + " " + (b + " "), c);
    assert [a, b] + [c] == [a, b, c];
    assert [] + [[a, b, c]] == [[a, b, c]];
  }

  lemma ReservedSpelling(word: string)
    requires word in RESERVED && |word| == 4 && word[0] == 't'
    ensures word[1] == 'h'
  {}

  /** The unquoted default command line is read as the default entrypoint. */
  lemma DefaultReadsBack()
    ensures Parse("tail -f /dev/null") == Some([DEFAULT_ENTRYPOINT])
  {
    if "tail" in RESERVED { ReservedSpelling("tail"); }
    ThreeWords("tail", "-f", "/dev/null");
    assert "tail" + " " + ("-f" + " ") + "/dev/null" == "tail -f /dev/null";
  }

  lemma {:induction false} JoinedNotEmpty(arguments: seq<string>)
    requires arguments != []
    ensures Joined(arguments) != ""
  {}

  /** The guest starts exactly the template's arguments if and only if the merged variables let it. */
  lemma GuestRunsEntrypointIff(entrypoint: seq<string>, merged: map<string, string>, gate: bool, bootstrap: bool)
    requires AllNulFree(entrypoint)
    ensures var argv := EffectiveEntrypoint(entrypoint);
            Started(Expected(Joined(argv), merged, gate), bootstrap) == Some([argv]) <==> LetsRun(merged, argv, bootstrap)
  {
    var argv := EffectiveEntrypoint(entrypoint);
    EffectiveNulFree(entrypoint);
    JoinRoundTrip(argv);
    JoinedNotEmpty(argv);
    DefaultReadsBack();
    GateLeavesEntrypoint(Joined(argv), merged, gate);
  }

  lemma GateLeavesEntrypoint(command: string, merged: map<string, string>, gate: bool)
    ensures Lookup(Expected(command, merged, gate), "ENTRYPOINT") ==
            Some(if "ENTRYPOINT" in merged then merged["ENTRYPOINT"] else command)
  {
    assert TRUST_GATE[0] == 'O' && "ENTRYPOINT"[0] == 'E';
  }

  /**
   * The file for an entrypoint, the merged variables and the trust gate. A shell that sources it
   * ends with exactly the expected variables; it fails exactly when some value holds a NUL. The guest then
   * starts the template's arguments if and only if the merged variables let it.
   * The source writes the names in sorted order; the result holds for every order.
   */
  method EnvFile(entrypoint: seq<string>, merged: map<string, string>, gate: bool) returns (text: string)
    requires forall name <- merged :: ValidEnvName(name)
    ensures Source(text) ==
            if AllNulFree(entrypoint) && forall name <- merged :: NulFree(merged[name])
            then Some(Expected(Joined(EffectiveEntrypoint(entrypoint)), merged, gate))
            else None
    ensures Source(text).Some? ==> forall bootstrap ::
              Started(Source(text).value, bootstrap) == Some([EffectiveEntrypoint(entrypoint)]) <==>
              LetsRun(merged, EffectiveEntrypoint(entrypoint), bootstrap)
  {
    var command := EntrypointCommand(entrypoint);
    var lines;
    ghost var written;
    lines, written := EnvLines(command, merged);
    AllWritten(written, entrypoint, merged);
    if gate {
      GateIsBare();
      SourceGated(written, Env(TRUST_GATE, "true"));
      lines := lines + [BareLine(Env(TRUST_GATE, "true"))];
    } else {
      SourceExports(written);
    }
    text := FileText(lines);
    if AllNulFree(entrypoint) {
      GuestRunsEntrypointIff(entrypoint, merged, gate, true);
      GuestRunsEntrypointIff(entrypoint, merged, gate, false);
    }
  }
}
