/** The hook command line: two printers, one parser, and the shell rules they rely on. */
module HookCommand {
  import opened Options
  import opened Hosts
  import opened Characters

  function HostText(host: Host): string {
    if host.Codex? then "codex" else "claude"
  }

  datatype Invocation = Invocation(runtime: string, wrapper: string, home: Option<string>)

  // ----- printing -----

  /** PowerShell's rule inside single quotes: a quote is written twice. */
  function Doubled(s: string): string {
    if s == [] then [] else (if s[0] == '\'' then "''" else [s[0]]) + Doubled(s[1..])
  }

  predicate SafeChar(c: char) {
    'a' <= c <= 'z' || 'A' <= c <= 'Z' || '0' <= c <= '9'
    || c == '_' || c == '@' || c == '%' || c == '+' || c == '=' || c == ':' || c == ',' || c == '.' || c == '/' || c == '-'
  }

  predicate Safe(s: string) {
    forall i :: 0 <= i < |s| ==> SafeChar(s[i])
  }

  /** A shell leaves the single quotes, writes one quote in double quotes, and enters them again. */
  function Spliced(s: string): string {
    if s == [] then [] else (if s[0] == '\'' then "'\"'\"'" else [s[0]]) + Spliced(s[1..])
  }

  function ShellQuoted(s: string): string {
    if s == "" then "''"
    else if Safe(s) then s
    else "'" + Spliced(s) + "'"
  }

  /** The command line written into the host's settings. Paths are taken as their text. */
  function Command(windows: bool, host: Host, call: Invocation): string {
    if windows && host.Codex? then
      "& '" + Doubled(call.runtime) + "' '" + Doubled(call.wrapper) + "' --host codex"
      + if call.home.None? then "" else " --home '" + Doubled(call.home.value) + "'"
    else
      ShellQuoted(call.runtime) + " " + ShellQuoted(call.wrapper) + " --host " + HostText(host)
      + if call.home.None? then "" else " --home " + ShellQuoted(call.home.value)
  }

  // ----- splitting as a POSIX shell does -----

  datatype Lex = Between | Word | Quoted(quote: char) | Escape(back: Lex)

  predicate IsQuote(c: char) { c == '\'' || c == '"' }

  function Cons(token: string, tokens: Option<seq<string>>): Option<seq<string>> {
    if tokens.None? then None else Some([token] + tokens.value)
  }

  /** Backslash escapes outside single quotes; inside double quotes only itself and the quote. */
  function Split(s: string, at: Lex, token: string): Option<seq<string>>
    decreases |s|
  {
    if s == [] then
      match at
      case Between => Some([])
      case Word => Some([token])
      case _ => None
    else
      var c, rest := s[0], s[1..];
      match at
      case Between =>
        if IsSpace(c) then Split(rest, Between, "")
        else if IsQuote(c) then Split(rest, Quoted(c), "")
        else if c == '\\' then Split(rest, Escape(Word), "")
        else Split(rest, Word, [c])
      case Word =>
        if IsSpace(c) then Cons(token, Split(rest, Between, ""))
        else if IsQuote(c) then Split(rest, Quoted(c), token)
        else if c == '\\' then Split(rest, Escape(Word), token)
        else Split(rest, Word, token + [c])
      case Quoted(quote) =>
        if c == quote then Split(rest, Word, token)
        else if c == '\\' && quote == '"' then Split(rest, Escape(at), token)
        else Split(rest, at, token + [c])
      case Escape(back) =>
        var kept := if back.Quoted? && c != '\\' && c != back.quote then "\\" else "";
        Split(rest, back, token + kept + [c])
  }

  // ----- the PowerShell form -----

  /** What follows an opening quote, up to a quote that is not doubled: its text, and the rest. */
  function QuotedText(s: string): (r: Option<(string, string)>)
    ensures r.Some? ==> |r.value.1| < |s|
    decreases |s|
  {
    if s == [] then None
    else if s[0] != '\'' then
      var more := QuotedText(s[1..]);
      if more.None? then None else Some(([s[0]] + more.value.0, more.value.1))
    else if |s| > 1 && s[1] == '\'' then
      var more := QuotedText(s[2..]);
      if more.None? then None else Some(("'" + more.value.0, more.value.1))
    else Some(("", s[1..]))
  }

  /** A literal, then a non-empty quoted text. */
  function Field(s: string, literal: string): Option<(string, string)> {
    if literal <= s then
      var r := QuotedText(s[|literal|..]);
      if r.Some? && r.value.0 == "" then None else r
    else None
  }

  function ParsePowerShell(command: string): Option<Invocation> {
    var runtime := Field(command, "& '");
    if runtime.None? then None
    else
      var wrapper := Field(runtime.value.1, " '");
      if wrapper.None? || !(" --host codex" <= wrapper.value.1) then None
      else
        var rest := wrapper.value.1[|" --host codex"|..];
        if rest == "" then Some(Invocation(runtime.value.0, wrapper.value.0, None))
        else
          var home := Field(rest, " --home '");
          if home.None? || home.value.1 != "" then None
          else Some(Invocation(runtime.value.0, wrapper.value.0, Some(home.value.0)))
  }

  /** The forms the printers emit, and nothing else. */
  function Parse(command: string, host: Host): Option<Invocation> {
    var windows := if host.Codex? then ParsePowerShell(command) else None;
    if windows.Some? then windows
    else
      var split := Split(command, Between, "");
      if split.None? then None
      else
        var words := split.value;
        if |words| != 4 && |words| != 6 then None
        else if words[2] != "--host" || words[3] != HostText(host) then None
        else if |words| == 4 then Some(Invocation(words[0], words[1], None))
        else if words[4] != "--home" then None
        else Some(Invocation(words[0], words[1], Some(words[5])))
  }

  // ----- quoting and splitting undo each other -----

  lemma SafeIsOrdinary(c: char)
    requires SafeChar(c)
    ensures !IsSpace(c) && !IsQuote(c) && c != '\\'
  {
  }

  lemma {:induction false} SplitSafe(s: string, rest: string, token: string)
    requires Safe(s)
    ensures Split(s + rest, Word, token) == Split(rest, Word, token + s)
  {
    if s == [] {
      assert s + rest == rest && token + s == token;
    } else {
      SafeIsOrdinary(s[0]);
      assert (s + rest)[1..] == s[1..] + rest;
      SplitSafe(s[1..], rest, token + [s[0]]);
      assert token + [s[0]] + s[1..] == token + s;
    }
  }

  lemma SplitSpliceStep(rest: string, token: string)
    ensures Split("'\"'\"'" + rest, Quoted('\''), token) == Split(rest, Quoted('\''), token + "'")
  {
    var a, b, c, d := "\"'\"'" + rest, "'\"'" + rest, "\"'" + rest, "'" + rest;
    assert ("'\"'\"'" + rest)[1..] == a && a[1..] == b && b[1..] == c && c[1..] == d && d[1..] == rest;
    assert Split("'\"'\"'" + rest, Quoted('\''), token) == Split(a, Word, token);
    assert Split(a, Word, token) == Split(b, Quoted('"'), token);
    assert Split(b, Quoted('"'), token) == Split(c, Quoted('"'), token + "'");
    assert Split(c, Quoted('"'), token + "'") == Split(d, Word, token + "'");
  }

  lemma {:induction false} SplitSpliced(s: string, rest: string, token: string)
    ensures Split(Spliced(s) + "'" + rest, Quoted('\''), token) == Split(rest, Word, token + s)
  {
    var text := Spliced(s) + "'" + rest;
    if s == [] {
      assert text == "'" + rest && text[1..] == rest && token + s == token;
    } else {
      var tail := Spliced(s[1..]) + "'" + rest;
      SplitSpliced(s[1..], rest, token + [s[0]]);
      assert token + [s[0]] + s[1..] == token + s;
      if s[0] == '\'' {
        assert text == "'\"'\"'" + tail;
        SplitSpliceStep(tail, token);
      } else {
        assert text == [s[0]] + tail && text[1..] == tail;
      }
    }
  }

  lemma SplitBare(s: string, rest: string)
    requires s != "" && Safe(s)
    ensures Split(s + rest, Between, "") == Split(rest, Word, s)
  {
    SafeIsOrdinary(s[0]);
    assert (s + rest)[0] == s[0] && (s + rest)[1..] == s[1..] + rest;
    SplitSafe(s[1..], rest, [s[0]]);
    assert [s[0]] + s[1..] == s;
  }

  lemma SplitEnclosed(s: string, rest: string)
    ensures Split("'" + Spliced(s) + "'" + rest, Between, "") == Split(rest, Word, s)
  {
    var text := "'" + Spliced(s) + "'" + rest;
    assert text[0] == '\'' && text[1..] == Spliced(s) + "'" + rest;
    SplitSpliced(s, rest, "");
    assert "" + s == s;
  }

  /** A quoted word, read from between words, is the word. */
  lemma SplitQuoted(s: string, rest: string)
    ensures Split(ShellQuoted(s) + rest, Between, "") == Split(rest, Word, s)
  {
    if s != "" && Safe(s) {
      SplitBare(s, rest);
    } else {
      assert s == "" ==> "'" + Spliced(s) + "'" == "''";
      SplitEnclosed(s, rest);
    }
  }

  lemma {:induction false} SplicedIsLonger(s: string)
    ensures |Spliced(s)| >= |s|
  {
    if s == [] {
    } else {
      SplicedIsLonger(s[1..]);
    }
  }

  /** A word is left bare exactly when it has only letters, digits and the characters no shell minds. */
  lemma BareExactlyWhenSafe(s: string)
    ensures ShellQuoted(s) == s <==>
      s != "" && forall i :: 0 <= i < |s| ==>
        'a' <= s[i] <= 'z' || 'A' <= s[i] <= 'Z' || '0' <= s[i] <= '9' || s[i] in "_@%+=:,./-"
  {
    SplicedIsLonger(s);
    assert forall c :: c in "_@%+=:,./-" <==> c in {'_', '@', '%', '+', '=', ':', ',', '.', '/', '-'};
  }

  /** Words, each quoted, separated by single spaces. */
  function Joined(words: seq<string>): string {
    if words == [] then ""
    else ShellQuoted(words[0]) + if |words| == 1 then "" else " " + Joined(words[1..])
  }

  /** Splitting what was quoted and joined gives the words back, whatever they contain. */
  lemma {:induction false} SplitJoined(words: seq<string>)
    ensures Split(Joined(words), Between, "") == Some(words)
  {
    if |words| == 1 {
      SplitQuoted(words[0], "");
      assert words == [words[0]];
    } else if |words| > 1 {
      var rest := " " + Joined(words[1..]);
      SplitQuoted(words[0], rest);
      assert rest[1..] == Joined(words[1..]);
      SplitJoined(words[1..]);
      assert words == [words[0]] + words[1..];
    }
  }

  function Words(host: Host, call: Invocation): seq<string> {
    [call.runtime, call.wrapper, "--host", HostText(host)] + if call.home.None? then [] else ["--home", call.home.value]
  }

  lemma JoinedFour(words: seq<string>)
    requires |words| >= 4
    ensures Joined(words) ==
      ShellQuoted(words[0]) + (" " + (ShellQuoted(words[1]) + (" " + (ShellQuoted(words[2]) + (" " +
      (ShellQuoted(words[3]) + if |words| == 4 then "" else " " + Joined(words[4..])))))))
  {
    JoinedOne(words);
    JoinedOne(words[1..]);
    JoinedOne(words[2..]);
    JoinedOne(words[3..]);
    assert words[1..][1..] == words[2..] && words[2..][1..] == words[3..] && words[3..][1..] == words[4..];
  }

  lemma JoinedOne(words: seq<string>)
    requires words != []
    ensures Joined(words) == ShellQuoted(words[0]) + if |words| == 1 then "" else " " + Joined(words[1..])
  {
  }

  lemma Associate(a: string, b: string, c: string, d: string, e: string, f: string, g: string, h: string)
    ensures a + b + c + (d + e + f) + g + h == a + (b + (c + (d + (e + (f + (g + h))))))
  {
  }

  lemma FixedWords(host: Host)
    ensures ShellQuoted("--host") == "--host" && ShellQuoted("--home") == "--home"
    ensures ShellQuoted(HostText(host)) == HostText(host)
  {
    assert Safe("--host") && Safe("--home") && Safe("codex") && Safe("claude");
  }

  lemma FixedText(h: string)
    ensures " " + "--host" + " " == " --host "
    ensures " --home " + h == " " + ("--home" + (" " + h))
  {
    assert " --home " == " " + ("--home" + " ");
  }

  lemma JoinedHome(words: seq<string>, h: string)
    requires |words| == 6 && words[4..] == ["--home", h]
    ensures Joined(words[4..]) == ShellQuoted("--home") + (" " + ShellQuoted(h))
  {
    JoinedOne(words[4..]);
    JoinedOne([h]);
    assert words[4..][1..] == [h];
  }

  lemma CommandIsJoined(host: Host, call: Invocation)
    ensures Command(false, host, call) == Joined(Words(host, call))
  {
    var words := Words(host, call);
    FixedWords(host);
    JoinedFour(words);
    var tail := if call.home.None? then "" else " --home " + ShellQuoted(call.home.value);
    if call.home.Some? {
      JoinedHome(words, call.home.value);
      FixedText(ShellQuoted(call.home.value));
    } else {
      FixedText("");
    }
    Associate(ShellQuoted(call.runtime), " ", ShellQuoted(call.wrapper), " ", "--host", " ", HostText(host), tail);
  }

  // ----- doubled quotes and their reader undo each other -----

  lemma {:induction false} DoubledReadsBack(s: string, rest: string)
    requires rest == "" || rest[0] != '\''
    ensures QuotedText(Doubled(s) + "'" + rest) == Some((s, rest))
  {
    var text := Doubled(s) + "'" + rest;
    if s == [] {
      assert text == "'" + rest && text[1..] == rest;
    } else {
      var tail := Doubled(s[1..]) + "'" + rest;
      DoubledReadsBack(s[1..], rest);
      assert s == [s[0]] + s[1..];
      if s[0] == '\'' {
        assert text == "''" + tail && text[2..] == tail;
      } else {
        assert text == [s[0]] + tail && text[1..] == tail;
      }
    }
  }

  lemma FieldReadsBack(literal: string, s: string, rest: string)
    requires s != "" && (rest == "" || rest[0] != '\'')
    ensures Field(literal + (Doubled(s) + "'" + rest), literal) == Some((s, rest))
  {
    var text := literal + (Doubled(s) + "'" + rest);
    assert text[..|literal|] == literal && text[|literal|..] == Doubled(s) + "'" + rest;
    DoubledReadsBack(s, rest);
  }

  /** The PowerShell line, cut where its reader cuts it. */
  lemma PowerShellParts(call: Invocation)
    ensures
      var home := if call.home.None? then "" else " --home '" + (Doubled(call.home.value) + "'" + "");
      var wrapper := " '" + (Doubled(call.wrapper) + "'" + (" --host codex" + home));
      Command(true, Codex, call) == "& '" + (Doubled(call.runtime) + "'" + wrapper)
  {
    var home := if call.home.None? then "" else " --home '" + Doubled(call.home.value) + "'";
    if call.home.Some? {
      assert home == " --home '" + (Doubled(call.home.value) + "'" + "");
    }
    assert "' '" == "'" + " '" && "' --host codex" == "'" + " --host codex";
    AssociateLine("& '", Doubled(call.runtime), "'", " '", Doubled(call.wrapper), "'", " --host codex", home);
  }

  lemma AssociateLine(a: string, b: string, c: string, d: string, e: string, f: string, g: string, h: string)
    ensures a + b + (c + d) + e + (f + g) + h == a + (b + c + (d + (e + f + (g + h))))
  {
  }

  lemma PowerShellReadsBack(call: Invocation)
    requires call.runtime != "" && call.wrapper != "" && call.home != Some("")
    ensures ParsePowerShell(Command(true, Codex, call)) == Some(call)
  {
    PowerShellParts(call);
    var home := if call.home.None? then "" else " --home '" + (Doubled(call.home.value) + "'" + "");
    var fixed := " --host codex";
    var wrapper := " '" + (Doubled(call.wrapper) + "'" + (fixed + home));
    FieldReadsBack("& '", call.runtime, wrapper);
    FieldReadsBack(" '", call.wrapper, fixed + home);
    assert (fixed + home)[..|fixed|] == fixed && (fixed + home)[|fixed|..] == home;
    if call.home.Some? {
      FieldReadsBack(" --home '", call.home.value, "");
    }
  }

  /** A POSIX line never starts like the PowerShell form. */
  lemma ShellLineIsNotPowerShell(host: Host, call: Invocation)
    ensures ParsePowerShell(Command(false, host, call)) == None
  {
    var line, q := Command(false, host, call), ShellQuoted(call.runtime);
    assert q != "" && q[0] != '&' by {
      if call.runtime != "" && Safe(call.runtime) {
        assert SafeChar(q[0]);
      }
    }
    assert line[0] == q[0];
    assert !("& '" <= line);
  }

  lemma WordsDecide(command: string, host: Host, call: Invocation, words: seq<string>)
    requires ParsePowerShell(command) == None && Split(command, Between, "") == Some(words)
    requires (|words| == 4 && call.home == None) || (|words| == 6 && words[4] == "--home" && call.home == Some(words[5]))
    requires words[0] == call.runtime && words[1] == call.wrapper && words[2] == "--host" && words[3] == HostText(host)
    ensures Parse(command, host) == Some(call)
  {
  }

  /** Whatever the three texts contain, the parser gives back exactly what was printed. The POSIX form
      carries even empty ones; the PowerShell form carries every non-empty one. */
  lemma CommandRoundTrip(windows: bool, host: Host, call: Invocation)
    requires windows && host.Codex? ==> call.runtime != "" && call.wrapper != "" && call.home != Some("")
    ensures Parse(Command(windows, host, call), host) == Some(call)
  {
    if windows && host.Codex? {
      PowerShellReadsBack(call);
    } else {
      CommandIsJoined(host, call);
      SplitJoined(Words(host, call));
      ShellLineIsNotPowerShell(host, call);
      WordsDecide(Command(false, host, call), host, call, Words(host, call));
    }
  }

  // ----- what the parser accepts, and nothing else -----

  lemma {:induction false} QuotedTextSource(s: string)
    ensures QuotedText(s).Some? ==>
      var (text, rest) := QuotedText(s).value;
      s == Doubled(text) + "'" + rest && (rest == "" || rest[0] != '\'')
    decreases |s|
  {
    if QuotedText(s).None? {
    } else {
      var (text, rest) := QuotedText(s).value;
      if s[0] != '\'' {
        QuotedTextSource(s[1..]);
        assert text[1..] == QuotedText(s[1..]).value.0;
        assert s == [s[0]] + s[1..];
      } else if |s| > 1 && s[1] == '\'' {
        QuotedTextSource(s[2..]);
        assert text[1..] == QuotedText(s[2..]).value.0;
        assert s == "''" + s[2..];
      } else {
        assert s == "'" + s[1..];
      }
    }
  }

  lemma FieldSource(s: string, literal: string)
    ensures Field(s, literal).Some? ==>
      var (text, rest) := Field(s, literal).value;
      text != "" && s == literal + (Doubled(text) + "'" + rest)
  {
    if Field(s, literal).Some? {
      QuotedTextSource(s[|literal|..]);
      assert s == literal + s[|literal|..];
    }
  }

  /** The PowerShell reader accepts exactly the lines its printer emits for non-empty texts. */
  lemma PowerShellExact(command: string, call: Invocation)
    ensures ParsePowerShell(command) == Some(call) <==>
      call.runtime != "" && call.wrapper != "" && call.home != Some("") && command == Command(true, Codex, call)
  {
    if ParsePowerShell(command) == Some(call) {
      FieldSource(command, "& '");
      var afterRuntime := Field(command, "& '").value.1;
      FieldSource(afterRuntime, " '");
      var afterWrapper := Field(afterRuntime, " '").value.1;
      var fixed := " --host codex";
      var rest := afterWrapper[|fixed|..];
      assert afterWrapper == fixed + rest;
      if rest != "" {
        FieldSource(rest, " --home '");
      }
      PowerShellParts(call);
    }
    if call.runtime != "" && call.wrapper != "" && call.home != Some("") && command == Command(true, Codex, call) {
      PowerShellReadsBack(call);
    }
  }

  lemma WordsAre(words: seq<string>, host: Host, call: Invocation)
    ensures words == Words(host, call) <==>
      && |words| == (if call.home.None? then 4 else 6)
      && words[0] == call.runtime && words[1] == call.wrapper && words[2] == "--host" && words[3] == HostText(host)
      && (call.home.Some? ==> words[4] == "--home" && words[5] == call.home.value)
  {
  }

  /** Accepted are exactly the PowerShell lines of the one host that has them, and otherwise the lines
      that a POSIX shell splits into the words printed. */
  lemma ParseExact(command: string, host: Host, call: Invocation)
    ensures Parse(command, host) == Some(call) <==>
      if host.Codex? && ParsePowerShell(command).Some? then ParsePowerShell(command) == Some(call)
      else Split(command, Between, "") == Some(Words(host, call))
  {
    var split := Split(command, Between, "");
    if split.Some? {
      WordsAre(split.value, host, call);
    }
  }

  lemma HashIsAWord(rest: string)
    ensures Split("# " + rest, Between, "") == Cons("#", Split(rest, Between, ""))
  {
    var line := "# " + rest;
    assert line[0] == '#' && line[1..] == " " + rest;
    assert (" " + rest)[1..] == rest;
    assert Split(line, Between, "") == Split(" " + rest, Word, "#");
  }

  /** A shell comment: a hash, then the words of a call without a home. */
  function Commented(host: Host, wrapper: string): string {
    "# " + Joined([wrapper, "--host", HostText(host)])
  }

  /** The reader knows no comments: a line that a shell would skip still parses as a call. */
  lemma CommentedLineParses(host: Host, wrapper: string)
    ensures Parse(Commented(host, wrapper), host) == Some(Invocation("#", wrapper, None))
  {
    var line, words := Commented(host, wrapper), [wrapper, "--host", HostText(host)];
    HashIsAWord(Joined(words));
    SplitJoined(words);
    assert line[0] == '#' && !("& '" <= line);
    WordsDecide(line, host, Invocation("#", wrapper, None), ["#"] + words);
  }
}
