/**
 Quoting for the device's shell (src/internal/hdcserver/sync.go), against the token recognition of IEEE Std
 1003.1-2017, XCU sections 2.2.1 (escape character), 2.2.2 (single-quotes) and 2.3.
 */
module ShellQuote {
  import opened Bytes

  /** strings.ReplaceAll(value, "'", "'\\''"). */
  function EscapeQuotes(value: string): string
  {
    if value == "" then ""
    else (if value[0] == '\'' then "'\\''" else [value[0]]) + EscapeQuotes(value[1..])
  }

  function Quote(value: string): string
  {
    "'" + EscapeQuotes(value) + "'"
  }

  // ---- The shell's tokens

  predicate IsDelimiter(c: char)
  {
    c == ' ' || c == '\t' || c == '\n' || c == ';' || c == '&' || c == '|' || c == '<' || c == '>' ||
      c == '(' || c == ')'
  }

  /** Expansions, double quotes and comments, which this reader of tokens gives up on. */
  predicate IsUnread(c: char)
  {
    c == '"' || c == '$' || c == '`' || c == '#'
  }

  function Prepend(c: char, word: Option<(string, string)>): Option<(string, string)>
  {
    match word case None => None case Some((value, rest)) => Some(([c] + value, rest))
  }

  /** The value of the word that starts here, up to an unquoted delimiter, and what follows it. */
  function Word(s: string): Option<(string, string)>
  {
    if s == "" || IsDelimiter(s[0]) then Some(("", s))
    else if IsUnread(s[0]) then None
    else if s[0] == '\'' then InQuotes(s[1..])
    else if s[0] == '\\' then
      if |s| == 1 then None else if s[1] == '\n' then Word(s[2..]) else Prepend(s[1], Word(s[2..]))
    else Prepend(s[0], Word(s[1..]))
  }

  /** The same from inside single quotes. */
  function InQuotes(s: string): Option<(string, string)>
  {
    if s == "" then None
    else if s[0] == '\'' then Word(s[1..])
    else Prepend(s[0], InQuotes(s[1..]))
  }

  datatype Token = Argument(value: string) | Semicolon | AndIf

  function Tokens(s: string): Option<seq<Token>>
    decreases |s|
  {
    if s == "" then Some([])
    else if s[0] == ' ' then Tokens(s[1..])
    else if s[0] == ';' then Then(Semicolon, Tokens(s[1..]))
    else if |s| > 1 && s[0] == '&' && s[1] == '&' then Then(AndIf, Tokens(s[2..]))
    else if IsDelimiter(s[0]) then None
    else
      match Word(s)
      case None => None
      case Some((value, rest)) => if |rest| < |s| then Then(Argument(value), Tokens(rest)) else None
  }

  function Then(token: Token, tokens: Option<seq<Token>>): Option<seq<Token>>
  {
    match tokens case None => None case Some(ts) => Some([token] + ts)
  }

  // ---- Quoting is undone by the shell

  function Attach(value: string, word: Option<(string, string)>): Option<(string, string)>
  {
    match word case None => None case Some((more, rest)) => Some((value + more, rest))
  }

  lemma {:induction false} EscapedInQuotes(value: string, rest: string)
    ensures InQuotes(EscapeQuotes(value) + ("'" + rest)) == Attach(value, Word(rest))
  {
    var s := EscapeQuotes(value) + ("'" + rest);
    if value == "" {
      assert s == "'" + rest && s[1..] == rest;
      if Word(rest).Some? {
        assert "" + Word(rest).value.0 == Word(rest).value.0;
      }
    } else {
      var more := EscapeQuotes(value[1..]) + ("'" + rest);
      EscapedInQuotes(value[1..], rest);
      HeadAndTail(value);
      if Word(rest).Some? {
        Assoc([value[0]], value[1..], Word(rest).value.0);
      }
      if value[0] == '\'' {
        Assoc("'\\''", EscapeQuotes(value[1..]), "'" + rest);
        assert s[0] == '\'' && s[1..] == "\\''" + more;
        EscapedQuote(more);
      } else {
        Assoc([value[0]], EscapeQuotes(value[1..]), "'" + rest);
        assert s[1..] == more;
      }
    }
  }

  lemma EscapedQuote(more: string)
    ensures Word("\\''" + more) == Prepend('\'', InQuotes(more))
  {
    var s := "\\''" + more;
    assert s[2..] == "'" + more && ("'" + more)[1..] == more;
  }

  lemma QuoteOpens(t: string)
    ensures Word("'" + t) == InQuotes(t)
  {
    assert ("'" + t)[1..] == t;
  }

  lemma QuotedThen(escaped: string, rest: string)
    ensures "'" + escaped + "'" + rest == "'" + (escaped + ("'" + rest))
  {
    Assoc("'" + escaped, "'", rest);
    Assoc("'", escaped, "'" + rest);
  }

  lemma DelimiterEnds(value: string, rest: string)
    requires rest == "" || IsDelimiter(rest[0])
    ensures Attach(value, Word(rest)) == Some((value, rest))
  {
    assert value + "" == value;
  }

  /** A quoted string is read as exactly itself, as a word of its own or as part of one. */
  lemma QuotedIsOneWord(value: string, rest: string)
    ensures Word(Quote(value) + rest) == Attach(value, Word(rest))
    ensures rest == "" || IsDelimiter(rest[0]) ==> Word(Quote(value) + rest) == Some((value, rest))
  {
    QuotedThen(EscapeQuotes(value), rest);
    QuoteOpens(EscapeQuotes(value) + ("'" + rest));
    EscapedInQuotes(value, rest);
    if rest == "" || IsDelimiter(rest[0]) {
      DelimiterEnds(value, rest);
    }
  }

  // ---- A whole command

  function Onto(first: seq<Token>, tokens: Option<seq<Token>>): Option<seq<Token>>
  {
    match tokens case None => None case Some(ts) => Some(first + ts)
  }

  predicate IsPlain(word: string)
  {
    forall i :: 0 <= i < |word| ==> !IsDelimiter(word[i]) && !IsUnread(word[i]) && word[i] != '\'' && word[i] != '\\'
  }

  predicate StartsApart(rest: string)
  {
    rest == "" || IsDelimiter(rest[0])
  }

  lemma {:induction false} PlainWord(word: string, rest: string)
    requires IsPlain(word) && StartsApart(rest)
    ensures Word(word + rest) == Some((word, rest))
  {
    if word == "" {
      assert word + rest == rest;
    } else {
      PlainWord(word[1..], rest);
      assert (word + rest)[1..] == word[1..] + rest;
      HeadAndTail(word);
    }
  }

  lemma PlainToken(word: string, rest: string)
    requires word != "" && IsPlain(word) && StartsApart(rest)
    ensures Tokens(word + rest) == Onto([Argument(word)], Tokens(rest))
  {
    PlainWord(word, rest);
  }

  lemma QuotedToken(value: string, rest: string)
    requires StartsApart(rest)
    ensures Tokens(Quote(value) + rest) == Onto([Argument(value)], Tokens(rest))
  {
    QuotedIsOneWord(value, rest);
  }

  lemma Separators(rest: string)
    ensures Tokens(" " + rest) == Tokens(rest)
    ensures Tokens(";" + rest) == Onto([Semicolon], Tokens(rest))
    ensures Tokens("&&" + rest) == Onto([AndIf], Tokens(rest))
  {
    assert (" " + rest)[1..] == rest && (";" + rest)[1..] == rest && ("&&" + rest)[2..] == rest;
  }

  lemma BlankAfter(word: string, rest: string)
    requires word != "" && IsPlain(word)
    ensures Tokens(word + (" " + rest)) == Onto([Argument(word)], Tokens(rest))
  {
    Separators(rest);
    PlainToken(word, " " + rest);
  }

  lemma OntoOnto(first: seq<Token>, second: seq<Token>, tokens: Option<seq<Token>>)
    ensures Onto(first, Onto(second, tokens)) == Onto(first + second, tokens)
  {
    if tokens.Some? {
      Assoc(first, second, tokens.value);
    }
  }

  lemma BlankBefore(word: string, rest: string)
    requires word != "" && IsPlain(word)
    ensures Tokens(" " + (word + (" " + rest))) == Onto([Argument(word)], Tokens(rest))
  {
    Separators(word + (" " + rest));
    BlankAfter(word, rest);
  }

  /** " [ <flag> <quoted> ]" and what follows. */
  lemma OneTest(flag: string, value: string, rest: string)
    requires flag != "" && IsPlain(flag) && StartsApart(rest)
    ensures Tokens(" " + ("[" + (" " + (flag + (" " + (Quote(value) + (" " + ("]" + rest)))))))) ==
              Onto([Argument("["), Argument(flag)] + [Argument(value), Argument("]")], Tokens(rest))
  {
    var quoted := Quote(value) + (" " + ("]" + rest));
    BlankBefore("[", flag + (" " + quoted));
    BlankAfter(flag, quoted);
    TestClosed(value, rest);
    OntoOnto([Argument(flag)], [Argument(value), Argument("]")], Tokens(rest));
    OntoOnto([Argument("[")], [Argument(flag)] + [Argument(value), Argument("]")], Tokens(rest));
    assert [Argument("[")] + ([Argument(flag)] + [Argument(value), Argument("]")]) ==
           [Argument("["), Argument(flag)] + [Argument(value), Argument("]")];
  }

  lemma TestClosed(value: string, rest: string)
    requires StartsApart(rest)
    ensures Tokens(Quote(value) + (" " + ("]" + rest))) == Onto([Argument(value), Argument("]")], Tokens(rest))
  {
    Separators("]" + rest);
    PlainToken("]", rest);
    QuotedToken(value, " " + ("]" + rest));
    OntoOnto([Argument(value)], [Argument("]")], Tokens(rest));
    assert [Argument(value)] + [Argument("]")] == [Argument(value), Argument("]")];
  }

  lemma CommandWord(word: string, rest: string)
    requires word != "" && IsPlain(word)
    ensures Tokens("; " + (word + (" " + rest))) == Onto([Semicolon, Argument(word)], Tokens(rest))
  {
    var tail := word + (" " + rest);
    assert "; " + tail == ";" + (" " + tail);
    Separators(" " + tail);
    Separators(tail);
    BlankAfter(word, rest);
    OntoOnto([Semicolon], [Argument(word)], Tokens(rest));
    assert [Semicolon] + [Argument(word)] == [Semicolon, Argument(word)];
  }

  /** "; <command> <quoted>" and what follows. */
  lemma OneArgument(command: string, value: string, rest: string)
    requires command != "" && IsPlain(command) && StartsApart(rest)
    ensures Tokens("; " + (command + (" " + (Quote(value) + rest)))) ==
              Onto([Semicolon, Argument(command), Argument(value)], Tokens(rest))
  {
    CommandWord(command, Quote(value) + rest);
    QuotedToken(value, rest);
    OntoOnto([Semicolon, Argument(command)], [Argument(value)], Tokens(rest));
    assert [Semicolon, Argument(command)] + [Argument(value)] == [Semicolon, Argument(command), Argument(value)];
  }

  /** "; <keyword> printf <quoted>" and what follows: how both branches of the command start. */
  lemma PrintMarker(keyword: string, marker: string, rest: string)
    requires keyword != "" && IsPlain(keyword) && StartsApart(rest)
    ensures Tokens("; " + (keyword + (" printf " + (Quote(marker) + rest)))) ==
              Onto([Semicolon, Argument(keyword), Argument("printf"), Argument(marker)], Tokens(rest))
  {
    var quoted := Quote(marker) + rest;
    assert " printf " + quoted == " " + ("printf" + (" " + quoted));
    CommandWord(keyword, "printf" + (" " + quoted));
    BlankAfter("printf", quoted);
    QuotedToken(marker, rest);
    OntoOnto([Argument("printf")], [Argument(marker)], Tokens(rest));
    OntoOnto([Semicolon, Argument(keyword)], [Argument("printf")] + [Argument(marker)], Tokens(rest));
    assert [Semicolon, Argument(keyword)] + ([Argument("printf")] + [Argument(marker)]) ==
           [Semicolon, Argument(keyword), Argument("printf"), Argument(marker)];
  }

  function Complaint(remote: string): string
  {
    "remote open " + remote + ": no such file or directory"
  }

  const OK_MARKER := "\\001OK\\002"
  const NO_MARKER := "\\001NO\\002"

  /** The command's tail from the second branch on, and from the first branch on. */
  function ElseBranch(remote: string): string
  {
    "; " + ("else" + (" printf " + (Quote(NO_MARKER) +
      ("; " + ("printf" + (" " + (Quote(Complaint(remote)) + "; fi")))))))
  }

  function ThenBranch(remote: string): string
  {
    "; " + ("then" + (" printf " + (Quote(OK_MARKER) +
      ("; " + ("cat" + (" " + (Quote(remote) + ElseBranch(remote))))))))
  }

  /** A test of the path: " [ <flag> <path> ]". */
  function TestText(flag: string, remote: string, rest: string): string
  {
    " " + ("[" + (" " + (flag + (" " + (Quote(remote) + (" " + ("]" + rest)))))))
  }

  function PullFileCommand(remote: string): string
  {
    "if" + TestText("-r", remote, " " + ("&&" + TestText("-f", remote, ThenBranch(remote))))
  }

  function ElseTokens(remote: string): seq<Token>
  {
    [Semicolon, Argument("else"), Argument("printf"), Argument(NO_MARKER)] +
    ([Semicolon, Argument("printf"), Argument(Complaint(remote))] + [Semicolon, Argument("fi")])
  }

  function ThenTokens(remote: string): seq<Token>
  {
    [Semicolon, Argument("then"), Argument("printf"), Argument(OK_MARKER)] +
    ([Semicolon, Argument("cat"), Argument(remote)] + ElseTokens(remote))
  }

  function TestTokens(flag: string, remote: string): seq<Token>
  {
    [Argument("["), Argument(flag)] + [Argument(remote), Argument("]")]
  }

  lemma FiTokens()
    ensures Tokens("; fi") == Some([Semicolon, Argument("fi")])
  {
    assert "; fi" == ";" + (" " + "fi") && "fi" + "" == "fi";
    Separators(" " + "fi");
    Separators("fi");
    PlainToken("fi", "");
    assert [Argument("fi")] + [] == [Argument("fi")];
    assert [Semicolon] + [Argument("fi")] == [Semicolon, Argument("fi")];
  }

  lemma ElseRead(remote: string)
    ensures Tokens(ElseBranch(remote)) == Some(ElseTokens(remote)) && StartsApart(ElseBranch(remote))
  {
    FiTokens();
    OneArgument("printf", Complaint(remote), "; fi");
    PrintMarker("else", NO_MARKER, "; " + ("printf" + (" " + (Quote(Complaint(remote)) + "; fi"))));
  }

  lemma ThenRead(remote: string, otherwise: string, tokens: seq<Token>)
    requires Tokens(otherwise) == Some(tokens) && StartsApart(otherwise)
    ensures Tokens("; " + ("then" +
              (" printf " + (Quote(OK_MARKER) + ("; " + ("cat" + (" " + (Quote(remote) + otherwise)))))))) ==
              Some([Semicolon, Argument("then"), Argument("printf"), Argument(OK_MARKER)] +
                   ([Semicolon, Argument("cat"), Argument(remote)] + tokens))
  {
    OneArgument("cat", remote, otherwise);
    PrintMarker("then", OK_MARKER, "; " + ("cat" + (" " + (Quote(remote) + otherwise))));
  }

  lemma TestsRead(remote: string, rest: string)
    requires StartsApart(rest)
    ensures Tokens("if" + TestText("-r", remote, " " + ("&&" + TestText("-f", remote, rest)))) ==
              Onto([Argument("if")], Onto(TestTokens("-r", remote),
                Onto([AndIf], Onto(TestTokens("-f", remote), Tokens(rest)))))
  {
    var second := "&&" + TestText("-f", remote, rest);
    OneTest("-f", remote, rest);
    Separators(TestText("-f", remote, rest));
    Separators(second);
    OneTest("-r", remote, " " + second);
    PlainToken("if", TestText("-r", remote, " " + second));
  }

  lemma PullTokens(remote: string)
    ensures Tokens(PullFileCommand(remote)) ==
              Some([Argument("if")] + (TestTokens("-r", remote) +
                ([AndIf] + (TestTokens("-f", remote) + ThenTokens(remote)))))
  {
    ElseRead(remote);
    ThenRead(remote, ElseBranch(remote), ElseTokens(remote));
    TestsRead(remote, ThenBranch(remote));
  }

  /** Whatever the path, the device's shell reads the same command, with the path itself as the file tested and read. */
  lemma PullCommandTokens(remote: string)
    ensures
      Tokens(PullFileCommand(remote)) == Some(
        [Argument("if")] + (([Argument("["), Argument("-r")] + [Argument(remote), Argument("]")]) +
        ([AndIf] + (([Argument("["), Argument("-f")] + [Argument(remote), Argument("]")]) +
        ([Semicolon, Argument("then"), Argument("printf"), Argument("\\001OK\\002")] +
        ([Semicolon, Argument("cat"), Argument(remote)] +
        ([Semicolon, Argument("else"), Argument("printf"), Argument("\\001NO\\002")] +
        ([Semicolon, Argument("printf"), Argument("remote open " + remote + ": no such file or directory")] +
        [Semicolon, Argument("fi")]))))))))
  {
    PullTokens(remote);
  }
}
