/**
 shellQuote (internal/gateway/virtual_tools.go) against a tokenizer that follows the
 quoting rules of sections 2.2.1 to 2.2.3 of the POSIX.1-2017 Shell Command Language.
 */
module ShellQuote {
  import opened Collections

  // ---------- the program ----------

  // strings.ReplaceAll of a single quote.
  function ReplaceQuotes(s: string): string {
    if s == "" then ""
    else (if s[0] == '\'' then "'\"'\"'" else [s[0]]) + ReplaceQuotes(s[1..])
  }

  function Quote(s: string): string {
    "'" + ReplaceQuotes(s) + "'"
  }

  // The command that the Python-block branch of parseToolCall builds.
  function PythonCommand(code: string): string {
    "python3 -c " + Quote(code)
  }

  // ---------- the shell ----------

  // A character of a word, and whether quoting took its special meaning away.
  datatype Letter = Quoted(c: char) | Unquoted(c: char)

  type Word = seq<Letter>

  datatype Mode = Plain | Single | Double

  predicate IsBlank(c: char) {
    c == ' ' || c == '\t'
  }

  // Unquoted, these end the word or start something other than a word (2.2, 2.3, 2.6).
  predicate IsSpecial(c: char) {
    c in "|&;<>()$`\n"
  }

  function Begun(cur: Option<Word>): Word {
    if cur.Some? then cur.value else []
  }

  function Finished(done: seq<Word>, cur: Option<Word>): seq<Word> {
    if cur.Some? then done + [cur.value] else done
  }

  /** The words of a simple command; None for unterminated quotes, NUL, operators,
      comments and expansions. */
  function Lex(s: string, mode: Mode, cur: Option<Word>, done: seq<Word>): Option<seq<Word>>
    decreases |s|
  {
    if s == "" then
      if mode == Plain then Some(Finished(done, cur)) else None
    else if s[0] == '\0' then None
    else
      var c, rest := s[0], s[1..];
      match mode
      case Single =>
        if c == '\'' then Lex(rest, Plain, cur, done)
        else Lex(rest, Single, Some(Begun(cur) + [Quoted(c)]), done)
      case Double =>
        if c == '"' then Lex(rest, Plain, cur, done)
        else if c == '$' || c == '`' then None
        else if c == '\\' && rest != "" && rest[0] in "$`\"\\" then
          Lex(rest[1..], Double, Some(Begun(cur) + [Quoted(rest[0])]), done)
        else if c == '\\' && rest != "" && rest[0] == '\n' then Lex(rest[1..], Double, cur, done)
        else Lex(rest, Double, Some(Begun(cur) + [Quoted(c)]), done)
      case Plain =>
        if c == '\'' then Lex(rest, Single, Some(Begun(cur)), done)
        else if c == '"' then Lex(rest, Double, Some(Begun(cur)), done)
        else if c == '\\' then
          if rest == "" || rest[0] == '\0' then None
          else if rest[0] == '\n' then Lex(rest[1..], Plain, cur, done)
          else Lex(rest[1..], Plain, Some(Begun(cur) + [Quoted(rest[0])]), done)
        else if IsBlank(c) then Lex(rest, Plain, None, Finished(done, cur))
        else if IsSpecial(c) || (c == '#' && cur.None?) then None
        else Lex(rest, Plain, Some(Begun(cur) + [Unquoted(c)]), done)
  }

  function ShellWords(command: string): Option<seq<Word>> {
    Lex(command, Plain, None, [])
  }

  // The word whose characters are all literal.
  function AllQuoted(s: string): (w: Word)
    ensures |w| == |s| && forall i :: 0 <= i < |s| ==> w[i] == Quoted(s[i])
  {
    seq(|s|, i requires 0 <= i < |s| => Quoted(s[i]))
  }

  function AllUnquoted(s: string): (w: Word)
    ensures |w| == |s| && forall i :: 0 <= i < |s| ==> w[i] == Unquoted(s[i])
  {
    seq(|s|, i requires 0 <= i < |s| => Unquoted(s[i]))
  }

  predicate NulFree(s: string) {
    forall i :: 0 <= i < |s| ==> s[i] != '\0'
  }

  // ---------- the round trip ----------

  // One character inside single quotes.
  lemma LexSingle(c: char, rest: string, cur: Option<Word>, done: seq<Word>)
    requires c != '\0' && c != '\''
    ensures Lex([c] + rest, Single, cur, done) == Lex(rest, Single, Some(Begun(cur) + [Quoted(c)]), done)
  {
    assert ([c] + rest)[1..] == rest;
  }

  lemma LexClosingQuote(rest: string, w: Word, done: seq<Word>)
    ensures Lex("'" + rest, Single, Some(w), done) == Lex(rest, Plain, Some(w), done)
  {
    assert ("'" + rest)[1..] == rest;
  }

  lemma LexOpeningQuote(rest: string, w: Word, done: seq<Word>)
    ensures Lex("'" + rest, Plain, Some(w), done) == Lex(rest, Single, Some(w), done)
    ensures Lex("\"" + rest, Plain, Some(w), done) == Lex(rest, Double, Some(w), done)
  {
    assert ("'" + rest)[1..] == rest && ("\"" + rest)[1..] == rest;
  }

  lemma LexDouble(rest: string, w: Word, done: seq<Word>)
    ensures Lex("\"" + rest, Double, Some(w), done) == Lex(rest, Plain, Some(w), done)
    ensures Lex("'" + rest, Double, Some(w), done) == Lex(rest, Double, Some(w + [Quoted('\'')]), done)
  {
    assert ("'" + rest)[1..] == rest && ("\"" + rest)[1..] == rest;
  }

  // The five characters that stand for a single quote.
  lemma LexEscapedQuote(rest: string, w: Word, done: seq<Word>)
    ensures Lex("'\"'\"'" + rest, Single, Some(w), done) == Lex(rest, Single, Some(w + [Quoted('\'')]), done)
  {
    hide Lex;
    var after := w + [Quoted('\'')];
    var s4 := "'" + rest;
    var s3 := "\"" + s4;
    var s2 := "'" + s3;
    var s1 := "\"" + s2;
    assert "'\"'\"'" + rest == "'" + s1;
    LexClosingQuote(s1, w, done);
    LexOpeningQuote(s2, w, done);
    LexDouble(s3, w, done);
    LexDouble(s4, after, done);
    LexOpeningQuote(rest, after, done);
  }

  lemma ReplaceStep(s: string, rest: string)
    requires s != ""
    ensures ReplaceQuotes(s) + rest ==
      (if s[0] == '\'' then "'\"'\"'" else [s[0]]) + (ReplaceQuotes(s[1..]) + rest)
  {
  }

  lemma QuotedStep(w: Word, s: string)
    ensures s == "" ==> w + AllQuoted(s) == w
    ensures s != "" ==> w + [Quoted(s[0])] + AllQuoted(s[1..]) == w + AllQuoted(s)
  {
  }

  lemma {:induction false} LexReplaced(s: string, rest: string, w: Word, done: seq<Word>)
    requires NulFree(s)
    ensures Lex(ReplaceQuotes(s) + ("'" + rest), Single, Some(w), done)
         == Lex(rest, Plain, Some(w + AllQuoted(s)), done)
  {
    hide Lex;
    hide AllQuoted;
    QuotedStep(w, s);
    if s == "" {
      LexClosingQuote(rest, w, done);
      assert ReplaceQuotes(s) + ("'" + rest) == "'" + rest;
    } else {
      ReplaceStep(s, "'" + rest);
      hide ReplaceQuotes;
      var tail := ReplaceQuotes(s[1..]) + ("'" + rest);
      if s[0] == '\'' {
        LexEscapedQuote(tail, w, done);
      } else {
        LexSingle(s[0], tail, Some(w), done);
      }
      LexReplaced(s[1..], rest, w + [Quoted(s[0])], done);
    }
  }

  lemma LexQuote(s: string, done: seq<Word>)
    requires NulFree(s)
    ensures Lex(Quote(s), Plain, None, done) == Some(done + [AllQuoted(s)])
  {
    var inner := ReplaceQuotes(s) + "'";
    assert Quote(s) == "'" + inner && Quote(s)[1..] == inner;
    assert "'" + "" == "'";
    LexReplaced(s, "", [], done);
    assert [] + AllQuoted(s) == AllQuoted(s);
  }

  /** Quoting round trip: a shell reads the quoted string as one word, equal to the string,
      with no unquoted character. */
  lemma QuoteRoundTrip(s: string)
    requires NulFree(s)
    ensures ShellWords(Quote(s)) == Some([AllQuoted(s)])
  {
    LexQuote(s, []);
    assert [] + [AllQuoted(s)] == [AllQuoted(s)];
  }

  // A string with a NUL keeps it through quoting, and no shell command can hold one.
  lemma {:induction false} NulStops(s: string, rest: string, w: Word, done: seq<Word>)
    requires !NulFree(s)
    ensures Lex(ReplaceQuotes(s) + rest, Single, Some(w), done) == None
  {
    var tail := ReplaceQuotes(s[1..]) + rest;
    ReplaceStep(s, rest);
    if s[0] != '\0' {
      hide Lex;
      NulLater(s);
      if s[0] == '\'' {
        LexEscapedQuote(tail, w, done);
      } else {
        LexSingle(s[0], tail, Some(w), done);
      }
      NulStops(s[1..], rest, w + [Quoted(s[0])], done);
    }
  }

  lemma NulLater(s: string)
    requires !NulFree(s) && s[0] != '\0'
    ensures !NulFree(s[1..])
  {
    var i :| 0 <= i < |s| && s[i] == '\0';
    assert s[1..][i - 1] == '\0';
  }

  /** The round trip holds exactly for NUL-free strings. */
  lemma QuoteRoundTripIffNulFree(s: string)
    ensures ShellWords(Quote(s)) == Some([AllQuoted(s)]) <==> NulFree(s)
  {
    if NulFree(s) {
      QuoteRoundTrip(s);
    } else {
      LexQuoteOfNul(s, []);
    }
  }

  /** A single quote becomes five characters: the quotes close, it stands in double quotes, and they
      open again. */
  lemma QuoteExample()
    ensures Quote("it's") == "'it'\"'\"'s'" && PythonCommand("1") == "python3 -c '1'"
  {
    assert "it's"[1..] == "t's" && "t's"[1..] == "'s" && "'s"[1..] == "s" && "s"[1..] == "" && "1"[1..] == "";
    assert ReplaceQuotes("s") == "s";
    assert ReplaceQuotes("'s") == "'\"'\"'" + "s";
    assert ReplaceQuotes("t's") == "t" + ("'\"'\"'" + "s");
  }

  // ---------- the Python block ----------

  predicate IsWordLetter(c: char) {
    'a' <= c <= 'z' || '0' <= c <= '9' || c == '-'
  }

  lemma LexLetter(c: char, rest: string, cur: Option<Word>, done: seq<Word>)
    requires IsWordLetter(c)
    ensures Lex([c] + rest, Plain, cur, done) == Lex(rest, Plain, Some(Begun(cur) + [Unquoted(c)]), done)
  {
    assert ([c] + rest)[1..] == rest;
    assert !IsSpecial(c) && !IsBlank(c);
  }

  lemma LexSpace(rest: string, w: Word, done: seq<Word>)
    ensures Lex(" " + rest, Plain, Some(w), done) == Lex(rest, Plain, None, done + [w])
  {
    assert (" " + rest)[1..] == rest;
  }

  lemma {:induction false} LexPlainWord(s: string, rest: string, w: Word, done: seq<Word>)
    requires forall i :: 0 <= i < |s| ==> IsWordLetter(s[i])
    ensures Lex(s + rest, Plain, Some(w), done) == Lex(rest, Plain, Some(w + AllUnquoted(s)), done)
  {
    hide Lex;
    if s == "" {
      assert s + rest == rest && w + AllUnquoted(s) == w;
    } else {
      assert s + rest == [s[0]] + (s[1..] + rest);
      LexLetter(s[0], s[1..] + rest, Some(w), done);
      LexPlainWord(s[1..], rest, w + [Unquoted(s[0])], done);
      assert w + [Unquoted(s[0])] + AllUnquoted(s[1..]) == w + AllUnquoted(s);
    }
  }

  lemma LexWordThenBlank(s: string, rest: string, done: seq<Word>)
    requires s != "" && forall i :: 0 <= i < |s| ==> IsWordLetter(s[i])
    ensures Lex(s + " " + rest, Plain, None, done) == Lex(rest, Plain, None, done + [AllUnquoted(s)])
  {
    hide Lex;
    var tail := " " + rest;
    assert s + " " + rest == [s[0]] + (s[1..] + tail);
    LexLetter(s[0], s[1..] + tail, None, done);
    assert Begun(None) + [Unquoted(s[0])] == [Unquoted(s[0])];
    LexPlainWord(s[1..], tail, [Unquoted(s[0])], done);
    assert [Unquoted(s[0])] + AllUnquoted(s[1..]) == AllUnquoted(s);
    LexSpace(rest, AllUnquoted(s), done);
  }

  // The shell reads python3 and -c, and goes on with what follows.
  lemma CommandStarts(code: string)
    ensures ShellWords(PythonCommand(code))
         == Lex(Quote(code), Plain, None, [AllUnquoted("python3"), AllUnquoted("-c")])
  {
    hide Lex, Quote, AllUnquoted;
    var q := Quote(code);
    var python, option := "python3", "-c";
    assert "python3 -c " == python + " " + (option + " ");
    assert PythonCommand(code) == python + " " + (option + " " + q);
    LexWordThenBlank(python, option + " " + q, []);
    var one := [AllUnquoted(python)];
    assert [] + one == one;
    LexWordThenBlank(option, q, one);
    assert one + [AllUnquoted(option)] == [AllUnquoted(python), AllUnquoted(option)];
  }

  // A string with a NUL makes any command that quotes it unreadable.
  lemma LexQuoteOfNul(s: string, done: seq<Word>)
    requires !NulFree(s)
    ensures Lex(Quote(s), Plain, None, done) == None
  {
    assert Quote(s)[1..] == ReplaceQuotes(s) + "'";
    NulStops(s, "'", [], done);
  }

  /** The generated command runs python3 with -c and the code, character for character, exactly
      when the code has no NUL. */
  lemma PythonCommandWords(code: string)
    ensures ShellWords(PythonCommand(code)) == Some([AllUnquoted("python3"), AllUnquoted("-c"), AllQuoted(code)])
      <==> NulFree(code)
  {
    var two := [AllUnquoted("python3"), AllUnquoted("-c")];
    CommandStarts(code);
    hide Lex, Quote, AllUnquoted, AllQuoted, ShellWords;
    if NulFree(code) {
      LexQuote(code, two);
      assert two + [AllQuoted(code)] == [AllUnquoted("python3"), AllUnquoted("-c"), AllQuoted(code)];
    } else {
      LexQuoteOfNul(code, two);
    }
  }
}
