/**
 Shell quoting of template values (shquote, internal/bootstrap/funcs.go), read back
 by the quoting rules of the POSIX shell: sections 2.2.1 (escape character) and 2.2.2
 (single quotes) of POSIX.1-2017 XCU, and the splitting of unquoted blanks into words.

 Everything else the shell may do with an unquoted character (expansion, operators,
 comments, patterns, a newline ending the command) is one answer, `Active`: a value
 that reaches it has escaped its quotes.
 */
module ShellQuote {

  const NUL := 0 as char
  const QUOTE := '\''
  const BACKSLASH := '\\'

  /** strings.ReplaceAll(s, "'", `'\''`). */
  function EscapeQuotes(s: string): string {
    if s == "" then ""
    else (if s[0] == QUOTE then [QUOTE, BACKSLASH, QUOTE, QUOTE] else [s[0]]) + EscapeQuotes(s[1..])
  }

  function ShQuote(s: string): string {
    [QUOTE] + EscapeQuotes(s) + [QUOTE]
  }

  /** Where the reader is: between words, in the unquoted part of a word, or in single quotes. */
  datatype Mode = Between | Unquoted | Quoted

  datatype ReadResult = Words(words: seq<string>) | Unterminated | Active | NoNul

  predicate IsBlank(c: char) {
    c == ' ' || c == '\t'
  }

  /** The characters an unquoted word may hold with no meaning of their own. */
  predicate IsPlain(c: char) {
    || 'a' <= c <= 'z'
    || 'A' <= c <= 'Z'
    || '0' <= c <= '9'
    || c in "-_./,:@+"
  }

  /** Reads the rest of a command line; `done` are the words read, `word` the one being read. */
  function Read(input: string, mode: Mode, done: seq<string>, word: string): ReadResult
    decreases |input|
  {
    if input == "" then
      match mode
      case Between => Words(done)
      case Unquoted => Words(done + [word])
      case Quoted => Unterminated
    else
      var c, rest := input[0], input[1..];
      if c == NUL then NoNul
      else if mode == Quoted then
        if c == QUOTE then Read(rest, Unquoted, done, word)
        else Read(rest, Quoted, done, word + [c])
      else if c == QUOTE then Read(rest, Quoted, done, word)
      else if c == BACKSLASH then
        if rest == "" then Unterminated
        else if rest[0] == NUL then NoNul
        else if rest[0] == '\n' then Read(rest[1..], mode, done, word)
        else Read(rest[1..], Unquoted, done, word + [rest[0]])
      else if IsBlank(c) then
        if mode == Between then Read(rest, Between, done, word)
        else Read(rest, Between, done + [word], "")
      else if IsPlain(c) then Read(rest, Unquoted, done, word + [c])
      else Active
  }

  /** The words of a whole line. */
  function ReadLine(line: string): ReadResult {
    Read(line, Between, [], "")
  }

  /** From inside the quotes, the escaped text and the closing quote add exactly the text
      to the word, whatever follows. */
  lemma {:induction false} ReadEscaped(s: string, rest: string, done: seq<string>, word: string)
    requires NUL !in s
    ensures Read(EscapeQuotes(s) + [QUOTE] + rest, Quoted, done, word) == Read(rest, Unquoted, done, word + s)
    decreases |s|
  {
    var tail := EscapeQuotes(s) + [QUOTE] + rest;
    if s == "" {
      assert tail[1..] == rest;
      assert word + s == word;
    } else {
      var after := EscapeQuotes(s[1..]) + [QUOTE] + rest;
      ReadEscaped(s[1..], rest, done, word + [s[0]]);
      assert word + [s[0]] + s[1..] == word + s;
      if s[0] == QUOTE {
        assert tail == [QUOTE, BACKSLASH, QUOTE, QUOTE] + after;
        assert tail[1..] == [BACKSLASH, QUOTE, QUOTE] + after;
        assert tail[1..][1..] == [QUOTE, QUOTE] + after;
        assert tail[1..][1..][1..] == [QUOTE] + after;
        assert tail[1..][1..][1..][1..] == after;
        assert Read(tail[1..][1..][1..], Unquoted, done, word + [QUOTE]) == Read(after, Quoted, done, word + [QUOTE]);
      } else {
        assert tail == [s[0]] + after;
        assert tail[1..] == after;
      }
    }
  }

  /** Quoted text can stand anywhere a word can be read or is being read: it appends exactly
      itself, and nothing of it is active. */
  lemma QuotedInContext(s: string, rest: string, mode: Mode, done: seq<string>, word: string)
    requires NUL !in s && mode != Quoted
    ensures Read(ShQuote(s) + rest, mode, done, word) == Read(rest, Unquoted, done, word + s)
  {
    var line := ShQuote(s) + rest;
    assert line[1..] == EscapeQuotes(s) + [QUOTE] + rest;
    ReadEscaped(s, rest, done, word);
  }

  /** A text with a NUL never reads back, in or out of quotes. */
  lemma {:induction false} NulRefused(s: string, rest: string, done: seq<string>, word: string)
    requires NUL in s
    ensures Read(EscapeQuotes(s) + [QUOTE] + rest, Quoted, done, word) == NoNul
    decreases |s|
  {
    var tail := EscapeQuotes(s) + [QUOTE] + rest;
    if s[0] != NUL {
      var after := EscapeQuotes(s[1..]) + [QUOTE] + rest;
      NulRefused(s[1..], rest, done, word + [s[0]]);
      if s[0] == QUOTE {
        assert tail == [QUOTE, BACKSLASH, QUOTE, QUOTE] + after;
        assert tail[1..][1..][1..][1..] == after;
        assert Read(tail[1..][1..][1..], Unquoted, done, word + [QUOTE]) == Read(after, Quoted, done, word + [QUOTE]);
      } else {
        assert tail[1..] == after;
      }
    }
  }

  /** The quoted form of a string reads as one word, the string itself, exactly when the
      string holds no NUL. */
  lemma QuoteReadsBack(s: string)
    ensures ReadLine(ShQuote(s)) == Words([s]) <==> NUL !in s
  {
    if NUL !in s {
      QuotedInContext(s, "", Between, [], "");
      assert ShQuote(s) + "" == ShQuote(s);
      assert "" + s == s;
    } else {
      NulRefused(s, "", [], "");
      assert ShQuote(s)[1..] == EscapeQuotes(s) + [QUOTE] + "";
    }
  }

  function QuoteAll(args: seq<string>): string {
    if args == [] then "" else ShQuote(args[0]) + [' '] + QuoteAll(args[1..])
  }

  /** Any argument list, each argument quoted and followed by a blank, is read back as
      that list: no argument can end another or add one. */
  lemma {:induction false} QuotedArgumentsReadBack(args: seq<string>, done: seq<string>)
    requires forall a | a in args :: NUL !in a
    ensures Read(QuoteAll(args), Between, done, "") == Words(done + args)
    decreases |args|
  {
    if args == [] {
      assert done + args == done;
    } else {
      var rest := [' '] + QuoteAll(args[1..]);
      assert QuoteAll(args) == ShQuote(args[0]) + rest;
      QuotedInContext(args[0], rest, Between, done, "");
      assert "" + args[0] == args[0];
      assert rest[1..] == QuoteAll(args[1..]);
      QuotedArgumentsReadBack(args[1..], done + [args[0]]);
      assert done + [args[0]] + args[1..] == done + args;
    }
  }

  /** Quoting loses nothing, with or without a NUL. */
  lemma {:induction false} EscapeInjective(a: string, b: string)
    requires EscapeQuotes(a) + [QUOTE] == EscapeQuotes(b) + [QUOTE]
    ensures a == b
  {
    var ea, eb := EscapeQuotes(a) + [QUOTE], EscapeQuotes(b) + [QUOTE];
    if a == "" || b == "" {
      assert |ea| == |eb|;
    } else {
      assert ea[0] == eb[0];
      assert a[0] == b[0];
      var k := if a[0] == QUOTE then 4 else 1;
      assert ea[k..] == EscapeQuotes(a[1..]) + [QUOTE];
      assert eb[k..] == EscapeQuotes(b[1..]) + [QUOTE];
      EscapeInjective(a[1..], b[1..]);
      assert a == [a[0]] + a[1..] && b == [b[0]] + b[1..];
    }
  }
}
