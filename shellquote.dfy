/**
 * Python's `shlex.quote`, used to build the `%cd` / `%Run` shell lines, and
 * its reading side: POSIX shell word splitting as `shlex.split` performs it
 * (blanks separate words, single quotes are literal, double quotes honour a
 * backslash before `"` or `\`, a backslash outside quotes escapes the next
 * character, no comments). The reading side is the partner against which
 * quoting is proved correct.
 */
module ShellQuote {
  import opened Wrappers
  import opened PyStr

  /** The characters `shlex.quote` leaves unquoted: ASCII `\w` and `@%+=:,./-`. */
  predicate IsSafeChar(c: char) {
    ('a' <= c <= 'z') || ('A' <= c <= 'Z') || ('0' <= c <= '9') ||
    c == '_' || c == '@' || c == '%' || c == '+' || c == '=' ||
    c == ':' || c == ',' || c == '.' || c == '/' || c == '-'
  }

  predicate IsSafe(s: string) {
    forall i :: 0 <= i < |s| ==> IsSafeChar(s[i])
  }

  /** `s.replace("'", "'\"'\"'")`: every single quote closes the quoting, is emitted inside double quotes, and reopens it. */
  function EscapeQuotes(s: string): string {
    if s == [] then ""
    else (if s[0] == '\'' then "'\"'\"'" else [s[0]]) + EscapeQuotes(s[1..])
  }

  /** `shlex.quote(s)`. */
  function Quote(s: string): (r: string)
    ensures r != []
    ensures s != [] && IsSafe(s) ==> r == s
  {
    if s == [] then "''"
    else if IsSafe(s) then s
    else "'" + EscapeQuotes(s) + "'"
  }

  /** The blanks that separate shell words. */
  predicate IsBlank(c: char) {
    c == ' ' || c == '\t' || c == '\n' || c == '\r'
  }

  predicate AtWordEnd(s: string) {
    s == [] || IsBlank(s[0])
  }

  /** Reads the rest of a word (outside quotes) after `acc`; yields the word and the unread text, or None on a dangling escape or an unclosed quote. */
  function ReadWord(s: string, acc: string): (r: Option<(string, string)>)
    ensures r.Some? ==> |r.value.1| <= |s| && AtWordEnd(r.value.1)
    ensures r.Some? && !AtWordEnd(s) ==> |r.value.1| < |s|
    decreases |s|
  {
    if AtWordEnd(s) then Some((acc, s))
    else if s[0] == '\'' then ReadSingle(s[1..], acc)
    else if s[0] == '"' then ReadDouble(s[1..], acc)
    else if s[0] == '\\' then (if |s| < 2 then None else ReadWord(s[2..], acc + [s[1]]))
    else ReadWord(s[1..], acc + [s[0]])
  }

  /** Inside single quotes: everything up to the next `'` is literal. */
  function ReadSingle(s: string, acc: string): (r: Option<(string, string)>)
    ensures r.Some? ==> |r.value.1| < |s| && AtWordEnd(r.value.1)
    decreases |s|
  {
    if s == [] then None
    else if s[0] == '\'' then ReadWord(s[1..], acc)
    else ReadSingle(s[1..], acc + [s[0]])
  }

  /** Inside double quotes: a backslash escapes only `"` and `\`. */
  function ReadDouble(s: string, acc: string): (r: Option<(string, string)>)
    ensures r.Some? ==> |r.value.1| < |s| && AtWordEnd(r.value.1)
    decreases |s|
  {
    if s == [] then None
    else if s[0] == '"' then ReadWord(s[1..], acc)
    else if s[0] == '\\' then
      (if |s| < 2 then None
       else if s[1] == '"' || s[1] == '\\' then ReadDouble(s[2..], acc + [s[1]])
       else ReadDouble(s[2..], acc + ['\\', s[1]]))
    else ReadDouble(s[1..], acc + [s[0]])
  }

  /** `shlex.split(s)`: the words of a shell line, or None when it is malformed. */
  function SplitWords(s: string): Option<seq<string>>
    decreases |s|
  {
    if s == [] then Some([])
    else if IsBlank(s[0]) then SplitWords(s[1..])
    else
      match ReadWord(s, "")
      case None => None
      case Some((w, rest)) => Prepend([w], SplitWords(rest))
  }

  /** `ws` in front of a successful split; a failed split stays failed. */
  function Prepend(ws: seq<string>, r: Option<seq<string>>): Option<seq<string>> {
    match r
    case None => None
    case Some(more) => Some(ws + more)
  }

  /** `" " + quote(a)` for every element, in order: the argument part of a shell line. */
  function QuotedTail(args: seq<string>): string {
    if args == [] then "" else " " + Quote(args[0]) + QuotedTail(args[1..])
  }

  /** Appending one argument to the tail, as the source's loop does. */
  lemma {:induction false} QuotedTailSnoc(args: seq<string>, a: string)
    ensures QuotedTail(args + [a]) == QuotedTail(args) + " " + Quote(a)
  {
    if args == [] {
      assert [] + [a] == [a];
      assert QuotedTail([a]) == " " + Quote(a) + QuotedTail([]);
    } else {
      assert (args + [a])[1..] == args[1..] + [a];
      QuotedTailSnoc(args[1..], a);
    }
  }

  /** The tail of the first `i + 1` arguments extends the tail of the first `i`. */
  lemma QuotedTailStep(args: seq<string>, i: int)
    requires 0 <= i < |args|
    ensures QuotedTail(args[..i + 1]) == QuotedTail(args[..i]) + (" " + Quote(args[i]))
  {
    assert args[..i + 1] == args[..i] + [args[i]];
    QuotedTailSnoc(args[..i], args[i]);
  }

  // One step of the reader at a time.

  lemma WordEnd(s: string, acc: string)
    requires AtWordEnd(s)
    ensures ReadWord(s, acc) == Some((acc, s))
  {
  }

  lemma WordLiteral(c: char, more: string, acc: string)
    requires !IsBlank(c) && c != '\'' && c != '"' && c != '\\'
    ensures ReadWord([c] + more, acc) == ReadWord(more, acc + [c])
  {
    assert ([c] + more)[1..] == more;
  }

  lemma WordOpensSingle(more: string, acc: string)
    ensures ReadWord("'" + more, acc) == ReadSingle(more, acc)
  {
    assert ("'" + more)[1..] == more;
  }

  lemma WordOpensDouble(more: string, acc: string)
    ensures ReadWord("\"" + more, acc) == ReadDouble(more, acc)
  {
    assert ("\"" + more)[1..] == more;
  }

  lemma SingleCloses(more: string, acc: string)
    ensures ReadSingle("'" + more, acc) == ReadWord(more, acc)
  {
    assert ("'" + more)[1..] == more;
  }

  lemma SingleLiteral(c: char, more: string, acc: string)
    requires c != '\''
    ensures ReadSingle([c] + more, acc) == ReadSingle(more, acc + [c])
  {
    assert ([c] + more)[1..] == more;
  }

  lemma DoubleCloses(more: string, acc: string)
    ensures ReadDouble("\"" + more, acc) == ReadWord(more, acc)
  {
    assert ("\"" + more)[1..] == more;
  }

  lemma DoubleLiteral(c: char, more: string, acc: string)
    requires c != '"' && c != '\\'
    ensures ReadDouble([c] + more, acc) == ReadDouble(more, acc + [c])
  {
    assert ([c] + more)[1..] == more;
  }

  lemma SplitSkipsBlank(c: char, more: string)
    requires IsBlank(c)
    ensures SplitWords([c] + more) == SplitWords(more)
  {
    assert ([c] + more)[1..] == more;
  }

  lemma SplitTakesWord(s: string, w: string, rest: string)
    requires !AtWordEnd(s) && ReadWord(s, "") == Some((w, rest))
    ensures SplitWords(s) == Prepend([w], SplitWords(rest))
  {
  }

  /** Unquoted safe characters are read literally. */
  lemma {:induction false} ReadSafe(x: string, rest: string, acc: string)
    requires IsSafe(x) && AtWordEnd(rest)
    ensures ReadWord(x + rest, acc) == Some((acc + x, rest))
    decreases |x|
  {
    if x == [] {
      assert x + rest == rest && acc + x == acc;
      WordEnd(rest, acc);
    } else {
      assert x + rest == [x[0]] + (x[1..] + rest);
      assert IsSafeChar(x[0]);
      WordLiteral(x[0], x[1..] + rest, acc);
      ReadSafe(x[1..], rest, acc + [x[0]]);
      assert acc + [x[0]] + x[1..] == acc + x;
    }
  }

  /** An escaped single quote, `'"'"'`, inside single quotes reads as one `'`. */
  lemma SingleEscapedQuote(more: string, acc: string)
    ensures ReadSingle("'\"'\"'" + more, acc) == ReadSingle(more, acc + "'")
  {
    assert "'\"'\"'" + more == "'" + ("\"" + ("'" + ("\"" + ("'" + more))));
    SingleCloses("\"" + ("'" + ("\"" + ("'" + more))), acc);
    WordOpensDouble("'" + ("\"" + ("'" + more)), acc);
    DoubleLiteral('\'', "\"" + ("'" + more), acc);
    DoubleCloses("'" + more, acc + "'");
    WordOpensSingle(more, acc + "'");
  }

  /** Escaping a non-empty text escapes its first character, then the rest. */
  lemma EscapeQuotesCons(x: string, rest: string)
    requires x != []
    ensures EscapeQuotes(x) + "'" + rest ==
      (if x[0] == '\'' then "'\"'\"'" else [x[0]]) + (EscapeQuotes(x[1..]) + "'" + rest)
  {
  }

  /** The body of a single-quoted token, with its escapes, reads back as the original text. */
  lemma {:induction false} ReadEscaped(x: string, rest: string, acc: string)
    requires AtWordEnd(rest)
    ensures ReadSingle(EscapeQuotes(x) + "'" + rest, acc) == Some((acc + x, rest))
    decreases |x|
  {
    if x == [] {
      assert EscapeQuotes(x) + "'" + rest == "'" + rest;
      SingleCloses(rest, acc);
      WordEnd(rest, acc);
      assert acc + x == acc;
    } else {
      var more := EscapeQuotes(x[1..]) + "'" + rest;
      ReadEscaped(x[1..], rest, acc + [x[0]]);
      assert acc + [x[0]] + x[1..] == acc + x;
      EscapeQuotesCons(x, rest);
      if x[0] == '\'' {
        SingleEscapedQuote(more, acc);
      } else {
        SingleLiteral(x[0], more, acc);
      }
    }
  }

  /** The empty word, quoted as `''`, reads back as nothing. */
  lemma ReadEmptyQuote(rest: string, acc: string)
    requires AtWordEnd(rest)
    ensures ReadWord("''" + rest, acc) == Some((acc, rest))
  {
    assert "''" + rest == "'" + ("'" + rest);
    WordOpensSingle("'" + rest, acc);
    SingleCloses(rest, acc);
    WordEnd(rest, acc);
  }

  /** A word wrapped in single quotes, with its quotes escaped, reads back as the word. */
  lemma ReadSingleQuoted(x: string, rest: string, acc: string)
    requires AtWordEnd(rest)
    ensures ReadWord("'" + EscapeQuotes(x) + "'" + rest, acc) == Some((acc + x, rest))
  {
    assert "'" + EscapeQuotes(x) + "'" + rest == "'" + (EscapeQuotes(x) + "'" + rest);
    WordOpensSingle(EscapeQuotes(x) + "'" + rest, acc);
    ReadEscaped(x, rest, acc);
  }

  /** A quoted word followed by a blank or the end reads back as the original word. */
  lemma ReadQuote(x: string, rest: string, acc: string)
    requires AtWordEnd(rest)
    ensures ReadWord(Quote(x) + rest, acc) == Some((acc + x, rest))
  {
    if x == [] {
      ReadEmptyQuote(rest, acc);
      assert acc + x == acc;
    } else if IsSafe(x) {
      ReadSafe(x, rest, acc);
    } else {
      ReadSingleQuoted(x, rest, acc);
    }
  }

  /** Splitting a line that starts with a quoted word yields that word first. */
  lemma SplitQuoted(x: string, rest: string)
    requires AtWordEnd(rest)
    ensures SplitWords(Quote(x) + rest) == Prepend([x], SplitWords(rest))
  {
    var s := Quote(x) + rest;
    ReadQuote(x, rest, "");
    assert "" + x == x;
    assert s[0] == Quote(x)[0];
    if x != [] && IsSafe(x) {
      assert IsSafeChar(x[0]);
    }
    SplitTakesWord(s, x, rest);
  }

  lemma PrependTwice(a: seq<string>, b: seq<string>, r: Option<seq<string>>)
    ensures Prepend(a, Prepend(b, r)) == Prepend(a + b, r)
  {
    if r.Some? {
      assert a + (b + r.value) == (a + b) + r.value;
    }
  }

  /** The argument part of a shell line splits back into the arguments. */
  lemma {:induction false} SplitQuotedTail(args: seq<string>, rest: string)
    requires AtWordEnd(rest)
    ensures SplitWords(QuotedTail(args) + rest) == Prepend(args, SplitWords(rest))
  {
    if args == [] {
      assert QuotedTail(args) + rest == rest;
      var r := SplitWords(rest);
      assert r.Some? ==> args + r.value == r.value;
    } else {
      var inner := QuotedTail(args[1..]) + rest;
      TailStartsBlank(args[1..], rest);
      calc {
        QuotedTail(args) + rest;
        ((" " + Quote(args[0])) + QuotedTail(args[1..])) + rest;
        { AppendAssoc(" " + Quote(args[0]), QuotedTail(args[1..]), rest); }
        (" " + Quote(args[0])) + inner;
        { AppendAssoc(" ", Quote(args[0]), inner); }
        [' '] + (Quote(args[0]) + inner);
      }
      SplitSkipsBlank(' ', Quote(args[0]) + inner);
      SplitQuoted(args[0], inner);
      SplitQuotedTail(args[1..], rest);
      PrependTwice([args[0]], args[1..], SplitWords(rest));
      assert [args[0]] + args[1..] == args;
    }
  }

  lemma TailStartsBlank(args: seq<string>, rest: string)
    requires AtWordEnd(rest)
    ensures AtWordEnd(QuotedTail(args) + rest)
  {
    if args == [] {
      assert QuotedTail(args) + rest == rest;
    } else {
      assert (QuotedTail(args) + rest)[0] == ' ';
    }
  }

  /** The words `ws`, each quoted, separated by single spaces. */
  function QuotedLine(ws: seq<string>): string
    requires ws != []
  {
    Quote(ws[0]) + QuotedTail(ws[1..])
  }

  /** A line of quoted words followed by a blank or the end splits back into exactly those words. */
  lemma QuotedLineRoundTrip(ws: seq<string>, rest: string)
    requires ws != [] && AtWordEnd(rest)
    ensures SplitWords(QuotedLine(ws) + rest) == Prepend(ws, SplitWords(rest))
  {
    var inner := QuotedTail(ws[1..]) + rest;
    AppendAssoc(Quote(ws[0]), QuotedTail(ws[1..]), rest);
    TailStartsBlank(ws[1..], rest);
    SplitQuoted(ws[0], inner);
    SplitQuotedTail(ws[1..], rest);
    PrependTwice([ws[0]], ws[1..], SplitWords(rest));
    assert [ws[0]] + ws[1..] == ws;
  }
}
