/** The quoting of db/mysql/mysql.go and db/cassandra/cassandra.go, and the
    scanners of the two servers that read it back. */
module Quoting {
  import opened Wrappers
  import opened Text

  /** `quoteLiteral` and `quoteIdentifier` of CQL: the quote is doubled, as section
      5.3 of ISO/IEC 9075-2 asks. */
  function Quote(quote: char, s: string): string {
    [quote] + ReplaceAll(s, quote, [quote, quote]) + [quote]
  }

  /** `quoteLiteralMysql`: first the quotes are doubled, then the backslashes. */
  function QuoteMysql(s: string): string {
    "'" + ReplaceAll(ReplaceAll(s, '\'', "''"), '\\', "\\\\") + "'"
  }

  /** What a backslash and the character after it stand for in a MySQL literal. */
  function Unescape(c: char): string {
    match c
    case '0' => [0 as char]
    case 'b' => [8 as char]
    case 'n' => "\n"
    case 'r' => "\r"
    case 't' => "\t"
    case 'Z' => [26 as char]
    case '%' => "\\%"
    case '_' => "\\_"
    case _ => [c]
  }

  /** Reads the body of a quoted text up to its closing quote: the value, and the
      text behind the quote. `backslashes` is MySQL's default mode; without it, and
      in CQL, a backslash is an ordinary character. */
  function Scan(quote: char, backslashes: bool, s: string): Option<(string, string)> {
    if s == "" then
      None
    else if s[0] == quote && (|s| == 1 || s[1] != quote) then
      Some(("", s[1..]))
    else if s[0] == quote || (backslashes && s[0] == '\\') then
      if |s| == 1 then None else
      var value := if s[0] == quote then [quote] else Unescape(s[1]);
      Prefixed(value, Scan(quote, backslashes, s[2..]))
    else
      Prefixed([s[0]], Scan(quote, backslashes, s[1..]))
  }

  function Prefixed(value: string, rest: Option<(string, string)>): Option<(string, string)> {
    if rest.None? then None else Some((value + rest.value.0, rest.value.1))
  }

  function ScanQuoted(quote: char, backslashes: bool, s: string): Option<(string, string)> {
    if s != "" && s[0] == quote then Scan(quote, backslashes, s[1..]) else None
  }

  function EscapedChar(quote: char, backslashes: bool, c: char): string {
    if c == quote || (backslashes && c == '\\') then [c, c] else [c]
  }

  /** One pass over the characters, for the two chained replacements. */
  function Escaped(quote: char, backslashes: bool, s: string): string {
    if s == "" then
      ""
    else
      EscapedChar(quote, backslashes, s[0]) + Escaped(quote, backslashes, s[1..])
  }

  lemma {:induction false} ReplaceIsEscape(quote: char, s: string)
    ensures ReplaceAll(s, quote, [quote, quote]) == Escaped(quote, false, s)
  {
    if s != "" {
      ReplaceIsEscape(quote, s[1..]);
    }
  }

  lemma {:induction false} ChainedReplaceIsEscape(s: string)
    ensures ReplaceAll(ReplaceAll(s, '\'', "''"), '\\', "\\\\") == Escaped('\'', true, s)
  {
    if s != "" {
      ChainedReplaceIsEscape(s[1..]);
      var head := if s[0] == '\'' then "''" else [s[0]];
      ReplaceAllConcat(head, ReplaceAll(s[1..], '\'', "''"), '\\', "\\\\");
      assert head[1..] == (if s[0] == '\'' then "'" else "");
      assert ReplaceAll(head, '\\', "\\\\") == (if s[0] == '\'' then "''" else if s[0] == '\\' then "\\\\" else head);
    }
  }

  lemma {:induction false} ScanEscaped(quote: char, backslashes: bool, s: string, rest: string)
    requires quote != '\\'
    requires rest != "" ==> rest[0] != quote
    ensures Scan(quote, backslashes, Escaped(quote, backslashes, s) + [quote] + rest) == Some((s, rest))
  {
    if s == "" {
      assert ([quote] + rest)[1..] == rest;
      assert Escaped(quote, backslashes, s) + [quote] + rest == [quote] + rest;
    } else {
      var c, more := s[0], Escaped(quote, backslashes, s[1..]) + [quote] + rest;
      ScanEscaped(quote, backslashes, s[1..], rest);
      ScanOne(quote, backslashes, c, more);
      assert [c] + s[1..] == s;
      Regrouped(EscapedChar(quote, backslashes, c), Escaped(quote, backslashes, s[1..]), [quote], rest);
    }
  }

  lemma Regrouped(a: string, b: string, c: string, d: string)
    ensures (a + b) + c + d == a + (b + c + d)
  {
  }

  lemma ScanOne(quote: char, backslashes: bool, c: char, more: string)
    requires quote != '\\'
    ensures Scan(quote, backslashes, EscapedChar(quote, backslashes, c) + more)
         == Prefixed([c], Scan(quote, backslashes, more))
  {
    assert ([c, c] + more)[2..] == more && ([c] + more)[1..] == more;
  }

  lemma ScanOpened(quote: char, backslashes: bool, s: string, rest: string)
    requires quote != '\\'
    requires rest != "" ==> rest[0] != quote
    ensures ScanQuoted(quote, backslashes, [quote] + Escaped(quote, backslashes, s) + [quote] + rest) == Some((s, rest))
  {
    var text := [quote] + Escaped(quote, backslashes, s) + [quote] + rest;
    assert text[1..] == Escaped(quote, backslashes, s) + [quote] + rest;
    ScanEscaped(quote, backslashes, s, rest);
  }

  /** What is scanned is never longer than the text it was scanned from. */
  lemma {:induction false} ScanConsumes(quote: char, backslashes: bool, s: string)
    ensures Scan(quote, backslashes, s).Some? ==>
      && var rest := Scan(quote, backslashes, s).value.1;
      && |rest| < |s|
      && rest == s[|s| - |rest|..]
      && (rest != "" ==> rest[0] != quote)
  {
    if s != "" && !(s[0] == quote && (|s| == 1 || s[1] != quote)) {
      if s[0] == quote || (backslashes && s[0] == '\\') {
        if |s| > 1 { ScanConsumes(quote, backslashes, s[2..]); }
      } else {
        ScanConsumes(quote, backslashes, s[1..]);
      }
    }
  }

  /** The CQL quoters: for every text, the scanner reads exactly what was quoted and
      stops there, if and only if no further quote follows. */
  lemma CqlRoundTrip(quote: char, s: string, rest: string)
    requires quote == '"' || quote == '\''
    ensures ScanQuoted(quote, false, Quote(quote, s) + rest) == Some((s, rest))
       <==> (rest == "" || rest[0] != quote)
  {
    ReplaceIsEscape(quote, s);
    var text := Quote(quote, s) + rest;
    assert text[1..] == Escaped(quote, false, s) + [quote] + rest;
    if rest == "" || rest[0] != quote {
      ScanEscaped(quote, false, s, rest);
    } else {
      ScanConsumes(quote, false, text[1..]);
    }
  }

  lemma QuotedInFull()
    ensures QuoteMysql("a") == "'a'" && QuoteMysql("'") == "''''" && QuoteMysql("\\") == "'\\\\'"
    ensures Quote('"', "\"") == "\"\"\"\"" && Quote('\'', "'") == "''''"
  {
    assert ReplaceAll("''", '\\', "\\\\") == "''" by {
      assert "''"[1..] == "'";
    }
  }

  lemma MysqlRoundTrip(s: string, rest: string)
    ensures ScanQuoted('\'', true, QuoteMysql(s) + rest) == Some((s, rest))
       <==> (rest == "" || rest[0] != '\'')
  {
    ChainedReplaceIsEscape(s);
    var text := QuoteMysql(s) + rest;
    assert text[1..] == Escaped('\'', true, s) + ['\''] + rest;
    if rest == "" || rest[0] != '\'' {
      ScanEscaped('\'', true, s, rest);
    } else {
      ScanConsumes('\'', true, text[1..]);
    }
  }

  lemma EscapedFirst(quote: char, backslashes: bool, c: char, more: string)
    ensures Escaped(quote, backslashes, [c] + more)
         == EscapedChar(quote, backslashes, c) + Escaped(quote, backslashes, more)
  {
    assert ([c] + more)[1..] == more;
  }

  lemma {:induction false} EscapedTwice(s: string)
    ensures Escaped('\'', true, s) == Escaped('\'', false, ReplaceAll(s, '\\', "\\\\"))
  {
    if s != "" {
      EscapedTwice(s[1..]);
      var more := ReplaceAll(s[1..], '\\', "\\\\");
      EscapedFirst('\'', false, s[0], more);
      if s[0] == '\\' {
        EscapedFirst('\'', false, '\\', ['\\'] + more);
        assert ReplaceAll(s, '\\', "\\\\") == ['\\'] + (['\\'] + more);
      } else {
        assert ReplaceAll(s, '\\', "\\\\") == [s[0]] + more;
      }
    }
  }

  lemma {:induction false} DoublingShows(s: string)
    ensures ReplaceAll(s, '\\', "\\\\") == s <==> '\\' !in s
    ensures |ReplaceAll(s, '\\', "\\\\")| >= |s|
  {
    if s != "" {
      DoublingShows(s[1..]);
      var more := ReplaceAll(s[1..], '\\', "\\\\");
      assert s == [s[0]] + s[1..];
      assert s[0] != '\\' ==> ReplaceAll(s, '\\', "\\\\") == [s[0]] + more && ([s[0]] + more)[1..] == more;
      assert s[0] == '\\' ==> |ReplaceAll(s, '\\', "\\\\")| == 2 + |more|;
    }
  }

  /** A server in NO_BACKSLASH_ESCAPES mode reads the literal as a different text
      whenever the original has a backslash, though it still stops at its end. */
  lemma MysqlWithoutBackslashEscapes(s: string, rest: string)
    requires rest != "" ==> rest[0] != '\''
    ensures ScanQuoted('\'', false, QuoteMysql(s) + rest) == Some((ReplaceAll(s, '\\', "\\\\"), rest))
    ensures ScanQuoted('\'', false, QuoteMysql(s) + rest) == Some((s, rest)) <==> '\\' !in s
  {
    ChainedReplaceIsEscape(s);
    EscapedTwice(s);
    DoublingShows(s);
    var doubled := ReplaceAll(s, '\\', "\\\\");
    ScanOpened('\'', false, doubled, rest);
  }

  /** `ALTER USER %s@%s IDENTIFIED BY %s` with its three literals. */
  function AlterUser(user: string, host: string, password: string): string {
    "ALTER USER " + QuoteMysql(user) + "@" + QuoteMysql(host) + " IDENTIFIED BY " + QuoteMysql(password)
  }

  /** Reads the three literals of the statement back. */
  function ScanAlterUser(s: string): Option<(string, string, string)> {
    var user := Literal("ALTER USER ", s);
    var host := if user.None? then None else Literal("@", user.value.1);
    var password := if host.None? then None else Literal(" IDENTIFIED BY ", host.value.1);
    if password.None? || password.value.1 != "" then
      None
    else
      Some((user.value.0, host.value.0, password.value.0))
  }

  function Literal(keyword: string, s: string): Option<(string, string)> {
    if keyword <= s then ScanQuoted('\'', true, s[|keyword|..]) else None
  }

  lemma LiteralReadsBack(keyword: string, s: string, rest: string)
    requires rest != "" ==> rest[0] != '\''
    ensures Literal(keyword, keyword + QuoteMysql(s) + rest) == Some((s, rest))
  {
    var text := keyword + QuoteMysql(s) + rest;
    assert keyword <= text && text[|keyword|..] == QuoteMysql(s) + rest;
    MysqlRoundTrip(s, rest);
  }

  /** No user, host or password, whatever it holds, can change what the statement
      says: the server reads the three given texts and nothing more. */
  lemma AlterUserSaysWhatItWasGiven(user: string, host: string, password: string)
    ensures ScanAlterUser(AlterUser(user, host, password)) == Some((user, host, password))
  {
    var u, h, p := QuoteMysql(user), QuoteMysql(host), QuoteMysql(password);
    var afterHost := " IDENTIFIED BY " + p;
    var afterUser := "@" + h + afterHost;
    assert AlterUser(user, host, password) == "ALTER USER " + u + afterUser;
    assert afterHost == " IDENTIFIED BY " + p + "";
    assert afterHost[0] == ' ' && afterUser[0] == '@';
    LiteralReadsBack("ALTER USER ", user, afterUser);
    LiteralReadsBack("@", host, afterHost);
    LiteralReadsBack(" IDENTIFIED BY ", password, "");
  }
}
