/**
 * The container tester inserts each sample review with its own
 * `INSERT INTO order_reviews VALUES (..., '{comment}', ...)` statement, so it
 * first escapes the single quotes of the comment with `comment.replace("'", "\\'")`
 * (docker_performance_tester.py, `create_sample_data`).
 */
module DockerSample {
  import opened Text
  import opened Seqs
  import SampleTables

  /** `s.replace("'", "\\'")`: every single quote gets a backslash in front of it. */
  function EscapeQuotes(s: string): string
  {
    if s == [] then []
    else (if s[0] == '\'' then ['\\', '\''] else [s[0]]) + EscapeQuotes(s[1..])
  }

  /**
   * What MySQL reads for the escape sequence `\c` inside a quoted string
   * (section 11.1.1, "String Literals", of the MySQL 8.0 Reference Manual): the
   * listed letters stand for control characters, `\%` and `\_` keep their
   * backslash, and any other character stands for itself.
   */
  function EscapedChar(c: char): string
  {
    if c == '0' then ['\0']
    else if c == 'b' then ['\U{8}']
    else if c == 'n' then ['\n']
    else if c == 'r' then ['\r']
    else if c == 't' then ['\t']
    else if c == 'Z' then ['\U{1A}']
    else if c == '%' || c == '_' then ['\\', c]
    else [c]
  }

  /**
   * MySQL reading the text that follows the opening `'` of a string literal:
   * a backslash escapes the next character, `''` stands for one quote, and any
   * other `'` ends the literal. The result is the string read and the index of
   * the closing quote, or `None` when the text ends inside the literal.
   */
  function ReadBody(r: string): Option<(string, nat)>
    decreases |r|
  {
    if r == [] then None
    else if r[0] == '\\' then
      if |r| == 1 then None
      else match ReadBody(r[2..])
        case None => None
        case Some((body, close)) => Some((EscapedChar(r[1]) + body, close + 2))
    else if r[0] == '\'' then
      if |r| >= 2 && r[1] == '\'' then
        match ReadBody(r[2..])
        case None => None
        case Some((body, close)) => Some((['\''] + body, close + 2))
      else Some(([], 0))
    else
      match ReadBody(r[1..])
      case None => None
      case Some((body, close)) => Some(([r[0]] + body, close + 1))
  }

  /** Escaping works character by character: it distributes over concatenation. */
  lemma {:induction false} EscapeConcat(a: string, b: string)
    ensures EscapeQuotes(a + b) == EscapeQuotes(a) + EscapeQuotes(b)
  {
    if a != [] {
      assert (a + b)[0] == a[0];
      assert (a + b)[1..] == a[1..] + b;
      EscapeConcat(a[1..], b);
    } else {
      assert a + b == b;
    }
  }

  /** The escaped text is longer by exactly the number of quotes. */
  lemma {:induction false} EscapeLength(s: string)
    ensures |EscapeQuotes(s)| == |s| + CountChar('\'', s)
  {
    if s != [] {
      EscapeLength(s[1..]);
      assert s == [s[0]] + s[1..];
      assert multiset(s) == multiset([s[0]]) + multiset(s[1..]);
    }
  }

  /** A text without quotes is left as it is. */
  lemma {:induction false} EscapeNoQuote(s: string)
    requires '\'' !in s
    ensures EscapeQuotes(s) == s
  {
    if s != [] {
      assert s[0] in s;
      assert forall c :: c in s[1..] ==> c in s;
      EscapeNoQuote(s[1..]);
      assert [s[0]] + s[1..] == s;
    }
  }

  /** The escaped text never starts with a quote. */
  lemma EscapeHead(s: string)
    ensures EscapeQuotes(s) != [] ==> EscapeQuotes(s)[0] != '\''
  {
  }

  /**
   * Every quote of the escaped text has a backslash right before it. (That
   * alone does not keep the literal closed: see `BackslashDefeatsEscaping`.)
   */
  lemma {:induction false} EscapedQuotesArePreceded(s: string)
    ensures var r := EscapeQuotes(s);
      forall i :: 0 <= i < |r| && r[i] == '\'' ==> i > 0 && r[i - 1] == '\\'
  {
    if s != [] {
      EscapedQuotesArePreceded(s[1..]);
      EscapeHead(s[1..]);
      var head: string := if s[0] == '\'' then ['\\', '\''] else [s[0]];
      var tail := EscapeQuotes(s[1..]);
      var r := head + tail;
      assert EscapeQuotes(s) == r;
      forall i | 0 <= i < |r| && r[i] == '\''
        ensures i > 0 && r[i - 1] == '\\'
      {
        if i >= |head| {
          assert r[i] == tail[i - |head|];
          if i > |head| {
            assert r[i - 1] == tail[i - 1 - |head|];
          }
        }
      }
    }
  }

  /**
   * For a comment without backslashes the escaping works: placed between quotes
   * in the statement, MySQL reads exactly the comment back, and the literal ends
   * at the closing quote the statement puts after it (which the next column's
   * `, ` follows, not another quote).
   */
  lemma {:induction false} ReadBackEscaped(s: string, rest: string)
    requires '\\' !in s
    requires rest == [] || rest[0] != '\''
    ensures ReadBody(EscapeQuotes(s) + ['\''] + rest) == Some((s, |EscapeQuotes(s)|))
  {
    if s == [] {
      assert EscapeQuotes(s) + ['\''] + rest == ['\''] + rest;
    } else {
      var c, t := s[0], s[1..];
      assert '\\' !in t by {
        assert s == [c] + t;
      }
      var tail := EscapeQuotes(t);
      var after := tail + ['\''] + rest;
      var head: string := if c == '\'' then ['\\', '\''] else [c];
      ReadBackEscaped(t, rest);
      assert EscapeQuotes(s) + ['\''] + rest == head + after;
      ReadHead(c, after, t, |tail|);
      assert [c] + t == s;
    }
  }

  /** One escaped character in front of the text is read back as that character. */
  lemma ReadHead(c: char, after: string, body: string, close: nat)
    requires c != '\\'
    requires ReadBody(after) == Some((body, close))
    ensures var head: string := if c == '\'' then ['\\', '\''] else [c];
      ReadBody(head + after) == Some(([c] + body, close + |head|))
  {
    if c == '\'' {
      ReadEscape('\'', after, body, close);
    } else {
      ReadCons(c, after, body, close);
    }
  }

  /**
   * A backslash defeats the escaping. The comment `\'` becomes `\\'`, which
   * MySQL reads as an escaped backslash followed by the quote; that quote and
   * the closing one form `''`, so the literal runs on into the next column and
   * is closed by that column's opening quote.
   */
  lemma BackslashDefeatsEscaping()
    ensures EscapeQuotes(['\\', '\'']) == ['\\', '\\', '\'']
    ensures ReadBody(EscapeQuotes(['\\', '\'']) + "', 5, 'x')") == Some((['\\', '\'', ',', ' ', '5', ',', ' '], 9))
  {
    EscapeBackslashQuote();
    ReadRunsOn();
  }

  lemma EscapeBackslashQuote()
    ensures EscapeQuotes(['\\', '\'']) == ['\\', '\\', '\'']
  {
    var s: string := ['\\', '\''];
    assert s[1..] == ['\''];
    assert s[1..][1..] == [];
    assert EscapeQuotes(s[1..]) == ['\\', '\''];
  }

  /** The statement text after the opening quote of the comment `\'`, as MySQL reads it. */
  lemma ReadRunsOn()
    ensures ReadBody(['\\', '\\', '\''] + "', 5, 'x')") == Some((['\\', '\'', ',', ' ', '5', ',', ' '], 9))
  {
    var t0: string := "'x')";
    assert ReadBody(t0) == Some(([], 0));
    var t1, b1 := [' '] + t0, [' '] + [];
    ReadCons(' ', t0, [], 0);
    var t2, b2 := [','] + t1, [','] + b1;
    ReadCons(',', t1, b1, 1);
    var t3, b3 := ['5'] + t2, ['5'] + b2;
    ReadCons('5', t2, b2, 2);
    var t4, b4 := [' '] + t3, [' '] + b3;
    ReadCons(' ', t3, b3, 3);
    var t5, b5 := [','] + t4, [','] + b4;
    ReadCons(',', t4, b4, 4);
    var t6, b6 := ['\'', '\''] + t5, ['\''] + b5;
    ReadDoubledQuote(t5, b5, 5);
    ReadEscape('\\', t6, b6, 7);
    assert ['\\', '\\', '\''] + "', 5, 'x')" == ['\\', '\\'] + t6;
    assert EscapedChar('\\') + b6 == ['\\', '\'', ',', ' ', '5', ',', ' '];
  }

  /** An escape sequence is read as the character it stands for, two positions further from the closing quote. */
  lemma ReadEscape(c: char, t: string, body: string, close: nat)
    requires ReadBody(t) == Some((body, close))
    ensures ReadBody(['\\', c] + t) == Some((EscapedChar(c) + body, close + 2))
  {
    assert (['\\', c] + t)[2..] == t;
  }

  /** A doubled quote is read as one quote, two positions further from the closing quote. */
  lemma ReadDoubledQuote(t: string, body: string, close: nat)
    requires ReadBody(t) == Some((body, close))
    ensures ReadBody(['\'', '\''] + t) == Some((['\''] + body, close + 2))
  {
    assert (['\'', '\''] + t)[2..] == t;
  }

  /** An ordinary character is read as itself, one position further from the closing quote. */
  lemma ReadCons(c: char, t: string, body: string, close: nat)
    requires c != '\\' && c != '\''
    requires ReadBody(t) == Some((body, close))
    ensures ReadBody([c] + t) == Some(([c] + body, close + 1))
  {
    assert ([c] + t)[1..] == t;
  }

  /** None of the ten review comments holds a quote, so the escaping leaves each of them unchanged. */
  lemma ReviewCommentsUnchanged(k: SampleTables.CommentChoice)
    ensures EscapeQuotes(SampleTables.ReviewComments[k]) == SampleTables.ReviewComments[k]
  {
    var c := SampleTables.ReviewComments[k];
    QuoteFree(k);
    EscapeNoQuote(c);
  }

  /**
   * Each review comment, escaped and placed in the `INSERT` statement, is read
   * back by MySQL exactly, and its literal ends at the statement's closing quote.
   */
  lemma ReviewCommentsReadBack(k: SampleTables.CommentChoice, rest: string)
    requires rest == [] || rest[0] != '\''
    ensures var c := SampleTables.ReviewComments[k]; var close: nat := |c|;
      ReadBody(EscapeQuotes(c) + ['\''] + rest) == Some((c, close))
  {
    var c := SampleTables.ReviewComments[k];
    QuoteFree(k);
    ReadBackEscaped(c, rest);
    EscapeNoQuote(c);
  }

  /** The review comments, one at a time, contain neither a single quote nor a backslash. */
  lemma QuoteFree(k: SampleTables.CommentChoice)
    ensures '\'' !in SampleTables.ReviewComments[k] && '\\' !in SampleTables.ReviewComments[k]
  {
    var c := SampleTables.ReviewComments[k];
    // The ten literals are checked two at a time only to keep each proof obligation small.
    if k < 2 {
      FirstPairQuoteFree(k);
    } else if k < 4 {
      SecondPairQuoteFree(k);
    } else if k < 6 {
      ThirdPairQuoteFree(k);
    } else if k < 8 {
      FourthPairQuoteFree(k);
    } else {
      FifthPairQuoteFree(k);
    }
    assert forall i :: 0 <= i < |c| ==> c[i] != '\'' && c[i] != '\\';
  }

  lemma FirstPairQuoteFree(k: SampleTables.CommentChoice)
    requires k < 2
    ensures var c := SampleTables.ReviewComments[k]; forall i :: 0 <= i < |c| ==> c[i] != '\'' && c[i] != '\\'
  {
  }

  lemma SecondPairQuoteFree(k: SampleTables.CommentChoice)
    requires 2 <= k < 4
    ensures var c := SampleTables.ReviewComments[k]; forall i :: 0 <= i < |c| ==> c[i] != '\'' && c[i] != '\\'
  {
  }

  lemma ThirdPairQuoteFree(k: SampleTables.CommentChoice)
    requires 4 <= k < 6
    ensures var c := SampleTables.ReviewComments[k]; forall i :: 0 <= i < |c| ==> c[i] != '\'' && c[i] != '\\'
  {
  }

  lemma FourthPairQuoteFree(k: SampleTables.CommentChoice)
    requires 6 <= k < 8
    ensures var c := SampleTables.ReviewComments[k]; forall i :: 0 <= i < |c| ==> c[i] != '\'' && c[i] != '\\'
  {
  }

  lemma FifthPairQuoteFree(k: SampleTables.CommentChoice)
    requires 8 <= k < 10
    ensures var c := SampleTables.ReviewComments[k]; forall i :: 0 <= i < |c| ==> c[i] != '\'' && c[i] != '\\'
  {
  }
}
