/**
 * The Python string operations the scripts rely on, on `string` (= seq<char>):
 * `str.strip()`, `str.split(c)` for a one-character separator, `c.join(..)`,
 * `sub in s`, `str(n)` for a natural number and identifiers of the form f'o{i}'.
 */
module Text {

  /** The characters for which Python's `str.isspace()` holds; `str.strip()` removes these. */
  predicate IsSpace(c: char)
  {
    || ('\t' <= c <= '\r')
    || ('\U{1C}' <= c <= '\U{1F}')
    || c == ' '
    || c == '\U{85}'
    || c == '\U{A0}'
    || c == '\U{1680}'
    || ('\U{2000}' <= c <= '\U{200A}')
    || c == '\U{2028}'
    || c == '\U{2029}'
    || c == '\U{202F}'
    || c == '\U{205F}'
    || c == '\U{3000}'
  }

  /** Every character of `s` is whitespace (the empty string included). */
  predicate Blank(s: string)
  {
    forall i :: 0 <= i < |s| ==> IsSpace(s[i])
  }

  /** Python's `s.lstrip()`: drop the leading whitespace. */
  function TrimStart(s: string): string
  {
    if s != [] && IsSpace(s[0]) then TrimStart(s[1..]) else s
  }

  /** Python's `s.rstrip()`: drop the trailing whitespace. */
  function TrimEnd(s: string): string
  {
    if s != [] && IsSpace(s[|s| - 1]) then TrimEnd(s[..|s| - 1]) else s
  }

  /** `s.lstrip()` is the suffix of `s` after its leading whitespace, and starts with a non-space. */
  lemma {:induction false} TrimStartFacts(s: string)
    ensures |TrimStart(s)| <= |s| && TrimStart(s) == s[|s| - |TrimStart(s)|..]
    ensures forall i :: 0 <= i < |s| - |TrimStart(s)| ==> IsSpace(s[i])
    ensures TrimStart(s) != [] ==> !IsSpace(TrimStart(s)[0])
  {
    if s != [] && IsSpace(s[0]) {
      TrimStartFacts(s[1..]);
      assert forall i :: 1 <= i < |s| ==> s[i] == s[1..][i - 1];
    }
  }

  /** `s.rstrip()` is the prefix of `s` before its trailing whitespace, and ends with a non-space. */
  lemma {:induction false} TrimEndFacts(s: string)
    ensures |TrimEnd(s)| <= |s| && TrimEnd(s) == s[..|TrimEnd(s)|]
    ensures forall i :: |TrimEnd(s)| <= i < |s| ==> IsSpace(s[i])
    ensures TrimEnd(s) != [] ==> !IsSpace(TrimEnd(s)[|TrimEnd(s)| - 1])
  {
    if s != [] && IsSpace(s[|s| - 1]) {
      TrimEndFacts(s[..|s| - 1]);
      assert forall i :: 0 <= i < |s| - 1 ==> s[i] == s[..|s| - 1][i];
    }
  }

  /** Python's `s.strip()`: drop the leading, then the trailing whitespace. */
  function Strip(s: string): string
  {
    TrimEnd(TrimStart(s))
  }

  /**
   * `s.strip()` is empty exactly when `s` is blank; otherwise it neither starts
   * nor ends with whitespace. It is a slice of `s`, so it holds only characters of `s`.
   */
  lemma StripFacts(s: string)
    ensures Strip(s) == [] <==> Blank(s)
    ensures Strip(s) != [] ==> !IsSpace(Strip(s)[0]) && !IsSpace(Strip(s)[|Strip(s)| - 1])
    ensures |Strip(s)| <= |s|
    ensures forall k :: 0 <= k < |Strip(s)| ==> Strip(s)[k] in s
  {
    var t := TrimStart(s);
    var r := TrimEnd(t);
    TrimStartFacts(s);
    TrimEndFacts(t);
    assert forall k :: 0 <= k < |r| ==> r[k] == s[|s| - |t| + k];
    assert r == [] ==> t == [];
  }

  /** The truth value Python gives `s.strip()` in an `if`: some character is not whitespace. */
  predicate NonBlank(s: string)
  {
    Strip(s) != []
  }

  /** The number of occurrences of `c` in `s` (Python's `s.count(c)`). */
  function CountChar(c: char, s: string): nat
  {
    multiset(s)[c]
  }

  /**
   * Python's `s.split(sep)` for a one-character separator: the pieces between
   * consecutive separators.
   */
  function Split(s: string, sep: char): (r: seq<string>)
    ensures |r| >= 1
  {
    if s == [] then [[]]
    else
      var rest := Split(s[1..], sep);
      if s[0] == sep then [[]] + rest
      else [[s[0]] + rest[0]] + rest[1..]
  }

  /** There is one piece more than there are separators, and no piece contains the separator. */
  lemma {:induction false} SplitFacts(s: string, sep: char)
    ensures |Split(s, sep)| == CountChar(sep, s) + 1
    ensures forall i :: 0 <= i < |Split(s, sep)| ==> sep !in Split(s, sep)[i]
  {
    if s != [] {
      SplitFacts(s[1..], sep);
      assert s == [s[0]] + s[1..];
    }
  }

  /** One step of `Split`: the first character either ends the first piece or joins it. */
  lemma SplitCons(c: char, t: string, sep: char)
    ensures Split([c] + t, sep) ==
      if c == sep then [[]] + Split(t, sep) else [[c] + Split(t, sep)[0]] + Split(t, sep)[1..]
  {
    assert ([c] + t)[1..] == t;
  }

  /** Gluing a prefix onto the first piece commutes with appending further pieces. */
  lemma GlueFirst<T>(p: seq<T>, x: seq<seq<T>>, y: seq<seq<T>>)
    requires |x| >= 1
    ensures [p + (x + y)[0]] + (x + y)[1..] == ([p + x[0]] + x[1..]) + y
  {
    assert (x + y)[0] == x[0];
    assert (x + y)[1..] == x[1..] + y;
  }

  /** Splitting two strings glued by the separator gives the pieces of the first, then those of the second. */
  lemma {:induction false} SplitAtSeparator(a: string, b: string, sep: char)
    ensures Split(a + [sep] + b, sep) == Split(a, sep) + Split(b, sep)
  {
    if a == [] {
      assert a + [sep] + b == [sep] + b;
      SplitCons(sep, b, sep);
    } else {
      var c, t := a[0], a[1..];
      var u := t + [sep] + b;
      assert a == [c] + t;
      assert a + [sep] + b == [c] + u;
      var x, y := Split(t, sep), Split(b, sep);
      SplitAtSeparator(t, b, sep);
      assert Split(u, sep) == x + y;
      SplitCons(c, u, sep);
      SplitCons(c, t, sep);
      if c == sep {
        assert Split([c] + u, sep) == [[]] + (x + y);
        assert Split(a, sep) == [[]] + x;
        assert [[]] + (x + y) == ([[]] + x) + y;
      } else {
        assert Split([c] + u, sep) == [[c] + (x + y)[0]] + (x + y)[1..];
        assert Split(a, sep) == [[c] + x[0]] + x[1..];
        GlueFirst([c], x, y);
      }
    }
  }

  /** A string without the separator splits into itself alone. */
  lemma {:induction false} SplitNoSeparator(s: string, sep: char)
    requires sep !in s
    ensures Split(s, sep) == [s]
  {
    if s != [] {
      SplitNoSeparator(s[1..], sep);
      assert [s[0]] + s[1..] == s;
    }
  }

  /** Python's `sep.join(parts)` for a one-character separator. */
  function Join(parts: seq<string>, sep: char): string
  {
    if parts == [] then []
    else if |parts| == 1 then parts[0]
    else parts[0] + [sep] + Join(parts[1..], sep)
  }

  /** Joining the pieces of a split with the same separator gives back the string. */
  lemma {:induction false} JoinSplit(s: string, sep: char)
    ensures Join(Split(s, sep), sep) == s
  {
    if s != [] {
      var rest := Split(s[1..], sep);
      JoinSplit(s[1..], sep);
      if s[0] == sep {
        var parts := [[]] + rest;
        assert Split(s, sep) == parts;
        assert parts[1..] == rest;
        assert Join(parts, sep) == [sep] + Join(rest, sep);
      } else {
        JoinExtendHead(s[0], rest, sep);
      }
      assert s == [s[0]] + s[1..];
    }
  }

  /** Putting a character in front of the first piece puts it in front of the joined text. */
  lemma JoinExtendHead(c: char, parts: seq<string>, sep: char)
    requires |parts| >= 1
    ensures Join([[c] + parts[0]] + parts[1..], sep) == [c] + Join(parts, sep)
  {
    var longer := [[c] + parts[0]] + parts[1..];
    assert longer[0] == [c] + parts[0];
    if |parts| > 1 {
      assert longer[1..] == parts[1..];
      assert ([c] + parts[0]) + [sep] + Join(parts[1..], sep) == [c] + (parts[0] + [sep] + Join(parts[1..], sep));
    }
  }

  /** Python's `sep.join(parts)` for a separator of any length. */
  function JoinSep(parts: seq<string>, sep: string): string
  {
    if parts == [] then []
    else if |parts| == 1 then parts[0]
    else parts[0] + sep + JoinSep(parts[1..], sep)
  }

  /** Python's `s.startswith(prefix)`. */
  predicate StartsWith(s: string, prefix: string)
  {
    |prefix| <= |s| && s[..|prefix|] == prefix
  }

  /** Python's `sub in s` on strings: `sub` occurs in `s` as a contiguous piece. */
  predicate Contains(s: string, sub: string)
  {
    StartsWith(s, sub) || (s != [] && Contains(s[1..], sub))
  }

  /** `sub` occurs in `s` starting at offset `i`. */
  predicate OccursAt(s: string, sub: string, i: int)
  {
    0 <= i <= |s| - |sub| && s[i..i + |sub|] == sub
  }

  /** `Contains` holds exactly when some offset of `s` begins a copy of `sub`. */
  lemma {:induction false} ContainsIff(s: string, sub: string)
    ensures Contains(s, sub) <==> exists i :: OccursAt(s, sub, i)
  {
    if s == [] {
      if Contains(s, sub) {
        assert OccursAt(s, sub, 0);
      }
    } else {
      ContainsIff(s[1..], sub);
      if Contains(s, sub) {
        if StartsWith(s, sub) {
          assert OccursAt(s, sub, 0);
        } else {
          var i :| OccursAt(s[1..], sub, i);
          assert s[i + 1..i + 1 + |sub|] == s[1..][i..i + |sub|];
          assert OccursAt(s, sub, i + 1);
        }
      }
      if exists i :: OccursAt(s, sub, i) {
        var i :| OccursAt(s, sub, i);
        if i == 0 {
          assert StartsWith(s, sub);
        } else {
          assert s[1..][i - 1..i - 1 + |sub|] == s[i..i + |sub|];
          assert OccursAt(s[1..], sub, i - 1);
        }
      }
    }
  }

  /** A string contains every string that it starts with. */
  lemma ContainsPrefix(s: string, sub: string)
    requires StartsWith(s, sub)
    ensures Contains(s, sub)
  {
  }

  /** The decimal digit for `d` < 10. */
  function Digit(d: nat): char
    requires d < 10
  {
    "0123456789"[d]
  }

  /** Python's `str(n)` for a natural number: its decimal digits, without leading zeros. */
  function Dec(n: nat): (r: string)
    ensures |r| >= 1
    ensures n >= 10 <==> |r| >= 2
  {
    if n < 10 then [Digit(n)] else Dec(n / 10) + [Digit(n % 10)]
  }

  /** Different numbers have different decimal renderings. */
  lemma {:induction false} DecInjective(a: nat, b: nat)
    requires Dec(a) == Dec(b)
    ensures a == b
  {
    var da, db := Dec(a), Dec(b);
    if a >= 10 && b >= 10 {
      assert da[..|da| - 1] == Dec(a / 10);
      assert db[..|db| - 1] == Dec(b / 10);
      DecInjective(a / 10, b / 10);
      assert Digit(a % 10) == da[|da| - 1] == db[|db| - 1] == Digit(b % 10);
    } else {
      assert a < 10 && b < 10;
      assert Digit(a) == da[0] == db[0] == Digit(b);
    }
  }

  /** The identifier f'{prefix}{n}' the generators give their rows (o1, c17, p200, ...). */
  function Ident(prefix: string, n: nat): (r: string)
    ensures StartsWith(r, prefix)
  {
    prefix + Dec(n)
  }

  /** Identifiers with the same prefix are equal only for the same number. */
  lemma IdentInjective(prefix: string, a: nat, b: nat)
    requires Ident(prefix, a) == Ident(prefix, b)
    ensures a == b
  {
    assert Dec(a) == Ident(prefix, a)[|prefix|..];
    assert Dec(b) == Ident(prefix, b)[|prefix|..];
    DecInjective(a, b);
  }
}
