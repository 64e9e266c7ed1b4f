/** The handful of Python `str` operations the core relies on: `strip`, `upper`,
    whitespace `split`, `" ".join` and `str(int)`. */
module Text {

  /** Python's `str.isspace()` for one character: ASCII whitespace, the
      information separators U+001C..U+001F and the Unicode space characters. */
  predicate IsSpace(c: char) {
    || c == ' '
    || ('\t' <= c <= '\r')
    || ('\U{1C}' <= c <= '\U{1F}')
    || c == '\U{85}' || c == '\U{A0}' || c == '\U{1680}'
    || ('\U{2000}' <= c <= '\U{200A}')
    || c == '\U{2028}' || c == '\U{2029}' || c == '\U{202F}' || c == '\U{205F}'
    || c == '\U{3000}'
  }

  /** No character of `s` is whitespace. */
  predicate NoSpace(s: string) {
    forall i :: 0 <= i < |s| ==> !IsSpace(s[i])
  }

  /** `s.lstrip()`: drops the leading whitespace and nothing else. */
  function LStrip(s: string): (r: string)
    ensures |r| <= |s| && r == s[|s| - |r|..]
    ensures forall i :: 0 <= i < |s| - |r| ==> IsSpace(s[i])
    ensures |r| > 0 ==> !IsSpace(r[0])
  {
    if |s| > 0 && IsSpace(s[0]) then LStrip(s[1..]) else s
  }

  /** `s.rstrip()`: drops the trailing whitespace and nothing else. */
  function RStrip(s: string): (r: string)
    ensures |r| <= |s| && r == s[..|r|]
    ensures forall i :: |r| <= i < |s| ==> IsSpace(s[i])
    ensures |r| > 0 ==> !IsSpace(r[|r| - 1])
  {
    if |s| > 0 && IsSpace(s[|s| - 1]) then RStrip(s[..|s| - 1]) else s
  }

  /** `s.strip()`. */
  function Strip(s: string): (r: string)
    ensures |r| > 0 ==> !IsSpace(r[0]) && !IsSpace(r[|r| - 1])
    ensures |s| > 0 && !IsSpace(s[0]) && !IsSpace(s[|s| - 1]) ==> r == s
    ensures (forall i :: 0 <= i < |s| ==> IsSpace(s[i])) ==> r == []
  {
    RStrip(LStrip(s))
  }

  /** Upper-casing of one character; only ASCII letters are mapped. */
  function UpperChar(c: char): char {
    if 'a' <= c <= 'z' then (c as int - 'a' as int + 'A' as int) as char else c
  }

  /** `s.upper()`, restricted to ASCII case mapping. */
  function Upper(s: string): (r: string)
    ensures |r| == |s|
  {
    if |s| == 0 then "" else [UpperChar(s[0])] + Upper(s[1..])
  }

  /** Length of the run of non-whitespace characters that starts `s`. */
  function TokenLength(s: string): (k: nat)
    ensures k <= |s|
    ensures forall i :: 0 <= i < k ==> !IsSpace(s[i])
    ensures k < |s| ==> IsSpace(s[k])
  {
    if |s| == 0 || IsSpace(s[0]) then 0 else 1 + TokenLength(s[1..])
  }

  /** `s.split()` with no separator: the maximal runs of non-whitespace, in order. */
  function Split(s: string): seq<string>
    decreases |s|
  {
    var t := LStrip(s);
    if |t| == 0 then [] else var k := TokenLength(t); [t[..k]] + Split(t[k..])
  }

  /** Every token `split()` yields is a non-empty run of non-whitespace. */
  lemma {:induction false} SplitYieldsWords(s: string)
    ensures AreWords(Split(s))
    decreases |s|
  {
    var t := LStrip(s);
    if |t| > 0 {
      var k := TokenLength(t);
      var tail := Split(t[k..]);
      assert Split(s) == [t[..k]] + tail;
      FirstToken(t);
      SplitYieldsWords(t[k..]);
      ConsWords(t[..k], tail);
    }
  }

  /** The first token of a string that starts with a non-blank is a word. */
  lemma FirstToken(t: string)
    requires |t| > 0 && !IsSpace(t[0])
    ensures 0 < TokenLength(t) && NoSpace(t[..TokenLength(t)])
  {
    var k := TokenLength(t);
    assert forall i :: 0 <= i < k ==> t[..k][i] == t[i];
  }

  lemma ConsWords(w: string, ws: seq<string>)
    requires |w| > 0 && NoSpace(w) && AreWords(ws)
    ensures AreWords([w] + ws)
  {
    var r := [w] + ws;
    forall i | 0 <= i < |r|
      ensures |r[i]| > 0 && NoSpace(r[i])
    {
      if i > 0 {
        assert r[i] == ws[i - 1];
      }
    }
  }

  /** `" ".join(tokens)`. */
  function JoinSpace(tokens: seq<string>): string {
    if |tokens| == 0 then ""
    else if |tokens| == 1 then tokens[0]
    else tokens[0] + " " + JoinSpace(tokens[1..])
  }

  /** Every token is non-empty and free of whitespace: what `split()` yields. */
  predicate AreWords(tokens: seq<string>) {
    forall i :: 0 <= i < |tokens| ==> |tokens[i]| > 0 && NoSpace(tokens[i])
  }

  lemma TokenLengthOfWord(a: string, b: string)
    requires NoSpace(a)
    requires |b| == 0 || IsSpace(b[0])
    ensures TokenLength(a + b) == |a|
  {
    if |a| > 0 {
      assert (a + b)[1..] == a[1..] + b;
      TokenLengthOfWord(a[1..], b);
    } else {
      assert a + b == b;
    }
  }

  lemma SplitSkipsSpace(x: string)
    ensures Split(" " + x) == Split(x)
  {
    assert (" " + x)[1..] == x;
  }

  /** A single word splits into itself. */
  lemma SplitWord(a: string)
    requires |a| > 0 && NoSpace(a)
    ensures Split(a) == [a]
  {
    assert LStrip(a) == a;
    TokenLengthOfWord(a, "");
    assert a + "" == a;
    assert a[|a|..] == "";
  }

  /** A word followed by a space splits off as the first token. */
  lemma SplitWordThen(a: string, rest: string)
    requires |a| > 0 && NoSpace(a)
    ensures Split(a + " " + rest) == [a] + Split(rest)
  {
    var j := a + " " + rest;
    assert LStrip(j) == j;
    assert j == a + (" " + rest);
    TokenLengthOfWord(a, " " + rest);
    assert j[..|a|] == a;
    assert j[|a|..] == " " + rest;
    SplitSkipsSpace(rest);
  }

  /** Splitting a space-joined list of words gives the words back:
      the token count survives a `split` / `join` round trip. */
  lemma {:induction false} SplitJoinSpace(tokens: seq<string>)
    requires AreWords(tokens)
    ensures Split(JoinSpace(tokens)) == tokens
  {
    if |tokens| == 1 {
      SplitWord(tokens[0]);
    } else if |tokens| > 1 {
      SplitWordThen(tokens[0], JoinSpace(tokens[1..]));
      SplitJoinSpace(tokens[1..]);
      assert tokens == [tokens[0]] + tokens[1..];
    }
  }

  /** Decimal digit for 0..9. */
  function DigitChar(d: int): char
    requires 0 <= d < 10
  {
    ('0' as int + d) as char
  }

  predicate IsDigit(c: char) {
    '0' <= c <= '9'
  }

  /** `str(n)` for a natural number: its decimal digits, without leading zeros. */
  function NatToString(n: nat): (r: string)
    ensures |r| > 0
    ensures forall i :: 0 <= i < |r| ==> IsDigit(r[i])
    ensures |r| > 1 ==> r[0] != '0'
  {
    if n < 10 then [DigitChar(n)] else NatToString(n / 10) + [DigitChar(n % 10)]
  }

  /** `str(n)` for any Python int: a minus sign before the digits of a negative number. */
  function IntToString(n: int): (r: string)
    ensures |r| > 0
  {
    if n < 0 then "-" + NatToString(-n) else NatToString(n)
  }

  /** The value of a string of decimal digits (Python's `int(s)` on such a string). */
  function DigitsValue(s: string): nat
    requires forall i :: 0 <= i < |s| ==> IsDigit(s[i])
  {
    if |s| == 0 then 0
    else
      assert IsDigit(s[|s| - 1]);
      10 * DigitsValue(s[..|s| - 1]) + (s[|s| - 1] as int - '0' as int)
  }

  /** Reading back the digits that `str` wrote gives the number: `int(str(n)) == n`. */
  lemma {:induction false} NatToStringRoundTrip(n: nat)
    ensures DigitsValue(NatToString(n)) == n
  {
    if n >= 10 {
      var r := NatToString(n);
      assert r[..|r| - 1] == NatToString(n / 10);
      NatToStringRoundTrip(n / 10);
    }
  }

  /** `k in s` for strings: `k` occurs as a contiguous substring of `s`. */
  predicate Contains(s: string, k: string) {
    k <= s || (|s| > 0 && Contains(s[1..], k))
  }
}
