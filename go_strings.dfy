/** The parts of Go's `strings` and `fmt` packages the plugin relies on:
    `strings.Split` with a one-character separator, `strings.Fields`,
    `strings.TrimSpace` and the `%d` verb.  Whitespace is `unicode.IsSpace`.
 */
module GoStrings {

  /** `unicode.IsSpace`: the Latin-1 spaces and the Unicode White_Space set. */
  predicate IsSpace(c: char)
  {
    || c == ' ' || c == '\t' || c == '\n' || c == '\U{000B}' || c == '\U{000C}' || c == '\r'
    || c == '\U{0085}' || c == '\U{00A0}' || c == '\U{1680}'
    || ('\U{2000}' <= c <= '\U{200A}')
    || c == '\U{2028}' || c == '\U{2029}' || c == '\U{202F}' || c == '\U{205F}' || c == '\U{3000}'
  }

  predicate NoSpace(s: string)
  {
    forall i :: 0 <= i < |s| ==> !IsSpace(s[i])
  }

  predicate AllSpace(s: string)
  {
    forall i :: 0 <= i < |s| ==> IsSpace(s[i])
  }

  /** Number of occurrences of `c` in `s`. */
  function Count(s: string, c: char): nat
  {
    if s == [] then 0 else (if s[0] == c then 1 else 0) + Count(s[1..], c)
  }

  lemma {:induction false} CountZero(s: string, c: char)
    ensures Count(s, c) == 0 <==> c !in s
  {
    if s != [] {
      CountZero(s[1..], c);
      assert c in s <==> s[0] == c || c in s[1..];
    }
  }

  /** The parts joined back with the separator between them (`strings.Join`). */
  function Join(parts: seq<string>, sep: char): string
  {
    if |parts| == 0 then []
    else if |parts| == 1 then parts[0]
    else parts[0] + [sep] + Join(parts[1..], sep)
  }

  /** `strings.Split(s, string(sep))`: the pieces between separators, so an empty
      string gives one empty piece and every separator adds one piece. */
  function Split(s: string, sep: char): (parts: seq<string>)
    ensures |parts| == Count(s, sep) + 1
    ensures forall i :: 0 <= i < |parts| ==> sep !in parts[i]
    ensures Join(parts, sep) == s
  {
    if s == [] then [[]]
    else
      var rest := Split(s[1..], sep);
      if s[0] == sep then
        assert ([[]] + rest)[1..] == rest;
        [[]] + rest
      else
        var parts := [[s[0]] + rest[0]] + rest[1..];
        assert parts[1..] == rest[1..];
        assert |rest| > 1 ==> Join(rest, sep) == rest[0] + [sep] + Join(rest[1..], sep);
        parts
  }

  lemma {:induction false} CountAppend(a: string, b: string, c: char)
    ensures Count(a + b, c) == Count(a, c) + Count(b, c)
  {
    if a == [] {
      assert a + b == b;
    } else {
      assert (a + b)[1..] == a[1..] + b;
      CountAppend(a[1..], b, c);
    }
  }

  /** Split at the first separator: the piece before it, then the split of the rest. */
  lemma {:induction false} SplitFirst(s: string, sep: char, i: nat)
    requires i < |s| && s[i] == sep && sep !in s[..i]
    ensures Split(s, sep) == [s[..i]] + Split(s[i + 1..], sep)
  {
    if i > 0 {
      assert s[1..][..i - 1] == s[1..i];
      assert sep !in s[1..][..i - 1];
      SplitFirst(s[1..], sep, i - 1);
      assert s[1..][i..] == s[i + 1..];
      assert [s[0]] + s[1..i] == s[..i];
    }
  }

  /** A string with exactly one separator, at `i`, splits into the text before and after it. */
  lemma SplitAtSingle(s: string, sep: char, i: nat)
    requires i < |s| && s[i] == sep && Count(s, sep) == 1
    ensures Split(s, sep) == [s[..i], s[i + 1..]]
  {
    assert s == s[..i] + ([s[i]] + s[i + 1..]);
    CountAppend(s[..i], [s[i]] + s[i + 1..], sep);
    CountAppend([s[i]], s[i + 1..], sep);
    CountZero(s[..i], sep);
    CountZero(s[i + 1..], sep);
    SplitFirst(s, sep, i);
    var rest := Split(s[i + 1..], sep);
    assert |rest| == 1 && Join(rest, sep) == rest[0];
  }

  /** With one separator, the second piece is the text after it. */
  lemma SplitSecond(s: string, sep: char)
    requires Count(s, sep) == 1
    ensures |Split(s, sep)| == 2
    ensures forall i :: 0 <= i < |s| && s[i] == sep ==> Split(s, sep)[1] == s[i + 1..]
  {
    forall i | 0 <= i < |s| && s[i] == sep
      ensures Split(s, sep)[1] == s[i + 1..]
    {
      SplitAtSingle(s, sep, i);
    }
  }

  // ---- TrimSpace -----------------------------------------------------------

  function TrimLeft(s: string): (r: string)
    ensures |r| <= |s| && r == s[|s| - |r|..]
    ensures r != [] ==> !IsSpace(r[0])
    ensures AllSpace(s[..|s| - |r|])
  {
    if s != [] && IsSpace(s[0]) then
      var r := TrimLeft(s[1..]);
      assert s[1..][..|s| - 1 - |r|] == s[1..|s| - |r|];
      r
    else s
  }

  function TrimRight(s: string): (r: string)
    ensures |r| <= |s| && r == s[..|r|]
    ensures r != [] ==> !IsSpace(r[|r| - 1])
    ensures AllSpace(s[|r|..])
  {
    if s != [] && IsSpace(s[|s| - 1]) then
      var r := TrimRight(s[..|s| - 1]);
      assert s[..|s| - 1][|r|..] + [s[|s| - 1]] == s[|r|..];
      r
    else s
  }

  /** `strings.TrimSpace`: leading and trailing white space removed. */
  function TrimSpace(s: string): (r: string)
    ensures |r| <= |s|
    ensures r != [] ==> !IsSpace(r[0]) && !IsSpace(r[|r| - 1])
    ensures AllSpace(s) ==> r == []
  {
    TrimRight(TrimLeft(s))
  }

  lemma {:induction false} TrimLeftSpaces(pre: string, t: string)
    requires AllSpace(pre)
    requires t == [] || !IsSpace(t[0])
    ensures TrimLeft(pre + t) == t
  {
    if pre != [] {
      assert (pre + t)[1..] == pre[1..] + t;
      TrimLeftSpaces(pre[1..], t);
    } else {
      assert pre + t == t;
    }
  }

  lemma {:induction false} TrimRightSpaces(t: string, suf: string)
    requires AllSpace(suf)
    requires t == [] || !IsSpace(t[|t| - 1])
    ensures TrimRight(t + suf) == t
  {
    if suf != [] {
      var u := t + suf;
      assert u[..|u| - 1] == t + suf[..|suf| - 1];
      TrimRightSpaces(t, suf[..|suf| - 1]);
    } else {
      assert t + suf == t;
    }
  }

  /** TrimSpace recovers the core of a string padded with white space on both
      sides, whenever the core neither starts nor ends with white space. */
  lemma TrimSpacePadded(pre: string, core: string, suf: string)
    requires AllSpace(pre) && AllSpace(suf)
    requires core == [] || (!IsSpace(core[0]) && !IsSpace(core[|core| - 1]))
    ensures TrimSpace(pre + core + suf) == core
  {
    if core == [] {
      assert pre + core + suf == pre + suf;
      assert AllSpace(pre + suf);
    } else {
      assert pre + core + suf == pre + (core + suf);
      TrimLeftSpaces(pre, core + suf);
      TrimRightSpaces(core, suf);
    }
  }

  // ---- Fields ---------------------------------------------------------------

  /** Length of the run of non-space characters that starts `s`. */
  function TokenLength(s: string): (n: nat)
    ensures n <= |s|
    ensures NoSpace(s[..n])
    ensures n < |s| ==> IsSpace(s[n])
  {
    if s == [] || IsSpace(s[0]) then 0
    else
      var n := TokenLength(s[1..]);
      assert s[..n + 1] == [s[0]] + s[1..][..n];
      1 + n
  }

  /** `strings.Fields`: the maximal runs of non-space characters, in order. */
  function Fields(s: string): (tokens: seq<string>)
    ensures forall i :: 0 <= i < |tokens| ==> tokens[i] != [] && NoSpace(tokens[i])
    decreases |s|
  {
    if s == [] then []
    else if IsSpace(s[0]) then Fields(s[1..])
    else
      var n := TokenLength(s);
      [s[..n]] + Fields(s[n..])
  }

  /** All tokens glued together. */
  function Concat(tokens: seq<string>): string
  {
    if tokens == [] then [] else tokens[0] + Concat(tokens[1..])
  }

  /** The non-space characters of `s`, in order. */
  function RemoveSpaces(s: string): string
  {
    if s == [] then [] else (if IsSpace(s[0]) then [] else [s[0]]) + RemoveSpaces(s[1..])
  }

  lemma {:induction false} RemoveSpacesAppend(a: string, b: string)
    ensures RemoveSpaces(a + b) == RemoveSpaces(a) + RemoveSpaces(b)
  {
    if a == [] {
      assert a + b == b;
    } else {
      assert (a + b)[1..] == a[1..] + b;
      RemoveSpacesAppend(a[1..], b);
    }
  }

  lemma {:induction false} RemoveSpacesNoSpace(t: string)
    requires NoSpace(t)
    ensures RemoveSpaces(t) == t
  {
    if t != [] {
      RemoveSpacesNoSpace(t[1..]);
    }
  }

  /** Fields keeps every non-space character, verbatim and in order, and nothing else. */
  lemma {:induction false} FieldsKeepsText(s: string)
    ensures Concat(Fields(s)) == RemoveSpaces(s)
    decreases |s|
  {
    if s == [] {
    } else if IsSpace(s[0]) {
      FieldsKeepsText(s[1..]);
    } else {
      var n := TokenLength(s);
      FieldsKeepsText(s[n..]);
      assert s == s[..n] + s[n..];
      RemoveSpacesAppend(s[..n], s[n..]);
      RemoveSpacesNoSpace(s[..n]);
      assert ([s[..n]] + Fields(s[n..]))[1..] == Fields(s[n..]);
    }
  }

  lemma {:induction false} TokenLengthOf(t: string, rest: string)
    requires NoSpace(t)
    requires rest == [] || IsSpace(rest[0])
    ensures TokenLength(t + rest) == |t|
  {
    if t == [] {
      assert t + rest == rest;
    } else {
      assert (t + rest)[1..] == t[1..] + rest;
      TokenLengthOf(t[1..], rest);
    }
  }

  /** Fields yields nothing exactly when the string is all white space. */
  lemma {:induction false} FieldsEmpty(s: string)
    ensures Fields(s) == [] <==> AllSpace(s)
    decreases |s|
  {
    if s != [] {
      FieldsEmpty(s[1..]);
      assert AllSpace(s) <==> IsSpace(s[0]) && AllSpace(s[1..]);
    }
  }

  lemma {:induction false} FieldsSpacePrefix(pre: string, s: string)
    requires AllSpace(pre)
    ensures Fields(pre + s) == Fields(s)
  {
    if pre != [] {
      assert (pre + s)[1..] == pre[1..] + s;
      FieldsSpacePrefix(pre[1..], s);
    } else {
      assert pre + s == s;
    }
  }

  /** Tokens joined by single spaces tokenise back to themselves. */
  lemma {:induction false} FieldsOfJoin(tokens: seq<string>)
    requires forall i :: 0 <= i < |tokens| ==> tokens[i] != [] && NoSpace(tokens[i])
    ensures Fields(Join(tokens, ' ')) == tokens
  {
    if |tokens| == 0 {
    } else {
      var t := tokens[0];
      var rest := if |tokens| == 1 then [] else [' '] + Join(tokens[1..], ' ');
      var s := t + rest;
      assert s == Join(tokens, ' ');
      assert s[..|t|] == t;
      TokenLengthOf(t, rest);
      assert s[|t|..] == rest;
      if |tokens| == 1 {
        assert Fields(rest) == [];
      } else {
        FieldsOfJoin(tokens[1..]);
        FieldsSpacePrefix([' '], Join(tokens[1..], ' '));
      }
      assert Fields(s) == [t] + Fields(rest);
    }
  }

  // ---- %d -------------------------------------------------------------------

  function DigitChar(d: nat): (c: char)
    requires d < 10
    ensures '0' <= c <= '9'
  {
    (48 + d) as char
  }

  predicate IsDigits(s: string)
  {
    forall i :: 0 <= i < |s| ==> '0' <= s[i] <= '9'
  }

  /** Decimal digits of `n`, most significant first, no leading zero. */
  function NatToString(n: nat): (s: string)
    ensures |s| >= 1 && IsDigits(s)
    ensures s[0] == '0' ==> n == 0 && s == "0"
  {
    if n < 10 then [DigitChar(n)]
    else NatToString(n / 10) + [DigitChar(n % 10)]
  }

  /** fmt's `%d`: a minus sign for negative values, then the digits. */
  function IntToString(i: int): string
  {
    if i < 0 then "-" + NatToString(-i) else NatToString(i)
  }

  /** Reads decimal digits back (the partner of NatToString). */
  function ParseNat(s: string): nat
    requires IsDigits(s)
  {
    if s == [] then 0 else 10 * ParseNat(s[..|s| - 1]) + ((s[|s| - 1] as int) - 48)
  }

  function ParseInt(s: string): int
  {
    if |s| > 0 && s[0] == '-' && IsDigits(s[1..]) then -(ParseNat(s[1..]) as int)
    else if IsDigits(s) then ParseNat(s)
    else 0
  }

  lemma {:induction false} NatToStringRoundTrip(n: nat)
    ensures ParseNat(NatToString(n)) == n
  {
    if n >= 10 {
      var s := NatToString(n);
      assert s[..|s| - 1] == NatToString(n / 10);
      NatToStringRoundTrip(n / 10);
    }
  }

  /** `%d` renders an integer that reads back to the same value. */
  lemma IntToStringRoundTrip(i: int)
    ensures ParseInt(IntToString(i)) == i
  {
    if i < 0 {
      var d := NatToString(-i);
      var s := "-" + d;
      assert s[0] == '-' && s[1..] == d;
      NatToStringRoundTrip(-i);
      assert ParseInt(s) == -(ParseNat(d) as int);
    } else {
      var d := NatToString(i);
      NatToStringRoundTrip(i);
      assert d[0] != '-';
      assert ParseInt(d) == ParseNat(d);
    }
  }
}
