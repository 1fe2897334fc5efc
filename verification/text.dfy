/** Character classes and the string operations of `QString` that the
    ingestion pipeline relies on: trimming, splitting on whitespace runs,
    substring search, the comma-to-dot replacement and decimal digits. */
module Text {

  /** `QChar::isSpace`: ASCII tab to carriage return, space, U+0085, and the
      Unicode space, line and paragraph separators. This is the whitespace
      that `QString::trimmed` removes. */
  predicate IsSpace(c: char) {
    var u := c as int;
    || u == 0x20
    || (0x09 <= u <= 0x0D)
    || u == 0x85
    || u == 0xA0
    || u == 0x1680
    || (0x2000 <= u <= 0x200A)
    || u == 0x2028
    || u == 0x2029
    || u == 0x202F
    || u == 0x205F
    || u == 0x3000
  }

  /** The `\s` class of a `QRegularExpression` without Unicode properties:
      ASCII whitespace only. This is what the `\\s+` splitter cuts on. */
  predicate IsPatternSpace(c: char) {
    var u := c as int;
    u == 0x20 || (0x09 <= u <= 0x0D)
  }

  /** The `\d` class without Unicode properties. */
  predicate IsDigit(c: char) {
    '0' <= c <= '9'
  }

  predicate AllSpace(s: string) {
    forall i :: 0 <= i < |s| ==> IsSpace(s[i])
  }

  predicate AllPatternSpace(s: string) {
    forall i :: 0 <= i < |s| ==> IsPatternSpace(s[i])
  }

  predicate NoPatternSpace(s: string) {
    forall i :: 0 <= i < |s| ==> !IsPatternSpace(s[i])
  }

  predicate AllDigits(s: string) {
    forall i :: 0 <= i < |s| ==> IsDigit(s[i])
  }

  // ---------------------------------------------------------------------
  // Trimming

  /** Index of the first character at or after `from` that is not
      whitespace, or `|s|` when there is none. */
  function SkipSpace(s: string, from: nat): (i: nat)
    requires from <= |s|
    ensures from <= i <= |s|
    ensures forall k :: from <= k < i ==> IsSpace(s[k])
    ensures i < |s| ==> !IsSpace(s[i])
    decreases |s| - from
  {
    if from < |s| && IsSpace(s[from]) then SkipSpace(s, from + 1) else from
  }

  /** End of `s[lo..hi]` without its trailing whitespace: every character
      from the result up to `hi` is whitespace, and the one before it is not. */
  function SkipSpaceBack(s: string, lo: nat, hi: nat): (e: nat)
    requires lo <= hi <= |s|
    ensures lo <= e <= hi
    ensures forall k :: e <= k < hi ==> IsSpace(s[k])
    ensures lo < e ==> !IsSpace(s[e - 1])
    decreases hi - lo
  {
    if lo < hi && IsSpace(s[hi - 1]) then SkipSpaceBack(s, lo, hi - 1) else hi
  }

  /** `r` is the slice of `s` that starts at `i`, and everything cut away on
      either side of it is whitespace. */
  predicate CutFrom(s: string, i: int, r: string) {
    && 0 <= i <= |s| - |r|
    && r == s[i..i + |r|]
    && AllSpace(s[..i])
    && AllSpace(s[i + |r|..])
  }

  /** `QString::trimmed`: `s` without its leading and trailing whitespace. */
  function Trim(s: string): (r: string)
    ensures r == [] <==> AllSpace(s)
    ensures r != [] ==> !IsSpace(r[0]) && !IsSpace(r[|r| - 1])
    ensures exists i :: CutFrom(s, i, r)
  {
    var i := SkipSpace(s, 0);
    var e := SkipSpaceBack(s, i, |s|);
    TrimSlice(s, i, e);
    s[i..e]
  }

  lemma {:induction false} TrimSlice(s: string, i: nat, e: nat)
    requires i == SkipSpace(s, 0) && e == SkipSpaceBack(s, i, |s|)
    ensures s[i..e] == [] <==> AllSpace(s)
    ensures s[i..e] != [] ==> !IsSpace(s[i..e][0]) && !IsSpace(s[i..e][e - i - 1])
    ensures CutFrom(s, i, s[i..e])
  {
    var r := s[i..e];
    if e != i {
      assert r[0] == s[i] && r[e - i - 1] == s[e - 1];
    }
    forall k | 0 <= k < i ensures IsSpace(s[..i][k]) {
      assert s[..i][k] == s[k];
    }
    forall k | 0 <= k < |s| - e ensures IsSpace(s[e..][k]) {
      assert s[e..][k] == s[e + k];
    }
  }

  // ---------------------------------------------------------------------
  // Splitting on runs of whitespace

  /** Length of the leading run of characters that are not pattern whitespace. */
  function RunLength(s: string): (n: nat)
    ensures n <= |s|
    ensures NoPatternSpace(s[..n])
    ensures n < |s| ==> IsPatternSpace(s[n])
    decreases |s|
  {
    if |s| == 0 || IsPatternSpace(s[0]) then 0 else 1 + RunLength(s[1..])
  }

  /** `QString::split(QRegularExpression("\\s+"), Qt::SkipEmptyParts)`: the
      maximal runs of non-whitespace characters, in order. */
  function SplitWs(s: string): (r: seq<string>)
    ensures forall k :: 0 <= k < |r| ==> |r[k]| > 0 && NoPatternSpace(r[k])
    decreases |s|
  {
    if |s| == 0 then []
    else if IsPatternSpace(s[0]) then SplitWs(s[1..])
    else
      var n := RunLength(s);
      [s[..n]] + SplitWs(s[n..])
  }

  /** The tokens separated by single spaces (the canonical way to write them). */
  function JoinSpaced(tokens: seq<string>): string
    decreases |tokens|
  {
    if |tokens| == 0 then []
    else if |tokens| == 1 then tokens[0]
    else tokens[0] + " " + JoinSpaced(tokens[1..])
  }

  /** All characters of `s` except the pattern whitespace. */
  function Squeeze(s: string): string
    decreases |s|
  {
    if |s| == 0 then []
    else if IsPatternSpace(s[0]) then Squeeze(s[1..])
    else [s[0]] + Squeeze(s[1..])
  }

  function Concat(tokens: seq<string>): string
    decreases |tokens|
  {
    if |tokens| == 0 then [] else tokens[0] + Concat(tokens[1..])
  }

  /** Splitting yields no token exactly when the line is all whitespace. */
  lemma {:induction false} SplitWsEmpty(s: string)
    ensures SplitWs(s) == [] <==> AllPatternSpace(s)
    decreases |s|
  {
    if |s| > 0 {
      if IsPatternSpace(s[0]) {
        SplitWsEmpty(s[1..]);
        if AllPatternSpace(s[1..]) {
          forall k | 0 <= k < |s| ensures IsPatternSpace(s[k]) {
            if k > 0 { assert s[k] == s[1..][k - 1]; }
          }
        }
      }
    }
  }

  lemma {:induction false} SqueezeAppend(a: string, b: string)
    ensures Squeeze(a + b) == Squeeze(a) + Squeeze(b)
    decreases |a|
  {
    if |a| > 0 {
      assert (a + b)[1..] == a[1..] + b;
      SqueezeAppend(a[1..], b);
    } else {
      assert a + b == b;
    }
  }

  lemma {:induction false} SqueezeNoSpace(a: string)
    requires NoPatternSpace(a)
    ensures Squeeze(a) == a
    decreases |a|
  {
    if |a| > 0 {
      assert NoPatternSpace(a[1..]) by {
        forall k | 0 <= k < |a[1..]| ensures !IsPatternSpace(a[1..][k]) {
          assert a[1..][k] == a[k + 1];
        }
      }
      SqueezeNoSpace(a[1..]);
      assert a == [a[0]] + a[1..];
    }
  }

  /** Splitting loses nothing but whitespace: the tokens, glued together,
      are the line with its whitespace removed. */
  lemma {:induction false} SplitWsKeepsText(s: string)
    ensures Concat(SplitWs(s)) == Squeeze(s)
    decreases |s|
  {
    if |s| > 0 {
      if IsPatternSpace(s[0]) {
        SplitWsKeepsText(s[1..]);
      } else {
        var n := RunLength(s);
        SplitWsKeepsText(s[n..]);
        var r := SplitWs(s);
        assert r == [s[..n]] + SplitWs(s[n..]);
        assert r[1..] == SplitWs(s[n..]);
        assert Concat(r) == s[..n] + Concat(SplitWs(s[n..]));
        assert s == s[..n] + s[n..];
        SqueezeAppend(s[..n], s[n..]);
        SqueezeNoSpace(s[..n]);
      }
    }
  }

  lemma {:induction false} RunLengthOfToken(t: string, rest: string)
    requires NoPatternSpace(t)
    requires rest == [] || IsPatternSpace(rest[0])
    ensures RunLength(t + rest) == |t|
    decreases |t|
  {
    if |t| > 0 {
      assert (t + rest)[1..] == t[1..] + rest;
      assert NoPatternSpace(t[1..]) by {
        forall k | 0 <= k < |t[1..]| ensures !IsPatternSpace(t[1..][k]) {
          assert t[1..][k] == t[k + 1];
        }
      }
      RunLengthOfToken(t[1..], rest);
    } else {
      assert t + rest == rest;
    }
  }

  /** Splitting a single-space-joined list of tokens gives the tokens back:
      the splitter cuts exactly at whitespace and keeps every token whole. */
  lemma {:induction false} SplitJoinRoundTrip(tokens: seq<string>)
    requires forall k :: 0 <= k < |tokens| ==> |tokens[k]| > 0 && NoPatternSpace(tokens[k])
    ensures SplitWs(JoinSpaced(tokens)) == tokens
    decreases |tokens|
  {
    if |tokens| == 1 {
      SplitAfterToken(tokens[0], []);
      assert tokens[0] + [] == tokens[0];
    } else if |tokens| > 1 {
      var t := tokens[0];
      var tail := JoinSpaced(tokens[1..]);
      assert JoinSpaced(tokens) == t + " " + tail;
      assert t + " " + tail == t + (" " + tail);
      SplitAfterToken(t, " " + tail);
      assert (" " + tail)[1..] == tail;
      assert forall k :: 0 <= k < |tokens| - 1 ==> tokens[1..][k] == tokens[k + 1];
      SplitJoinRoundTrip(tokens[1..]);
      assert tokens == [t] + tokens[1..];
    }
  }

  /** A whole token followed by whitespace or the end of the line splits off
      as the first token. */
  lemma {:induction false} SplitAfterToken(t: string, rest: string)
    requires |t| > 0 && NoPatternSpace(t)
    requires rest == [] || IsPatternSpace(rest[0])
    ensures SplitWs(t + rest) == [t] + SplitWs(rest)
  {
    var s := t + rest;
    RunLengthOfToken(t, rest);
    assert s[0] == t[0];
    assert s[..|t|] == t;
    assert s[|t|..] == rest;
  }

  /** A line made of one token, and nothing else, splits into that token. */
  lemma {:induction false} SplitWsToken(t: string)
    requires |t| > 0 && NoPatternSpace(t)
    ensures SplitWs(t) == [t]
  {
    SplitAfterToken(t, []);
    assert t + [] == t;
  }

  /** The splitter cuts at every whitespace character: the tokens of a line
      are the tokens before any one of its whitespace characters followed by
      the tokens after it. */
  lemma {:induction false} SplitAtSpace(a: string, c: char, b: string)
    requires IsPatternSpace(c)
    ensures SplitWs(a + [c] + b) == SplitWs(a) + SplitWs(b)
    decreases |a|
  {
    if |a| == 0 {
      assert a + [c] + b == [c] + b;
      assert ([c] + b)[1..] == b;
    } else if IsPatternSpace(a[0]) {
      SplitAtSpace(a[1..], c, b);
      SplitAfterLeadingSpace(a, c, b);
    } else {
      var n := RunLength(a);
      SplitAtSpace(a[n..], c, b);
      SplitAfterLeadingToken(a, c, b);
    }
  }

  /** The step of `SplitAtSpace` for a line that opens with whitespace. */
  lemma {:induction false} SplitAfterLeadingSpace(a: string, c: char, b: string)
    requires |a| > 0 && IsPatternSpace(a[0])
    requires SplitWs(a[1..] + [c] + b) == SplitWs(a[1..]) + SplitWs(b)
    ensures SplitWs(a + [c] + b) == SplitWs(a) + SplitWs(b)
  {
    var s := a + [c] + b;
    assert s[0] == a[0];
    assert s[1..] == a[1..] + [c] + b;
  }

  /** The step of `SplitAtSpace` for a line that opens with a token. */
  lemma {:induction false} SplitAfterLeadingToken(a: string, c: char, b: string)
    requires IsPatternSpace(c)
    requires |a| > 0 && !IsPatternSpace(a[0])
    requires SplitWs(a[RunLength(a)..] + [c] + b) == SplitWs(a[RunLength(a)..]) + SplitWs(b)
    ensures SplitWs(a + [c] + b) == SplitWs(a) + SplitWs(b)
  {
    var n := RunLength(a);
    var t := a[..n];
    var tail := a[n..];
    var rest := tail + [c] + b;
    assert a == t + tail;
    assert a + [c] + b == t + rest;
    assert rest == [] || IsPatternSpace(rest[0]) by {
      if |tail| == 0 { assert rest[0] == c; } else { assert rest[0] == tail[0]; }
    }
    SplitAfterToken(t, rest);
  }

  // ---------------------------------------------------------------------
  // Substring search

  /** `pattern` occurs in `s` starting at position `i`. */
  predicate OccursAt(s: string, pattern: string, i: int) {
    0 <= i <= |s| - |pattern| && s[i..i + |pattern|] == pattern
  }

  /** `QString::contains(pattern)`, case-sensitive. */
  function Contains(s: string, pattern: string): (r: bool)
    ensures r <==> exists i :: OccursAt(s, pattern, i)
    decreases |s|
  {
    if |pattern| > |s| then false
    else if s[..|pattern|] == pattern then (assert OccursAt(s, pattern, 0); true)
    else
      var r := Contains(s[1..], pattern);
      ContainsStep(s, pattern, r);
      r
  }

  lemma {:induction false} ContainsStep(s: string, pattern: string, r: bool)
    requires |pattern| <= |s| && s[..|pattern|] != pattern
    requires r <==> exists i :: OccursAt(s[1..], pattern, i)
    ensures r <==> exists i :: OccursAt(s, pattern, i)
  {
    if r {
      var i :| OccursAt(s[1..], pattern, i);
      assert s[1..][i..i + |pattern|] == s[i + 1..i + 1 + |pattern|];
      assert OccursAt(s, pattern, i + 1);
    } else {
      forall i | OccursAt(s, pattern, i)
        ensures false
      {
        assert i != 0;
        assert s[i..i + |pattern|] == s[1..][i - 1..i - 1 + |pattern|];
        assert OccursAt(s[1..], pattern, i - 1);
      }
    }
  }

  // ---------------------------------------------------------------------
  // Locale tolerance

  /** `QString::replace(',', '.')`. */
  function CommaToDot(s: string): (r: string)
    ensures |r| == |s|
    ensures forall i :: 0 <= i < |s| && s[i] != ',' ==> r[i] == s[i]
    ensures forall i :: 0 <= i < |s| && s[i] == ',' ==> r[i] == '.'
    ensures ',' !in r
    decreases |s|
  {
    if |s| == 0 then []
    else [if s[0] == ',' then '.' else s[0]] + CommaToDot(s[1..])
  }

  // ---------------------------------------------------------------------
  // Decimal digits

  function DigitValue(c: char): nat
    requires IsDigit(c)
  {
    (c as int) - ('0' as int)
  }

  function DigitChar(d: nat): (c: char)
    requires d < 10
    ensures IsDigit(c) && DigitValue(c) == d
  {
    ('0' as int + d) as char
  }

  /** The value of a string of decimal digits (leading zeros allowed). */
  function DecimalValue(ds: string): nat
    requires AllDigits(ds)
    decreases |ds|
  {
    if |ds| == 0 then 0
    else DecimalValue(ds[..|ds| - 1]) * 10 + DigitValue(ds[|ds| - 1])
  }

  /** The shortest decimal spelling of `n`, as `QString::arg(int)` writes it. */
  function NatToDecimal(n: nat): (r: string)
    ensures |r| > 0 && AllDigits(r)
    ensures DecimalValue(r) == n
    ensures |r| > 1 ==> r[0] != '0'
    decreases n
  {
    if n < 10 then [DigitChar(n)]
    else
      var prefix := NatToDecimal(n / 10);
      var r := prefix + [DigitChar(n % 10)];
      assert r[..|r| - 1] == prefix;
      r
  }

  /** `QString::arg(int)`: a minus sign for negative numbers, then the digits. */
  function IntToDecimal(i: int): (r: string)
    ensures |r| > 0
    ensures i >= 0 <==> r[0] != '-'
  {
    if i < 0 then "-" + NatToDecimal(-i) else NatToDecimal(i)
  }
}
