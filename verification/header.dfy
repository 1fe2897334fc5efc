/** Header discovery and column mapping: the first line that mentions both
    `Time` and `S1_A` is the header; each of its whitespace-separated tokens
    that contains a match of the regular expression `S(\d+)_([AB])` maps its
    column index to a sensor id and a channel. */
module Header {
  import opened Wrappers
  import opened Ints
  import opened Text
  import opened Sensors

  // ---------------------------------------------------------------------
  // Header line

  /** Both markers occur in the line, compared case-sensitively. */
  predicate IsHeaderLine(line: string) {
    Contains(line, "Time") && Contains(line, "S1_A")
  }

  /** Some line of the input is a header line. */
  predicate HasHeaderLine(lines: seq<string>) {
    exists j :: 0 <= j < |lines| && IsHeaderLine(lines[j])
  }

  /** Index of the first header line at or after `from`. */
  function FindHeaderFrom(lines: seq<string>, from: nat): (r: Option<nat>)
    requires from <= |lines|
    ensures r.Some? ==> from <= r.value < |lines| && IsHeaderLine(lines[r.value])
    ensures r.Some? ==> forall j :: from <= j < r.value ==> !IsHeaderLine(lines[j])
    ensures r.None? <==> forall j :: from <= j < |lines| ==> !IsHeaderLine(lines[j])
    decreases |lines| - from
  {
    if from == |lines| then None
    else if IsHeaderLine(lines[from]) then Some(from)
    else FindHeaderFrom(lines, from + 1)
  }

  /** The scan of the input for the header line: the index of the first line
      containing both markers, or `None` when no line does. */
  function FindHeader(lines: seq<string>): (r: Option<nat>)
    ensures r.Some? ==> r.value < |lines| && IsHeaderLine(lines[r.value])
    ensures r.Some? ==> forall j :: 0 <= j < r.value ==> !IsHeaderLine(lines[j])
    ensures r.None? <==> forall j :: 0 <= j < |lines| ==> !IsHeaderLine(lines[j])
  {
    FindHeaderFrom(lines, 0)
  }

  // ---------------------------------------------------------------------
  // The column pattern S(\d+)_([AB])

  /** `S(\d+)_([AB])` matches `t` at position `p` with exactly `k` digits. */
  predicate PatternAt(t: string, p: int, k: int) {
    && 0 <= p
    && 1 <= k
    && p + k + 3 <= |t|
    && t[p] == 'S'
    && AllDigits(t[p + 1..p + 1 + k])
    && t[p + k + 1] == '_'
    && (t[p + k + 2] == 'A' || t[p + k + 2] == 'B')
  }

  /** Length of the run of ASCII digits that starts at position `i`. */
  function DigitRun(t: string, i: nat): (n: nat)
    requires i <= |t|
    ensures i + n <= |t|
    ensures forall j :: i <= j < i + n ==> IsDigit(t[j])
    ensures i + n < |t| ==> !IsDigit(t[i + n])
    decreases |t| - i
  {
    if i < |t| && IsDigit(t[i]) then 1 + DigitRun(t, i + 1) else 0
  }

  /** At one position the pattern can match with one digit count only: the
      digits must run right up to the underscore. */
  lemma {:induction false} PatternDigitsUnique(t: string, p: int, k: int)
    requires 0 <= p < |t|
    requires PatternAt(t, p, k)
    ensures k == DigitRun(t, p + 1)
  {
  }

  /** The leftmost match at or after `from`, as (position, digit count). This
      is the first match `QRegularExpression::match` reports; greedy `\d+`
      cannot give up digits, since a digit is never the `_` that must follow. */
  function FindPattern(t: string, from: nat): (r: Option<(nat, nat)>)
    requires from <= |t|
    ensures r.Some? ==> from <= r.value.0 && PatternAt(t, r.value.0, r.value.1)
    ensures r.Some? ==> forall p, k :: from <= p < r.value.0 ==> !PatternAt(t, p, k)
    ensures r.None? ==> forall p, k :: from <= p ==> !PatternAt(t, p, k)
    decreases |t| - from
  {
    if from == |t| then None
    else if t[from] == 'S' then
      var k := DigitRun(t, from + 1);
      if 1 <= k && from + k + 3 <= |t| && t[from + k + 1] == '_'
         && (t[from + k + 2] == 'A' || t[from + k + 2] == 'B')
      then Some((from, k))
      else
        NoPatternAt(t, from);
        FindPattern(t, from + 1)
    else FindPattern(t, from + 1)
  }

  lemma {:induction false} NoPatternAt(t: string, p: nat)
    requires p < |t| && t[p] == 'S'
    requires var k := DigitRun(t, p + 1);
             !(1 <= k && p + k + 3 <= |t| && t[p + k + 1] == '_'
               && (t[p + k + 2] == 'A' || t[p + k + 2] == 'B'))
    ensures forall k :: !PatternAt(t, p, k)
  {
    forall k | PatternAt(t, p, k) ensures false {
      PatternDigitsUnique(t, p, k);
    }
  }

  /** A sensor column: the sensor id and the channel it carries. */
  datatype Column = Column(sensorId: Int32, channel: Channel)

  /** The pattern matches at `p`, and nowhere to the left of `p`. */
  ghost predicate LeftmostPatternAt(t: string, p: int, k: int) {
    && PatternAt(t, p, k)
    && forall p', k' :: 0 <= p' < p ==> !PatternAt(t, p', k')
  }

  /** `c` is what the leftmost match of the pattern in `t` captures: its
      digits read as an `int` (0 when they overflow it), and channel A for
      the letter `A`, B for `B`. */
  ghost predicate LeftmostCapture(t: string, c: Column) {
    exists p, k ::
      && LeftmostPatternAt(t, p, k)
      && c.sensorId == ToInt32OrZero(DecimalValue(t[p + 1..p + 1 + k]))
      && (c.channel == A <==> t[p + k + 2] == 'A')
  }

  /** `re.match(h)` on one header token: `None` when the pattern occurs
      nowhere; otherwise the sensor id is the captured digits read as an
      `int` (0 when they overflow it) and the channel is A for `A`, B for
      `B`, both taken from the leftmost occurrence. */
  function MatchColumn(t: string): (r: Option<Column>)
    ensures r.Some? <==> exists p, k :: PatternAt(t, p, k)
    ensures r.Some? ==> 0 <= r.value.sensorId
    ensures r.Some? ==> LeftmostCapture(t, r.value)
  {
    match FindPattern(t, 0)
    case None => None
    case Some((p, k)) =>
      var c := Column(
        ToInt32OrZero(DecimalValue(t[p + 1..p + 1 + k])),
        if t[p + k + 2] == 'A' then A else B);
      assert LeftmostPatternAt(t, p, k);
      Some(c)
  }

  /** The pattern is unanchored and case-sensitive. */
  lemma {:induction false} MatchColumnExamples()
    ensures MatchColumn("S12_B") == Some(Column(12, B))
    ensures MatchColumn("xS3_Ay") == Some(Column(3, A))
    ensures MatchColumn("s1_a") == None
  {
    MatchesWholeToken();
    MatchesInsideToken();
    LowerCaseDoesNotMatch();
  }

  lemma {:induction false} MatchesWholeToken()
    ensures MatchColumn("S12_B") == Some(Column(12, B))
  {
    assert PatternAt("S12_B", 0, 2);
    assert "S12_B"[1..3] == "12";
    assert DecimalValue("12") == 12 by { assert "12"[..1] == "1"; }
  }

  lemma {:induction false} MatchesInsideToken()
    ensures MatchColumn("xS3_Ay") == Some(Column(3, A))
  {
    assert DigitRun("xS3_Ay", 2) == 1;
    assert FindPattern("xS3_Ay", 0) == Some((1, 1));
    assert "xS3_Ay"[2..3] == "3";
  }

  lemma {:induction false} LowerCaseDoesNotMatch()
    ensures MatchColumn("s1_a") == None
  {
  }

  // ---------------------------------------------------------------------
  // Column mapping

  /** The mapping built from the match results of the first `n` columns. */
  function MapMatches(matches: seq<Option<Column>>, n: nat): (cmap: map<nat, Column>)
    requires n <= |matches|
    ensures forall i: nat :: i in cmap <==> i < n && matches[i].Some?
    ensures forall i :: i in cmap ==> cmap[i] == matches[i].value
    decreases n
  {
    if n == 0 then map[]
    else
      var cmap := MapMatches(matches, n - 1);
      match matches[n - 1]
      case Some(c) => cmap[n - 1 := c]
      case None => cmap
  }

  /** The column mapping of a header: token `i` is in the map exactly when it
      contains a match of the column pattern, and then maps to that match. */
  function ColumnMap(tokens: seq<string>): (cmap: map<nat, Column>)
    ensures forall i: nat :: i in cmap <==> i < |tokens| && MatchColumn(Trim(tokens[i])).Some?
    ensures forall i :: i in cmap ==> cmap[i] == MatchColumn(Trim(tokens[i])).value
  {
    var matches := TokenMatches(tokens);
    MapMatches(matches, |matches|)
  }

  /** The match result of each trimmed header token. */
  function TokenMatches(tokens: seq<string>): (ms: seq<Option<Column>>)
    ensures |ms| == |tokens|
    ensures forall i :: 0 <= i < |tokens| ==> ms[i] == MatchColumn(Trim(tokens[i]))
    decreases |tokens|
  {
    if |tokens| == 0 then []
    else TokenMatches(tokens[..|tokens| - 1]) + [MatchColumn(Trim(tokens[|tokens| - 1]))]
  }
}
