/**
 * The edge file format shared by the two programs: the crawler writes each
 * edge as "src,dest" in decimal, and the ranking program reads a line back by
 * splitting it at the first comma and converting both halves with stoi.
 */
module EdgeLine {
  import opened Wrappers
  import opened GoogleMatrix

  /** A line without a comma, or a half that does not start with a digit. */
  datatype ParseError = MalformedLine | InvalidArgument

  predicate IsDigit(c: char) {
    '0' <= c <= '9'
  }

  predicate AllDigits(s: string) {
    forall i :: 0 <= i < |s| ==> IsDigit(s[i])
  }

  function DigitValue(c: char): (d: nat)
    requires IsDigit(c)
    ensures d < 10
  {
    c as int - '0' as int
  }

  function DigitChar(d: nat): (c: char)
    requires d < 10
    ensures IsDigit(c) && DigitValue(c) == d
  {
    ('0' as int + d) as char
  }

  /** Decimal value of a digit string, most significant digit first. */
  function DigitsValue(s: string): nat
    requires AllDigits(s)
    decreases |s|
  {
    if |s| == 0 then 0 else 10 * DigitsValue(s[..|s| - 1]) + DigitValue(s[|s| - 1])
  }

  /** Length of the longest prefix of s made of digits only. */
  function DigitPrefix(s: string): (k: nat)
    ensures k <= |s| && AllDigits(s[..k])
    ensures k < |s| ==> !IsDigit(s[k])
    decreases |s|
  {
    if |s| == 0 || !IsDigit(s[0]) then
      0
    else
      var k := 1 + DigitPrefix(s[1..]);
      assert forall i :: 1 <= i < k ==> s[..k][i] == s[1..][..k - 1][i - 1];
      k
  }

  /**
   * std::stoi restricted to unsigned decimals: the value of the leading run of
   * digits, anything after it ignored, and invalid_argument when there is none.
   */
  function ParseInt(s: string): (r: Result<nat, ParseError>)
    ensures r.Failure? <==> |s| == 0 || !IsDigit(s[0])
    ensures r.Failure? ==> r.error == InvalidArgument
  {
    var k := DigitPrefix(s);
    if k == 0 then Failure(InvalidArgument) else Success(DigitsValue(s[..k]))
  }

  /** Position of the first comma at or after `from`, like std::string::find. */
  function FindComma(s: string, from: nat): (r: Option<nat>)
    requires from <= |s|
    ensures r.Some? ==> from <= r.value < |s| && s[r.value] == ','
    ensures r.Some? ==> forall i :: from <= i < r.value ==> s[i] != ','
    ensures r.None? <==> forall i :: from <= i < |s| ==> s[i] != ','
    decreases |s| - from
  {
    if from == |s| then None
    else if s[from] == ',' then Some(from)
    else FindComma(s, from + 1)
  }

  /** One line of the edge file: both halves around the first comma as stoi reads them. */
  function ParseEdgeLine(line: string): (r: Result<Edge, ParseError>)
    ensures r == Failure(MalformedLine) <==> ',' !in line
    ensures r.Failure? ==> r.error == MalformedLine || r.error == InvalidArgument
  {
    match FindComma(line, 0)
    case None =>
      Failure(MalformedLine)
    case Some(loc) =>
      var u :- ParseInt(line[..loc]);
      var v :- ParseInt(line[loc + 1..]);
      Success(Edge(u, v))
  }

  /**
   * A line is split at its first comma: when the text before it holds no
   * comma, the result is stoi of that text and stoi of everything after it,
   * whatever further commas the rest contains.
   */
  lemma ParseEdgeLineSplits(a: string, b: string)
    requires ',' !in a
    ensures ParseEdgeLine(a + "," + b) ==
      if ParseInt(a).Failure? || ParseInt(b).Failure? then Failure(InvalidArgument)
      else Success(Edge(ParseInt(a).value, ParseInt(b).value))
  {
    SplitAtFirstComma(a, b);
  }

  /** Python's str on a non-negative int: decimal digits without leading zeros. */
  function NatToString(n: nat): (s: string)
    ensures |s| > 0 && AllDigits(s)
    ensures |s| > 1 ==> s[0] != '0'
    decreases n
  {
    if n < 10 then [DigitChar(n)] else NatToString(n / 10) + [DigitChar(n % 10)]
  }

  /** The digits NatToString writes read back as the number. */
  lemma {:induction false} NatToStringValue(n: nat)
    ensures DigitsValue(NatToString(n)) == n
    decreases n
  {
    if n >= 10 {
      NatToStringValue(n / 10);
      var s := NatToString(n);
      assert s[..|s| - 1] == NatToString(n / 10);
    }
  }

  /** The edge string the crawler writes for the pair (src, dest). */
  function FormatEdge(src: nat, dest: nat): (line: string)
    ensures ',' in line
  {
    var line := NatToString(src) + "," + NatToString(dest);
    assert line[|NatToString(src)|] == ',';
    line
  }

  lemma {:induction false} DigitPrefixOfDigits(p: string, t: string)
    requires AllDigits(p) && (|t| == 0 || !IsDigit(t[0]))
    ensures DigitPrefix(p + t) == |p|
    decreases |p|
  {
    if |p| > 0 {
      assert (p + t)[1..] == p[1..] + t;
      DigitPrefixOfDigits(p[1..], t);
    }
  }

  /** stoi stops at the first non-digit: a digit run followed by anything else reads as that run. */
  lemma ParseIntOfDigits(p: string, t: string)
    requires |p| > 0 && AllDigits(p) && (|t| == 0 || !IsDigit(t[0]))
    ensures ParseInt(p + t) == Success(DigitsValue(p))
  {
    DigitPrefixOfDigits(p, t);
    assert (p + t)[..|p|] == p;
  }

  /** A line with no comma in `a` is split exactly at the comma that follows `a`. */
  lemma SplitAtFirstComma(a: string, b: string)
    requires ',' !in a
    ensures FindComma(a + "," + b, 0) == Some(|a|)
    ensures (a + "," + b)[..|a|] == a && (a + "," + b)[|a| + 1..] == b
  {
    var line := a + "," + b;
    assert line[|a|] == ',';
    assert forall i :: 0 <= i < |a| ==> line[i] == a[i];
  }

  /** Every line the crawler writes parses back to the pair it was written from. */
  lemma EdgeRoundTrip(src: nat, dest: nat)
    ensures ParseEdgeLine(FormatEdge(src, dest)) == Success(Edge(src, dest))
  {
    var a := NatToString(src);
    var b := NatToString(dest);
    assert ',' !in a by {
      assert forall i :: 0 <= i < |a| ==> IsDigit(a[i]);
    }
    SplitAtFirstComma(a, b);
    NatToStringValue(src);
    NatToStringValue(dest);
    ParseIntOfDigits(a, "");
    ParseIntOfDigits(b, "");
    assert a + "" == a && b + "" == b;
  }

  /** Distinct pairs give distinct edge strings, so the crawler's edge set is a set of pairs. */
  lemma FormatEdgeInjective(a: nat, b: nat, c: nat, d: nat)
    ensures FormatEdge(a, b) == FormatEdge(c, d) <==> a == c && b == d
  {
    EdgeRoundTrip(a, b);
    EdgeRoundTrip(c, d);
  }

  /** Reading the same digits back gives the same text when there is no leading zero. */
  lemma {:induction false} NatToStringOfDigits(s: string)
    requires |s| > 0 && AllDigits(s) && (|s| > 1 ==> s[0] != '0')
    ensures NatToString(DigitsValue(s)) == s
    decreases |s|
  {
    var n := DigitsValue(s);
    if |s| == 1 {
      assert s[..0] == [];
      assert DigitsValue(s[..0]) == 0;
      assert n == DigitValue(s[0]);
      assert [DigitChar(n)] == s;
    } else {
      var init := s[..|s| - 1];
      assert init[0] == s[0];
      NatToStringOfDigits(init);
      NatToStringValue(n);
      DigitsValueAtLeast(init);
      assert n / 10 == DigitsValue(init) && n % 10 == DigitValue(s[|s| - 1]);
      assert init + [s[|s| - 1]] == s;
    }
  }

  /** A digit string without a leading zero and with k >= 2 digits is at least 10^(k-1) >= 10^1. */
  lemma {:induction false} DigitsValueAtLeast(s: string)
    requires |s| > 0 && AllDigits(s) && (|s| > 1 ==> s[0] != '0')
    ensures |s| > 1 ==> DigitsValue(s) >= 10
    ensures DigitsValue(s) > 0 || |s| == 1
    decreases |s|
  {
    if |s| > 1 {
      var init := s[..|s| - 1];
      assert init[0] == s[0];
      DigitsValueAtLeast(init);
      if |init| == 1 {
        assert DigitsValue(init) == DigitValue(s[0]) by {
          assert init[..0] == [];
        }
      }
    }
  }

  /**
   * The whole edge file, line by line: the first line that does not parse
   * raises its error, otherwise every line becomes one edge in file order.
   */
  function ReadEdges(lines: seq<string>): (r: Result<seq<Edge>, ParseError>)
    ensures r.Success? <==> forall i :: 0 <= i < |lines| ==> ParseEdgeLine(lines[i]).Success?
    ensures r.Success? ==> |r.value| == |lines|
    ensures r.Success? ==> forall i :: 0 <= i < |lines| ==> ParseEdgeLine(lines[i]) == Success(r.value[i])
    ensures r.Failure? ==> exists i :: 0 <= i < |lines| && ParseEdgeLine(lines[i]) == Failure(r.error) &&
                                   (forall k :: 0 <= k < i ==> ParseEdgeLine(lines[k]).Success?)
    decreases |lines|
  {
    if |lines| == 0 then
      Success([])
    else
      var e :- ParseEdgeLine(lines[0]);
      var rest :- ReadEdges(lines[1..]);
      Success([e] + rest)
  }
}
