/**
 * The line and token utilities the reader relies on (util::TokenIter,
 * StringPiece::starts_with / find_last_of, boost::lexical_cast), written
 * over `string` = `seq<char>`.
 */
module Text {
  import opened Wrappers

  predicate StartsWith(s: string, prefix: string) {
    |prefix| <= |s| && s[..|prefix|] == prefix
  }

  /** Position of the first `c` in `s`. */
  function IndexOf(s: string, c: char): (i: nat)
    requires c in s
    ensures i < |s| && s[i] == c && c !in s[..i]
  {
    if s[0] == c then 0 else 1 + IndexOf(s[1..], c)
  }

  /**
   * Splitting at every `c`, keeping empty tokens (TokenIter with
   * SingleCharacter and skip_empty = false): "a  b" gives "a", "", "b".
   */
  function Split(s: string, c: char): (r: seq<string>)
    ensures |r| >= 1
    ensures forall i :: 0 <= i < |r| ==> c !in r[i]
    decreases |s|
  {
    if c !in s then [s]
    else
      var i := IndexOf(s, c);
      [s[..i]] + Split(s[i + 1..], c)
  }

  function Join(tokens: seq<string>, c: char): string
    requires |tokens| >= 1
  {
    if |tokens| == 1 then tokens[0] else tokens[0] + [c] + Join(tokens[1..], c)
  }

  /** Joining a token in front of at least one more puts the separator between them. */
  lemma JoinCons(head: string, rest: seq<string>, c: char)
    requires |rest| >= 1
    ensures Join([head] + rest, c) == head + [c] + Join(rest, c)
  {
    var r := [head] + rest;
    assert r[0] == head && r[1..] == rest;
  }

  /** Splitting loses nothing: the tokens joined with the separator give the input back. */
  lemma {:induction false} SplitJoin(s: string, c: char)
    ensures Join(Split(s, c), c) == s
    decreases |s|
  {
    if c in s {
      var i := IndexOf(s, c);
      var head, tail := s[..i], s[i + 1..];
      var rest := Split(tail, c);
      assert Split(s, c) == [head] + rest;
      JoinCons(head, rest, c);
      SplitJoin(tail, c);
      assert s == head + [c] + tail;
    } else {
      assert Split(s, c) == [s];
    }
  }

  predicate OccursAt(s: string, d: string, i: nat) {
    i + |d| <= |s| && s[i..i + |d|] == d
  }

  /** First position at or after `from` where `d` occurs in `s`. */
  function FindFrom(s: string, d: string, from: nat): (r: Option<nat>)
    requires |d| > 0
    ensures r.Some? ==> from <= r.value && OccursAt(s, d, r.value)
                        && forall j :: from <= j < r.value ==> !OccursAt(s, d, j)
    ensures r.None? ==> forall j :: from <= j ==> !OccursAt(s, d, j)
    decreases |s| - from
  {
    if from + |d| > |s| then None
    else if s[from..from + |d|] == d then Some(from)
    else FindFrom(s, d, from + 1)
  }

  const Pipes: string := " ||| "

  /**
   * The first two fields of a line cut at " ||| " (TokenIter with
   * MultiCharacter): the text before the first delimiter and the text
   * between the first and the second (or the end). A line without a
   * delimiter has no second field, modelled as the empty field.
   */
  function PipeFields(line: string): (r: (string, string))
    ensures FindFrom(line, Pipes, 0).None? ==> r == (line, "")
    ensures FindFrom(line, Pipes, 0).Some? ==>
              var i := FindFrom(line, Pipes, 0).value;
              r.0 == line[..i] && StartsWith(line[i + |Pipes|..], r.1)
  {
    match FindFrom(line, Pipes, 0)
    case None => (line, "")
    case Some(i) =>
      var rest := line[i + |Pipes|..];
      match FindFrom(rest, Pipes, 0)
      case None => (line[..i], rest)
      case Some(j) => (line[..i], rest[..j])
  }

  /** Position of the last `c` in `s` (StringPiece::find_last_of). */
  function LastIndexOf(s: string, c: char): (r: Option<nat>)
    ensures r.None? <==> c !in s
    ensures r.Some? ==> r.value < |s| && s[r.value] == c && c !in s[r.value + 1..]
  {
    if |s| == 0 then None
    else if s[|s| - 1] == c then Some(|s| - 1)
    else
      var r := LastIndexOf(s[..|s| - 1], c);
      assert s == s[..|s| - 1] + [s[|s| - 1]];
      r
  }

  predicate IsDigit(ch: char) { '0' <= ch <= '9' }

  predicate IsDigits(s: string) {
    |s| > 0 && forall i :: 0 <= i < |s| ==> IsDigit(s[i])
  }

  function DigitsValue(s: string): nat
    requires forall i :: 0 <= i < |s| ==> IsDigit(s[i])
  {
    if |s| == 0 then 0
    else
      var d := (s[|s| - 1] as int) - ('0' as int);
      assert IsDigit(s[|s| - 1]);
      DigitsValue(s[..|s| - 1]) * 10 + d
  }

  /** 2^64: the values of a 64-bit unsigned long are 0 .. ULongModulus - 1. */
  const ULongModulus: nat := 0x1_0000_0000_0000_0000

  /** `s` without its leading '+' or '-', if it has one. */
  function Unsigned(s: string): string {
    if |s| > 0 && (s[0] == '+' || s[0] == '-') then s[1..] else s
  }

  /**
   * boost::lexical_cast<unsigned long>: the whole text must be an optional
   * sign followed by at least one decimal digit, and the digits must fit
   * in 64 bits; a '-' negates the value modulo 2^64, so "-1" is 2^64 - 1.
   */
  function ParseULong(s: string): (r: Option<nat>)
    ensures r.Some? ==> r.value < ULongModulus
    ensures IsDigits(s) ==> (r.Some? <==> DigitsValue(s) < ULongModulus)
    ensures IsDigits(s) && r.Some? ==> r.value == DigitsValue(s)
    ensures r.Some? ==> IsDigits(Unsigned(s)) && DigitsValue(Unsigned(s)) < ULongModulus
    ensures r.Some? && s[0] == '-' ==> (r.value + DigitsValue(s[1..])) % ULongModulus == 0
    ensures r.Some? && s[0] == '+' ==> r.value == DigitsValue(s[1..])
  {
    var digits := Unsigned(s);
    if !IsDigits(digits) || DigitsValue(digits) >= ULongModulus then None
    else if s[0] == '-' then Some((ULongModulus - DigitsValue(digits)) % ULongModulus)
    else Some(DigitsValue(digits))
  }

  /** The sign cases: "+3" is 3 and "-1" wraps around to the largest unsigned long. */
  lemma SignedCounts()
    ensures ParseULong("+3") == Some(3)
    ensures ParseULong("-1") == Some(ULongModulus - 1)
    ensures ParseULong("-0") == Some(0)
    ensures ParseULong("+") == None && ParseULong("-") == None
  {
    assert Unsigned("+3") == "3" && DigitsValue("3") == 3;
    assert Unsigned("-1") == "1" && DigitsValue("1") == 1;
    assert Unsigned("-0") == "0" && DigitsValue("0") == 0;
    assert Unsigned("+") == [] && Unsigned("-") == [];
  }

  /** The non-empty tokens of `toks`, in order. */
  function NonEmpty(toks: seq<string>): (r: seq<string>)
    ensures |r| <= |toks|
    ensures forall i :: 0 <= i < |r| ==> |r[i]| > 0 && r[i] in toks
  {
    if |toks| == 0 then []
    else NonEmpty(toks[..|toks| - 1]) + (if |toks[|toks| - 1]| > 0 then [toks[|toks| - 1]] else [])
  }

  /**
   * The words of a line cut at single spaces with empty tokens skipped
   * (TokenIter with SingleCharacter and skip_empty = true).
   */
  function Words(line: string): seq<string> {
    NonEmpty(Split(line, ' '))
  }
}
