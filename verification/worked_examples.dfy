/** Concrete grammars and inputs, with the outcomes the model gives them. */
module WorkedExamples {
  import opened Options
  import opened Feeds
  import opened Matchers
  import opened SequenceLaws
  import opened AlternationLaws
  import opened QuantifierLaws
  import opened OptionalLaws

  /** The recogniser of a regular expression that is a plain literal `s`. */
  function Literal(s: string): string -> Option<string> {
    text => if StartsWith(text, s) then Some(s) else None
  }

  predicate IsDigit(c: char) {
    '0' <= c <= '9'
  }

  /** The length of the longest run of digits at the start of `text`. */
  function DigitPrefix(text: string): (n: nat)
    ensures n <= |text|
    ensures forall i :: 0 <= i < n ==> IsDigit(text[i])
    ensures n < |text| ==> !IsDigit(text[n])
  {
    if |text| > 0 && IsDigit(text[0]) then 1 + DigitPrefix(text[1..]) else 0
  }

  /** The recogniser of `[0-9]+`. */
  function Digits(text: string): Option<string> {
    var n := DigitPrefix(text);
    if n > 0 then Some(text[..n]) else None
  }

  /** The recogniser of `[0-9]`. */
  function Digit(text: string): Option<string> {
    if |text| > 0 && IsDigit(text[0]) then Some(text[..1]) else None
  }

  /** `character(c)` at a cursor holding `c`. */
  lemma CharacterAt(input: string, i: nat, c: char)
    requires i < |input| && input[i] == c
    ensures Yields(Char([c]), input, i, MatchResult(Str([c]), i, i + 1))
  {
  }

  /** The recogniser of `[0-9]` at a cursor holding a digit. */
  lemma DigitAt(input: string, i: nat)
    requires i < |input| && IsDigit(input[i])
    ensures Yields(Pat(Digit), input, i, MatchResult(Str([input[i]]), i, i + 1))
  {
    assert LookFeed(Feed(input, i))[..1] == [input[i]];
  }

  /** The recogniser of `[0-9]` where there is no digit. */
  lemma NoDigitAt(input: string, i: nat)
    requires i <= |input| && (i == |input| || !IsDigit(input[i]))
    ensures FailsAt(Pat(Digit), input, i)
  {
  }

  lemma QuantifierFloor()
    ensures Run(Quant(Char("a"), 2, None), Feed("a", 0)) == Done(None, Feed("a", 0))
  {
  }

  lemma QuantifierGreedyBound()
    ensures Run(Quant(Char("a"), 1, Some(3)), Feed("aaaaa", 0))
            == Done(Some(MatchResult(List([MatchResult(Str("a"), 0, 1), MatchResult(Str("a"), 1, 2), MatchResult(Str("a"), 2, 3)]), 0, 3)),
                    Feed("aaaaa", 3))
  {
    var input := "aaaaa";
    var rs := [MatchResult(Str("a"), 0, 1), MatchResult(Str("a"), 1, 2), MatchResult(Str("a"), 2, 3)];
    CharacterAt(input, 0, 'a');
    CharacterAt(input, 1, 'a');
    CharacterAt(input, 2, 'a');
    assert Repeats(Char("a"), rs[3..], input, 3, 3);
    assert Repeats(Char("a"), rs[2..], input, 2, 3);
    assert Repeats(Char("a"), rs[1..], input, 1, 3);
    assert Repeats(Char("a"), rs, input, 0, 3);
    assert Greedy(Char("a"), Some(3), rs, input, 0, 3);
    QuantifierSucceeds(Char("a"), 1, Some(3), Feed(input, 0), MatchResult(List(rs), 0, 3), Feed(input, 3));
  }

  lemma AlternationOrder()
    ensures Run(Alt([Pat(Literal("a")), Pat(Literal("ab"))]), Feed("ab", 0))
            == Done(Some(MatchResult(Str("a"), 0, 1)), Feed("ab", 1))
  {
    var ms := [Pat(Literal("a")), Pat(Literal("ab"))];
    assert LookFeed(Feed("ab", 0)) == "ab";
    assert Literal("a")("ab") == Some("a");
    assert Run(ms[0], Feed("ab", 0)) == Done(Some(MatchResult(Str("a"), 0, 1)), Feed("ab", 1));
    AlternationFirstSuccess(ms, 0, [], Feed("ab", 0));
  }

  lemma PatternAnchoring()
    ensures Run(Pat(Digits), Feed("123abc", 0)) == Done(Some(MatchResult(Str("123"), 0, 3)), Feed("123abc", 3))
    ensures Run(Pat(Digits), Feed("abc123", 0)) == Done(None, Feed("abc123", 0))
  {
    assert LookFeed(Feed("123abc", 0)) == "123abc";
    assert DigitPrefix("123abc") == 3 by {
      assert "123abc"[1..] == "23abc";
      assert "23abc"[1..] == "3abc";
      assert "3abc"[1..] == "abc";
    }
    assert "123abc"[..3] == "123";
    assert LookFeed(Feed("abc123", 0)) == "abc123";
  }

  /** `quantifier(digit, 1)` */
  function DigitRun(): Matcher {
    Quant(Pat(Digit), 1, None)
  }

  /** `sequence(character('.'), quantifier(digit, 1))` */
  function Fraction(): Matcher {
    Seq([Char("."), DigitRun()])
  }

  /** `number = sequence(quantifier(digit, 1), optional(sequence(character('.'), quantifier(digit, 1))))` */
  function Number(): Matcher {
    Seq([DigitRun(), Opt(Fraction())])
  }

  lemma IntegerPartOfPi()
    ensures Run(DigitRun(), Feed("3.14", 0)) == Done(Some(MatchResult(List([MatchResult(Str("3"), 0, 1)]), 0, 1)), Feed("3.14", 1))
  {
    var input := "3.14";
    var d0 := MatchResult(Str("3"), 0, 1);
    DigitAt(input, 0);
    NoDigitAt(input, 1);
    assert Repeats(Pat(Digit), [d0][1..], input, 1, 1);
    assert Greedy(Pat(Digit), None, [d0], input, 0, 1);
    QuantifierSucceeds(Pat(Digit), 1, None, Feed(input, 0), MatchResult(List([d0]), 0, 1), Feed(input, 1));
  }

  lemma FractionOfPi()
    ensures Run(Fraction(), Feed("3.14", 1)).Done?
    ensures Run(Fraction(), Feed("3.14", 1)).result.Some?
    ensures Run(Fraction(), Feed("3.14", 1)).feed == Feed("3.14", 4)
  {
    var input := "3.14";
    var d2, d3 := MatchResult(Str("1"), 2, 3), MatchResult(Str("4"), 3, 4);
    DigitAt(input, 2);
    DigitAt(input, 3);
    NoDigitAt(input, 4);
    assert Repeats(Pat(Digit), [d2, d3][2..], input, 4, 4);
    assert Repeats(Pat(Digit), [d2, d3][1..], input, 3, 4);
    assert Greedy(Pat(Digit), None, [d2, d3], input, 2, 4);
    var decimals := MatchResult(List([d2, d3]), 2, 4);
    QuantifierSucceeds(Pat(Digit), 1, None, Feed(input, 2), decimals, Feed(input, 4));
    var dot := MatchResult(Str("."), 1, 2);
    CharacterAt(input, 1, '.');
    assert RunsInOrder(Fraction().items, [dot, decimals], input, 1, 4);
    SequenceSucceeds(Fraction().items, Feed(input, 1), MatchResult(List([dot, decimals]), 1, 4), Feed(input, 4));
  }

  /**
    On "3.14" the fraction matches but `optional` gives it back, so the number
    spans only "3".
   */
  lemma NumberWithFraction()
    ensures var o := Run(Number(), Feed("3.14", 0));
            o.Done? && o.result.Some? && o.result.value.start == 0 && o.result.value.end == 1
  {
    var input := "3.14";
    IntegerPartOfPi();
    var whole := Run(DigitRun(), Feed(input, 0)).result.value;
    FractionOfPi();
    OptionalNeverFails(Fraction(), Feed(input, 1));
    var opt := MatchResult(Maybe(Run(Fraction(), Feed(input, 1)).result), 1, 1);
    assert RunsInOrder(Number().items, [whole, opt], input, 0, 1);
    SequenceSucceeds(Number().items, Feed(input, 0), MatchResult(List([whole, opt]), 0, 1), Feed(input, 1));
  }

  /**
    On "42" the fraction fails, and `optional` reports that failure as a
    successful, empty match at the end.
   */
  lemma NumberWithoutFraction()
    ensures Run(Number(), Feed("42", 0)) ==
            Done(Some(MatchResult(List([MatchResult(List([MatchResult(Str("4"), 0, 1), MatchResult(Str("2"), 1, 2)]), 0, 2),
                                        MatchResult(Maybe(None), 2, 2)]), 0, 2)),
                 Feed("42", 2))
  {
    var input := "42";
    var fraction := Fraction();
    var d0, d1 := MatchResult(Str("4"), 0, 1), MatchResult(Str("2"), 1, 2);
    DigitAt(input, 0);
    DigitAt(input, 1);
    NoDigitAt(input, 2);
    assert Repeats(Pat(Digit), [d0, d1][2..], input, 2, 2);
    assert Repeats(Pat(Digit), [d0, d1][1..], input, 1, 2);
    assert Greedy(Pat(Digit), None, [d0, d1], input, 0, 2);
    var whole := MatchResult(List([d0, d1]), 0, 2);
    QuantifierSucceeds(Pat(Digit), 1, None, Feed(input, 0), whole, Feed(input, 2));
    // "." is not there, so the fraction fails and optional wraps the failure
    assert FailsAt(Char("."), input, 2);
    SequenceRollback(fraction.items, 0, [], Feed(input, 2), 2);
    OptionalNeverFails(fraction, Feed(input, 2));
    var opt := MatchResult(Maybe(None), 2, 2);
    assert RunsInOrder(Number().items, [whole, opt], input, 0, 2);
    SequenceSucceeds(Number().items, Feed(input, 0), MatchResult(List([whole, opt]), 0, 2), Feed(input, 2));
  }
}
