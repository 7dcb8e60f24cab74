/** What `quantifier` computes: greedy repetition, bounded by `max`, accepted from `min`. */
module QuantifierLaws {
  import opened Options
  import opened Feeds
  import opened Matchers

  /** `rs` are successive successes of `m`, the first from `from`, each next from where the previous ended, the last ending at `to`. */
  predicate Repeats(m: Matcher, rs: seq<MatchResult>, input: string, from: nat, to: nat)
    decreases |rs|
  {
    if |rs| == 0 then from == to
    else Yields(m, input, from, rs[0]) && Repeats(m, rs[1..], input, rs[0].end, to)
  }

  /** `n` repetitions do not exceed the bound `max`, if there is one. */
  predicate WithinMax(max: Option<int>, n: nat) {
    max.Some? ==> n == 0 || n <= max.value
  }

  /** The loop may stop at cursor `at` after `n` repetitions: `max` is reached, or `m` fails there. */
  predicate StopsAt(m: Matcher, max: Option<int>, n: nat, input: string, at: nat) {
    (max.Some? && n >= max.value) || FailsAt(m, input, at)
  }

  /** Every repetition consumed at least one character. */
  predicate AllConsume(rs: seq<MatchResult>) {
    forall i :: 0 <= i < |rs| ==> rs[i].start < rs[i].end
  }

  /**
    `rs` is what the greedy loop collects from `from`: successive successes of
    `m` within the bound, after which no further repetition is taken; with no
    bound, every repetition consumed input (otherwise the loop never ends).
   */
  predicate Greedy(m: Matcher, max: Option<int>, rs: seq<MatchResult>, input: string, from: nat, to: nat) {
    && Repeats(m, rs, input, from, to)
    && WithinMax(max, |rs|)
    && (max.None? ==> AllConsume(rs))
    && to <= |input|
    && StopsAt(m, max, |rs|, input, to)
  }

  /** `Greedy`, entered with `count` repetitions already taken. */
  predicate GreedyFrom(m: Matcher, max: Option<int>, count: nat, rs: seq<MatchResult>, input: string, from: nat, to: nat) {
    && Repeats(m, rs, input, from, to)
    && WithinMax(max, if |rs| == 0 then 0 else count + |rs|)
    && (max.None? ==> AllConsume(rs))
    && to <= |input|
    && StopsAt(m, max, count + |rs|, input, to)
  }

  lemma {:induction false} RepeatSound(m: Matcher, max: Option<int>, f: Feed, count: nat)
    requires Valid(f)
    requires Repeat(m, max, f, count).Done?
    ensures GreedyFrom(m, max, count, Repeat(m, max, f, count).result, f.input, f.cursor, Repeat(m, max, f, count).feed.cursor)
    decreases if max.Some? then max.value - count else |f.input| - f.cursor
  {
    if max.Some? && count >= max.value {
    } else if Run(m, f).result.None? {
      assert f == Feed(f.input, f.cursor);
    } else {
      var r := Run(m, f).result.value;
      var g := Run(m, f).feed;
      RepeatSound(m, max, g, count + 1);
      var rs := Repeat(m, max, g, count + 1).result;
      assert Repeat(m, max, f, count).result == [r] + rs;
      assert ([r] + rs)[1..] == rs;
    }
  }

  lemma {:induction false} RepeatComplete(m: Matcher, max: Option<int>, count: nat, rs: seq<MatchResult>, f: Feed, to: nat)
    requires Valid(f)
    requires GreedyFrom(m, max, count, rs, f.input, f.cursor, to)
    ensures Repeat(m, max, f, count) == Done(rs, Feed(f.input, to))
    decreases |rs|
  {
    if |rs| > 0 {
      assert !(max.Some? && count >= max.value);
      assert rs[0].start < rs[0].end || max.Some?;
      var g := Feed(f.input, rs[0].end);
      assert forall i :: 0 <= i < |rs[1..]| ==> rs[1..][i] == rs[i + 1];
      RepeatComplete(m, max, count + 1, rs[1..], g, to);
      assert [rs[0]] + rs[1..] == rs;
    }
  }

  /**
    The loop's collected repetitions are exactly the greedy ones; in
    particular there are never more than `max` of them.
   */
  lemma RepeatIsGreedy(m: Matcher, max: Option<int>, f: Feed, rs: seq<MatchResult>, g: Feed)
    requires Valid(f)
    ensures Repeat(m, max, f, 0) == Done(rs, g) <==> g.input == f.input && Greedy(m, max, rs, f.input, f.cursor, g.cursor)
  {
    if Repeat(m, max, f, 0) == Done(rs, g) {
      RepeatSound(m, max, f, 0);
    }
    if g.input == f.input && Greedy(m, max, rs, f.input, f.cursor, g.cursor) {
      RepeatComplete(m, max, 0, rs, f, g.cursor);
    }
  }

  /**
    A quantifier succeeds exactly when the greedy repetitions number at least
    `min`; its value then holds those repetitions (at most `max`) and it spans
    from the entry cursor to the end of the last one.
   */
  lemma QuantifierSucceeds(m: Matcher, min: int, max: Option<int>, f: Feed, r: MatchResult, g: Feed)
    requires Valid(f)
    ensures Run(Quant(m, min, max), f) == Done(Some(r), g) <==>
              && g.input == f.input
              && r.start == f.cursor && r.end == g.cursor
              && r.value.List?
              && Greedy(m, max, r.value.results, f.input, f.cursor, g.cursor)
              && |r.value.results| >= min
    ensures Run(Quant(m, min, max), f) == Done(Some(r), g) && max.Some? ==> |r.value.results| <= if max.value < 0 then 0 else max.value
  {
    assert Run(Quant(m, min, max), f) == Quantifier(m, min, max, f);
    if Run(Quant(m, min, max), f) == Done(Some(r), g) {
      RepeatIsGreedy(m, max, f, r.value.results, g);
    }
    if r.value.List? && g.input == f.input && Greedy(m, max, r.value.results, f.input, f.cursor, g.cursor) {
      RepeatIsGreedy(m, max, f, r.value.results, g);
    }
  }

  /**
    A quantifier fails exactly when the greedy repetitions number fewer than
    `min`, and then the cursor is reset to its entry value.
   */
  lemma QuantifierFails(m: Matcher, min: int, max: Option<int>, f: Feed, rs: seq<MatchResult>, c: nat)
    requires Valid(f)
    requires Greedy(m, max, rs, f.input, f.cursor, c)
    ensures Run(Quant(m, min, max), f).Done?
    ensures Run(Quant(m, min, max), f).result.None? <==> |rs| < min
    ensures |rs| < min ==> Run(Quant(m, min, max), f) == Done(None, f)
  {
    assert Run(Quant(m, min, max), f) == Quantifier(m, min, max, f);
    RepeatIsGreedy(m, max, f, rs, Feed(f.input, c));
  }

  /** With `min` at most zero a quantifier never fails (it may still never return). */
  lemma MinZeroNeverFails(m: Matcher, min: int, max: Option<int>, f: Feed)
    requires Valid(f) && min <= 0
    ensures Run(Quant(m, min, max), f).Done? ==> Run(Quant(m, min, max), f).result.Some?
  {
  }

  /** With no `max`, an inner matcher that succeeds without consuming makes the loop run forever. */
  lemma UnboundedStall(m: Matcher, min: int, f: Feed, r: MatchResult)
    requires Valid(f)
    requires Run(m, f) == Done(Some(r), f)
    ensures Run(Quant(m, min, None), f) == Diverge
  {
    assert Repeat(m, None, f, 0) == Diverge;
    assert Run(Quant(m, min, None), f) == Quantifier(m, min, None, f);
  }
}
