/** What `sequence` computes, stated without running its loop. */
module SequenceLaws {
  import opened Options
  import opened Feeds
  import opened Matchers

  /**
    `rs` are the results of running `ms` one after another, the first from
    cursor `from` and each next one from where the previous ended; the last
    ends at `to`.
   */
  predicate RunsInOrder(ms: seq<Matcher>, rs: seq<MatchResult>, input: string, from: nat, to: nat)
    decreases ms
  {
    && |rs| == |ms|
    && if |ms| == 0 then from == to
       else Yields(ms[0], input, from, rs[0]) && RunsInOrder(ms[1..], rs[1..], input, rs[0].end, to)
  }

  lemma {:induction false} ItemsSound(ms: seq<Matcher>, f: Feed)
    requires Valid(f)
    requires RunItems(ms, f).Done? && RunItems(ms, f).result.Some?
    ensures RunsInOrder(ms, RunItems(ms, f).result.value, f.input, f.cursor, RunItems(ms, f).feed.cursor)
    decreases ms
  {
    if |ms| > 0 {
      var g := Run(ms[0], f).feed;
      ItemsSound(ms[1..], g);
    }
  }

  lemma {:induction false} ItemsComplete(ms: seq<Matcher>, rs: seq<MatchResult>, f: Feed, to: nat)
    requires Valid(f)
    requires RunsInOrder(ms, rs, f.input, f.cursor, to)
    ensures RunItems(ms, f) == Done(Some(rs), Feed(f.input, to))
    decreases ms
  {
    if |ms| > 0 {
      ItemsComplete(ms[1..], rs[1..], Feed(f.input, rs[0].end), to);
      assert [rs[0]] + rs[1..] == rs;
    }
  }

  /** The items before `k` succeed in order, ending at `c`, and item `k` then fails there. */
  lemma {:induction false} ItemsFailAt(ms: seq<Matcher>, k: nat, rs: seq<MatchResult>, f: Feed, c: nat)
    requires Valid(f) && k < |ms|
    requires RunsInOrder(ms[..k], rs, f.input, f.cursor, c)
    requires FailsAt(ms[k], f.input, c)
    ensures RunItems(ms, f) == Done(None, Feed(f.input, c))
    decreases k
  {
    if k > 0 {
      assert ms[..k][0] == ms[0];
      assert ms[..k][1..] == ms[1..][..k - 1];
      ItemsFailAt(ms[1..], k - 1, rs[1..], Feed(f.input, rs[0].end), c);
    }
  }

  /**
    A sequence succeeds exactly when every item succeeds in turn; its value
    then holds one result per item, in order, and it spans from the entry
    cursor to where the last item ended.
   */
  lemma {:induction false} SequenceSucceeds(ms: seq<Matcher>, f: Feed, r: MatchResult, g: Feed)
    requires Valid(f)
    ensures Run(Seq(ms), f) == Done(Some(r), g) <==>
              && g.input == f.input
              && r.start == f.cursor && r.end == g.cursor
              && r.value.List?
              && RunsInOrder(ms, r.value.results, f.input, f.cursor, g.cursor)
    ensures Run(Seq(ms), f) == Done(Some(r), g) ==> |r.value.results| == |ms|
  {
    assert Run(Seq(ms), f) == Sequence(ms, f);
    if Run(Seq(ms), f) == Done(Some(r), g) {
      ItemsSound(ms, f);
    }
    if && g.input == f.input && r.start == f.cursor && r.end == g.cursor && r.value.List?
       && RunsInOrder(ms, r.value.results, f.input, f.cursor, g.cursor) {
      ItemsComplete(ms, r.value.results, f, g.cursor);
    }
  }

  /**
    When item `k` fails after the items before it succeeded, the whole
    sequence fails and the cursor is back at its entry value, however far the
    earlier items had advanced it.
   */
  lemma SequenceRollback(ms: seq<Matcher>, k: nat, rs: seq<MatchResult>, f: Feed, c: nat)
    requires Valid(f) && k < |ms|
    requires RunsInOrder(ms[..k], rs, f.input, f.cursor, c)
    requires FailsAt(ms[k], f.input, c)
    ensures Run(Seq(ms), f) == Done(None, f)
  {
    ItemsFailAt(ms, k, rs, f, c);
  }

  /** The empty sequence succeeds without consuming anything. */
  lemma EmptySequence(f: Feed)
    requires Valid(f)
    ensures Run(Seq([]), f) == Done(Some(MatchResult(List([]), f.cursor, f.cursor)), f)
  {
  }
}
