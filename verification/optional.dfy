/** What `optional` computes: a non-failing wrapper that reports its inner match without consuming it. */
module OptionalLaws {
  import opened Options
  import opened Feeds
  import opened Matchers

  /**
    `optional(m)` never fails: whenever `m` returns, it succeeds with `m`'s
    result (or nothing) as its value and `start == end` at the entry cursor,
    and the feed is exactly as it was on entry. The code rolls back only after
    an inner success; after an inner failure the cursor is wherever `m` left
    it, which in this language is the entry cursor, so it is never moved.
   */
  lemma OptionalNeverFails(m: Matcher, f: Feed)
    requires Valid(f)
    ensures Run(Opt(m), f).Done? <==> Run(m, f).Done?
    ensures Run(m, f).Done? ==>
              Run(Opt(m), f) == Done(Some(MatchResult(Maybe(Run(m, f).result), f.cursor, f.cursor)), f)
  {
  }

  /**
    A successful inner match is reported but discarded: the same matcher run
    directly would have advanced the cursor to `r.end`.
   */
  lemma OptionalDiscardsMatch(m: Matcher, f: Feed, r: MatchResult, g: Feed)
    requires Valid(f)
    requires Run(m, f) == Done(Some(r), g)
    ensures g.cursor == r.end
    ensures Run(Opt(m), f) == Done(Some(MatchResult(Maybe(Some(r)), f.cursor, f.cursor)), f)
  {
    OptionalNeverFails(m, f);
  }
}
