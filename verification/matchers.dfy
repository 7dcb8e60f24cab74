/**
  The combinator engine: two leaf matchers (`character`, `pattern`) and four
  combinators (`sequence`, `alternation`, `quantifier`, `optional`), all acting
  on one shared feed. A matcher term is immutable data; `Run` interprets it,
  taking the feed on entry and giving back the feed as the matcher leaves it.

  In the source a matcher either returns a result `{value, start, end}` or
  fails with `null`; here that is an `Option<MatchResult>`. The source's
  unbounded quantifier loops forever when its inner matcher succeeds without
  consuming; because every matcher is a deterministic function of the input
  and the cursor, that happens exactly when such a success occurs, and `Run`
  reports it as `Diverge` instead of returning.
 */
module Matchers {
  import opened Options
  import opened Feeds

  datatype Matcher =
    | Char(token: string)
      /** A regular expression anchored at the cursor, abstracted as the
          recogniser `exec`: given the rest of the input it returns the
          matched text, or nothing. */
    | Pat(exec: string -> Option<string>)
    | Seq(items: seq<Matcher>)
    | Alt(items: seq<Matcher>)
      /** `max == None` is the source's `max = undefined`: no upper bound. */
    | Quant(inner: Matcher, min: int, max: Option<int>)
    | Opt(inner: Matcher)

  /** The `value` of a result: matched text for the leaves, the collected
      sub-results for `sequence` and `quantifier`, and the inner result (or
      `null`) for `optional`. */
  datatype Value =
    | Str(text: string)
    | List(results: seq<MatchResult>)
    | Maybe(result: Option<MatchResult>)

  /** The source's `MatchResult`: what was recognised and the range `[start, end)`. */
  datatype MatchResult = MatchResult(value: Value, start: nat, end: nat)

  /** How one run ends: it returns `result` leaving the feed as `feed`, or it never returns. */
  datatype Outcome<T> = Done(result: T, feed: Feed) | Diverge

  /**
    The cursor discipline every matcher of this language keeps: the input is
    never changed and the cursor stays inside it; a failure leaves the feed
    exactly as it was on entry; a success reports `start` as the entry cursor
    and `end` as the exit cursor, which is never behind the entry cursor.
   */
  predicate Disciplined(f: Feed, o: Outcome<Option<MatchResult>>) {
    o.Done? ==>
      && Valid(o.feed)
      && o.feed.input == f.input
      && (o.result.None? ==> o.feed == f)
      && (o.result.Some? ==>
            && o.result.value.start == f.cursor
            && o.result.value.end == o.feed.cursor
            && f.cursor <= o.feed.cursor)
  }

  /** Runs matcher `m` against feed `f`. */
  function Run(m: Matcher, f: Feed): (o: Outcome<Option<MatchResult>>)
    requires Valid(f)
    ensures Disciplined(f, o)
    decreases m, 0, 0
  {
    match m
    case Char(token) => Character(token, f)
    case Pat(exec) => Pattern(exec, f)
    case Seq(ms) => Sequence(ms, f)
    case Alt(ms) => Alternation(ms, f)
    case Quant(inner, min, max) => Quantifier(inner, min, max, f)
    case Opt(inner) => Optional(inner, f)
  }

  /** `character(token)`: consumes one character when it is the token's first. */
  function Character(token: string, f: Feed): (o: Outcome<Option<MatchResult>>)
    requires Valid(f)
    ensures o.Done?
    ensures o.result.Some? <==> 0 < |token| && f.cursor < |f.input| && f.input[f.cursor] == token[0]
    ensures o.result.Some? ==>
              && o.result.value == MatchResult(Str(token), f.cursor, f.cursor + 1)
              && o.feed == Feed(f.input, f.cursor + 1)
    ensures o.result.None? ==> o.feed == f
  {
    var eaten := EatFeed(f, token, 1);
    if eaten.0 then Done(Some(MatchResult(Str(token), f.cursor, eaten.1.cursor)), eaten.1)
    else Done(None, eaten.1)
  }

  /** `pattern(value)`: consumes the text the anchored expression matches at the cursor. */
  function Pattern(exec: string -> Option<string>, f: Feed): (o: Outcome<Option<MatchResult>>)
    requires Valid(f)
    ensures o.Done?
    ensures o.result.Some? <==> exec(LookFeed(f)).Some? && StartsWith(LookFeed(f), exec(LookFeed(f)).value)
    ensures o.result.Some? ==>
              var text := exec(LookFeed(f)).value;
              && text == f.input[f.cursor..f.cursor + |text|]
              && o.result.value == MatchResult(Str(text), f.cursor, f.cursor + |text|)
              && o.feed == Feed(f.input, f.cursor + |text|)
    ensures o.result.None? ==> o.feed == f
  {
    var peeked := LookFeed(f);
    match exec(peeked)
    case None => Done(None, f)
    case Some(text) =>
      var eaten := EatFeed(f, text, |text|);
      if eaten.0 then Done(Some(MatchResult(Str(text), f.cursor, eaten.1.cursor)), eaten.1)
      else Done(None, eaten.1)
  }

  /** `sequence(...ms)`: every matcher in turn; the first failure rolls the cursor back to entry. */
  function Sequence(ms: seq<Matcher>, f: Feed): (o: Outcome<Option<MatchResult>>)
    requires Valid(f)
    ensures Disciplined(f, o)
    decreases ms, 1, 0
  {
    match RunItems(ms, f)
    case Diverge => Diverge
    case Done(None, _) => Done(None, f)
    case Done(Some(rs), g) => Done(Some(MatchResult(List(rs), f.cursor, g.cursor)), g)
  }

  /** The loop of `sequence`: the results of `ms` in order, or the feed where one failed. */
  function RunItems(ms: seq<Matcher>, f: Feed): (o: Outcome<Option<seq<MatchResult>>>)
    requires Valid(f)
    ensures o.Done? ==> Valid(o.feed) && o.feed.input == f.input
    ensures o.Done? && o.result.Some? ==> |o.result.value| == |ms| && f.cursor <= o.feed.cursor
    decreases ms, 0, 0
  {
    if |ms| == 0 then Done(Some([]), f)
    else
      match Run(ms[0], f)
      case Diverge => Diverge
      case Done(None, g) => Done(None, g)
      case Done(Some(r), g) =>
        match RunItems(ms[1..], g)
        case Diverge => Diverge
        case Done(None, h) => Done(None, h)
        case Done(Some(rs), h) => Done(Some([r] + rs), h)
  }

  /**
    `alternation(...ms)`: the first success, unmodified. It does no cursor
    management of its own: each failing branch hands the next one whatever
    feed it left behind.
   */
  function Alternation(ms: seq<Matcher>, f: Feed): (o: Outcome<Option<MatchResult>>)
    requires Valid(f)
    ensures Disciplined(f, o)
    decreases ms, 0, 0
  {
    if |ms| == 0 then Done(None, f)
    else
      match Run(ms[0], f)
      case Done(None, g) => Alternation(ms[1..], g)
      case other => other
  }

  /**
    `quantifier(m, min, max)`: the collected repetitions, if there are at least
    `min` of them; otherwise failure with the cursor rolled back to entry.
   */
  function Quantifier(m: Matcher, min: int, max: Option<int>, f: Feed): (o: Outcome<Option<MatchResult>>)
    requires Valid(f)
    ensures Disciplined(f, o)
    decreases m, 2, 0
  {
    match Repeat(m, max, f, 0)
    case Diverge => Diverge
    case Done(rs, g) =>
      if |rs| >= min then Done(Some(MatchResult(List(rs), f.cursor, g.cursor)), g)
      else Done(None, f)
  }

  /**
    The loop of `quantifier`, entered with `count` repetitions already
    collected: it stops when `max` is reached or `m` fails, and never returns
    when there is no `max` and `m` succeeds without consuming.
   */
  function Repeat(m: Matcher, max: Option<int>, f: Feed, count: nat): (o: Outcome<seq<MatchResult>>)
    requires Valid(f)
    ensures o.Done? ==> Valid(o.feed) && o.feed.input == f.input && f.cursor <= o.feed.cursor
    decreases m, 1, if max.Some? then max.value - count else |f.input| - f.cursor
  {
    if max.Some? && count >= max.value then Done([], f)
    else
      match Run(m, f)
      case Diverge => Diverge
      case Done(None, g) => Done([], g)
      case Done(Some(r), g) =>
        if max.None? && g.cursor == f.cursor then Diverge
        else
          match Repeat(m, max, g, count + 1)
          case Diverge => Diverge
          case Done(rs, h) => Done([r] + rs, h)
  }

  /**
    `optional(m)`: never fails. When `m` succeeds the cursor is put back to its
    entry value, so the match is reported but not consumed; when `m` fails the
    cursor is left wherever `m` left it.
   */
  function Optional(m: Matcher, f: Feed): (o: Outcome<Option<MatchResult>>)
    requires Valid(f)
    ensures Disciplined(f, o)
    decreases m, 1, 0
  {
    match Run(m, f)
    case Diverge => Diverge
    case Done(r, g) =>
      var h := if r.Some? then f else g;
      Done(Some(MatchResult(Maybe(r), f.cursor, h.cursor)), h)
  }

  /** Running `m` from cursor `from` of `input` succeeds with `r`. */
  predicate Yields(m: Matcher, input: string, from: nat, r: MatchResult) {
    from <= |input| && Run(m, Feed(input, from)) == Done(Some(r), Feed(input, r.end))
  }

  /** Running `m` from cursor `at` of `input` fails. */
  predicate FailsAt(m: Matcher, input: string, at: nat) {
    at <= |input| && Run(m, Feed(input, at)) == Done(None, Feed(input, at))
  }
}
