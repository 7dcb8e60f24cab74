/**
  The input-cursor abstraction ("feed") every matcher runs against. Its
  implementation is not part of this model: only the interface contract the
  matchers rely on is stated here. The feed holds an immutable input text and a
  cursor into it; the cursor is the one piece of state the matchers change.
 */
module Feeds {

  datatype Feed = Feed(input: string, cursor: nat)

  /** The feed's own invariant: the cursor never points past the end of the input. */
  predicate Valid(f: Feed) {
    f.cursor <= |f.input|
  }

  /** `s` begins with `p`. */
  predicate StartsWith(s: string, p: string) {
    |p| <= |s| && s[..|p|] == p
  }

  /** `lookFeed`: the unconsumed rest of the input, read without moving the cursor. */
  function LookFeed(f: Feed): (rest: string)
    requires Valid(f)
    ensures f.input == f.input[..f.cursor] + rest
    ensures |rest| == |f.input| - f.cursor
  {
    f.input[f.cursor..]
  }

  /**
    `eatFeed(feed, token, length)`: succeeds iff the rest of the input starts
    with the first `length` characters of `token`; on success the cursor moves
    forward by `length`, on failure the feed is left exactly as it was. A
    `length` beyond the token's own length is taken as a mismatch.
   */
  function EatFeed(f: Feed, token: string, length: nat): (r: (bool, Feed))
    requires Valid(f)
    ensures r.0 <==> length <= |token| && StartsWith(LookFeed(f), token[..length])
    ensures r.0 ==> r.1 == Feed(f.input, f.cursor + length)
    ensures !r.0 ==> r.1 == f
    ensures Valid(r.1)
  {
    if length <= |token| && f.cursor + length <= |f.input|
       && f.input[f.cursor..f.cursor + length] == token[..length]
    then (true, f.(cursor := f.cursor + length))
    else (false, f)
  }
}
