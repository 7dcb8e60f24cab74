# parexgram matchers in Dafny

A model of the parser-combinator engine of parexgram
(`packages/parexgram/src/matchers.ts`): the leaf matchers `character` and
`pattern`, and the combinators `sequence`, `alternation`, `quantifier` and
`optional`. All of them work on one shared feed, which holds an input text and a
cursor into it. A matcher either returns a `MatchResult` `{value, start, end}`
or fails with `null`.

The model is functional. A matcher is an immutable term (`Matchers.Matcher`).
`Matchers.Run` interprets a term against a feed `(input, cursor)` and returns
the result together with the feed as the matcher leaves it. Each of the six
factories is one function, and each one's loop is a recursive helper:
`RunItems` for `sequence` and `Repeat` for `quantifier`.

Files:

- `options.dfy`: `Option`, the model of the source's `null`.
- `feed.dfy`: the feed, `lookFeed` and `eatFeed`. These are stated only through
  their interface contract, because the feed module is not part of this model.
- `matchers.dfy`: the matcher terms, result values and the interpreter.
- `sequence.dfy`, `alternation.dfy`, `quantifier.dfy`, `optional.dfy`: each
  combinator characterised without running its loop, with both directions where
  an if-and-only-if is meant.
- `worked_examples.dfy`: this project's own examples, small grammars run on
  concrete inputs, with their outcomes.

The central fact is the contract of `Run`, the predicate `Disciplined`. It holds
for every matcher of this closed language:

- a failing matcher leaves the feed exactly as it was on entry;
- a successful one reports `start` as the entry cursor and `end` as the exit
  cursor, with `start <= end <= |input|`.

Leaves keep this rule through `eatFeed`. `sequence` and `quantifier` reset the
cursor explicitly. `alternation` does no resetting of its own: it fails only
after every branch has failed, and every branch keeps the rule. `optional`
never fails.

Termination: the source's unbounded `quantifier` loops forever when its inner
matcher succeeds without consuming input. A matcher is a deterministic function
of the input and the cursor, so this happens exactly when such a success occurs.
`Run` reports that case as the outcome `Diverge` and makes no general claim of
termination. In every other case the loop consumes input on each round, and that
is the termination measure.

Two consequences of the code are worth stating:

- `optional` resets the cursor only after an inner success
  (matchers.ts:119-121). A failing matcher never moves the cursor in this
  language, so `optional` never consumes input at all (`OptionalNeverFails`).
- A grammar `number = sequence(quantifier(digit, 1), optional(sequence(character('.'), quantifier(digit, 1))))`
  applied to `"3.14"` spans only `[0,1)`, because `optional` gives back the
  fraction it matched (`WorkedExamples.NumberWithFraction`).

## Model

| member | source | states |
|---|---|---|
| `Feeds.LookFeed` | packages/parexgram/src/matchers.ts:53 | `lookFeed` returns the rest of the input from the cursor, without moving it: the input is the consumed part followed by the result |
| `Feeds.EatFeed` | packages/parexgram/src/matchers.ts:57 | `eatFeed(feed, token, length)`, also called at matchers.ts:72, succeeds iff `length` is at most the token's length and the rest of the input starts with the token's first `length` characters; it then advances the cursor by `length`, and otherwise leaves the feed unchanged |
| `Matchers.Run` | packages/parexgram/src/matchers.ts:9-128 | every matcher keeps the cursor discipline: a failure leaves the feed exactly as on entry; a success starts at the entry cursor, ends at the exit cursor, never moves backwards and stays inside the input; the input never changes |
| `Matchers.Character` | packages/parexgram/src/matchers.ts:69-81 | succeeds iff the character at the cursor is the token's first; then the value is the token, the cursor moves by exactly one and `end == start + 1`; otherwise it returns null and the feed is unchanged |
| `Matchers.Pattern` | packages/parexgram/src/matchers.ts:50-67 | succeeds iff the recogniser matches the rest of the input and its text is a prefix of that rest; then the value is that text, read from the input at the cursor, and `end` is `start` plus the length of that text; otherwise it returns null and the feed is unchanged |
| `Matchers.Sequence` | packages/parexgram/src/matchers.ts:26-48 | keeps the cursor discipline even though its items advance the cursor before a later one fails, because a failure resets the cursor to entry |
| `Matchers.RunItems` | packages/parexgram/src/matchers.ts:32-41 | on completion the loop has exactly one result per item and has not moved the cursor backwards |
| `Matchers.Alternation` | packages/parexgram/src/matchers.ts:11-24 | keeps the cursor discipline without resetting anything itself: each failing branch passes on the feed it left, and that feed is the entry feed |
| `Matchers.Quantifier` | packages/parexgram/src/matchers.ts:83-113 | keeps the cursor discipline: a count below `min` resets the cursor to entry |
| `Matchers.Repeat` | packages/parexgram/src/matchers.ts:92-102 | the repetition loop keeps the input unchanged and never moves the cursor backwards or out of the input |
| `Matchers.Optional` | packages/parexgram/src/matchers.ts:115-128 | keeps the cursor discipline although it resets the cursor only after an inner success |
| `SequenceLaws.SequenceSucceeds` | packages/parexgram/src/matchers.ts:30-46 | a sequence succeeds iff its items succeed one after another, each from where the previous ended; its value then holds exactly one result per item in order, `start` is the entry cursor and `end` the exit cursor |
| `SequenceLaws.ItemsSound` | packages/parexgram/src/matchers.ts:32-41 | the loop's collected results are item-by-item successes, chained from the entry cursor to the exit cursor |
| `SequenceLaws.ItemsComplete` | packages/parexgram/src/matchers.ts:32-41 | any chain of item-by-item successes is exactly what the loop collects |
| `SequenceLaws.ItemsFailAt` | packages/parexgram/src/matchers.ts:32-40 | when an item fails after its predecessors succeeded, the loop stops there with the cursor where that item left it |
| `SequenceLaws.SequenceRollback` | packages/parexgram/src/matchers.ts:31-39 | if any item fails after the earlier items consumed input, the sequence returns null with the cursor back at its entry value |
| `SequenceLaws.EmptySequence` | packages/parexgram/src/matchers.ts:42-46 | the empty sequence succeeds with an empty value and `start == end` |
| `AlternationLaws.AlternationFails` | packages/parexgram/src/matchers.ts:14-23 | an alternation returns null iff every branch fails, and then the cursor is at its entry value |
| `AlternationLaws.AlternationFirstSuccess` | packages/parexgram/src/matchers.ts:15-20 | the first successful branch's outcome is returned unmodified, result and cursor alike; the branches after it are not run, so replacing them changes nothing |
| `AlternationLaws.FirstSuccessPicked` | packages/parexgram/src/matchers.ts:15-20 | the loop returns the outcome of the first branch that does not fail once all earlier branches have failed |
| `AlternationLaws.AlternationSucceeds` | packages/parexgram/src/matchers.ts:15-20 | a successful alternation's outcome is that of some branch all of whose predecessors failed |
| `QuantifierLaws.RepeatSound` | packages/parexgram/src/matchers.ts:92-102 | what the loop collects is a chain of successes of the inner matcher, no more than `max` of them, each consuming input when there is no `max`, ending where `max` is reached or the inner matcher fails |
| `QuantifierLaws.RepeatComplete` | packages/parexgram/src/matchers.ts:92-102 | any such greedy chain is exactly what the loop collects |
| `QuantifierLaws.RepeatIsGreedy` | packages/parexgram/src/matchers.ts:92-102 | the loop's result equals the greedy chain, in both directions |
| `QuantifierLaws.QuantifierSucceeds` | packages/parexgram/src/matchers.ts:103-109 | a quantifier succeeds iff the greedy repetitions number at least `min`; its value then holds them, at most `max` of them, `start` is the entry cursor and `end` the end of the last repetition |
| `QuantifierLaws.QuantifierFails` | packages/parexgram/src/matchers.ts:103-111 | given the greedy repetitions, the quantifier returns null iff they number fewer than `min`, and then the cursor is reset to its entry value |
| `QuantifierLaws.MinZeroNeverFails` | packages/parexgram/src/matchers.ts:103 | with `min <= 0` a quantifier that returns always succeeds |
| `QuantifierLaws.UnboundedStall` | packages/parexgram/src/matchers.ts:92-102 | with no `max`, an inner matcher that succeeds without consuming makes the loop run forever |
| `OptionalLaws.OptionalNeverFails` | packages/parexgram/src/matchers.ts:116-127 | `optional` never returns null: its value is the inner result or null, `start == end` is the entry cursor, and the feed ends as it was on entry |
| `OptionalLaws.OptionalDiscardsMatch` | packages/parexgram/src/matchers.ts:119-121 | an inner match that advanced the cursor is reported but not consumed |
| `WorkedExamples.CharacterAt` | packages/parexgram/src/matchers.ts:69-80 | `character(c)` at a cursor holding `c` yields `c` over one character |
| `WorkedExamples.DigitAt` | packages/parexgram/src/matchers.ts:50-66 | `pattern("[0-9]")` at a digit yields that digit over one character |
| `WorkedExamples.NoDigitAt` | packages/parexgram/src/matchers.ts:50-66 | `pattern("[0-9]")` fails where there is no digit |
| `WorkedExamples.QuantifierFloor` | packages/parexgram/src/matchers.ts:103-111 | `quantifier(character('a'), 2)` on "a" fails with the cursor at 0 |
| `WorkedExamples.QuantifierGreedyBound` | packages/parexgram/src/matchers.ts:92-109 | `quantifier(character('a'), 1, 3)` on "aaaaa" takes exactly three repetitions and leaves the cursor at 3 |
| `WorkedExamples.AlternationOrder` | packages/parexgram/src/matchers.ts:14-23 | `alternation(pattern('a'), pattern('ab'))` on "ab" matches "a" and leaves the cursor at 1: first match wins, not longest |
| `WorkedExamples.PatternAnchoring` | packages/parexgram/src/matchers.ts:50-66 | `pattern("[0-9]+")` matches "123" over `[0,3)` in "123abc" and fails at 0 in "abc123" |
| `WorkedExamples.NumberWithFraction` | packages/parexgram/src/matchers.ts:115-128 | the `number` grammar on "3.14" spans only `[0,1)`, because `optional` gives back the fraction it matched |
| `WorkedExamples.NumberWithoutFraction` | packages/parexgram/src/matchers.ts:115-128 | the `number` grammar on "42" spans `[0,2)`, and its optional fraction is a successful empty match wrapping a failure |

## Left out

- The feed implementation (`./feed`) is not part of this model. `lookFeed` and `eatFeed` are modelled from their interface contract alone. The feed's invariant `cursor <= |input|` is a precondition of every matcher.
- `Feeds.EatFeed`: the feed's contract does not say what happens when `length` exceeds the token's length. The model treats that as a mismatch, so `character("")` always fails.
- JavaScript `RegExp`: `pattern` takes a recogniser `exec` that returns the matched text or nothing. The regular-expression language, and the error `new RegExp` raises for an invalid fragment when the matcher is built, are not modelled. The source calls `test` and then `exec` on the same non-global expression; the model makes one call, since both give the same answer.
- `null` against `undefined`, and truthiness against `!= null`, are not distinguished. A result object is always truthy, so all of these are the one failure `None`.
- `Matchers.Quantifier`: `min` and `max` are integers. Fractional or NaN bounds, which JavaScript numbers allow, are not modelled.
- User-written matchers: the source accepts any function of the `Matcher` type. The model covers only the six constructs of this file, and the cursor discipline is proved only for them.
- Offsets count Unicode scalar values (Dafny's `char`), not UTF-16 code units as JavaScript strings do. On input containing characters outside the Basic Multilingual Plane the cursor positions differ from the source's. For example, `character` on such a character consumes the whole character here, but only its first surrogate in the source. Lone surrogates cannot be represented.
- TypeScript generic typing, call-stack depth and regular-expression performance are not modelled.
