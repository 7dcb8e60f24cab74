/** What `alternation` computes: the first branch that succeeds, first-match-wins. */
module AlternationLaws {
  import opened Options
  import opened Feeds
  import opened Matchers

  /** Every one of `ms` fails at `f`. */
  predicate AllFail(ms: seq<Matcher>, f: Feed)
    requires Valid(f)
  {
    forall j :: 0 <= j < |ms| ==> Run(ms[j], f) == Done(None, f)
  }

  /** An alternation fails exactly when every branch fails, and then leaves the cursor at entry. */
  lemma {:induction false} AlternationFails(ms: seq<Matcher>, f: Feed)
    requires Valid(f)
    ensures Run(Alt(ms), f) == Done(None, f) <==> AllFail(ms, f)
    decreases ms
  {
    assert Run(Alt(ms), f) == Alternation(ms, f);
    if |ms| > 0 {
      assert Run(Alt(ms[1..]), f) == Alternation(ms[1..], f);
      AlternationFails(ms[1..], f);
      assert forall j :: 0 < j < |ms| ==> ms[j] == ms[1..][j - 1];
    }
  }

  /**
    When the branches before `k` fail and branch `k` succeeds, the alternation
    returns branch `k`'s outcome unmodified, result and cursor alike; the
    branches after `k` are never run, so replacing them by any others changes
    nothing.
   */
  lemma {:induction false} AlternationFirstSuccess(ms: seq<Matcher>, k: nat, later: seq<Matcher>, f: Feed)
    requires Valid(f) && k < |ms|
    requires AllFail(ms[..k], f)
    requires Run(ms[k], f).Done? && Run(ms[k], f).result.Some?
    ensures Run(Alt(ms), f) == Run(ms[k], f)
    ensures Run(Alt(ms[..k + 1] + later), f) == Run(ms[k], f)
    decreases k
  {
    FirstSuccessPicked(ms, k, f);
    assert (ms[..k + 1] + later)[..k] == ms[..k];
    assert (ms[..k + 1] + later)[k] == ms[k];
    FirstSuccessPicked(ms[..k + 1] + later, k, f);
  }

  lemma {:induction false} FirstSuccessPicked(ms: seq<Matcher>, k: nat, f: Feed)
    requires Valid(f) && k < |ms|
    requires AllFail(ms[..k], f)
    requires Run(ms[k], f).Done? && Run(ms[k], f).result.Some?
    ensures Alternation(ms, f) == Run(ms[k], f)
    decreases k
  {
    if k > 0 {
      assert ms[0] == ms[..k][0];
      assert ms[1..][..k - 1] == ms[..k][1..];
      FirstSuccessPicked(ms[1..], k - 1, f);
    }
  }

  /**
    Conversely, a successful alternation's outcome is that of some branch `k`
    all of whose predecessors failed.
   */
  lemma {:induction false} AlternationSucceeds(ms: seq<Matcher>, f: Feed, r: MatchResult, g: Feed)
    requires Valid(f)
    requires Run(Alt(ms), f) == Done(Some(r), g)
    ensures exists k :: 0 <= k < |ms| && AllFail(ms[..k], f) && Run(ms[k], f) == Done(Some(r), g)
    decreases ms
  {
    assert Run(Alt(ms), f) == Alternation(ms, f);
    if Run(ms[0], f).Done? && Run(ms[0], f).result.None? {
      assert Run(Alt(ms[1..]), f) == Alternation(ms[1..], f);
      AlternationSucceeds(ms[1..], f, r, g);
      var k :| 0 <= k < |ms[1..]| && AllFail(ms[1..][..k], f) && Run(ms[1..][k], f) == Done(Some(r), g);
      assert ms[..k + 1][1..] == ms[1..][..k];
      assert AllFail(ms[..k + 1], f);
      assert Run(ms[k + 1], f) == Done(Some(r), g);
    } else {
      assert AllFail(ms[..0], f);
    }
  }
}
