/** Finding the plan in the text an agent prints: the brace scan, against the blocks it is meant to find. */
module PlanExtraction {
  import opened Wrappers
  import opened Texts

  const OPEN: CodeUnit := 123
  const CLOSE: CodeUnit := 125

  /** Opening minus closing braces before position `i`. */
  function Depth(t: Text, i: nat): int
    requires i <= |t|
  {
    if i == 0 then 0
    else Depth(t, i - 1) + if t[i - 1] == OPEN then 1 else if t[i - 1] == CLOSE then -1 else 0
  }

  /** A top-level block: it opens and closes at depth 0 and stays above in between. */
  ghost predicate Block(t: Text, start: nat, end: nat) {
    && start < end <= |t| && t[start] == OPEN
    && Depth(t, start) == 0 && Depth(t, end) == 0
    && forall k :: start < k < end ==> Depth(t, k) > 0
  }

  ghost predicate AcceptedBlock(accepts: Text -> bool, t: Text, start: nat, end: nat) {
    Block(t, start, end) && accepts(t[start..end])
  }

  /** The block that the scan returns: the first to end among the accepted ones. */
  ghost predicate FirstAccepted(accepts: Text -> bool, t: Text, start: nat, end: nat) {
    && AcceptedBlock(accepts, t, start, end)
    && forall s: nat, e: nat :: e < end ==> !AcceptedBlock(accepts, t, s, e)
  }

  /** What is to be found in a trimmed text: the whole of it when that is accepted, else the first accepted block, if any. */
  ghost predicate Extracted(accepts: Text -> bool, t: Text, r: Option<Text>) {
    && (t != [] && accepts(t) ==> r == Some(t))
    && (t == [] ==> r.None?)
    && (t != [] && !accepts(t) ==>
          && (r.None? <==> forall s: nat, e: nat :: !AcceptedBlock(accepts, t, s, e))
          && (r.Some? ==> exists s: nat, e: nat :: FirstAccepted(accepts, t, s, e) && r.value == t[s..e]))
  }

  /** `extractPlanCandidate`; `accepts` is the test that a text is JSON and an object with a string `goalId`. */
  method ExtractPlanCandidate(accepts: Text -> bool, text: Text) returns (r: Option<Text>)
    ensures Extracted(accepts, Trim(text), r)
  {
    var trimmed := Trim(text);
    if |trimmed| == 0 {
      return None;
    }
    if accepts(trimmed) {
      return Some(trimmed);
    }
    if OPEN !in trimmed {
      return None;
    }
    var depth, start := 0, -1;
    for i := 0 to |trimmed|
      invariant depth == Depth(trimmed, i)
      invariant depth >= 1 ==> 0 <= start < i && trimmed[start] == OPEN && Depth(trimmed, start) == 0
      invariant depth >= 1 ==> forall k :: start < k <= i ==> Depth(trimmed, k) > 0
      invariant forall s: nat, e: nat :: e <= i ==> !AcceptedBlock(accepts, trimmed, s, e)
    {
      var ch := trimmed[i];
      ghost var blockStart := start;
      if ch == OPEN {
        if depth == 0 {
          start := i;
        }
        depth := depth + 1;
      } else if ch == CLOSE {
        depth := depth - 1;
        if depth == 0 {
          var end := i + 1;
          assert Block(trimmed, start, end);
          var candidate := trimmed[start..end];
          if accepts(candidate) {
            assert FirstAccepted(accepts, trimmed, start, end);
            return Some(candidate);
          }
          start := -1;
        }
      }
      ghost var e := i + 1;
      forall s: nat | Block(trimmed, s, e) ensures !AcceptedBlock(accepts, trimmed, s, e) {
        BlockEnds(trimmed, s, e);
        BlockUnique(trimmed, s, blockStart, e);
      }
    }
    return None;
  }

  /** A block ends with a closing brace that brings the depth from 1 to 0. */
  lemma BlockEnds(t: Text, start: nat, end: nat)
    requires Block(t, start, end)
    ensures t[end - 1] == CLOSE && Depth(t, end - 1) == 1 && start < end - 1
  {
    assert Depth(t, start + 1) == 1;
    assert end - 1 > start ==> Depth(t, end - 1) > 0;
  }

  /** Blocks are told apart by where they end, and never overlap. */
  lemma BlockUnique(t: Text, s: nat, s': nat, end: nat)
    requires Block(t, s, end) && Block(t, s', end)
    ensures s == s'
  {
  }

  lemma {:induction false} DepthInside(t: Text, start: nat, end: nat, k: nat)
    requires start <= end <= |t| && k <= end - start
    ensures Depth(t[start..end], k) == Depth(t, start + k) - Depth(t, start)
  {
    if k > 0 {
      DepthInside(t, start, end, k - 1);
    }
  }

  /** What is returned is brace-balanced, and at every point inside it more braces are open than closed. */
  lemma BlockBalanced(t: Text, start: nat, end: nat)
    requires Block(t, start, end)
    ensures Depth(t[start..end], end - start) == 0
    ensures forall k :: 0 < k < end - start ==> Depth(t[start..end], k) > 0
  {
    DepthInside(t, start, end, end - start);
    forall k | 0 < k < end - start ensures Depth(t[start..end], k) > 0 {
      DepthInside(t, start, end, k);
      assert Depth(t, start + k) > 0;
    }
  }

  // ---- When a plan is found ----

  /** No accepted block ends before here. */
  ghost predicate NoneEndsBefore(accepts: Text -> bool, t: Text, end: nat) {
    forall s: nat, e: nat :: e < end ==> !AcceptedBlock(accepts, t, s, e)
  }

  /** The scan stops at this block. */
  ghost predicate ReturnedFrom(accepts: Text -> bool, t: Text, start: nat, end: nat, r: Option<Text>) {
    FirstAccepted(accepts, t, start, end) && r == Some(t[start..end])
  }

  /** Exactly when an accepted block is the one returned: when no accepted block ends before it. Otherwise it is hidden by an
      earlier one, whatever the two hold. */
  lemma EarliestBlockReturned(accepts: Text -> bool, t: Text, start: nat, end: nat, r: Option<Text>)
    requires AcceptedBlock(accepts, t, start, end) && !accepts(t) && Extracted(accepts, t, r)
    ensures ReturnedFrom(accepts, t, start, end, r) <==> NoneEndsBefore(accepts, t, end)
    ensures !NoneEndsBefore(accepts, t, end) ==> exists s: nat, e: nat :: e < end && ReturnedFrom(accepts, t, s, e, r)
  {
    assert r.Some?;
    var s: nat, e: nat :| FirstAccepted(accepts, t, s, e) && r.value == t[s..e];
    assert e <= end;
    if e == end {
      BlockUnique(t, s, start, end);
    } else {
      assert AcceptedBlock(accepts, t, s, e);
      assert e < end && ReturnedFrom(accepts, t, s, e, r);
    }
  }

  predicate Braced(t: Text) {
    t != [] && t[0] == OPEN && t[|t| - 1] == CLOSE
  }

  /** The plan stands in the text, and nothing else in the text that opens and closes with a brace is accepted, nor the text
      around it. (White space beside the plan may be: it does not change what a text parses to.) */
  ghost predicate OnlyAccepted(accepts: Text -> bool, pre: Text, plan: Text, post: Text) {
    var t := pre + plan + post;
    && plan != [] && accepts(plan) && (accepts(t) ==> t == plan)
    && forall s: nat, e: nat :: s < e <= |t| && Braced(t[s..e]) && accepts(t[s..e]) ==> s == |pre| && e == |pre| + |plan|
  }

  lemma BlockBraced(t: Text, start: nat, end: nat)
    requires Block(t, start, end)
    ensures Braced(t[start..end])
  {
    BlockEnds(t, start, end);
  }

  lemma PlanSlice(pre: Text, plan: Text, post: Text)
    ensures (pre + plan + post)[|pre|..|pre| + |plan|] == plan
    ensures pre + plan + post == plan <==> pre == [] && post == []
  {
    assert |pre + plan + post| == |pre| + |plan| + |post|;
    if pre == [] && post == [] { assert pre + plan + post == plan; }
  }

  /** Exactly when the plan in a text is found: when it is the whole text, or a top-level block of it, counting every brace. */
  lemma PlanFoundExactly(accepts: Text -> bool, pre: Text, plan: Text, post: Text, r: Option<Text>)
    requires OnlyAccepted(accepts, pre, plan, post) && Extracted(accepts, pre + plan + post, r)
    ensures r == Some(plan) <==> (pre == [] && post == []) || Block(pre + plan + post, |pre|, |pre| + |plan|)
    ensures r.None? || r == Some(plan)
  {
    var t := pre + plan + post;
    PlanSlice(pre, plan, post);
    if !accepts(t) {
      var s, e := |pre|, |pre| + |plan|;
      if Block(t, s, e) {
        assert AcceptedBlock(accepts, t, s, e);
      }
      forall i: nat, j: nat | AcceptedBlock(accepts, t, i, j) ensures i == s && j == e {
        BlockBraced(t, i, j);
      }
    }
  }

  lemma {:induction false} DepthBefore(a: Text, b: Text, k: nat)
    requires k <= |a|
    ensures Depth(a + b, k) == Depth(a, k)
  {
    if k > 0 {
      DepthBefore(a, b, k - 1);
    }
  }

  /** Text before the plan whose braces do not balance, a single stray closing brace say, hides the plan. */
  lemma UnbalancedTextHidesPlan(accepts: Text -> bool, pre: Text, plan: Text, post: Text, r: Option<Text>)
    requires OnlyAccepted(accepts, pre, plan, post) && Extracted(accepts, pre + plan + post, r)
    requires Depth(pre, |pre|) != 0
    ensures r.None?
  {
    DepthOfPre(pre, plan, post);
    NotABlock(pre + plan + post, |pre|, |pre| + |plan|);
    PlanFoundExactly(accepts, pre, plan, post, r);
  }

  lemma DepthOfPre(pre: Text, plan: Text, post: Text)
    ensures Depth(pre + plan + post, |pre|) == Depth(pre, |pre|)
  {
    DepthBefore(pre, plan + post, |pre|);
    assert pre + plan + post == pre + (plan + post);
  }

  lemma NotABlock(t: Text, start: nat, end: nat)
    requires start <= |t| && Depth(t, start) != 0
    ensures !Block(t, start, end)
  {
  }

  /** A plan whose own braces balance before its end, counting those inside its strings, is hidden by any text around it. */
  lemma BalancedTooSoonHidesPlan(accepts: Text -> bool, pre: Text, plan: Text, post: Text, k: nat, r: Option<Text>)
    requires OnlyAccepted(accepts, pre, plan, post) && Extracted(accepts, pre + plan + post, r)
    requires 0 < k < |plan| && Depth(plan, k) <= 0 && (pre != [] || post != [])
    ensures r.None?
  {
    var t := pre + plan + post;
    PlanFoundExactly(accepts, pre, plan, post, r);
    if Block(t, |pre|, |pre| + |plan|) {
      PlanSlice(pre, plan, post);
      BlockBalanced(t, |pre|, |pre| + |plan|);
    }
  }

  lemma {:induction false} FlatStretch(t: Text, i: nat, j: nat)
    requires i <= j <= |t| && forall k :: i <= k < j ==> t[k] != OPEN && t[k] != CLOSE
    ensures Depth(t, j) == Depth(t, i)
  {
    if i < j {
      FlatStretch(t, i, j - 1);
    }
  }

  // {"goalId":"}"}
  const BRACE_IN_STRING: Text := [123, 34, 103, 111, 97, 108, 73, 100, 34, 58, 34, 125, 34, 125]

  /** The scan counts braces inside strings too: with any text around it, this plan is not found. */
  lemma BraceInStringHidesPlan(accepts: Text -> bool, pre: Text, post: Text, r: Option<Text>)
    requires OnlyAccepted(accepts, pre, BRACE_IN_STRING, post) && Extracted(accepts, pre + BRACE_IN_STRING + post, r)
    requires pre != [] || post != []
    ensures r.None?
  {
    var plan := BRACE_IN_STRING;
    assert Depth(plan, 0) == 0 && Depth(plan, 1) == 1;
    FlatStretch(plan, 1, 11);
    assert Depth(plan, 12) == 0;
    BalancedTooSoonHidesPlan(accepts, pre, plan, post, 12, r);
  }
}
