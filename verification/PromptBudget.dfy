/** Context budgets of the two prompt builders: which entries of a thread reach the model. */
module PromptBudget {
  import opened Wrappers

  type Id = string
  datatype Entry = Entry(id: Id, archivedAt: Option<int>, hiddenAt: Option<int>, body: string)
  /** A bound that is zero or negative does not bind. */
  datatype Budget = Budget(maxMessages: int, maxChars: int)

  predicate Shown(e: Entry) {
    e.archivedAt.None? && e.hiddenAt.None?
  }

  function Chars(es: seq<Entry>): nat
    decreases |es|
  {
    if es == [] then 0 else |es[0].body| + Chars(es[1..])
  }

  predicate Fits(es: seq<Entry>, b: Budget) {
    (b.maxMessages > 0 ==> |es| <= b.maxMessages) && (b.maxChars > 0 ==> Chars(es) <= b.maxChars)
  }

  /** The shown entries before the target, oldest first. */
  function ShownBefore(thread: seq<Entry>, target: Id): seq<Entry>
    decreases |thread|
  {
    if thread == [] || thread[0].id == target then []
    else if Shown(thread[0]) then [thread[0]] + ShownBefore(thread[1..], target)
    else ShownBefore(thread[1..], target)
  }

  /** The shown entries other than the target, oldest first. */
  function ShownOthers(thread: seq<Entry>, target: Id): seq<Entry>
    decreases |thread|
  {
    if thread == [] then []
    else if thread[0].id != target && Shown(thread[0]) then [thread[0]] + ShownOthers(thread[1..], target)
    else ShownOthers(thread[1..], target)
  }

  // ----- sums over parts -----

  lemma {:induction false} CharsAppend(a: seq<Entry>, b: seq<Entry>)
    ensures Chars(a + b) == Chars(a) + Chars(b)
    decreases |a|
  {
    if a == [] {
      assert a + b == b;
    } else {
      assert (a + b)[1..] == a[1..] + b;
      CharsAppend(a[1..], b);
    }
  }

  lemma CharsOfOne(e: Entry)
    ensures Chars([e]) == |e.body|
  {
    assert [e][1..] == [];
  }

  /** The loop both builders use to measure what they hold. */
  method TotalChars(es: seq<Entry>) returns (total: nat)
    ensures total == Chars(es)
  {
    total := 0;
    for i := 0 to |es|
      invariant total + Chars(es[i..]) == Chars(es)
    {
      assert es[i..][1..] == es[i + 1..];
      total := total + |es[i].body|;
    }
  }

  // ----- the longest part that fits -----

  /** Entries are dropped from the front until the rest fits. */
  function LongestSuffix(es: seq<Entry>, b: Budget): seq<Entry>
    decreases |es|
  {
    if es == [] || Fits(es, b) then es else LongestSuffix(es[1..], b)
  }

  /** Entries are dropped from the back until the rest fits. */
  function LongestPrefix(es: seq<Entry>, b: Budget): seq<Entry>
    decreases |es|
  {
    if es == [] || Fits(es, b) then es else LongestPrefix(es[..|es| - 1], b)
  }

  /** The result is the suffix that fits both budgets, and no longer suffix does. */
  lemma {:induction false} LongestSuffixIsLongest(es: seq<Entry>, b: Budget)
    ensures var s := LongestSuffix(es, b);
      && |s| <= |es| && s == es[|es| - |s|..] && Fits(s, b)
      && forall k: nat :: k <= |es| && Fits(es[k..], b) ==> |es| - k <= |s|
    decreases |es|
  {
    if es != [] && !Fits(es, b) {
      LongestSuffixIsLongest(es[1..], b);
      forall k: nat | k <= |es| && Fits(es[k..], b) ensures |es| - k <= |LongestSuffix(es, b)| {
        assert es[0..] == es;
        assert k > 0 ==> es[k..] == es[1..][k - 1..];
      }
    }
  }

  lemma {:induction false} LongestPrefixIsLongest(es: seq<Entry>, b: Budget)
    ensures var s := LongestPrefix(es, b);
      && |s| <= |es| && s == es[..|s|] && Fits(s, b)
      && forall k: nat :: k <= |es| && Fits(es[..k], b) ==> k <= |s|
    decreases |es|
  {
    if es != [] && !Fits(es, b) {
      LongestPrefixIsLongest(es[..|es| - 1], b);
      forall k: nat | k <= |es| && Fits(es[..k], b) ensures k <= |LongestPrefix(es, b)| {
        assert es[..|es|] == es;
        assert k < |es| ==> es[..k] == es[..|es| - 1][..k];
      }
    }
  }

  /** Cutting to the message bound in one go drops only what would be dropped one by one. */
  lemma {:induction false} CutFront(es: seq<Entry>, b: Budget)
    requires 0 < b.maxMessages < |es|
    ensures LongestSuffix(es, b) == LongestSuffix(es[|es| - b.maxMessages..], b)
    decreases |es|
  {
    assert !Fits(es, b);
    if b.maxMessages < |es| - 1 {
      CutFront(es[1..], b);
      assert es[1..][|es| - 1 - b.maxMessages..] == es[|es| - b.maxMessages..];
    }
  }

  lemma {:induction false} CutBack(es: seq<Entry>, b: Budget)
    requires 0 < b.maxMessages < |es|
    ensures LongestPrefix(es, b) == LongestPrefix(es[..b.maxMessages], b)
    decreases |es|
  {
    assert !Fits(es, b);
    if b.maxMessages < |es| - 1 {
      CutBack(es[..|es| - 1], b);
      assert es[..|es| - 1][..b.maxMessages] == es[..b.maxMessages];
    }
  }

  // ----- the builders -----

  /** A reply sees the longest run of shown entries directly before its target that meets both budgets. */
  method BuildThreadContext(thread: seq<Entry>, target: Id, b: Budget) returns (prior: seq<Entry>)
    ensures prior == LongestSuffix(ShownBefore(thread, target), b)
    ensures (b.maxMessages > 0 ==> |prior| <= b.maxMessages) && (b.maxChars > 0 ==> Chars(prior) <= b.maxChars)
    ensures var all := ShownBefore(thread, target);
      && |prior| <= |all|
      && (|prior| < |all| ==>
            || (b.maxMessages > 0 && |prior| == b.maxMessages)
            || (b.maxChars > 0 && Chars(all[|all| - |prior| - 1..]) > b.maxChars))
  {
    prior := [];
    for i := 0 to |thread|
      invariant prior + ShownBefore(thread[i..], target) == ShownBefore(thread, target)
    {
      assert thread[i..][1..] == thread[i + 1..];
      if thread[i].id == target { break; }
      if !Shown(thread[i]) { continue; }
      assert prior + ([thread[i]] + ShownBefore(thread[i + 1..], target))
          == prior + [thread[i]] + ShownBefore(thread[i + 1..], target);
      prior := prior + [thread[i]];
    }
    assert prior == ShownBefore(thread, target);
    if b.maxMessages > 0 && |prior| > b.maxMessages {
      CutFront(prior, b);
      prior := prior[|prior| - b.maxMessages..];
    }
    if b.maxChars > 0 {
      var total := TotalChars(prior);
      while |prior| > 0 && total > b.maxChars
        invariant total == Chars(prior) && (b.maxMessages > 0 ==> |prior| <= b.maxMessages)
        invariant LongestSuffix(prior, b) == LongestSuffix(ShownBefore(thread, target), b)
        decreases |prior|
      {
        total := total - |prior[0].body|;
        prior := prior[1..];
      }
    }
    LongestSuffixIsLongest(ShownBefore(thread, target), b);
  }

  /** A classification offers the longest leading run of shown other entries that meets both budgets. */
  method BuildCandidates(thread: seq<Entry>, target: Id, b: Budget) returns (candidates: seq<Entry>)
    ensures candidates == LongestPrefix(ShownOthers(thread, target), b)
    ensures (b.maxMessages > 0 ==> |candidates| <= b.maxMessages)
         && (b.maxChars > 0 ==> Chars(candidates) <= b.maxChars)
    ensures var all := ShownOthers(thread, target);
      && |candidates| <= |all|
      && (|candidates| < |all| ==>
            || (b.maxMessages > 0 && |candidates| == b.maxMessages)
            || (b.maxChars > 0 && Chars(all[..|candidates| + 1]) > b.maxChars))
  {
    candidates := [];
    for i := 0 to |thread|
      invariant candidates + ShownOthers(thread[i..], target) == ShownOthers(thread, target)
    {
      assert thread[i..][1..] == thread[i + 1..];
      if thread[i].id == target || !Shown(thread[i]) { continue; }
      assert candidates + ([thread[i]] + ShownOthers(thread[i + 1..], target))
          == candidates + [thread[i]] + ShownOthers(thread[i + 1..], target);
      candidates := candidates + [thread[i]];
    }
    assert candidates == ShownOthers(thread, target);
    if b.maxMessages > 0 && |candidates| > b.maxMessages {
      CutBack(candidates, b);
      candidates := candidates[..b.maxMessages];
    }
    if b.maxChars > 0 {
      var total := TotalChars(candidates);
      while |candidates| > 0 && total > b.maxChars
        invariant total == Chars(candidates) && (b.maxMessages > 0 ==> |candidates| <= b.maxMessages)
        invariant LongestPrefix(candidates, b) == LongestPrefix(ShownOthers(thread, target), b)
        decreases |candidates|
      {
        var last := |candidates| - 1;
        CharsAppend(candidates[..last], [candidates[last]]);
        assert candidates == candidates[..last] + [candidates[last]];
        total := total - |candidates[last].body|;
        candidates := candidates[..last];
      }
    }
    LongestPrefixIsLongest(ShownOthers(thread, target), b);
  }

  // ----- what reaches the model -----

  predicate Occurs(thread: seq<Entry>, target: Id) {
    exists i :: 0 <= i < |thread| && thread[i].id == target
  }

  /** Neither builder ever offers the target itself, nor anything hidden or archived. */
  lemma {:induction false} NothingHiddenIsOffered(thread: seq<Entry>, target: Id)
    ensures forall e :: e in ShownBefore(thread, target) ==>
              e in thread && e.archivedAt == None && e.hiddenAt == None && e.id != target
    ensures forall e :: e in ShownOthers(thread, target) <==>
              e in thread && e.archivedAt == None && e.hiddenAt == None && e.id != target
    decreases |thread|
  {
    if thread != [] {
      NothingHiddenIsOffered(thread[1..], target);
      assert thread == [thread[0]] + thread[1..];
    }
  }

  /** A reply's context never reaches past its target; without the target in the thread it is the same list the
      classifier sees. */
  lemma {:induction false} ContextStopsAtTarget(thread: seq<Entry>, target: Id)
    ensures ShownBefore(thread, target) <= ShownOthers(thread, target)
    ensures !Occurs(thread, target) ==> ShownBefore(thread, target) == ShownOthers(thread, target)
    decreases |thread|
  {
    if thread != [] {
      ContextStopsAtTarget(thread[1..], target);
      assert !Occurs(thread, target) ==> thread[0].id != target;
      if Occurs(thread[1..], target) {
        var i :| 0 <= i < |thread[1..]| && thread[1..][i].id == target;
        assert thread[i + 1].id == target;
      }
    }
  }
}
