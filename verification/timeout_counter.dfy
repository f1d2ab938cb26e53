/**
 * One timeout counter under concurrent calls: a call loads the counter, evaluates, and only then
 * updates it, so other calls come in between.
 */
module TimeoutCounter {
  import opened RuleMatching

  /** The counter, how many calls are between their load and their update, and the most there were at once. */
  datatype Shared = Shared(count: nat, evaluating: nat, peak: nat)

  const START := Shared(0, 0, 0)

  /** Some call loads the counter, or one that was let in updates it, or is dropped before it does. */
  datatype Move = Load | Update(answer: Answer) | Drop

  predicate Disabled(s: Shared) { s.count >= MAX_CONSECUTIVE_TIMEOUTS }

  function Max(a: nat, b: nat): nat { if a < b then b else a }

  /** One move; a call that finds the rule disabled goes no further, and without a call there is no update. */
  function Step(s: Shared, m: Move): Shared {
    match m
    case Load =>
      if Disabled(s) then s else Shared(s.count, s.evaluating + 1, Max(s.peak, s.evaluating + 1))
    case Update(answer) =>
      if s.evaluating == 0 then s else Shared(Count(s.count, answer), s.evaluating - 1, s.peak)
    case Drop =>
      if s.evaluating == 0 then s else s.(evaluating := s.evaluating - 1)
  }

  /** A sequence of moves, oldest first. */
  datatype Trace = Empty | Then(prior: Trace, last: Move)

  function Run(s: Shared, t: Trace): Shared {
    match t
    case Empty => s
    case Then(prior, m) => Step(Run(s, prior), m)
  }

  // ----- How far the counter can go -----

  /** The counter with the evaluations still to come stays within four of the greatest number that overlapped. */
  predicate Bounded(s: Shared) {
    && s.count + s.evaluating <= MAX_CONSECUTIVE_TIMEOUTS - 1 + s.peak
    && s.evaluating <= s.peak
  }

  lemma StepBounded(s: Shared, m: Move)
    requires Bounded(s)
    ensures Bounded(Step(s, m)) && s.peak <= Step(s, m).peak
  { }

  /** In every interleaving; with no overlap the counter never passes the limit of five. */
  lemma {:induction false} CounterBounded(t: Trace)
    ensures var s := Run(START, t); s.count + s.evaluating <= MAX_CONSECUTIVE_TIMEOUTS - 1 + s.peak
    ensures Bounded(Run(START, t))
  {
    if t.Then? {
      CounterBounded(t.prior);
      StepBounded(Run(START, t.prior), t.last);
    }
  }

  // ----- When a disabled rule comes back -----

  /** A call that was let in before the limit was reached answers after it. */
  predicate Reopens(s: Shared, m: Move) {
    m.Update? && s.evaluating > 0 && (m.answer.Yes? || m.answer.No?)
  }

  lemma DisabledStep(s: Shared, m: Move)
    requires Disabled(s)
    ensures Disabled(Step(s, m)) <==> !Reopens(s, m)
    ensures Step(s, m).evaluating <= s.evaluating
  { }

  /** The rule is disabled after every move, and before the first. */
  predicate DisabledThroughout(s: Shared, t: Trace) {
    Disabled(Run(s, t)) && (t.Then? ==> DisabledThroughout(s, t.prior))
  }

  predicate NeverReopens(s: Shared, t: Trace) {
    t.Then? ==> NeverReopens(s, t.prior) && !Reopens(Run(s, t.prior), t.last)
  }

  /** A disabled rule stays so exactly as long as no call that was let in before answers true or false. */
  lemma {:induction false} StaysDisabledIff(s: Shared, t: Trace)
    requires Disabled(s)
    ensures DisabledThroughout(s, t) <==> NeverReopens(s, t)
    ensures DisabledThroughout(s, t) ==> Run(s, t).evaluating <= s.evaluating
  {
    if t.Then? {
      StaysDisabledIff(s, t.prior);
      if Disabled(Run(s, t.prior)) { DisabledStep(Run(s, t.prior), t.last); }
    }
  }

  /** With no evaluation under way when the limit is reached, no interleaving switches the rule on again. */
  lemma {:induction false} QuietDisabledForever(s: Shared, t: Trace)
    requires Disabled(s) && s.evaluating == 0
    ensures Disabled(Run(s, t)) && Run(s, t).evaluating == 0
  {
    if t.Then? {
      QuietDisabledForever(s, t.prior);
      DisabledStep(Run(s, t.prior), t.last);
    }
  }

  // ----- Runs that go that far -----

  /** `n` calls load the counter, one after another. */
  lemma {:induction false} Loads(s: Shared, t: Trace, n: nat) returns (more: Trace)
    requires !Disabled(Run(s, t)) && Run(s, t).evaluating == 0
    ensures var u := Run(s, t); Run(s, more) == Shared(u.count, n, Max(u.peak, n))
  {
    if n == 0 {
      more := t;
    } else {
      var prior := Loads(s, t, n - 1);
      more := Then(prior, Load);
    }
  }

  /** `k` of them time out. */
  lemma {:induction false} TimeOuts(s: Shared, t: Trace, k: nat) returns (more: Trace)
    requires k <= Run(s, t).evaluating
    ensures var u := Run(s, t); Run(s, more) == Shared(u.count + k, u.evaluating - k, u.peak)
  {
    if k == 0 {
      more := t;
    } else {
      var prior := TimeOuts(s, t, k - 1);
      more := Then(prior, Update(Timeout));
    }
  }

  /** `n` calls overlap, and `k` of them time out. */
  lemma Overlap(s: Shared, t: Trace, n: nat, k: nat) returns (more: Trace)
    requires !Disabled(Run(s, t)) && Run(s, t).evaluating == 0 && k <= n
    ensures var u := Run(s, t); Run(s, more) == Shared(u.count + k, n - k, Max(u.peak, n))
  {
    var loaded := Loads(s, t, n);
    more := TimeOuts(s, loaded, k);
  }

  /** `k` calls time out, one after the other. */
  lemma {:induction false} OneByOne(k: nat) returns (t: Trace)
    requires k < MAX_CONSECUTIVE_TIMEOUTS
    ensures Run(START, t) == Shared(k, 0, if k == 0 then 0 else 1)
  {
    if k == 0 {
      t := Empty;
    } else {
      var prior := OneByOne(k - 1);
      t := Overlap(START, prior, 1, 1);
    }
  }

  /** The bound is met: `n` calls that overlap once the counter is at four drive it to four more than `n`. */
  lemma BoundIsMet(n: nat)
    requires n > 0
    ensures exists t :: Run(START, t) == Shared(MAX_CONSECUTIVE_TIMEOUTS - 1 + n, 0, n)
  {
    var four := OneByOne(MAX_CONSECUTIVE_TIMEOUTS - 1);
    var t := Overlap(START, four, n, n);
  }

  /** Five time-outs switch the rule off, and the answer of a sixth call that overlapped them lets a new one in. */
  lemma DisabledRuleReopens()
    ensures exists off ::
              && Disabled(Run(START, off))
              && Run(START, Then(Then(off, Update(No)), Load)).evaluating == 1
  {
    var off := Overlap(START, Empty, 6, 5);
    var s := Run(START, off);
    assert Step(s, Update(No)) == Shared(0, 0, s.peak);
    assert Run(START, Then(Then(off, Update(No)), Load)).evaluating == 1;
  }
}
