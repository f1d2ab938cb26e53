/** The matcher: the first rule that passes wins, an unusable filter fails closed, slow filters are switched off. */
module RuleMatching {
  import opened Bytes
  import opened Options

  const MAX_CONSECUTIVE_TIMEOUTS := 5
  const MAX_EXPR_LEN := 4096

  datatype Scope = All(word: string) | List(ids: seq<string>)

  /** `cell` names the shared timeout counter: a rule and its clones have one counter between them. */
  datatype Rule = Rule(
    name: string, channels: Scope, kinds: seq<nat>, requireMention: bool,
    filter: Option<seq<Byte>>, promptTag: Option<string>, cell: nat)

  datatype Event = Event(kind: nat, tags: seq<seq<string>>)

  datatype Matched = Matched(index: nat, promptTag: string)

  /** How one filter evaluation ends. */
  datatype Answer = Yes | No | Timeout | Error

  /** One call of the matcher; `answers` says how the evaluator would answer for each rule. */
  datatype Call = Call(event: Event, channel: string, agent: string, answers: nat -> Answer)

  // ----- Checks that need no evaluation -----

  predicate InScope(scope: Scope, channel: string) {
    match scope
    case All(word) => word == "all"
    case List(ids) => channel in ids
  }

  predicate IsMention(tag: seq<string>, agent: string) { |tag| >= 2 && tag[0] == "p" && tag[1] == agent }

  predicate Mentions(event: Event, agent: string) {
    exists k :: 0 <= k < |event.tags| && IsMention(event.tags[k], agent)
  }

  predicate Static(rule: Rule, call: Call) {
    && InScope(rule.channels, call.channel)
    && (rule.kinds == [] || call.event.kind in rule.kinds)
    && (rule.requireMention ==> Mentions(call.event, call.agent))
  }

  // ----- Evaluation -----

  /** An over-long expression is refused before it reaches the evaluator. */
  function Evaluate(rule: Rule, call: Call, index: nat): Answer
    requires rule.filter.Some?
  {
    if |rule.filter.value| > MAX_EXPR_LEN then Error else call.answers(index)
  }

  function Count(count: nat, answer: Answer): nat {
    match answer
    case Yes => 0
    case No => 0
    case Timeout => count + 1
    case Error => count
  }

  function TagOf(rule: Rule): string { match rule.promptTag case Some(tag) => tag case None => rule.name }

  predicate HasCells(rules: seq<Rule>, cells: nat) { forall k :: 0 <= k < |rules| ==> rules[k].cell < cells }

  datatype Evaluation = Evaluation(cell: nat, answer: Answer)

  /** The result, the counters afterwards, and the evaluations that were started, in order. */
  datatype Verdict = Verdict(matched: Option<Matched>, counts: seq<nat>, log: seq<Evaluation>)

  /** The loop from rule `i` on. */
  function MatchFrom(rules: seq<Rule>, call: Call, i: nat, counts: seq<nat>, log: seq<Evaluation>): (v: Verdict)
    requires i <= |rules| && HasCells(rules, |counts|)
    ensures |v.counts| == |counts|
    decreases |rules| - i
  {
    if i == |rules| then Verdict(None, counts, log) else
    var rule := rules[i];
    if !Static(rule, call) then MatchFrom(rules, call, i + 1, counts, log)
    else if rule.filter.None? then Verdict(Some(Matched(i, TagOf(rule))), counts, log)
    else if counts[rule.cell] >= MAX_CONSECUTIVE_TIMEOUTS then Verdict(None, counts, log)
    else
      var answer := Evaluate(rule, call, i);
      var counted := counts[rule.cell := Count(counts[rule.cell], answer)];
      var logged := log + [Evaluation(rule.cell, answer)];
      match answer
      case Yes => Verdict(Some(Matched(i, TagOf(rule))), counted, logged)
      case No => MatchFrom(rules, call, i + 1, counted, logged)
      case _ => Verdict(None, counted, logged)
  }

  /** The matcher, over counters it updates in place. */
  method MatchEvent(rules: seq<Rule>, call: Call, counters: array<nat>) returns (matched: Option<Matched>)
    requires HasCells(rules, counters.Length)
    modifies counters
    ensures matched == MatchFrom(rules, call, 0, old(counters[..]), []).matched
    ensures counters[..] == MatchFrom(rules, call, 0, old(counters[..]), []).counts
  {
    ghost var verdict := MatchFrom(rules, call, 0, counters[..], []);
    ghost var log: seq<Evaluation> := [];
    for i := 0 to |rules|
      invariant verdict == MatchFrom(rules, call, i, counters[..], log)
    {
      var rule := rules[i];
      if !InScope(rule.channels, call.channel) { continue; }
      if rule.kinds != [] && call.event.kind !in rule.kinds { continue; }
      if rule.requireMention {
        var mentioned := FindMention(call.event.tags, call.agent);
        if !mentioned { continue; }
      }
      assert Static(rule, call);
      if rule.filter.Some? {
        if counters[rule.cell] >= MAX_CONSECUTIVE_TIMEOUTS { return None; }
        var answer := Evaluate(rule, call, i);
        log := log + [Evaluation(rule.cell, answer)];
        match answer {
          case Yes =>
            counters[rule.cell] := 0;
          case No =>
            counters[rule.cell] := 0;
            continue;
          case Timeout =>
            counters[rule.cell] := counters[rule.cell] + 1;
            return None;
          case Error =>
            return None;
        }
      }
      return Some(Matched(i, TagOf(rule)));
    }
    return None;
  }

  method FindMention(tags: seq<seq<string>>, agent: string) returns (found: bool)
    ensures found <==> exists k :: 0 <= k < |tags| && IsMention(tags[k], agent)
  {
    for k := 0 to |tags|
      invariant forall j :: 0 <= j < k ==> !IsMention(tags[j], agent)
    {
      if IsMention(tags[k], agent) { return true; }
    }
    return false;
  }

  // ----- Which rule wins -----

  predicate Enabled(rule: Rule, counts: seq<nat>)
    requires rule.cell < |counts|
  {
    counts[rule.cell] < MAX_CONSECUTIVE_TIMEOUTS
  }

  /** Rule `i` passes every check it has. */
  predicate Passes(rules: seq<Rule>, call: Call, counts: seq<nat>, i: nat)
    requires i < |rules| && HasCells(rules, |counts|)
  {
    Static(rules[i], call)
        && (rules[i].filter.None? || (Enabled(rules[i], counts) && Evaluate(rules[i], call, i) == Yes))
  }

  /** Rule `i` lets later rules have their turn: it fails a static check, or its filter evaluates to false. */
  predicate Yields(rules: seq<Rule>, call: Call, counts: seq<nat>, i: nat)
    requires i < |rules| && HasCells(rules, |counts|)
  {
    !Static(rules[i], call) || (rules[i].filter.Some? && Enabled(rules[i], counts) && Evaluate(rules[i], call, i) == No)
  }

  /** The two vectors switch off the same rules. */
  predicate SameEnabled(counts: seq<nat>, others: seq<nat>) {
    && |counts| == |others|
    && forall c :: 0 <= c < |counts| ==>
        (counts[c] < MAX_CONSECUTIVE_TIMEOUTS <==> others[c] < MAX_CONSECUTIVE_TIMEOUTS)
  }

  /**
   * Rule `i` is returned exactly when it passes and every earlier rule yields, judged by the counters
   * before the call.
   */
  lemma {:induction false} WinsIff(rules: seq<Rule>, call: Call, from: nat, counts: seq<nat>, log: seq<Evaluation>,
                                   first: seq<nat>, i: nat)
    requires from <= i < |rules| && HasCells(rules, |counts|) && SameEnabled(first, counts)
    ensures (MatchFrom(rules, call, from, counts, log).matched == Some(Matched(i, TagOf(rules[i])))) <==>
            Passes(rules, call, first, i) && forall j: nat :: from <= j < i ==> Yields(rules, call, first, j)
    decreases |rules| - from
  {
    var rule := rules[from];
    if Yields(rules, call, first, from) {
      var counted := if Static(rule, call) then counts[rule.cell := 0] else counts;
      var logged := if Static(rule, call) then log + [Evaluation(rule.cell, No)] else log;
      IndexAtLeast(rules, call, from + 1, counted, logged);
      if i > from { WinsIff(rules, call, from + 1, counted, logged, first, i); }
    }
  }

  predicate Wins(rules: seq<Rule>, call: Call, counts: seq<nat>, i: nat)
    requires i < |rules| && HasCells(rules, |counts|)
  {
    Passes(rules, call, counts, i) && forall j: nat :: j < i ==> Yields(rules, call, counts, j)
  }

  /** A call returns the rule that wins, with its tag, and returns nothing exactly when no rule wins. */
  lemma MatchEventIff(rules: seq<Rule>, call: Call, counts: seq<nat>)
    requires HasCells(rules, |counts|)
    ensures match MatchFrom(rules, call, 0, counts, []).matched
            case Some(m) =>
              m.index < |rules| && Wins(rules, call, counts, m.index) && m.promptTag == TagOf(rules[m.index])
            case None => forall i: nat :: i < |rules| ==> !Wins(rules, call, counts, i)
  {
    IndexAtLeast(rules, call, 0, counts, []);
    forall i: nat | i < |rules|
      ensures (MatchFrom(rules, call, 0, counts, []).matched == Some(Matched(i, TagOf(rules[i])))) <==>
          Wins(rules, call, counts, i)
    {
      WinsIff(rules, call, 0, counts, [], counts, i);
    }
  }

  /** A filter that errs, times out or is switched off keeps every later rule from matching. */
  lemma FailsClosed(rules: seq<Rule>, call: Call, counts: seq<nat>, j: nat)
    requires j < |rules| && HasCells(rules, |counts|) && Static(rules[j], call) && rules[j].filter.Some?
    requires !Enabled(rules[j], counts) || Evaluate(rules[j], call, j) in {Timeout, Error}
    ensures var m := MatchFrom(rules, call, 0, counts, []).matched; m.None? || m.value.index < j
  {
    MatchEventIff(rules, call, counts);
    assert !Yields(rules, call, counts, j) && !Passes(rules, call, counts, j);
  }

  lemma {:induction false} IndexAtLeast(rules: seq<Rule>, call: Call, from: nat, counts: seq<nat>, log: seq<Evaluation>)
    requires from <= |rules| && HasCells(rules, |counts|)
    ensures match MatchFrom(rules, call, from, counts, log).matched
            case None => true
            case Some(m) =>
              from <= m.index < |rules| && m.promptTag == TagOf(rules[m.index]) && Static(rules[m.index], call)
    decreases |rules| - from
  {
    if from < |rules| {
      var rule := rules[from];
      if !Static(rule, call) {
        IndexAtLeast(rules, call, from + 1, counts, log);
      } else if rule.filter.Some? && counts[rule.cell] < MAX_CONSECUTIVE_TIMEOUTS && Evaluate(rule, call, from) == No {
        IndexAtLeast(rules, call, from + 1, counts[rule.cell := 0], log + [Evaluation(rule.cell, No)]);
      }
    }
  }

  // ----- Counters over a sequence of calls -----

  /** The time-outs of a counter since its last answered evaluation. */
  function TimeoutsSince(log: seq<Evaluation>, cell: nat): nat {
    if log == [] then 0
    else
      var last, before := log[|log| - 1], log[..|log| - 1];
      if last.cell != cell || last.answer == Error then TimeoutsSince(before, cell)
      else if last.answer == Timeout then TimeoutsSince(before, cell) + 1
      else 0
  }

  predicate Counted(counts: seq<nat>, log: seq<Evaluation>) {
    forall c :: 0 <= c < |counts| ==> counts[c] == TimeoutsSince(log, c)
  }

  predicate Bounded(counts: seq<nat>) { forall c :: 0 <= c < |counts| ==> counts[c] <= MAX_CONSECUTIVE_TIMEOUTS }

  /** An evaluation was only started while its counter allowed it. */
  predicate EnabledWhenStarted(log: seq<Evaluation>) {
    forall k :: 0 <= k < |log| ==> TimeoutsSince(log[..k], log[k].cell) < MAX_CONSECUTIVE_TIMEOUTS
  }

  predicate Tracks(counts: seq<nat>, log: seq<Evaluation>) {
    Counted(counts, log) && Bounded(counts) && EnabledWhenStarted(log)
  }

  lemma Logged(counts: seq<nat>, log: seq<Evaluation>, cell: nat, answer: Answer)
    requires Tracks(counts, log) && cell < |counts| && counts[cell] < MAX_CONSECUTIVE_TIMEOUTS
    ensures Tracks(counts[cell := Count(counts[cell], answer)], log + [Evaluation(cell, answer)])
  {
    var more := log + [Evaluation(cell, answer)];
    assert more[..|log|] == log;
    forall k | 0 <= k < |more| ensures TimeoutsSince(more[..k], more[k].cell) < MAX_CONSECUTIVE_TIMEOUTS {
      if k < |log| { assert more[..k] == log[..k]; }
    }
  }

  /** What a rule that is evaluated adds to the counters and the log, and what comes after it. */
  lemma EvaluatedStep(rules: seq<Rule>, call: Call, i: nat, counts: seq<nat>, log: seq<Evaluation>)
    requires i < |rules| && HasCells(rules, |counts|) && Static(rules[i], call)
    requires rules[i].filter.Some? && counts[rules[i].cell] < MAX_CONSECUTIVE_TIMEOUTS
    ensures var cell, answer := rules[i].cell, Evaluate(rules[i], call, i);
            var counted, logged := counts[cell := Count(counts[cell], answer)], log + [Evaluation(cell, answer)];
            var v := MatchFrom(rules, call, i, counts, log);
            if answer == No then v == MatchFrom(rules, call, i + 1, counted, logged)
            else v.counts == counted && v.log == logged
  { }

  /**
   * Through one call every counter is the number of its time-outs since its last answered evaluation,
   * and at most five.
   */
  lemma {:induction false} CallTracks(rules: seq<Rule>, call: Call, i: nat, counts: seq<nat>, log: seq<Evaluation>)
    requires i <= |rules| && HasCells(rules, |counts|) && Tracks(counts, log)
    ensures var v := MatchFrom(rules, call, i, counts, log); Tracks(v.counts, v.log) && log <= v.log
    decreases |rules| - i
  {
    if i < |rules| {
      var rule := rules[i];
      if !Static(rule, call) {
        CallTracks(rules, call, i + 1, counts, log);
      } else if rule.filter.Some? && counts[rule.cell] < MAX_CONSECUTIVE_TIMEOUTS {
        var answer := Evaluate(rule, call, i);
        var counted := counts[rule.cell := Count(counts[rule.cell], answer)];
        var logged := log + [Evaluation(rule.cell, answer)];
        Logged(counts, log, rule.cell, answer);
        EvaluatedStep(rules, call, i, counts, log);
        if answer == No { CallTracks(rules, call, i + 1, counted, logged); }
      }
    }
  }

  datatype State = State(counts: seq<nat>, log: seq<Evaluation>)

  function After(rules: seq<Rule>, s: State, calls: seq<Call>): (t: State)
    requires HasCells(rules, |s.counts|)
    ensures |t.counts| == |s.counts|
  {
    if calls == [] then s
    else
      var before := After(rules, s, calls[..|calls| - 1]);
      var v := MatchFrom(rules, calls[|calls| - 1], 0, before.counts, before.log);
      State(v.counts, v.log)
  }

  lemma {:induction false} RunTracks(rules: seq<Rule>, s: State, calls: seq<Call>)
    requires HasCells(rules, |s.counts|) && Tracks(s.counts, s.log)
    ensures var t := After(rules, s, calls); Tracks(t.counts, t.log) && s.log <= t.log
  {
    if calls != [] {
      RunTracks(rules, s, calls[..|calls| - 1]);
      var before := After(rules, s, calls[..|calls| - 1]);
      CallTracks(rules, calls[|calls| - 1], 0, before.counts, before.log);
    }
  }

  /** From fresh counters, whatever the calls and answers. */
  lemma CountersSound(rules: seq<Rule>, cells: nat, calls: seq<Call>)
    requires HasCells(rules, cells)
    ensures var t := After(rules, State(seq(cells, _ => 0), []), calls); Tracks(t.counts, t.log)
  {
    RunTracks(rules, State(seq(cells, _ => 0), []), calls);
  }

  function ForCell(log: seq<Evaluation>, cell: nat): seq<Evaluation> {
    if log == [] then []
    else ForCell(log[..|log| - 1], cell) + if log[|log| - 1].cell == cell then [log[|log| - 1]] else []
  }

  lemma {:induction false} CallSkipsDisabled(rules: seq<Rule>, call: Call, i: nat, counts: seq<nat>,
                                             log: seq<Evaluation>, cell: nat)
    requires i <= |rules| && HasCells(rules, |counts|) && cell < |counts| && counts[cell] >= MAX_CONSECUTIVE_TIMEOUTS
    ensures var v := MatchFrom(rules, call, i, counts, log);
            v.counts[cell] == counts[cell] && ForCell(v.log, cell) == ForCell(log, cell)
    decreases |rules| - i
  {
    if i < |rules| {
      var rule := rules[i];
      if !Static(rule, call) {
        CallSkipsDisabled(rules, call, i + 1, counts, log, cell);
      } else if rule.filter.Some? && counts[rule.cell] < MAX_CONSECUTIVE_TIMEOUTS {
        var answer := Evaluate(rule, call, i);
        var more := log + [Evaluation(rule.cell, answer)];
        assert more[..|log|] == log;
        if answer == No { CallSkipsDisabled(rules, call, i + 1, counts[rule.cell := 0], more, cell); }
      }
    }
  }

  /** A counter that reached the limit stays there, and no later call evaluates a rule of that counter. */
  lemma {:induction false} DisabledForever(rules: seq<Rule>, s: State, calls: seq<Call>, cell: nat)
    requires HasCells(rules, |s.counts|) && cell < |s.counts| && s.counts[cell] >= MAX_CONSECUTIVE_TIMEOUTS
    ensures var t := After(rules, s, calls);
            t.counts[cell] == s.counts[cell] && ForCell(t.log, cell) == ForCell(s.log, cell)
  {
    if calls != [] {
      DisabledForever(rules, s, calls[..|calls| - 1], cell);
      var before := After(rules, s, calls[..|calls| - 1]);
      CallSkipsDisabled(rules, calls[|calls| - 1], 0, before.counts, before.log, cell);
    }
  }
}
