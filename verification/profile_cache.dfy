/**
 * The business profile cache: any number of callers refresh one shared answer.
 *
 * A caller claims the refresh under the lock, waits for the relay without it, and comes back under
 * the lock behind a fence that compares the claim instant. Every interleaving of callers is a
 * sequence of `Move`s on one shared `World`.
 */
module ProfileCache {
  import opened Options

  /** The refresh interval in milliseconds. */
  const REFRESH_AFTER: nat := 60_000

  datatype Snapshot = Snapshot(revision: nat, block: string)

  // ----- The state behind the lock -----

  datatype State = State(relaySelf: Option<string>, snapshot: Option<Snapshot>, checkedAt: Option<nat>)

  /** The state after an answer arrives: the clock is stamped, and the snapshot with the greater revision stays. */
  function Answered(s: State, fetched: Option<Snapshot>, now: nat): State {
    s.(checkedAt := Some(now),
       snapshot :=
         if fetched.Some? && (s.snapshot.None? || fetched.value.revision >= s.snapshot.value.revision)
         then fetched else s.snapshot)
  }

  predicate IsFresh(s: State, now: nat) {
    s.checkedAt.Some? && (now < s.checkedAt.value || now - s.checkedAt.value < REFRESH_AFTER)
  }

  /** The second critical section of a refresh. */
  function Completed(s: State, claimedAt: nat, relay: Option<string>, fetched: Option<Snapshot>, now: nat): State {
    if s.checkedAt != Some(claimedAt) then s
    else Answered(s.(relaySelf := if relay.Some? then relay else s.relaySelf), fetched, now)
  }

  /** The cache object; each method is one critical section. */
  class BusinessProfileCache {
    var relaySelf: Option<string>
    var snapshot: Option<Snapshot>
    var checkedAt: Option<nat>

    ghost function View(): State
      reads this
    {
      State(relaySelf, snapshot, checkedAt)
    }

    constructor ()
      ensures View() == State(None, None, None)
    {
      relaySelf, snapshot, checkedAt := None, None, None;
    }

    /** Use the last answer while it is fresh; otherwise claim the refresh. */
    method UseOrClaim(now: nat) returns (claimed: bool, known: Option<string>, current: Option<Snapshot>)
      modifies this`checkedAt
      ensures claimed == !IsFresh(old(View()), now)
      ensures View() == if claimed then old(View()).(checkedAt := Some(now)) else old(View())
      ensures known == relaySelf && current == snapshot
    {
      known, current := relaySelf, snapshot;
      claimed := !(checkedAt.Some? && (now < checkedAt.value || now - checkedAt.value < REFRESH_AFTER));
      if claimed { checkedAt := Some(now); }
    }

    method Apply(fetched: Option<Snapshot>, now: nat)
      modifies this`checkedAt, this`snapshot
      ensures View() == Answered(old(View()), fetched, now)
    {
      checkedAt := Some(now);
      if fetched.Some? {
        if snapshot.None? || fetched.value.revision >= snapshot.value.revision { snapshot := fetched; }
      }
    }

    method Complete(claimedAt: nat, relay: Option<string>, fetched: Option<Snapshot>, now: nat)
      returns (current: Option<Snapshot>)
      modifies this
      ensures View() == Completed(old(View()), claimedAt, relay, fetched, now)
      ensures current == snapshot
    {
      if checkedAt == Some(claimedAt) {
        if relay.Some? { relaySelf := relay; }
        Apply(fetched, now);
      }
      current := snapshot;
    }
  }

  // ----- All interleavings -----

  datatype Event =
    | Claimed(call: nat, at: nat)
    | Passed(call: nat, fetched: Option<Snapshot>, at: nat)   // the completion got through the fence
    | Superseded(call: nat)                                    // it did not
    | Dropped(call: nat)                                       // the caller was cancelled while it waited

  datatype History = Start | Then(prior: History, last: Event)

  /** A refresh in progress: when it was claimed, and the relay identity known then. */
  datatype Claim = Claim(at: nat, relay: Option<string>)

  datatype World = World(state: State, clock: nat, waiting: map<nat, Claim>, log: History)

  datatype Move =
    | Tick(d: nat)
    | Call(call: nat)
    | Reply(call: nat, found: Option<string>, fetched: Option<Snapshot>)
    | TimedOut(call: nat)
    | Cancel(call: nat)

  function Init(clock: nat): World { World(State(None, None, None), clock, map[], Start) }

  function Finish(w: World, call: nat, relay: Option<string>, fetched: Option<Snapshot>): World
    requires call in w.waiting
  {
    var at := w.waiting[call].at;
    World(
      Completed(w.state, at, relay, fetched, w.clock),
      w.clock,
      w.waiting - {call},
      Then(w.log, if w.state.checkedAt == Some(at) then Passed(call, fetched, w.clock) else Superseded(call)))
  }

  /** One move; a move that its caller is not in a position to make changes nothing. */
  function Next(w: World, m: Move): World {
    match m
    case Tick(d) => w.(clock := w.clock + d)
    case Call(call) =>
      if call in w.waiting || IsFresh(w.state, w.clock) then w
      else World(
        w.state.(checkedAt := Some(w.clock)), w.clock,
        w.waiting[call := Claim(w.clock, w.state.relaySelf)], Then(w.log, Claimed(call, w.clock)))
    case Reply(call, found, fetched) =>
      if call !in w.waiting then w
      else
        var relay := if w.waiting[call].relay.Some? then w.waiting[call].relay else found;
        Finish(w, call, relay, if relay.Some? then fetched else None)
    case TimedOut(call) => if call !in w.waiting then w else Finish(w, call, None, None)
    case Cancel(call) =>
      if call !in w.waiting then w
      else w.(waiting := w.waiting - {call}, log := Then(w.log, Dropped(call)))
  }

  function Run(w: World, moves: seq<Move>): World
    decreases |moves|
  {
    if moves == [] then w else Next(Run(w, moves[..|moves| - 1]), moves[|moves| - 1])
  }

  // ----- What a history says -----

  datatype Stamp = Stamp(call: nat, at: nat)

  /** The most recent claim. */
  function LastClaim(h: History): Option<Stamp> {
    match h
    case Start => None
    case Then(_, Claimed(call, at)) => Some(Stamp(call, at))
    case Then(p, _) => LastClaim(p)
  }

  /** When the relay was last asked or last answered in time. */
  function LastTouch(h: History): Option<nat> {
    match h
    case Start => None
    case Then(_, Claimed(_, at)) => Some(at)
    case Then(_, Passed(_, _, at)) => Some(at)
    case Then(p, _) => LastTouch(p)
  }

  /** Every claim in `h` is at least a refresh interval older than `at`. */
  predicate ClaimsBefore(h: History, at: nat) {
    h.Then? ==> ClaimsBefore(h.prior, at) && (h.last.Claimed? ==> h.last.at + REFRESH_AFTER <= at)
  }

  /** Any two claims are at least a refresh interval apart. */
  predicate ClaimsApart(h: History) {
    h.Then? ==> ClaimsApart(h.prior) && (h.last.Claimed? ==> ClaimsBefore(h.prior, h.last.at))
  }

  predicate RevisionsAtMost(h: History, r: nat) {
    h.Then? ==>
      && RevisionsAtMost(h.prior, r)
      && (h.last.Passed? && h.last.fetched.Some? ==> h.last.fetched.value.revision <= r)
  }

  /** `s` has the greatest revision that got through the fence, and is the latest with that revision. */
  predicate IsNewest(h: History, s: Snapshot) {
    h.Then? &&
      if h.last.Passed? && h.last.fetched.Some? then
        || (h.last.fetched.value == s && RevisionsAtMost(h.prior, s.revision))
        || (h.last.fetched.value.revision < s.revision && IsNewest(h.prior, s))
      else IsNewest(h.prior, s)
  }

  predicate NothingPassed(h: History) {
    h.Then? ==> NothingPassed(h.prior) && !(h.last.Passed? && h.last.fetched.Some?)
  }

  function Bit(b: bool): nat { if b then 1 else 0 }

  function ClaimsOf(h: History, call: nat): nat {
    if h.Start? then 0 else ClaimsOf(h.prior, call) + Bit(h.last.Claimed? && h.last.call == call)
  }

  /** Completions, superseded completions and cancellations of a call. */
  function EndsOf(h: History, call: nat): nat {
    if h.Start? then 0 else EndsOf(h.prior, call) + Bit(!h.last.Claimed? && h.last.call == call)
  }

  // ----- Invariant of every interleaving -----

  ghost predicate Sound(w: World) {
    && w.state.checkedAt == LastTouch(w.log)
    && (LastTouch(w.log).Some? ==> LastTouch(w.log).value <= w.clock)
    && ClaimsSound(w)
    && (w.state.snapshot.None? ==> NothingPassed(w.log))
    && (w.state.snapshot.Some? ==> IsNewest(w.log, w.state.snapshot.value))
  }

  /**
   * The latest claim holds the fence until it ends; all other waiting claims are older by at least
   * a refresh interval.
   */
  ghost predicate ClaimsSound(w: World) {
    && ClaimsApart(w.log)
    && (LastTouch(w.log).Some? ==> ClaimsBefore(w.log, LastTouch(w.log).value + REFRESH_AFTER))
    && (LastClaim(w.log).None? ==> w.waiting == map[])
    && (LastClaim(w.log).Some? ==>
          var last := LastClaim(w.log).value;
          && LastTouch(w.log).Some? && last.at <= LastTouch(w.log).value
          && (last.call in w.waiting ==> w.waiting[last.call].at == last.at == LastTouch(w.log).value
                                         && w.waiting[last.call].relay == w.state.relaySelf)
          && forall c :: c in w.waiting && c != last.call ==> w.waiting[c].at + REFRESH_AFTER <= last.at)
  }

  lemma {:induction false} ClaimsBeforeWeaken(h: History, a: nat, b: nat)
    requires a <= b && ClaimsBefore(h, a)
    ensures ClaimsBefore(h, b)
  {
    if h.Then? { ClaimsBeforeWeaken(h.prior, a, b); }
  }

  lemma {:induction false} RevisionsWeaken(h: History, a: nat, b: nat)
    requires a <= b && RevisionsAtMost(h, a)
    ensures RevisionsAtMost(h, b)
  {
    if h.Then? { RevisionsWeaken(h.prior, a, b); }
  }

  lemma {:induction false} NewestBounds(h: History, s: Snapshot)
    requires IsNewest(h, s)
    ensures RevisionsAtMost(h, s.revision)
  {
    if h.last.Passed? && h.last.fetched.Some? && h.last.fetched.value == s {
    } else {
      NewestBounds(h.prior, s);
    }
  }

  lemma {:induction false} NothingBounds(h: History, r: nat)
    requires NothingPassed(h)
    ensures RevisionsAtMost(h, r)
  {
    if h.Then? { NothingBounds(h.prior, r); }
  }

  lemma {:induction false} UntouchedUnclaimed(h: History, at: nat)
    requires LastTouch(h).None?
    ensures ClaimsBefore(h, at)
  {
    if h.Then? { UntouchedUnclaimed(h.prior, at); }
  }

  lemma CallSound(w: World, call: nat)
    requires Sound(w)
    ensures Sound(Next(w, Call(call)))
  {
    if call !in w.waiting && !IsFresh(w.state, w.clock) {
      if LastTouch(w.log).None? {
        UntouchedUnclaimed(w.log, w.clock);
      } else {
        ClaimsBeforeWeaken(w.log, LastTouch(w.log).value + REFRESH_AFTER, w.clock);
      }
      ClaimsBeforeWeaken(w.log, w.clock, w.clock + REFRESH_AFTER);
    }
  }

  lemma FinishSound(w: World, call: nat, relay: Option<string>, fetched: Option<Snapshot>)
    requires Sound(w) && call in w.waiting
    requires w.waiting[call].relay.Some? && relay.Some? ==> relay == w.waiting[call].relay
    ensures Sound(Finish(w, call, relay, fetched))
  {
    ClaimsBeforeWeaken(w.log, LastTouch(w.log).value + REFRESH_AFTER, w.clock + REFRESH_AFTER);
    if fetched.Some? {
      if w.state.snapshot.Some? {
        NewestBounds(w.log, w.state.snapshot.value);
        if w.state.snapshot.value.revision <= fetched.value.revision {
          RevisionsWeaken(w.log, w.state.snapshot.value.revision, fetched.value.revision);
        }
      } else {
        NothingBounds(w.log, fetched.value.revision);
      }
    }
  }

  lemma NextSound(w: World, m: Move)
    requires Sound(w)
    ensures Sound(Next(w, m))
  {
    match m
    case Tick(_) =>
    case Call(call) => CallSound(w, call);
    case Reply(call, found, fetched) =>
      if call in w.waiting {
        var relay := if w.waiting[call].relay.Some? then w.waiting[call].relay else found;
        FinishSound(w, call, relay, if relay.Some? then fetched else None);
      }
    case TimedOut(call) => if call in w.waiting { FinishSound(w, call, None, None); }
    case Cancel(call) =>
  }

  lemma {:induction false} RunSound(clock: nat, moves: seq<Move>)
    ensures Sound(Run(Init(clock), moves))
    decreases |moves|
  {
    if moves != [] {
      RunSound(clock, moves[..|moves| - 1]);
      NextSound(Run(Init(clock), moves[..|moves| - 1]), moves[|moves| - 1]);
    }
  }

  // ----- The guarantees -----

  /** Any two refresh claims are at least `REFRESH_AFTER` apart, so their instants are unique. */
  lemma ClaimsSpaced(clock: nat, moves: seq<Move>)
    ensures ClaimsApart(Run(Init(clock), moves).log)
  {
    RunSound(clock, moves);
  }

  /**
   * The stored snapshot has the greatest revision of all completions that passed the fence, and is
   * the latest of those; nothing is stored exactly when none of them carried a profile.
   */
  lemma StoredIsNewest(clock: nat, moves: seq<Move>)
    ensures var w := Run(Init(clock), moves);
            match w.state.snapshot
            case None => NothingPassed(w.log)
            case Some(s) => IsNewest(w.log, s) && RevisionsAtMost(w.log, s.revision) && !NothingPassed(w.log)
  {
    RunSound(clock, moves);
    var w := Run(Init(clock), moves);
    if w.state.snapshot.Some? {
      NewestBounds(w.log, w.state.snapshot.value);
      NewestPassed(w.log, w.state.snapshot.value);
    }
  }

  lemma {:induction false} NewestPassed(h: History, s: Snapshot)
    requires IsNewest(h, s)
    ensures !NothingPassed(h)
  {
    if !(h.last.Passed? && h.last.fetched.Some?) { NewestPassed(h.prior, s); }
  }

  /** A completion passes the fence exactly when no other refresh was claimed since its own claim. */
  lemma FenceIff(clock: nat, moves: seq<Move>, call: nat)
    requires call in Run(Init(clock), moves).waiting
    ensures var w := Run(Init(clock), moves);
            w.state.checkedAt == Some(w.waiting[call].at) <==> LastClaim(w.log) == Some(Stamp(call, w.waiting[call].at))
  {
    RunSound(clock, moves);
  }

  /** A superseded completion changes none of the three fields. */
  lemma SupersededChangesNothing(clock: nat, moves: seq<Move>, call: nat, found: Option<string>,
                                 fetched: Option<Snapshot>)
    requires var w := Run(Init(clock), moves);
             call in w.waiting && LastClaim(w.log) != Some(Stamp(call, w.waiting[call].at))
    ensures var w := Run(Init(clock), moves);
            Next(w, Reply(call, found, fetched)).state == w.state == Next(w, TimedOut(call)).state
  {
    FenceIff(clock, moves, call);
  }

  /** Snapshots are never lost, revisions never decrease, and the relay identity never changes once known. */
  lemma NextMonotone(w: World, m: Move)
    requires Sound(w)
    ensures var s, t := w.state, Next(w, m).state;
            && (s.snapshot.Some? ==> t.snapshot.Some? && s.snapshot.value.revision <= t.snapshot.value.revision)
            && (s.relaySelf.Some? ==> t.relaySelf == s.relaySelf)
  { }

  lemma {:induction false} RunMonotone(clock: nat, moves: seq<Move>, k: nat)
    requires k <= |moves|
    ensures var s, t := Run(Init(clock), moves[..k]).state, Run(Init(clock), moves).state;
            && (s.snapshot.Some? ==> t.snapshot.Some? && s.snapshot.value.revision <= t.snapshot.value.revision)
            && (s.relaySelf.Some? ==> t.relaySelf == s.relaySelf)
    decreases |moves|
  {
    if k < |moves| {
      var most := moves[..|moves| - 1];
      RunMonotone(clock, most, k);
      assert most[..k] == moves[..k];
      RunSound(clock, most);
      NextMonotone(Run(Init(clock), most), moves[|moves| - 1]);
    } else {
      assert moves[..k] == moves;
    }
  }

  /** Each claim ends at most once: it is completed, superseded or cancelled, or it still waits. */
  lemma {:induction false} ClaimsEndOnce(clock: nat, moves: seq<Move>, call: nat)
    ensures var w := Run(Init(clock), moves);
            ClaimsOf(w.log, call) == EndsOf(w.log, call) + Bit(call in w.waiting)
    decreases |moves|
  {
    if moves != [] { ClaimsEndOnce(clock, moves[..|moves| - 1], call); }
  }

  /** A caller refreshes exactly when no claim and no answer is younger than `REFRESH_AFTER`. */
  lemma RefreshIff(clock: nat, moves: seq<Move>, call: nat)
    requires call !in Run(Init(clock), moves).waiting
    ensures var w := Run(Init(clock), moves);
            call in Next(w, Call(call)).waiting <==>
              LastTouch(w.log).None? || LastTouch(w.log).value + REFRESH_AFTER <= w.clock
  {
    RunSound(clock, moves);
  }

  /** A cancelled claimant blocks the next claim for `REFRESH_AFTER` after its own claim and no longer. */
  lemma CancelledClaimExpires(clock: nat, moves: seq<Move>, d: nat, call: nat)
    requires var w := Run(Init(clock), moves); LastClaim(w.log).Some? && LastClaim(w.log).value.call in w.waiting
    ensures var w := Run(Init(clock), moves);
            var last := LastClaim(w.log).value;
            var v := Next(Next(w, Cancel(last.call)), Tick(d));
            call !in v.waiting ==> (call in Next(v, Call(call)).waiting <==> last.at + REFRESH_AFTER <= v.clock)
  {
    RunSound(clock, moves);
  }

  // ----- What a turn carries -----

  /** What to attach to a turn, given the revision that the session was last sent. */
  function ForTurn(latest: Option<Snapshot>, delivered: Option<nat>): Option<Snapshot> {
    if latest.Some? && delivered != Some(latest.value.revision) then latest else None
  }

  /** A turn of one session: it reads the cache after `seen` moves, and `ok` says whether it was delivered. */
  datatype SessionTurn = SessionTurn(seen: nat, ok: bool)

  function LatestAt(clock: nat, moves: seq<Move>, k: nat): Option<Snapshot>
    requires k <= |moves|
  {
    Run(Init(clock), moves[..k]).state.snapshot
  }

  /** The turns of a session read the cache in order. */
  predicate InOrder(turns: seq<SessionTurn>, bound: nat) {
    && (forall i, j :: 0 <= i < j < |turns| ==> turns[i].seen <= turns[j].seen)
    && (forall i :: 0 <= i < |turns| ==> turns[i].seen <= bound)
  }

  /** The revisions that a session received, oldest first. */
  function Received(clock: nat, moves: seq<Move>, turns: seq<SessionTurn>): seq<nat>
    requires InOrder(turns, |moves|)
    decreases |turns|
  {
    if turns == [] then []
    else
      var t := turns[|turns| - 1];
      ReceivedMore(Received(clock, moves, turns[..|turns| - 1]), LatestAt(clock, moves, t.seen), t.ok)
  }

  predicate Increasing(s: seq<nat>) {
    forall i, j :: 0 <= i < j < |s| ==> s[i] < s[j]
  }

  /** The received revisions increase, reach no further than the latest one, and reach it after a delivered turn. */
  predicate UpToDate(r: seq<nat>, latest: Option<Snapshot>, delivered: bool) {
    && Increasing(r)
    && (r != [] ==> latest.Some? && r[|r| - 1] <= latest.value.revision)
    && (delivered && latest.Some? ==> r != [] && r[|r| - 1] == latest.value.revision)
  }

  /** One more turn of a session, which reads `latest`. */
  function ReceivedMore(before: seq<nat>, latest: Option<Snapshot>, ok: bool): seq<nat> {
    var carried := ForTurn(latest, if before == [] then None else Some(before[|before| - 1]));
    if ok && carried.Some? then before + [carried.value.revision] else before
  }

  lemma ReceivedMoreUpToDate(before: seq<nat>, latest: Option<Snapshot>, ok: bool)
    requires Increasing(before)
    requires before != [] ==> latest.Some? && before[|before| - 1] <= latest.value.revision
    ensures UpToDate(ReceivedMore(before, latest, ok), latest, ok)
  { }

  /**
   * Whatever the callers of the cache do, a session receives every revision at most once and only
   * newer ones, and a delivered turn leaves it with the revision that turn read.
   */
  lemma {:induction false} SessionReceivesNewer(clock: nat, moves: seq<Move>, turns: seq<SessionTurn>)
    requires InOrder(turns, |moves|) && turns != []
    ensures var t := turns[|turns| - 1];
            UpToDate(Received(clock, moves, turns), LatestAt(clock, moves, t.seen), t.ok)
    decreases |turns|
  {
    var most, t := turns[..|turns| - 1], turns[|turns| - 1];
    if most != [] {
      SessionReceivesNewer(clock, moves, most);
      LatestGrows(clock, moves, most[|most| - 1].seen, t.seen);
    }
    ReceivedMoreUpToDate(Received(clock, moves, most), LatestAt(clock, moves, t.seen), t.ok);
  }

  lemma LatestGrows(clock: nat, moves: seq<Move>, k: nat, n: nat)
    requires k <= n <= |moves|
    ensures var s, t := LatestAt(clock, moves, k), LatestAt(clock, moves, n);
            s.Some? ==> t.Some? && s.value.revision <= t.value.revision
  {
    RunMonotone(clock, moves[..n], k);
    assert moves[..n][..k] == moves[..k];
  }

  // ----- Choosing among the heads in one relay answer -----

  /** A valid profile head; other events of the answer are `None`. */
  datatype Head = Head(revision: nat, createdAt: nat, block: string)

  predicate AtMost(a: Head, b: Head) {
    a.revision < b.revision || (a.revision == b.revision && a.createdAt <= b.createdAt)
  }

  /** `max_by_key` over the valid heads: the last one among equals. */
  function NewestHead(events: seq<Option<Head>>): Option<Head>
    decreases |events|
  {
    if events == [] then None
    else
      var best, e := NewestHead(events[..|events| - 1]), events[|events| - 1];
      if e.Some? && (best.None? || AtMost(best.value, e.value)) then e else best
  }

  /** The head at `k` is the greatest, and the last among equals. */
  predicate BestAt(events: seq<Option<Head>>, k: nat) {
    && k < |events| && events[k].Some?
    && (forall j :: 0 <= j < k && events[j].Some? ==> AtMost(events[j].value, events[k].value))
    && (forall j :: k < j < |events| && events[j].Some? ==> !AtMost(events[k].value, events[j].value))
  }

  lemma {:induction false} NewestHeadIsLast(events: seq<Option<Head>>) returns (k: nat)
    ensures if NewestHead(events).None? then forall j :: 0 <= j < |events| ==> events[j].None?
            else BestAt(events, k) && events[k] == NewestHead(events)
    decreases |events|
  {
    k := 0;
    if events != [] {
      var n := |events| - 1;
      var most := events[..n];
      k := NewestHeadIsLast(most);
      assert forall j :: 0 <= j < n ==> events[j] == most[j];
      if NewestHead(most).None? {
        k := n;
      } else if events[n].Some? && AtMost(most[k].value, events[n].value) {
        forall j | 0 <= j < n && events[j].Some? ensures AtMost(events[j].value, events[n].value) {
          assert j > k ==> !AtMost(most[k].value, most[j].value);
        }
        k := n;
      }
    }
  }
}
