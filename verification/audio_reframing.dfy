/** The microphone tap: it cuts the samples it is fed into batches of 960 and posts them, gated by push-to-talk. */
module AudioReframing {
  import opened Options

  const FRAME := 960

  type Sample = real

  // ----- What the processor does, on values -----

  /** The posted batches, the samples waiting in the buffer, and the push-to-talk gate. */
  datatype Tap = Tap(posted: seq<seq<Sample>>, pending: seq<Sample>, transmitting: bool)

  const FRESH := Tap([], [], true)

  /** Feeding samples: a full buffer is posted and the rest starts a new one, which fails when the rest does not fit. */
  function Feed(t: Tap, input: seq<Sample>): (Tap, bool) {
    var all := t.pending + input;
    if |all| < FRAME then (t.(pending := all), true)
    else
      var sent := t.(posted := t.posted + [all[..FRAME]]);
      if |all| <= 2 * FRAME then (sent.(pending := all[FRAME..]), true) else (sent.(pending := []), false)
  }

  datatype Event = Samples(input: seq<Sample>) | Silence | Ptt(active: bool)

  /** One `process` call or one push-to-talk message. */
  function Step(t: Tap, e: Event): (Tap, bool) {
    match e
    case Samples(input) => if t.transmitting then Feed(t, input) else (t.(pending := []), true)
    case Silence => (t, true)
    case Ptt(active) => (t.(transmitting := active), true)
  }

  function Run(t: Tap, events: seq<Event>): Tap {
    if events == [] then t else Step(Run(t, events[..|events| - 1]), events[|events| - 1]).0
  }

  // ----- The processor object -----

  class SttTapProcessor {
    var buffer: array<Sample>
    var offset: nat
    var transmitting: bool
    var port: seq<array<Sample>>

    /** No posted array is the buffer still being filled, and every posted array is a whole frame. */
    ghost predicate Valid()
      reads this, port
    {
      && buffer.Length == FRAME && offset <= FRAME && buffer !in port
      && forall k :: 0 <= k < |port| ==> port[k].Length == FRAME
    }

    ghost function Contents(): Tap
      reads this, buffer, port
      requires Valid()
    {
      Tap(seq(|port|, k requires 0 <= k < |port| reads this, port => port[k][..]), buffer[..offset], transmitting)
    }

    constructor ()
      ensures Valid() && fresh(buffer) && port == [] && Contents() == FRESH
    {
      buffer := new Sample[FRAME](_ => 0.0);
      offset := 0;
      transmitting := true;
      port := [];
    }

    method OnMessage(active: bool)
      requires Valid()
      modifies this`transmitting
      ensures Valid() && Contents() == Step(old(Contents()), Ptt(active)).0
    {
      transmitting := active;
    }

    /** Copy samples into the buffer at the offset, as `set` does. */
    method Set(samples: seq<Sample>)
      requires Valid() && offset + |samples| <= FRAME
      modifies buffer
      ensures buffer[..offset + |samples|] == old(buffer[..offset]) + samples
    {
      for k := 0 to |samples|
        invariant buffer[..offset + k] == old(buffer[..offset]) + samples[..k]
      {
        buffer[offset + k] := samples[k];
        assert buffer[..offset + k + 1] == buffer[..offset + k] + [samples[k]];
      }
    }

    /**
     * One render quantum; `ok` is false when the samples left over do not fit a buffer. Posted arrays
     * are not written.
     */
    method Process(input: Option<seq<Sample>>) returns (ok: bool)
      requires Valid()
      modifies this, buffer
      ensures Valid() && (buffer == old(buffer) || fresh(buffer))
      ensures old(port) <= port
      ensures forall k :: 0 <= k < |old(port)| ==> old(port)[k][..] == old(port[k][..])
      ensures (Contents(), ok) == Step(old(Contents()), if input.Some? then Samples(input.value) else Silence)
    {
      if input.None? { return true; }
      if !transmitting {
        offset := 0;
        assert buffer[..0] == [] && Contents().posted == old(Contents()).posted;
        return true;
      }
      ok := Transmit(input.value);
    }

    /** Fill the buffer with as many samples as fit, and tell how many did. */
    method Fill(samples: seq<Sample>) returns (copied: nat)
      requires Valid()
      modifies this`offset, buffer
      ensures Valid() && copied <= |samples| && offset == old(offset) + copied
      ensures buffer[..offset] == old(buffer[..offset]) + samples[..copied]
      ensures offset < FRAME ==> copied == |samples|
    {
      var remaining := buffer.Length - offset;
      copied := if |samples| <= remaining then |samples| else remaining;
      Set(samples[..copied]);
      offset := offset + copied;
    }

    /** The gate is open: the samples go to the buffer, and a full buffer is posted. */
    method Transmit(samples: seq<Sample>) returns (ok: bool)
      requires Valid() && transmitting
      modifies this, buffer
      ensures Valid() && (buffer == old(buffer) || fresh(buffer))
      ensures old(port) <= port
      ensures forall k :: 0 <= k < |old(port)| ==> old(port)[k][..] == old(port[k][..])
      ensures (Contents(), ok) == Feed(old(Contents()), samples)
    {
      ghost var all := buffer[..offset] + samples;
      var copied := Fill(samples);
      assert buffer[..offset] == all[..offset] && samples[copied..] == all[offset..];
      if offset >= buffer.Length {
        assert buffer[..] == all[..FRAME];
        ok := Post(samples[copied..]);
        assert Contents().posted == old(Contents()).posted + [all[..FRAME]];
      } else {
        assert samples[..copied] == samples;
        assert Contents().posted == old(Contents()).posted;
        ok := true;
      }
    }

    /** Hand the full buffer over and start a fresh one with what is left over. */
    method Post(leftover: seq<Sample>) returns (ok: bool)
      requires Valid() && offset == FRAME
      modifies this
      ensures Valid() && fresh(buffer) && port == old(port) + [old(buffer)] && transmitting == old(transmitting)
      ensures ok <==> |leftover| <= FRAME
      ensures buffer[..offset] == if ok then leftover else []
    {
      port := port + [buffer];
      buffer := new Sample[FRAME](_ => 0.0);
      offset := 0;
      ok := |leftover| <= FRAME;
      if ok && |leftover| > 0 {
        Set(leftover);
        offset := |leftover|;
      }
    }
  }

  // ----- Runs -----

  function Join(batches: seq<seq<Sample>>): seq<Sample> {
    if batches == [] then [] else Join(batches[..|batches| - 1]) + batches[|batches| - 1]
  }

  /** How many batches had been posted when the current segment began: at the last gated call that carried samples. */
  function SegmentStart(t: Tap, events: seq<Event>): nat {
    if events == [] then |t.posted|
    else
      var n := |events| - 1;
      var before := Run(t, events[..n]);
      if events[n].Samples? && !before.transmitting then |before.posted| else SegmentStart(t, events[..n])
  }

  /** The samples fed in the current segment while the gate was open, in order. */
  function Transmitted(t: Tap, events: seq<Event>): seq<Sample> {
    if events == [] then []
    else
      var n := |events| - 1;
      if !events[n].Samples? then Transmitted(t, events[..n])
      else if Run(t, events[..n]).transmitting then Transmitted(t, events[..n]) + events[n].input
      else []
  }

  predicate Quanta(events: seq<Event>) {
    forall k :: 0 <= k < |events| ==> events[k].Samples? ==> |events[k].input| <= FRAME
  }

  predicate Framed(t: Tap) { |t.pending| <= FRAME && forall k :: 0 <= k < |t.posted| ==> |t.posted[k]| == FRAME }

  /** The batches of the segment and the buffered samples are what was transmitted in it. */
  predicate Accounts(t: Tap, start: nat, transmitted: seq<Sample>) {
    start <= |t.posted| && Join(t.posted[start..]) + t.pending == transmitted
  }

  lemma FeedFrames(t: Tap, input: seq<Sample>)
    requires Framed(t) && |input| <= FRAME
    ensures Feed(t, input).1 && Framed(Feed(t, input).0)
  { }

  lemma JoinMore(batches: seq<seq<Sample>>, batch: seq<Sample>)
    ensures Join(batches + [batch]) == Join(batches) + batch
  {
    assert (batches + [batch])[..|batches|] == batches;
  }

  lemma Regroup(a: seq<Sample>, b: seq<Sample>, c: seq<Sample>, n: nat)
    requires n <= |b + c|
    ensures a + (b + c)[..n] + (b + c)[n..] == a + b + c
  { }

  /** Posting the first part of the buffered and new samples keeps the order of all of them. */
  lemma PostAccounts(posted: seq<seq<Sample>>, start: nat, pending: seq<Sample>, input: seq<Sample>, n: nat)
    requires start <= |posted| && n <= |pending + input|
    ensures var all := pending + input;
            Join((posted + [all[..n]])[start..]) + all[n..] == Join(posted[start..]) + pending + input
  {
    var all := pending + input;
    assert (posted + [all[..n]])[start..] == posted[start..] + [all[..n]];
    JoinMore(posted[start..], all[..n]);
    Regroup(Join(posted[start..]), pending, input, n);
  }

  lemma FeedAccounts(t: Tap, input: seq<Sample>, start: nat, transmitted: seq<Sample>)
    requires Framed(t) && Accounts(t, start, transmitted) && |input| <= FRAME
    ensures var (u, ok) := Feed(t, input); ok && Framed(u) && Accounts(u, start, transmitted + input)
  {
    FeedFrames(t, input);
    if |t.pending + input| >= FRAME {
      PostAccounts(t.posted, start, t.pending, input, FRAME);
    } else {
      Regroup(Join(t.posted[start..]), t.pending, input, 0);
    }
  }

  /**
   * Fed at most a frame at a time, the tap never fails, posts only whole frames, and loses or reorders
   * nothing in a segment.
   */
  lemma {:induction false} SegmentConserved(events: seq<Event>)
    requires Quanta(events)
    ensures var t := Run(FRESH, events);
            Framed(t) && Accounts(t, SegmentStart(FRESH, events), Transmitted(FRESH, events))
  {
    if events != [] {
      var n := |events| - 1;
      SegmentConserved(events[..n]);
      var before, e := Run(FRESH, events[..n]), events[n];
      if e.Samples? {
        if before.transmitting {
          FeedAccounts(before, e.input, SegmentStart(FRESH, events[..n]), Transmitted(FRESH, events[..n]));
        } else {
          assert before.posted[|before.posted|..] == [];
        }
      }
    }
  }

  lemma FeedFits(t: Tap, input: seq<Sample>)
    requires |t.pending| <= FRAME
    ensures |Feed(t, input).0.pending| <= FRAME
    ensures !Feed(t, input).1 <==> |t.pending| + |input| > 2 * FRAME
  { }

  /** Whatever the tap is fed, what it buffers fits one frame. */
  lemma {:induction false} BufferFits(events: seq<Event>)
    ensures |Run(FRESH, events).pending| <= FRAME
  {
    if events != [] {
      var n := |events| - 1;
      BufferFits(events[..n]);
      if events[n].Samples? { FeedFits(Run(FRESH, events[..n]), events[n].input); }
    }
  }

  /** After any run, a call fails exactly when it transmits more samples than two frames have room for. */
  lemma FailsIff(events: seq<Event>, e: Event)
    ensures var t := Run(FRESH, events);
            !Step(t, e).1 <==> e.Samples? && t.transmitting && |t.pending| + |e.input| > 2 * FRAME
  {
    BufferFits(events);
    if e.Samples? { FeedFits(Run(FRESH, events), e.input); }
  }

  lemma NeverFails(events: seq<Event>, k: nat)
    requires Quanta(events) && k < |events|
    ensures Step(Run(FRESH, events[..k]), events[k]).1
  {
    SegmentConserved(events[..k]);
  }

  /** What was posted stays posted: later events only add batches. */
  lemma {:induction false} PostedGrows(t: Tap, events: seq<Event>, k: nat)
    requires k <= |events|
    ensures Run(t, events[..k]).posted <= Run(t, events).posted
    decreases |events|
  {
    if k == |events| {
      assert events[..k] == events;
    } else {
      var n := |events| - 1;
      PostedGrows(t, events[..n], k);
      assert events[..n][..k] == events[..k];
    }
  }
}
