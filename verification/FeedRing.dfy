/**
 The feed over the ring itself: the producer's event loop and the consumer's pop as single loads,
 stores and word copies, with index copies that may be stale. Every interleaving is a run of the
 drop and gap protocol, so what that protocol promises holds of the ring.
 */
module FeedRing {
  import opened SpscRing
  import Probing
  import opened Common
  import G = FeedGaps

  // count, pendingReset, pushed and dropped are the producer's own; view is the consumer's.
  // fate and since are history, as in the protocol.
  datatype Feed = Feed(ring: Ring, count: nat, pendingReset: bool, pushed: nat, dropped: nat,
                       view: G.View, fate: seq<bool>, since: nat)

  datatype Event =
    | Begin                          // an event is applied, and try_claim starts
    | LoadReader                     // try_claim loads the reader's index
    | Decide(payload: seq<int>)      // the slot is claimed, or the frame dropped
    | Store                          // one word of the frame is built in the slot
    | Finish                         // publish
    | Pop(a: SpscRing.Action)        // a step of try_pop; its last one hands the frame to the view
    | Sample(a: SpscRing.Action)     // a third party's size()
    | Attach                         // a consumer dies at any point, and a new one starts

  /** A frame as words: sequence number and flag lead, the rest is payload. */
  function Encoded(f: G.Frame, payload: seq<int>): seq<int> {
    [f.seqNo, if f.reset then 1 else 0] + payload
  }

  function Decoded(item: Item): G.Frame {
    if |item| < 2 || item[0] < 0 then G.Frame(0, false) else G.Frame(item[0], item[1] != 0)
  }

  ghost predicate Init(k: Shape, s: Feed) {
    SpscRing.Init(k, s.ring) && s == Feed(s.ring, 0, false, 0, 0, G.FRESH_VIEW, [], 0)
  }

  /** One atomic step; a step that is not enabled does nothing. */
  function Step(k: Shape, s: Feed, e: Event): Feed
    requires k.Valid()
  {
    match e
    case Begin => if s.ring.p.PIdle? then On(k, s, LoadTail).(count := s.count + 1) else s
    case LoadReader => On(k, s, LoadHead)
    case Decide(payload) =>
      var t := On(k, s, Claim(Encoded(G.Frame(s.count, s.pendingReset), payload)));
      if s.ring.p.PBoth? && t.ring.p.PIdle?
      then t.(dropped := s.dropped + 1, pendingReset := true, fate := s.fate + [false]) else t
    case Store => On(k, s, StoreWord)
    case Finish =>
      var t := On(k, s, Publish);
      if s.ring.p.PWriting? && t.ring.p.PIdle?
      then t.(pushed := s.pushed + 1, pendingReset := false, fate := s.fate + [true]) else t
    case Pop(a) =>
      if !ByConsumer(a) then s
      else
        var t := On(k, s, a);
        if |t.ring.popped| == |s.ring.popped| then t
        else t.(view := G.Updated(s.view, Decoded(t.ring.popped[|t.ring.popped| - 1])))
    case Sample(a) => if ByProducer(a) || ByConsumer(a) then s else On(k, s, a)
    case Attach => s.(ring := s.ring.(c := CIdle), view := G.FRESH_VIEW, since := |s.ring.popped|)
  }

  function On(k: Shape, s: Feed, a: SpscRing.Action): Feed
    requires k.Valid()
  {
    s.(ring := SpscRing.Step(k, s.ring, a))
  }

  function Run(k: Shape, s: Feed, events: seq<Event>): Feed
    requires k.Valid()
  {
    if events == [] then s else Step(k, Run(k, s, events[..|events| - 1]), events[|events| - 1])
  }

  // The protocol's state.

  function Frames(items: seq<Item>): (f: seq<G.Frame>)
    ensures |f| == |items|
  {
    seq(|items|, i requires 0 <= i < |items| => Decoded(items[i]))
  }

  /** The producer has read an index that shows no free slot, so that it will drop its frame. */
  predicate Doomed(k: Shape, p: Producer, pushed: nat) {
    p.PBoth? && pushed - p.at == k.capacity
  }

  /**
   The load of the reader's index is where an event takes effect: the claim decides by that copy,
   whatever the consumer has popped since.
   */
  function Abstract(k: Shape, s: Feed): G.System
    requires |s.ring.popped| <= |s.ring.pushed|
  {
    var doomed := Doomed(k, s.ring.p, |s.ring.pushed|);
    G.System(if s.ring.p.PTail? && s.count > 0 then s.count - 1 else s.count,
             s.pendingReset || doomed, s.pushed, if doomed then s.dropped + 1 else s.dropped,
             s.ring.p.PWriting? || (s.ring.p.PBoth? && !doomed),
             Frames(s.ring.pushed[|s.ring.popped|..]), s.view,
             if doomed then s.fate + [false] else s.fate, |s.ring.popped|, s.since)
  }

  /** The protocol's step that a step of the ring amounts to, if any. */
  function Projected(k: Shape, s: Feed, e: Event): seq<G.Action> {
    match e
    case LoadReader => if s.ring.p.PTail? then [G.Event] else []
    case Finish => if s.ring.p.PWriting? && s.ring.p.done >= |s.ring.p.item| then [G.Publish] else []
    case Pop(a) => if a.Advance? && s.ring.c.CCopying? && |s.ring.c.got| >= k.width then [G.Consume] else []
    case Attach => [G.Restart]
    case _ => []
  }

  function Projection(k: Shape, s: Feed, events: seq<Event>): seq<G.Action>
    requires k.Valid()
  {
    if events == [] then []
    else
      var n := |events| - 1;
      Projection(k, s, events[..n]) + Projected(k, Run(k, s, events[..n]), events[n])
  }

  ghost predicate Inv(k: Shape, s: Feed)
    requires k.Valid()
  {
    && SpscRing.Inv(k, s.ring) && s.pushed == |s.ring.pushed|
    && (s.ring.p.PTail? ==> s.count > 0)
    && (s.ring.p.PWriting? ==> Decoded(s.ring.p.item) == G.Frame(s.count, s.pendingReset))
  }

  lemma RingStep(k: Shape, s: Ring, a: SpscRing.Action)
    requires k.Valid() && SpscRing.Inv(k, s)
    ensures SpscRing.Inv(k, SpscRing.Step(k, s, a))
  {
    hide SpscRing.Inv, SpscRing.Step;
    if ByProducer(a) {
      ProducerStep(k, s, a);
    } else if ByConsumer(a) {
      ConsumerStep(k, s, a);
    } else {
      ObserverStep(k, s, a);
    }
  }

  lemma Bounded(k: Shape, s: Feed)
    requires k.Valid() && Inv(k, s)
    ensures |s.ring.popped| <= |s.ring.pushed|
  {
  }

  lemma DecodedEncoded(f: G.Frame, payload: seq<int>)
    ensures Decoded(Encoded(f, payload)) == f
  {
  }

  lemma FramesGrow(items: seq<Item>, n: nat, item: Item)
    requires n <= |items|
    ensures Frames((items + [item])[n..]) == Frames(items[n..]) + [Decoded(item)]
  {
    assert (items + [item])[n..] == items[n..] + [item];
  }

  lemma StepKeeps(k: Shape, s: Feed, e: Event)
    requires k.Valid() && Inv(k, s)
    ensures Inv(k, Step(k, s, e))
  {
    hide SpscRing.Inv, Probing.Mask, U32, Encoded, G.Updated;
    match e {
      case Begin => RingStep(k, s.ring, LoadTail);
      case LoadReader => RingStep(k, s.ring, LoadHead);
      case Decide(payload) =>
        DecodedEncoded(G.Frame(s.count, s.pendingReset), payload);
        RingStep(k, s.ring, Claim(Encoded(G.Frame(s.count, s.pendingReset), payload)));
      case Store => RingStep(k, s.ring, StoreWord);
      case Finish => RingStep(k, s.ring, Publish);
      case Pop(a) => RingStep(k, s.ring, a);
      case Sample(a) => RingStep(k, s.ring, a);
      case Attach => AttachKeeps(k, s);
    }
  }

  lemma AttachKeeps(k: Shape, s: Feed)
    requires k.Valid() && Inv(k, s)
    ensures Inv(k, Step(k, s, Attach))
  {
    hide Probing.Mask, U32, Decoded, G.Updated;
  }

  /** The step of the feed and the protocol's step that it amounts to agree. */
  ghost predicate Simulated(k: Shape, s: Feed, e: Event)
    requires k.Valid() && Inv(k, s)
  {
    var t := Step(k, s, e);
    && |s.ring.popped| <= |s.ring.pushed| && |t.ring.popped| <= |t.ring.pushed|
    && Abstract(k, t) == Taken(k, Abstract(k, s), Projected(k, s, e))
  }

  /** The protocol after at most one step. */
  function Taken(k: Shape, g: G.System, acts: seq<G.Action>): G.System {
    if acts == [] then g else G.Step(k.capacity, g, acts[0])
  }

  /** A stale copy of the reader's index decides as it would have at the load. */
  lemma LoadSimulated(k: Shape, s: Feed)
    requires k.Valid() && Inv(k, s) && s.ring.p.PTail?
    ensures Simulated(k, s, LoadReader)
  {
    hide Stored, ConsumerOk, ObserverOk, G.Updated;
  }

  lemma DecideSimulated(k: Shape, s: Feed, payload: seq<int>)
    requires k.Valid() && Inv(k, s) && s.ring.p.PBoth?
    ensures Simulated(k, s, Decide(payload))
  {
    hide Stored, ConsumerOk, ObserverOk, Encoded, G.Updated;
    ClaimDecides(k, s.ring);
  }

  lemma FinishSimulated(k: Shape, s: Feed)
    requires k.Valid() && Inv(k, s) && s.ring.p.PWriting? && s.ring.p.done >= |s.ring.p.item|
    ensures Simulated(k, s, Finish)
  {
    hide Stored, ConsumerOk, ObserverOk, Frames, Decoded, G.Updated;
    FramesGrow(s.ring.pushed, |s.ring.popped|, s.ring.p.item);
  }

  /** The words copied are those of the oldest frame, so the view takes the frame that was pushed. */
  lemma AdvanceSimulated(k: Shape, s: Feed)
    requires k.Valid() && Inv(k, s) && s.ring.c.CCopying? && |s.ring.c.got| >= k.width
    ensures Simulated(k, s, Pop(Advance))
  {
    hide Stored, ProducerOk, ObserverOk, Decoded, G.Updated;
    var r := s.ring;
    assert r.c.got == r.pushed[|r.popped|];
    assert Frames(r.pushed[|r.popped|..])[1..] == Frames(r.pushed[|r.popped| + 1..]);
  }

  lemma StepSimulated(k: Shape, s: Feed, e: Event)
    requires k.Valid() && Inv(k, s)
    ensures Simulated(k, s, e)
  {
    hide Stored, Probing.Mask, Frames, Decoded, G.Updated, G.Step, Simulated;
    Bounded(k, s);
    if e.LoadReader? && s.ring.p.PTail? {
      LoadSimulated(k, s);
    } else if e.Decide? && s.ring.p.PBoth? {
      DecideSimulated(k, s, e.payload);
    } else if e.Finish? && s.ring.p.PWriting? && s.ring.p.done >= |s.ring.p.item| {
      FinishSimulated(k, s);
    } else if e == Pop(Advance) && s.ring.c.CCopying? && |s.ring.c.got| >= k.width {
      AdvanceSimulated(k, s);
    } else if e.Pop? {
      PopSimulated(k, s, e.a);
    } else {
      QuietSimulated(k, s, e);
    }
  }

  /** The consumer's steps before the last are its own. */
  lemma PopSimulated(k: Shape, s: Feed, a: SpscRing.Action)
    requires k.Valid() && Inv(k, s) && Projected(k, s, Pop(a)) == []
    ensures Simulated(k, s, Pop(a))
  {
    hide SpscRing.Inv, Frames, Decoded, G.Updated, Probing.Mask, U32;
    Bounded(k, s);
  }

  /** Every other step but the attaching leaves the protocol where it is. */
  lemma QuietSimulated(k: Shape, s: Feed, e: Event)
    requires k.Valid() && Inv(k, s)
    requires Projected(k, s, e) == [] || e.Attach?
    requires !(e.Decide? && s.ring.p.PBoth?) && !e.Pop?
    ensures Simulated(k, s, e)
  {
    hide Stored, ConsumerOk, ObserverOk, ProducerOk, Frames, Decoded, Encoded, G.Updated, Probing.Mask, U32;
  }

  /**
   The ring carries the protocol: every interleaving of loads, stores and word copies, with
   consumers that die and attach at any point, is a run of the protocol.
   */
  lemma {:induction false} RunProjects(k: Shape, s: Feed, events: seq<Event>)
    requires k.Valid() && Init(k, s)
    ensures var t := Run(k, s, events);
            && Inv(k, t) && |s.ring.popped| <= |s.ring.pushed| && |t.ring.popped| <= |t.ring.pushed|
            && G.Init(Abstract(k, s))
            && Abstract(k, t) == G.Run(k.capacity, Abstract(k, s), Projection(k, s, events))
  {
    hide G.Step, Step, Projected, Abstract, G.Run, SpscRing.Inv, Init, G.Init;
    if events == [] {
      Starts(k, s);
    } else {
      var n := |events| - 1;
      var t := Run(k, s, events[..n]);
      RunProjects(k, s, events[..n]);
      StepKeeps(k, t, events[n]);
      StepSimulated(k, t, events[n]);
      FeedRuns(k, s, events);
      ProtocolRuns(k, Abstract(k, s), Projection(k, s, events[..n]), Projected(k, t, events[n]));
    }
  }

  lemma ProtocolRuns(k: Shape, g: G.System, front: seq<G.Action>, last: seq<G.Action>)
    requires |last| <= 1
    ensures G.Run(k.capacity, g, front + last) == Taken(k, G.Run(k.capacity, g, front), last)
  {
    hide G.Step;
    if last == [] {
      assert front + last == front;
    } else {
      assert (front + last)[..|front|] == front;
    }
  }

  lemma FeedRuns(k: Shape, s: Feed, events: seq<Event>)
    requires k.Valid() && events != []
    ensures var n := |events| - 1;
            var t := Run(k, s, events[..n]);
            && Run(k, s, events) == Step(k, t, events[n]) && |Projected(k, t, events[n])| <= 1
            && Projection(k, s, events) == Projection(k, s, events[..n]) + Projected(k, t, events[n])
  {
    hide Step;
  }

  lemma Starts(k: Shape, s: Feed)
    requires k.Valid() && Init(k, s)
    ensures Inv(k, s) && |s.ring.popped| <= |s.ring.pushed| && G.Init(Abstract(k, s))
    ensures Run(k, s, []) == s && G.Run(k.capacity, Abstract(k, s), Projection(k, s, [])) == Abstract(k, s)
  {
  }

  /** What the protocol's history says of the feed's own. */
  lemma Histories(k: Shape, s: Feed)
    requires k.Valid() && |s.ring.popped| <= |s.ring.pushed|
    ensures var g := Abstract(k, s);
            && G.Published(g.fate) == G.Published(s.fate) && |s.fate| <= |g.fate| && g.fate[..|s.fate|] == s.fate
            && g.dropped - G.Dropped(g.fate) == s.dropped - G.Dropped(s.fate)
  {
    hide G.Published, G.Dropped;
    G.PublishedExtends(s.fate, false);
    assert G.Published(s.fate) + [] == G.Published(s.fate);
  }

  lemma InHand(k: Shape, s: Feed)
    requires k.Valid() && Inv(k, s) && |s.ring.popped| <= |s.ring.pushed|
    ensures var g := Abstract(k, s);
            g.count - g.pushed - g.dropped - (if g.claimed then 1 else 0)
            == s.count - s.pushed - s.dropped - (if s.ring.p.PIdle? then 0 else 1)
  {
    hide SpscRing.Inv, Frames;
  }

  /**
   In every interleaving frames pushed and dropped and the one event the producer may have in hand
   add up to the events applied.
   */
  lemma FeedCounts(k: Shape, s: Feed, events: seq<Event>)
    requires k.Valid() && Init(k, s)
    ensures var t := Run(k, s, events);
            && t.pushed + t.dropped + (if t.ring.p.PIdle? then 0 else 1) == t.count
            && t.pushed == |t.ring.pushed| && t.dropped == G.Dropped(t.fate)
  {
    hide Run, Step, Projection, Abstract, SpscRing.Inv, G.Run, G.Dropped, G.Init, Init;
    RunProjects(k, s, events);
    var t := Run(k, s, events);
    Histories(k, t);
    InHand(k, t);
    G.NothingUncounted(k.capacity, Abstract(k, s), Projection(k, s, events));
  }

  /**
   What a consumer of the ring has counted: exactly the frames lost between the first and the last
   it popped, and feed_reset() holds iff the frame just before the last was lost.
   */
  lemma FeedLossIsExact(k: Shape, s: Feed, events: seq<Event>)
    requires k.Valid() && Init(k, s) && Run(k, s, events).since < |Run(k, s, events).ring.popped|
    ensures var t := Run(k, s, events);
            var p := G.Published(t.fate);
            && |t.ring.popped| <= |p| && p[t.since].seqNo <= t.view.lastSeq == p[|t.ring.popped| - 1].seqNo <= |t.fate|
            && t.view.frameGaps == G.Dropped(t.fate[..t.view.lastSeq]) - G.Dropped(t.fate[..p[t.since].seqNo])
            && (t.view.feedReset <==> G.Lost(t.fate, t.view.lastSeq - 1))
  {
    hide Run, Step, Projection, Abstract, Inv, G.Run, G.Dropped, G.Published, G.Init, Init;
    RunProjects(k, s, events);
    var t := Run(k, s, events);
    var g := Abstract(k, t);
    Histories(k, t);
    Consumed(k, t);
    G.LossIsExact(k.capacity, Abstract(k, s), Projection(k, s, events));
    G.PublishedAt(t.fate, t.since);
    G.PublishedAt(t.fate, |t.ring.popped| - 1);
    var n, m := t.view.lastSeq, G.Published(t.fate)[t.since].seqNo;
    assert g.fate[..n] == t.fate[..n] && g.fate[..m] == t.fate[..m];
  }

  /** The first consumer misses nothing: its gap count is all that was lost before its last frame. */
  lemma FeedFirstCountsAll(k: Shape, s: Feed, events: seq<Event>)
    requires k.Valid() && Init(k, s)
    requires Run(k, s, events).since == 0 < |Run(k, s, events).ring.popped|
    ensures var t := Run(k, s, events);
            t.view.lastSeq <= |t.fate| && t.view.frameGaps == G.Dropped(t.fate[..t.view.lastSeq])
  {
    hide Run, Step, Projection, Abstract, Inv, G.Run, G.Dropped, G.Published, G.Init, Init;
    RunProjects(k, s, events);
    var t := Run(k, s, events);
    var g := Abstract(k, t);
    Histories(k, t);
    Consumed(k, t);
    FeedLossIsExact(k, s, events);
    G.FirstConsumerCountsAll(k.capacity, Abstract(k, s), Projection(k, s, events));
    assert g.fate[..t.view.lastSeq] == t.fate[..t.view.lastSeq];
  }

  lemma Consumed(k: Shape, s: Feed)
    requires |s.ring.popped| <= |s.ring.pushed|
    ensures var g := Abstract(k, s); g.popped == |s.ring.popped| && g.since == s.since && g.view == s.view
  {
  }
}
