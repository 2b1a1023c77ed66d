/**
 The drop and gap protocol of the exec feed: the producer drops a frame when the ring is
 full and flags the next one it publishes; the consumer reconstructs the loss from sequence
 numbers and flags. Steps interleave freely, and the consumer may restart with a fresh view.
 */
module FeedGaps {

  datatype Frame = Frame(seqNo: nat, reset: bool)

  // What the consumer's market view keeps of the sequence.
  datatype View = View(lastSeq: nat, haveSeq: bool, frameGaps: nat, feedReset: bool)

  const FRESH_VIEW := View(0, false, 0, false)

  /** A jump in the sequence means that frames were dropped, a step back that the producer restarted. */
  function Updated(v: View, f: Frame): View {
    var expected := v.lastSeq + 1;
    var jump := v.haveSeq && f.seqNo != expected;
    View(f.seqNo, true,
         if jump && f.seqNo > expected then v.frameGaps + (f.seqNo - expected) else v.frameGaps,
         f.reset || jump)
  }

  class MarketView {
    var lastSeq: nat
    var haveSeq: bool
    var frameGaps: nat
    var feedReset: bool

    constructor ()
      ensures Value() == FRESH_VIEW
    {
      lastSeq, haveSeq, frameGaps, feedReset := 0, false, 0, false;
    }

    function Value(): View
      reads this
    {
      View(lastSeq, haveSeq, frameGaps, feedReset)
    }

    method OnUpdate(f: Frame)
      modifies this
      ensures Value() == Updated(old(Value()), f)
    {
      var expected := lastSeq + 1;
      var reset := f.reset;
      if haveSeq && f.seqNo != expected {
        if f.seqNo > expected {
          frameGaps := frameGaps + (f.seqNo - expected);
        }
        reset := true;
      }
      feedReset := reset;
      haveSeq := true;
      lastSeq := f.seqNo;
    }
  }

  // count is feed.count; fate (history) says of each event in turn whether its frame was published;
  // popped and since (history) count the frames consumed ever and before this consumer started.
  datatype System = System(count: nat, pendingReset: bool, pushed: nat, dropped: nat, claimed: bool,
                           ring: seq<Frame>, view: View, fate: seq<bool>, popped: nat, since: nat)

  datatype Action =
    | Event     // an event is applied to the book and a ring slot claimed, or the frame dropped
    | Publish   // the claimed slot is filled and published
    | Consume   // the consumer pops a frame and updates its view
    | Restart   // a new exec generation attaches with a fresh view

  ghost predicate Init(s: System) {
    s == System(0, false, 0, 0, false, [], FRESH_VIEW, [], 0, 0)
  }

  function Step(capacity: nat, s: System, a: Action): System {
    match a
    case Event =>
      if s.claimed then s
      else if |s.ring| < capacity then s.(count := s.count + 1, claimed := true)
      else s.(count := s.count + 1, dropped := s.dropped + 1, pendingReset := true, fate := s.fate + [false])
    case Publish =>
      if !s.claimed then s
      else s.(claimed := false, ring := s.ring + [Frame(s.count, s.pendingReset)], pushed := s.pushed + 1,
              pendingReset := false, fate := s.fate + [true])
    case Consume =>
      if s.ring == [] then s
      else s.(ring := s.ring[1..], view := Updated(s.view, s.ring[0]), popped := s.popped + 1)
    case Restart => s.(view := FRESH_VIEW, since := s.popped)
  }

  function Run(capacity: nat, s: System, actions: seq<Action>): System {
    if actions == [] then s else Step(capacity, Run(capacity, s, actions[..|actions| - 1]), actions[|actions| - 1])
  }

  /** Number of events whose frame was dropped. */
  function Dropped(fate: seq<bool>): nat {
    if fate == [] then 0 else Dropped(fate[..|fate| - 1]) + if fate[|fate| - 1] then 0 else 1
  }

  /** Whether the event numbered n had its frame dropped. */
  predicate Lost(fate: seq<bool>, n: int) {
    1 <= n <= |fate| && !fate[n - 1]
  }

  /** The frames that a fate publishes: one per kept event, flagged just after a lost one. */
  function Published(fate: seq<bool>): seq<Frame> {
    if fate == [] then []
    else
      var n := |fate|;
      Published(fate[..n - 1]) + if fate[n - 1] then [Frame(n, Lost(fate, n - 1))] else []
  }

  /** A view that has consumed the frames in turn. */
  function ViewOf(frames: seq<Frame>): View {
    if frames == [] then FRESH_VIEW else Updated(ViewOf(frames[..|frames| - 1]), frames[|frames| - 1])
  }

  ghost predicate Inv(capacity: nat, s: System) {
    && s.count == |s.fate| + (if s.claimed then 1 else 0)
    && s.dropped == Dropped(s.fate) && s.pushed + s.dropped == |s.fate|
    && s.pendingReset == Lost(s.fate, |s.fate|)
    && |s.ring| + (if s.claimed then 1 else 0) <= capacity
    && s.since <= s.popped <= |Published(s.fate)|
    && s.ring == Published(s.fate)[s.popped..]
    && s.view == ViewOf(Published(s.fate)[s.since..s.popped])
    // The very first frame finds an empty ring.
    && (s.claimed || s.fate != [] || s.popped == 0)
    && (s.fate != [] && capacity > 0 ==> s.fate[0])
  }

  lemma PublishedExtends(fate: seq<bool>, kept: bool)
    ensures Published(fate + [kept])
            == Published(fate) + if kept then [Frame(|fate| + 1, Lost(fate, |fate|))] else []
    ensures Dropped(fate + [kept]) == Dropped(fate) + if kept then 0 else 1
  {
    assert (fate + [kept])[..|fate|] == fate;
  }

  lemma EventKeeps(capacity: nat, s: System)
    requires Inv(capacity, s)
    ensures Inv(capacity, Step(capacity, s, Event))
  {
    hide Published, ViewOf, Dropped;
    PublishedExtends(s.fate, false);
    PublishedNone();
    assert Published(s.fate + [false]) == Published(s.fate);
  }

  lemma PublishedNone()
    ensures Published([]) == []
  {
  }

  lemma PublishKeeps(capacity: nat, s: System)
    requires Inv(capacity, s)
    ensures Inv(capacity, Step(capacity, s, Publish))
  {
    hide Published, ViewOf, Dropped;
    PublishedExtends(s.fate, true);
    var p, q := Published(s.fate), Published(s.fate + [true]);
    assert q[s.popped..] == p[s.popped..] + q[|p|..];
    assert q[s.since..s.popped] == p[s.since..s.popped];
  }

  lemma ConsumeKeeps(capacity: nat, s: System)
    requires Inv(capacity, s)
    ensures Inv(capacity, Step(capacity, s, Consume))
  {
    hide Published, Dropped, Updated;
    var p := Published(s.fate);
    PublishedNone();
    if s.ring != [] {
      assert s.ring[1..] == p[s.popped + 1..];
      var seen := p[s.since..s.popped + 1];
      assert seen[..|seen| - 1] == p[s.since..s.popped] && seen[|seen| - 1] == s.ring[0];
    }
  }

  lemma StepKeeps(capacity: nat, s: System, a: Action)
    requires Inv(capacity, s)
    ensures Inv(capacity, Step(capacity, s, a))
  {
    hide Published, Dropped;
    match a {
      case Event => EventKeeps(capacity, s);
      case Publish => PublishKeeps(capacity, s);
      case Consume => ConsumeKeeps(capacity, s);
      case Restart => assert Published(s.fate)[s.popped..s.popped] == [];
    }
  }

  lemma {:induction false} Reachable(capacity: nat, s: System, actions: seq<Action>)
    requires Init(s)
    ensures Inv(capacity, Run(capacity, s, actions))
  {
    if actions != [] {
      Reachable(capacity, s, actions[..|actions| - 1]);
      StepKeeps(capacity, Run(capacity, s, actions[..|actions| - 1]), actions[|actions| - 1]);
    }
  }

  /** The j-th published frame: a kept event, with j kept ones before it, flagged iff its predecessor was lost. */
  lemma {:induction false} PublishedAt(fate: seq<bool>, j: nat)
    requires j < |Published(fate)|
    ensures var n := Published(fate)[j].seqNo;
            && 1 <= n <= |fate| && fate[n - 1]
            && Dropped(fate[..n]) == n - (j + 1)
            && (Published(fate)[j].reset <==> Lost(fate, n - 1))
  {
    var front := fate[..|fate| - 1];
    PublishedCount(front);
    if j < |Published(front)| {
      PublishedAt(front, j);
      var n := Published(front)[j].seqNo;
      assert front[..n] == fate[..n];
    } else {
      assert fate[..|fate|] == fate;
    }
  }

  lemma {:induction false} PublishedCount(fate: seq<bool>)
    ensures |Published(fate)| + Dropped(fate) == |fate|
  {
    if fate != [] {
      PublishedCount(fate[..|fate| - 1]);
    }
  }

  lemma {:induction false} DroppedBetween(fate: seq<bool>, a: nat, b: nat)
    requires a <= b <= |fate|
    ensures Dropped(fate[..a]) <= Dropped(fate[..b]) <= Dropped(fate[..a]) + (b - a)
    ensures Dropped(fate[..b]) == Dropped(fate[..a]) + (b - a) ==> forall n :: a < n <= b ==> Lost(fate, n)
  {
    if a < b {
      DroppedBetween(fate, a, b - 1);
      assert fate[..b][..b - 1] == fate[..b - 1];
    }
  }

  /** Sequence numbers rise, and every event between two consecutive frames was lost. */
  lemma PublishedNeighbours(fate: seq<bool>, j: nat)
    requires j + 1 < |Published(fate)|
    ensures var p := Published(fate);
            p[j].seqNo < p[j + 1].seqNo && forall n :: p[j].seqNo < n < p[j + 1].seqNo ==> Lost(fate, n)
  {
    var p := Published(fate);
    var m, n := p[j].seqNo, p[j + 1].seqNo;
    PublishedAt(fate, j);
    PublishedAt(fate, j + 1);
    if n <= m {
      DroppedBetween(fate, n, m);
    }
    DroppedBetween(fate, m, n);
    assert fate[..n][..n - 1] == fate[..n - 1];
    DroppedBetween(fate, m, n - 1);
  }

  /** What a consumer of the frames from a up to b has counted, and how it sees the last one. */
  lemma {:induction false} ViewIs(fate: seq<bool>, a: nat, b: nat)
    requires a < b <= |Published(fate)|
    ensures var p, v := Published(fate), ViewOf(Published(fate)[a..b]);
            && v.haveSeq && v.lastSeq == p[b - 1].seqNo
            && v.frameGaps == p[b - 1].seqNo - p[a].seqNo - (b - 1 - a)
            && (v.feedReset <==> Lost(fate, p[b - 1].seqNo - 1))
  {
    var p := Published(fate);
    assert p[a..b][..b - a - 1] == p[a..b - 1];
    PublishedAt(fate, b - 1);
    if a < b - 1 {
      ViewIs(fate, a, b - 1);
      PublishedNeighbours(fate, b - 2);
    } else {
      assert p[a..a] == [];
    }
  }

  /**
   In every interleaving every accepted event is either published or dropped; between steps of
   the producer the two counters add up to the event count.
   */
  lemma NothingUncounted(capacity: nat, s: System, actions: seq<Action>)
    requires Init(s)
    ensures var t := Run(capacity, s, actions);
            && t.pushed + t.dropped + (if t.claimed then 1 else 0) == t.count
            && t.dropped == Dropped(t.fate) && |t.ring| <= capacity
  {
    Reachable(capacity, s, actions);
  }

  /**
   A consumer that has popped a frame has counted exactly the frames lost between the first
   and the last it popped, and feed_reset() holds iff the frame just before the last was lost.
   */
  lemma LossIsExact(capacity: nat, s: System, actions: seq<Action>)
    requires Init(s) && Run(capacity, s, actions).since < Run(capacity, s, actions).popped
    ensures var t := Run(capacity, s, actions);
            var p := Published(t.fate);
            && t.popped <= |p| && p[t.since].seqNo <= t.view.lastSeq == p[t.popped - 1].seqNo <= |t.fate|
            && t.view.frameGaps == Dropped(t.fate[..t.view.lastSeq]) - Dropped(t.fate[..p[t.since].seqNo])
            && (t.view.feedReset <==> Lost(t.fate, t.view.lastSeq - 1))
  {
    hide Published, ViewOf, Dropped, Run, Step;
    Reachable(capacity, s, actions);
    var t := Run(capacity, s, actions);
    ViewIs(t.fate, t.since, t.popped);
    PublishedAt(t.fate, t.since);
    PublishedAt(t.fate, t.popped - 1);
  }

  /** The first consumer misses nothing: its gap count is all that was lost before its last frame. */
  lemma FirstConsumerCountsAll(capacity: nat, s: System, actions: seq<Action>)
    requires Init(s) && capacity > 0
    requires Run(capacity, s, actions).since == 0 < Run(capacity, s, actions).popped
    ensures var t := Run(capacity, s, actions);
            t.view.lastSeq <= |t.fate| && t.view.frameGaps == Dropped(t.fate[..t.view.lastSeq])
  {
    Reachable(capacity, s, actions);
    LossIsExact(capacity, s, actions);
    var t := Run(capacity, s, actions);
    FirstFrame(t.fate);
    assert t.fate[..1] == [true];
  }

  lemma {:induction false} FirstFrame(fate: seq<bool>)
    requires fate != [] && fate[0]
    ensures |Published(fate)| > 0 && Published(fate)[0].seqNo == 1
  {
    if |fate| > 1 {
      FirstFrame(fate[..|fate| - 1]);
    }
  }
}
