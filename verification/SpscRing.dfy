/**
 The single-producer single-consumer ring as interleaved atomic steps. Each side loads
 the two indices one after the other and acts on copies that may be stale by then;
 payloads are written and copied word by word; a third party may sample the size.
 The fields pushed, popped and the `at` copies are history: no step reads them to decide.
 */
module SpscRing {
  import opened Common
  import opened Probing

  type Item = seq<int>

  datatype Producer =
    | PIdle
    | PTail(w: nat)                               // write_idx loaded
    | PBoth(w: nat, r: nat, at: nat)              // read_idx loaded too, when `at` items had been popped
    | PWriting(w: nat, item: Item, done: nat)     // slot claimed, `done` words stored

  datatype Consumer =
    | CIdle
    | CHead(r: nat)                               // read_idx loaded
    | CBoth(r: nat, w: nat, at: nat)              // write_idx loaded too, when `at` items had been pushed
    | CCopying(r: nat, got: Item)                 // ring seen non-empty, words copied so far

  datatype Observer =
    | OIdle
    | OHead(h: nat, at: nat)                      // head sampled, when `at` items had been popped
    | OSize(size: nat, h: nat, at: nat, popped: nat, pushed: nat)

  datatype Ring = Ring(head: nat, tail: nat, slots: seq<Item>, p: Producer, c: Consumer, o: Observer,
                       pushed: seq<Item>, popped: seq<Item>)

  datatype Action =
    | LoadTail | LoadHead | Claim(item: Item) | StoreWord | Publish | Abandon
    | PopLoadHead | PopLoadTail | PopTest | CopyWord | Advance
    | SampleHead | SampleTail

  // Capacity is a power of two of at most 31 bits: it divides 2^32. Items have `width` words.
  datatype Shape = Shape(capacity: nat, laps: nat, width: nat) {
    predicate Valid() {
      0 < capacity < WORD32 && laps * capacity == WORD32
    }
  }

  ghost predicate Init(k: Shape, s: Ring) {
    && s.head == 0 && s.tail == 0 && |s.slots| == k.capacity
    && (forall i :: 0 <= i < |s.slots| ==> |s.slots[i]| == k.width)
    && s.p == PIdle && s.c == CIdle && s.o == OIdle && s.pushed == [] && s.popped == []
  }

  /** One atomic step; a step that is not enabled does nothing. */
  function Step(k: Shape, s: Ring, a: Action): Ring
    requires k.Valid()
  {
    match a
    // try_claim
    case LoadTail => if s.p.PIdle? then s.(p := PTail(s.tail)) else s
    case LoadHead => if s.p.PTail? then s.(p := PBoth(s.p.w, s.head, |s.popped|)) else s
    case Claim(item) =>
      if !s.p.PBoth? || |item| != k.width then s
      else if U32(s.p.w - s.p.r) == k.capacity then s.(p := PIdle)
      else s.(p := PWriting(s.p.w, item, 0))
    case StoreWord =>
      if !s.p.PWriting? || s.p.done >= |s.p.item| then s
      else
        var i := Mask(s.p.w, k.capacity);
        if i >= |s.slots| || s.p.done >= |s.slots[i]| then s
        else s.(slots := s.slots[i := s.slots[i][s.p.done := s.p.item[s.p.done]]], p := s.p.(done := s.p.done + 1))
    case Publish =>
      if !s.p.PWriting? || s.p.done < |s.p.item| then s
      else s.(tail := U32(s.tail + 1), p := PIdle, pushed := s.pushed + [s.p.item])
    // A claim may be repeated without publishing.
    case Abandon => if s.p.PWriting? then s.(p := PIdle) else s
    // try_pop
    case PopLoadHead => if s.c.CIdle? then s.(c := CHead(s.head)) else s
    case PopLoadTail => if s.c.CHead? then s.(c := CBoth(s.c.r, s.tail, |s.pushed|)) else s
    case PopTest =>
      if !s.c.CBoth? then s
      else if s.c.w == s.c.r then s.(c := CIdle)
      else s.(c := CCopying(s.c.r, []))
    case CopyWord =>
      if !s.c.CCopying? || |s.c.got| >= k.width then s
      else
        var i := Mask(s.c.r, k.capacity);
        if i >= |s.slots| || |s.c.got| >= |s.slots[i]| then s
        else s.(c := CCopying(s.c.r, s.c.got + [s.slots[i][|s.c.got|]]))
    case Advance =>
      if !s.c.CCopying? || |s.c.got| < k.width then s
      else s.(head := U32(s.c.r + 1), c := CIdle, popped := s.popped + [s.c.got])
    // size() from a third party
    case SampleHead => s.(o := OHead(s.head, |s.popped|))
    case SampleTail =>
      if !s.o.OHead? then s
      else s.(o := OSize(U32(s.tail - s.o.h), s.o.h, s.o.at, |s.popped|, |s.pushed|))
  }

  function Run(k: Shape, s: Ring, actions: seq<Action>): Ring
    requires k.Valid()
  {
    if actions == [] then s else Step(k, Run(k, s, actions[..|actions| - 1]), actions[|actions| - 1])
  }

  ghost predicate Indices(k: Shape, s: Ring) {
    && s.head == U32(|s.popped|) && s.tail == U32(|s.pushed|)
    && |s.popped| <= |s.pushed| <= |s.popped| + k.capacity
    && s.popped == s.pushed[..|s.popped|]
  }

  /** The slots of the items in flight hold them. */
  ghost predicate Stored(k: Shape, s: Ring)
    requires k.Valid()
  {
    && |s.slots| == k.capacity && (forall i :: 0 <= i < |s.slots| ==> |s.slots[i]| == k.width)
    && forall j {:trigger s.pushed[j]} :: |s.popped| <= j < |s.pushed| ==> s.slots[Mask(j, k.capacity)] == s.pushed[j]
  }

  ghost predicate ProducerOk(k: Shape, s: Ring)
    requires k.Valid()
  {
    match s.p
    case PIdle => true
    case PTail(w) => w == s.tail
    case PBoth(w, r, at) => w == s.tail && r == U32(at) && at <= |s.popped| && at <= |s.pushed| <= at + k.capacity
    case PWriting(w, item, done) =>
      && w == s.tail && |s.pushed| < |s.popped| + k.capacity && |item| == k.width && done <= k.width
      && var i := Mask(|s.pushed|, k.capacity);
         i < |s.slots| && done <= |s.slots[i]| && s.slots[i][..done] == item[..done]
  }

  ghost predicate ConsumerOk(k: Shape, s: Ring) {
    match s.c
    case CIdle => true
    case CHead(r) => r == s.head
    case CBoth(r, w, at) =>
      r == s.head && w == U32(at) && |s.popped| <= at <= |s.pushed| && at <= |s.popped| + k.capacity
    case CCopying(r, got) =>
      && r == s.head && |s.popped| < |s.pushed| && |got| <= k.width
      && |s.pushed[|s.popped|]| == k.width && got == s.pushed[|s.popped|][..|got|]
  }

  ghost predicate ObserverOk(s: Ring) {
    match s.o
    case OIdle => true
    case OHead(h, at) => h == U32(at) && at <= |s.popped|
    case OSize(size, h, at, popped, pushed) =>
      size == U32(pushed - at) && at <= popped <= pushed && popped <= |s.popped| && pushed <= |s.pushed|
  }

  ghost predicate Inv(k: Shape, s: Ring)
    requires k.Valid()
  {
    && Indices(k, s) && Stored(k, s) && ProducerOk(k, s) && ConsumerOk(k, s) && ObserverOk(s)
    && forall j {:trigger s.pushed[j]} :: 0 <= j < |s.pushed| ==> |s.pushed[j]| == k.width
  }

  /** A wrapped index and the unbounded one it stands for have the same slot. */
  lemma WrappedSlot(k: Shape, n: nat)
    requires k.Valid()
    ensures Mask(U32(n), k.capacity) == Mask(n, k.capacity)
  {
    var q := n / WORD32;
    assert n == U32(n) + q * WORD32;
    assert q * WORD32 == (q * k.laps) * k.capacity;
    MaskMultiple(U32(n), q * k.laps, k.capacity);
  }

  /** Differences of wrapped indices are exact while the true difference fits. */
  lemma WrappedDifference(a: nat, b: nat)
    requires a <= b < a + WORD32
    ensures U32(U32(b) - U32(a)) == b - a
    ensures U32(a) == U32(b) ==> a == b
  {
  }

  /** The slot being written is never the slot being copied. */
  lemma WriterAndReaderApart(k: Shape, s: Ring)
    requires k.Valid() && Inv(k, s) && s.p.PWriting? && s.c.CCopying?
    ensures Mask(s.p.w, k.capacity) != Mask(s.c.r, k.capacity)
  {
    WrappedSlot(k, |s.pushed|);
    WrappedSlot(k, |s.popped|);
    MaskDistinct(|s.popped|, |s.pushed|, k.capacity);
  }

  predicate ByProducer(a: Action) {
    a.LoadTail? || a.LoadHead? || a.Claim? || a.StoreWord? || a.Publish? || a.Abandon?
  }

  predicate ByConsumer(a: Action) {
    a.PopLoadHead? || a.PopLoadTail? || a.PopTest? || a.CopyWord? || a.Advance?
  }

  /** A stale head makes the ring look fuller than it is, never emptier. */
  lemma ClaimDecides(k: Shape, s: Ring)
    requires k.Valid() && Inv(k, s) && s.p.PBoth?
    ensures U32(s.p.w - s.p.r) == k.capacity <==> |s.pushed| - s.p.at == k.capacity
    ensures U32(s.p.w - s.p.r) != k.capacity ==> |s.pushed| < |s.popped| + k.capacity
  {
    WrappedDifference(s.p.at, |s.pushed|);
  }

  /** A stale tail makes the ring look emptier than it is, never fuller. */
  lemma PopDecides(k: Shape, s: Ring)
    requires k.Valid() && Inv(k, s) && s.c.CBoth?
    ensures s.c.w == s.c.r <==> s.c.at == |s.popped|
    ensures s.c.w != s.c.r ==> |s.popped| < |s.pushed|
  {
    WrappedDifference(|s.popped|, s.c.at);
  }

  lemma StoreKeepsStored(k: Shape, s: Ring)
    requires k.Valid() && Inv(k, s) && s.p.PWriting? && s.p.done < |s.p.item|
    ensures Stored(k, Step(k, s, StoreWord)) && ProducerOk(k, Step(k, s, StoreWord))
  {
    WrappedSlot(k, |s.pushed|);
    forall j | |s.popped| <= j < |s.pushed|
      ensures Mask(j, k.capacity) != Mask(|s.pushed|, k.capacity)
    {
      MaskDistinct(j, |s.pushed|, k.capacity);
    }
  }

  lemma WrapNext(n: nat)
    ensures U32(U32(n) + 1) == U32(n + 1)
  {
  }

  lemma PublishKeeps(k: Shape, s: Ring)
    requires k.Valid() && Inv(k, s) && s.p.PWriting? && s.p.done >= |s.p.item|
    ensures Inv(k, Step(k, s, Publish))
  {
    hide Mask, U32, Stored, Indices;
    PublishKeepsStored(k, s);
  }

  lemma PublishKeepsStored(k: Shape, s: Ring)
    requires k.Valid() && Inv(k, s) && s.p.PWriting? && s.p.done >= |s.p.item|
    ensures Stored(k, Step(k, s, Publish)) && Indices(k, Step(k, s, Publish))
  {
    hide Mask, U32, ConsumerOk, ObserverOk;
    WrapNext(|s.pushed|);
    var i := Mask(|s.pushed|, k.capacity);
    assert s.slots[i] == s.p.item by {
      assert s.slots[i][..k.width] == s.slots[i] && s.p.item[..k.width] == s.p.item;
    }
    var t := Step(k, s, Publish);
    assert t.pushed[..|s.popped|] == s.pushed[..|s.popped|];
    forall j | |t.popped| <= j < |t.pushed|
      ensures t.slots[Mask(j, k.capacity)] == t.pushed[j]
    {
      assert j < |s.pushed| ==> t.pushed[j] == s.pushed[j];
    }
  }

  lemma ProducerStep(k: Shape, s: Ring, a: Action)
    requires k.Valid() && Inv(k, s) && ByProducer(a)
    ensures Inv(k, Step(k, s, a))
  {
    hide Mask, U32;
    if a.Claim? && s.p.PBoth? {
      ClaimDecides(k, s);
    } else if a.StoreWord? && s.p.PWriting? && s.p.done < |s.p.item| {
      StoreKeepsStored(k, s);
    } else if a.Publish? && s.p.PWriting? && s.p.done >= |s.p.item| {
      PublishKeeps(k, s);
    }
  }

  lemma CopyKeeps(k: Shape, s: Ring)
    requires k.Valid() && Inv(k, s) && s.c.CCopying? && |s.c.got| < k.width
    ensures ConsumerOk(k, Step(k, s, CopyWord))
  {
    WrappedSlot(k, |s.popped|);
    var n, item := |s.c.got|, s.pushed[|s.popped|];
    assert s.slots[Mask(|s.popped|, k.capacity)] == item;
    assert item[..n + 1] == item[..n] + [item[n]];
  }

  lemma AdvanceKeeps(k: Shape, s: Ring)
    requires k.Valid() && Inv(k, s) && s.c.CCopying? && |s.c.got| >= k.width
    ensures Inv(k, Step(k, s, Advance))
  {
    hide Mask, U32;
    WrapNext(|s.popped|);
    var item := s.pushed[|s.popped|];
    assert item[..k.width] == item;
    assert s.pushed[..|s.popped| + 1] == s.pushed[..|s.popped|] + [item];
  }

  lemma ConsumerStep(k: Shape, s: Ring, a: Action)
    requires k.Valid() && Inv(k, s) && ByConsumer(a)
    ensures Inv(k, Step(k, s, a))
  {
    hide Mask, U32;
    if a.PopTest? && s.c.CBoth? {
      PopDecides(k, s);
    } else if a.CopyWord? && s.c.CCopying? && |s.c.got| < k.width {
      CopyKeeps(k, s);
    } else if a.Advance? && s.c.CCopying? && |s.c.got| >= k.width {
      AdvanceKeeps(k, s);
    }
  }

  lemma {:induction false} Reachable(k: Shape, s: Ring, actions: seq<Action>)
    requires k.Valid() && Init(k, s)
    ensures Inv(k, Run(k, s, actions))
  {
    if actions != [] {
      var front, a := actions[..|actions| - 1], actions[|actions| - 1];
      Reachable(k, s, front);
      var t := Run(k, s, front);
      if ByProducer(a) {
        ProducerStep(k, t, a);
      } else if ByConsumer(a) {
        ConsumerStep(k, t, a);
      } else {
        ObserverStep(k, t, a);
      }
    }
  }

  lemma ObserverStep(k: Shape, s: Ring, a: Action)
    requires k.Valid() && Inv(k, s) && !ByProducer(a) && !ByConsumer(a)
    ensures Inv(k, Step(k, s, a))
  {
    hide Mask, U32;
    if a.SampleTail? && s.o.OHead? {
      WrapDifference(|s.pushed|, s.o.at);
    }
  }

  lemma WrapDifference(a: nat, b: nat)
    ensures U32(U32(a) - U32(b)) == U32(a - b)
  {
  }

  /**
   In every interleaving the popped items are a prefix of the pushed ones, whole and in
   order, the indices' difference is the occupancy, and it never exceeds the capacity.
   */
  lemma Fifo(k: Shape, s: Ring, actions: seq<Action>)
    requires k.Valid() && Init(k, s)
    ensures var t := Run(k, s, actions);
            && t.popped <= t.pushed
            && U32(t.tail - t.head) == |t.pushed| - |t.popped| <= k.capacity
  {
    Reachable(k, s, actions);
    var t := Run(k, s, actions);
    WrappedDifference(|t.popped|, |t.pushed|);
  }

  lemma NeverSameSlot(k: Shape, s: Ring, actions: seq<Action>)
    requires k.Valid() && Init(k, s)
    ensures var t := Run(k, s, actions);
            t.p.PWriting? && t.c.CCopying? ==> Mask(t.p.w, k.capacity) != Mask(t.c.r, k.capacity)
  {
    Reachable(k, s, actions);
    var t := Run(k, s, actions);
    if t.p.PWriting? && t.c.CCopying? {
      WriterAndReaderApart(k, t);
    }
  }

  /**
   The sampled size counts the items pushed by the second read and not popped by the first,
   so it never under-reports the occupancy at the second read - exactly until 2^32 items
   pass between the two reads.
   */
  lemma SizeNeverUnderReports(k: Shape, s: Ring, actions: seq<Action>)
    requires k.Valid() && Init(k, s) && Run(k, s, actions).o.OSize?
    ensures var o := Run(k, s, actions).o;
            && (o.size == o.pushed - o.at <==> o.pushed - o.at < WORD32)
            && (o.pushed - o.at < WORD32 ==> o.size >= o.pushed - o.popped)
  {
    hide Step, Stored, Indices, ProducerOk, ConsumerOk, Run;
    Reachable(k, s, actions);
  }

  // The wrap.

  lemma RunThen(k: Shape, s: Ring, done: seq<Action>, a: Action)
    requires k.Valid()
    ensures Run(k, s, done + [a]) == Step(k, Run(k, s, done), a)
  {
    assert (done + [a])[..|done|] == done;
  }

  /** Both sides at rest, n items pushed and m popped since a third party sampled the head of an empty ring. */
  ghost predicate AtRest(k: Shape, s: Ring, n: nat, m: nat) {
    && k.Valid() && Inv(k, s) && s.p == PIdle && s.c == CIdle && s.o == OHead(0, 0)
    && |s.pushed| == n && |s.popped| == m
  }

  lemma PushOne(k: Shape, s: Ring, done: seq<Action>, n: nat, m: nat) returns (more: seq<Action>)
    requires k.Valid() && Init(k, s) && k.width == 1 && AtRest(k, Run(k, s, done), n, m) && n < m + k.capacity
    ensures AtRest(k, Run(k, s, more), n + 1, m)
  {
    hide Run, Mask, U32, Inv, Init;
    var acts := [LoadTail, LoadHead, Claim([0]), StoreWord, Publish];
    RunThen(k, s, done, acts[0]);
    RunThen(k, s, done + [acts[0]], acts[1]);
    Reachable(k, s, done + [acts[0]] + [acts[1]]);
    ClaimDecides(k, Run(k, s, done + [acts[0]] + [acts[1]]));
    RunThen(k, s, done + [acts[0]] + [acts[1]], acts[2]);
    Reachable(k, s, done + [acts[0]] + [acts[1]] + [acts[2]]);
    Writable(k, Run(k, s, done + [acts[0]] + [acts[1]] + [acts[2]]));
    RunThen(k, s, done + [acts[0]] + [acts[1]] + [acts[2]], acts[3]);
    RunThen(k, s, done + [acts[0]] + [acts[1]] + [acts[2]] + [acts[3]], acts[4]);
    more := done + [acts[0]] + [acts[1]] + [acts[2]] + [acts[3]] + [acts[4]];
    Reachable(k, s, more);
  }

  lemma Writable(k: Shape, s: Ring)
    requires k.Valid() && Inv(k, s) && k.width == 1 && s.p.PWriting? && s.p.done == 0
    ensures var i := Mask(s.p.w, k.capacity); i < |s.slots| && |s.slots[i]| == 1 && |s.p.item| == 1
  {
    WrappedSlot(k, |s.pushed|);
  }

  lemma PopOne(k: Shape, s: Ring, done: seq<Action>, n: nat, m: nat) returns (more: seq<Action>)
    requires k.Valid() && Init(k, s) && k.width == 1 && AtRest(k, Run(k, s, done), n, m) && m < n
    ensures AtRest(k, Run(k, s, more), n, m + 1)
  {
    hide Run, Mask, U32, Inv, Init;
    var acts := [PopLoadHead, PopLoadTail, PopTest, CopyWord, Advance];
    RunThen(k, s, done, acts[0]);
    RunThen(k, s, done + [acts[0]], acts[1]);
    Reachable(k, s, done + [acts[0]] + [acts[1]]);
    PopDecides(k, Run(k, s, done + [acts[0]] + [acts[1]]));
    RunThen(k, s, done + [acts[0]] + [acts[1]], acts[2]);
    Reachable(k, s, done + [acts[0]] + [acts[1]] + [acts[2]]);
    Readable(k, Run(k, s, done + [acts[0]] + [acts[1]] + [acts[2]]));
    RunThen(k, s, done + [acts[0]] + [acts[1]] + [acts[2]], acts[3]);
    RunThen(k, s, done + [acts[0]] + [acts[1]] + [acts[2]] + [acts[3]], acts[4]);
    more := done + [acts[0]] + [acts[1]] + [acts[2]] + [acts[3]] + [acts[4]];
    Reachable(k, s, more);
  }

  lemma Readable(k: Shape, s: Ring)
    requires k.Valid() && Inv(k, s) && k.width == 1 && s.c.CCopying? && s.c.got == []
    ensures var i := Mask(s.c.r, k.capacity); i < |s.slots| && |s.slots[i]| == 1
  {
    WrappedSlot(k, |s.popped|);
  }

  /** n items passed through the ring since the head was sampled. */
  lemma {:induction false} Passed(k: Shape, s: Ring, n: nat) returns (done: seq<Action>)
    requires k.Valid() && Init(k, s) && k.width == 1
    ensures AtRest(k, Run(k, s, done), n, n)
  {
    hide Inv, Mask, U32;
    if n == 0 {
      done := [] + [SampleHead];
      RunThen(k, s, [], SampleHead);
      Reachable(k, s, done);
    } else {
      done := Passed(k, s, n - 1);
      done := PushOne(k, s, done, n - 1, n - 1);
      done := PopOne(k, s, done, n, n - 1);
    }
  }

  /** 2^32 items between the two reads bring the difference back: a ring with an item in it looks empty. */
  lemma SizeUnderReports(k: Shape, s: Ring) returns (actions: seq<Action>)
    requires k.Valid() && Init(k, s) && k.width == 1
    ensures var o := Run(k, s, actions).o;
            o.OSize? && o.pushed - o.at == WORD32 && o.size == 0 && o.pushed - o.popped == 1
  {
    hide Run, Inv, Mask, Init;
    var done := Passed(k, s, WORD32 - 1);
    done := PushOne(k, s, done, WORD32 - 1, WORD32 - 1);
    RunThen(k, s, done, SampleTail);
    actions := done + [SampleTail];
    TailWrapped(k, Run(k, s, done));
  }

  lemma TailWrapped(k: Shape, s: Ring)
    requires k.Valid() && Inv(k, s) && |s.pushed| == WORD32
    ensures s.tail == 0
  {
  }
}
