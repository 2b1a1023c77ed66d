/**
 The seqlock as interleaved atomic steps: one writer and any number of readers, with
 payloads copied word by word on both sides. `stored` (the completed values, the initial
 one first) and `at` (how many stores had completed at a reader's first load) are history.
 */
module Seqlock {

  type Value = seq<int>

  const WORD64: int := 0x1_0000_0000_0000_0000

  function U64(x: int): (r: nat)
    ensures r < WORD64
  {
    x % WORD64
  }

  datatype Writer =
    | WIdle
    | WLoaded(s: nat)                             // seq loaded
    | WWriting(s: nat, value: Value, done: nat)   // seq is odd, `done` words copied in

  datatype Reader =
    | RIdle
    | RCopying(pre: nat, at: nat, out: Value)     // an even seq loaded, words copied out so far
    | RDone(ok: bool, at: nat, end: nat, out: Value)  // answer, and stores completed by the second load

  datatype Lock = Lock(sequence: nat, data: Value, w: Writer, readers: seq<Reader>, stored: seq<Value>)

  datatype Action =
    | LoadSeq | MakeOdd(value: Value) | CopyIn | MakeEven
    | Begin(reader: nat) | CopyOut(reader: nat) | Check(reader: nat)

  ghost predicate Init(width: nat, s: Lock) {
    && s.sequence == 0 && |s.data| == width && s.w == WIdle && s.stored == [s.data]
    && forall i :: 0 <= i < |s.readers| ==> s.readers[i] == RIdle
  }

  function Completed(s: Lock): int {
    |s.stored| - 1
  }

  function ReaderStep(width: nat, s: Lock, r: Reader, a: Action): Reader
    requires |s.stored| > 0
  {
    match a
    case Begin(_) =>
      if s.sequence % 2 == 1 then RDone(false, Completed(s), Completed(s), [])
      else RCopying(s.sequence, Completed(s), [])
    case CopyOut(_) =>
      if !r.RCopying? || |r.out| >= width || |r.out| >= |s.data| then r
      else RCopying(r.pre, r.at, r.out + [s.data[|r.out|]])
    case Check(_) =>
      if !r.RCopying? || |r.out| < width then r
      else RDone(r.pre == s.sequence, r.at, Completed(s), r.out)
    case _ => r
  }

  function WriterStep(width: nat, s: Lock, a: Action): Lock {
    match a
    case LoadSeq => if s.w.WIdle? then s.(w := WLoaded(s.sequence)) else s
    case MakeOdd(v) =>
      if !s.w.WLoaded? || |v| != width then s
      else s.(sequence := U64(s.w.s + 1), w := WWriting(s.w.s, v, 0))
    case CopyIn =>
      if !s.w.WWriting? || s.w.done >= |s.w.value| || s.w.done >= |s.data| then s
      else s.(data := s.data[s.w.done := s.w.value[s.w.done]], w := s.w.(done := s.w.done + 1))
    case MakeEven =>
      if !s.w.WWriting? || s.w.done < |s.w.value| then s
      else s.(sequence := U64(s.w.s + 2), w := WIdle, stored := s.stored + [s.w.value])
    case _ => s
  }

  /** One atomic step; a step that is not enabled does nothing. */
  function Step(width: nat, s: Lock, a: Action): Lock
    requires |s.stored| > 0
  {
    if a.Begin? || a.CopyOut? || a.Check? then
      if a.reader >= |s.readers| then s
      else s.(readers := s.readers[a.reader := ReaderStep(width, s, s.readers[a.reader], a)])
    else WriterStep(width, s, a)
  }

  function Run(width: nat, s: Lock, actions: seq<Action>): (t: Lock)
    requires |s.stored| > 0
    ensures |t.stored| > 0
  {
    if actions == [] then s else Step(width, Run(width, s, actions[..|actions| - 1]), actions[|actions| - 1])
  }

  ghost predicate WriterOk(width: nat, s: Lock) {
    && |s.stored| > 0 && |s.data| == width
    && s.sequence == U64(2 * Completed(s) + if s.w.WWriting? then 1 else 0)
    && match s.w
       case WIdle => s.data == s.stored[Completed(s)]
       case WLoaded(q) => q == s.sequence && s.data == s.stored[Completed(s)]
       case WWriting(q, v, done) =>
         q == U64(2 * Completed(s)) && |v| == width && done <= width && s.data[..done] == v[..done]
  }

  /** A copy is whole as long as no store has begun since the reader's first load. */
  ghost predicate ReaderOk(width: nat, s: Lock, r: Reader)
    requires |s.stored| > 0
  {
    match r
    case RIdle => true
    case RCopying(pre, at, out) =>
      && pre == U64(2 * at) && at <= Completed(s) && |out| <= width
      && (at == Completed(s) && !s.w.WWriting? ==> |s.stored[at]| == width && out == s.stored[at][..|out|])
    case RDone(ok, at, end, out) =>
      at <= end <= Completed(s) && (ok && end - at < WORD64 / 2 ==> out == s.stored[at])
  }

  ghost predicate Inv(width: nat, s: Lock) {
    WriterOk(width, s) && forall i :: 0 <= i < |s.readers| ==> ReaderOk(width, s, s.readers[i])
  }

  lemma WrapAgain(x: int, y: int)
    ensures U64(U64(x) + y) == U64(x + y)
  {
  }

  lemma WriterKeeps(width: nat, s: Lock, a: Action)
    requires WriterOk(width, s)
    ensures WriterOk(width, WriterStep(width, s, a))
  {
    hide U64;
    WrapAgain(2 * Completed(s), 1);
    WrapAgain(2 * Completed(s), 2);
    if a.MakeEven? && s.w.WWriting? && s.w.done >= |s.w.value| {
      assert s.data[..width] == s.data && s.w.value[..width] == s.w.value;
    }
  }

  /** A store that begins or ends only spoils copies in progress, it never completes one. */
  lemma WriterSparesReader(width: nat, s: Lock, r: Reader, a: Action)
    requires WriterOk(width, s) && ReaderOk(width, s, r)
    ensures ReaderOk(width, WriterStep(width, s, a), r)
  {
    hide U64;
  }

  /** The second load equals the first only when no store began in between. */
  lemma SameSequence(at: nat, n: nat, writing: bool)
    requires at <= n && n - at < WORD64 / 2
    requires U64(2 * at) == U64(2 * n + if writing then 1 else 0)
    ensures n == at && !writing
  {
  }

  lemma ReaderKeeps(width: nat, s: Lock, r: Reader, a: Action)
    requires WriterOk(width, s) && ReaderOk(width, s, r) && (a.Begin? || a.CopyOut? || a.Check?)
    ensures ReaderOk(width, s, ReaderStep(width, s, r, a))
  {
    hide U64;
    match a {
      case Begin(_) => EvenSequence(Completed(s));
      case CopyOut(_) =>
        if r.RCopying? && |r.out| < width && r.at == Completed(s) && !s.w.WWriting? {
          assert s.data[..|r.out| + 1] == s.data[..|r.out|] + [s.data[|r.out|]];
        }
      case Check(_) =>
        if r.RCopying? && |r.out| >= width && r.pre == s.sequence && Completed(s) - r.at < WORD64 / 2 {
          SameSequence(r.at, Completed(s), s.w.WWriting?);
          assert s.stored[r.at][..width] == s.stored[r.at];
        }
    }
  }

  lemma EvenSequence(n: nat)
    ensures U64(2 * n) % 2 == 0 && U64(2 * n + 1) % 2 == 1
  {
  }

  lemma {:induction false} Reachable(width: nat, s: Lock, actions: seq<Action>)
    requires Init(width, s)
    ensures Inv(width, Run(width, s, actions))
  {
    if actions != [] {
      var front, a := actions[..|actions| - 1], actions[|actions| - 1];
      Reachable(width, s, front);
      var t := Run(width, s, front);
      if !(a.Begin? || a.CopyOut? || a.Check?) {
        WriterKeeps(width, t, a);
        forall i | 0 <= i < |t.readers|
          ensures ReaderOk(width, WriterStep(width, t, a), t.readers[i])
        {
          WriterSparesReader(width, t, t.readers[i], a);
        }
      } else if a.reader < |t.readers| {
        ReaderKeeps(width, t, t.readers[a.reader], a);
      }
    }
  }

  /**
   In every interleaving a load that succeeds returns one stored value whole: the last one
   completed when it first read the sequence. (2^63 stores during one load would wrap it.)
   */
  lemma NeverTorn(width: nat, s: Lock, actions: seq<Action>, i: nat)
    requires Init(width, s) && i < |Run(width, s, actions).readers|
    ensures var t := Run(width, s, actions);
            t.readers[i].RDone? && t.readers[i].ok && t.readers[i].end - t.readers[i].at < WORD64 / 2 ==>
              0 <= t.readers[i].at < |t.stored| && t.readers[i].out == t.stored[t.readers[i].at]
  {
    Reachable(width, s, actions);
    var t := Run(width, s, actions);
    assert ReaderOk(width, t, t.readers[i]);
  }

  // The wrap.

  lemma RunThen(width: nat, s: Lock, done: seq<Action>, a: Action)
    requires |s.stored| > 0
    ensures Run(width, s, done + [a]) == Step(width, Run(width, s, done), a)
  {
    assert (done + [a])[..|done|] == done;
  }

  lemma NoSteps(width: nat, s: Lock)
    requires |s.stored| > 0
    ensures Run(width, s, []) == s
  {
  }

  const ZEROS: Value := [0, 0]
  const ONES: Value := [1, 1]

  /** A two-word lock and one reader. */
  const NEW_LOCK: Lock := Lock(0, ZEROS, WIdle, [RIdle], [ZEROS])

  /** The reader has copied the first word, and n stores of ones have completed since. */
  ghost predicate Halfway(s: Lock, n: nat) {
    && s.sequence == U64(2 * n) && s.w == WIdle && s.readers == [RCopying(0, 0, [0])] && |s.stored| == n + 1
    && (forall j :: 0 <= j <= n ==> s.stored[j] == if j == 0 then ZEROS else ONES)
    && s.data == if n == 0 then ZEROS else ONES
  }

  /** One more store while the reader waits. */
  lemma StoreOnes(done: seq<Action>, n: nat) returns (more: seq<Action>)
    requires Halfway(Run(2, NEW_LOCK, done), n)
    ensures Halfway(Run(2, NEW_LOCK, more), n + 1)
  {
    hide Run, U64;
    var acts := [LoadSeq, MakeOdd(ONES), CopyIn, CopyIn, MakeEven];
    RunThen(2, NEW_LOCK, done, acts[0]);
    RunThen(2, NEW_LOCK, done + [acts[0]], acts[1]);
    RunThen(2, NEW_LOCK, done + [acts[0]] + [acts[1]], acts[2]);
    RunThen(2, NEW_LOCK, done + [acts[0]] + [acts[1]] + [acts[2]], acts[3]);
    RunThen(2, NEW_LOCK, done + [acts[0]] + [acts[1]] + [acts[2]] + [acts[3]], acts[4]);
    WrapAgain(2 * n, 2);
    more := done + [acts[0]] + [acts[1]] + [acts[2]] + [acts[3]] + [acts[4]];
    var t := Run(2, NEW_LOCK, more);
    assert t.data == ONES;
  }

  lemma {:induction false} Stores(n: nat) returns (done: seq<Action>)
    ensures Halfway(Run(2, NEW_LOCK, done), n)
  {
    hide Run;
    if n == 0 {
      assert Run(2, NEW_LOCK, []) == NEW_LOCK by { NoSteps(2, NEW_LOCK); }
      RunThen(2, NEW_LOCK, [], Begin(0));
      RunThen(2, NEW_LOCK, [] + [Begin(0)], CopyOut(0));
      done := [] + [Begin(0)] + [CopyOut(0)];
      assert [RIdle][0 := RCopying(0, 0, [])][0 := RCopying(0, 0, [0])] == [RCopying(0, 0, [0])];
      assert [] + [0] == [0];
    } else {
      var before := Stores(n - 1);
      done := StoreOnes(before, n - 1);
    }
  }

  /** 2^63 stores during one load bring the sequence back: a load succeeds with words of two values. */
  lemma TornAfterWrap() returns (actions: seq<Action>)
    ensures Init(2, NEW_LOCK)
    ensures var t := Run(2, NEW_LOCK, actions);
            |t.readers| == 1 && t.readers[0].RDone? && t.readers[0].ok && t.readers[0].out !in t.stored
  {
    hide Run;
    var n: nat := WORD64 / 2;
    var done := Stores(n);
    RunThen(2, NEW_LOCK, done, CopyOut(0));
    RunThen(2, NEW_LOCK, done + [CopyOut(0)], Check(0));
    actions := done + [CopyOut(0)] + [Check(0)];
    assert Run(2, NEW_LOCK, actions).readers[0].out == [0, 1];
  }
}
