/**
 The radix-64 occupancy bitmap, tier over tier: the words of one are indexed by the bits of
 the next, so that a query only ever descends into a word with a bit to find.
 */
module LevelBitmap {
  import opened Words

  const NPOS: nat := 0xFFFF_FFFF

  function WordCount(nbits: nat): (r: nat)
    ensures 1 <= r && nbits <= 64 * r && (nbits > 64 ==> r < nbits) && (nbits <= 64 ==> r == 1)
  {
    if nbits <= 64 then 1 else (nbits + 63) / 64
  }

  /** The words hold exactly the indices of the set. */
  ghost predicate Mirror(ws: seq<Word>, bits: set<nat>, nbits: nat) {
    && |ws| == WordCount(nbits)
    && (forall i {:trigger i in bits} :: 0 <= i < 64 * |ws| ==> (i in bits <==> i % 64 in ws[i / 64]))
    && (forall i {:trigger i in bits} :: i in bits ==> i < nbits)
  }

  /** Bit b of word w is index 64 * w + b. */
  lemma Indexed(ws: seq<Word>, bits: set<nat>, nbits: nat, w: nat, b: nat)
    requires Mirror(ws, bits, nbits) && w < |ws| && b < 64
    ensures 64 * w + b in bits <==> b in ws[w]
    ensures b in ws[w] ==> 64 * w + b < nbits
  {
    assert (64 * w + b) / 64 == w && (64 * w + b) % 64 == b;
  }

  /** The word and bit of an index in the set. */
  lemma WordOf(ws: seq<Word>, bits: set<nat>, nbits: nat, j: nat)
    requires Mirror(ws, bits, nbits) && j in bits
    ensures j == 64 * (j / 64) + j % 64 && j / 64 < |ws| && j % 64 in ws[j / 64]
  {
  }

  lemma MirrorSet(ws: seq<Word>, bits: set<nat>, nbits: nat, i: nat)
    requires Mirror(ws, bits, nbits) && i < nbits
    ensures i / 64 < |ws|
    ensures Mirror(ws[i / 64 := ws[i / 64] + Single(i % 64)], bits + {i}, nbits)
  {
  }

  lemma MirrorClear(ws: seq<Word>, bits: set<nat>, nbits: nat, i: nat)
    requires Mirror(ws, bits, nbits) && i < nbits
    ensures i / 64 < |ws|
    ensures Mirror(ws[i / 64 := ws[i / 64] - Single(i % 64)], bits - {i}, nbits)
  {
  }

  lemma MirrorEmpty(ws: seq<Word>, nbits: nat)
    requires |ws| == WordCount(nbits) && forall w :: 0 <= w < |ws| ==> ws[w] == {}
    ensures Mirror(ws, {}, nbits)
  {
  }

  /** r is the least member of bits at or above i, or NPOS when there is none. */
  ghost predicate IsNext(bits: set<nat>, i: nat, r: nat) {
    if r == NPOS then forall j :: j in bits ==> j < i
    else r in bits && i <= r && forall j :: j in bits && i <= j ==> r <= j
  }

  /** r is the greatest member of bits at or below i, or NPOS when there is none. */
  ghost predicate IsPrev(bits: set<nat>, i: nat, r: nat) {
    if r == NPOS then forall j :: j in bits ==> i < j
    else r in bits && r <= i && forall j :: j in bits && j <= i ==> j <= r
  }

  lemma NothingFrom(w: Word, k: nat)
    requires k < 64 && w * OnesFrom(k) == {}
    ensures forall b :: b in w ==> b < k
  {
    assert forall b :: b in w && k <= b ==> b in w * OnesFrom(k);
  }

  lemma NothingBelow(w: Word, k: nat)
    requires k < 64 && w * OnesBelow(k) == {}
    ensures forall b :: b in w ==> k <= b
  {
    assert forall b :: b in w && b < k ==> b in w * OnesBelow(k);
  }

  lemma NextInWord(ws: seq<Word>, bits: set<nat>, nbits: nat, i: nat)
    requires Mirror(ws, bits, nbits) && nbits < NPOS - 63
    requires i / 64 < |ws| && ws[i / 64] * OnesFrom(i % 64) != {}
    ensures IsNext(bits, i, 64 * (i / 64) + Ctz(ws[i / 64] * OnesFrom(i % 64)))
  {
    hide Mirror;
    var m := ws[i / 64] * OnesFrom(i % 64);
    Indexed(ws, bits, nbits, i / 64, Ctz(m));
    forall j | j in bits && i <= j
      ensures 64 * (i / 64) + Ctz(m) <= j
    {
      WordOf(ws, bits, nbits, j);
      assert j / 64 == i / 64 ==> j % 64 in m;
    }
  }

  /** The words with a one-bit are the summary's set bits. */
  ghost predicate Summary(sums: set<nat>, ws: seq<Word>) {
    forall w :: w in sums <==> 0 <= w < |ws| && ws[w] != {}
  }

  lemma SummaryEmpty(ws: seq<Word>)
    requires forall w :: 0 <= w < |ws| ==> ws[w] == {}
    ensures Summary({}, ws)
  {
  }

  lemma NextInTail(ws: seq<Word>, bits: set<nat>, nbits: nat, i: nat, sums: set<nat>, v: nat)
    requires Mirror(ws, bits, nbits) && nbits < NPOS - 63 && i / 64 < |ws|
    requires ws[i / 64] * OnesFrom(i % 64) == {} && Summary(sums, ws)
    requires IsNext(sums, i / 64 + 1, v)
    ensures v != NPOS ==> v < |ws| && ws[v] != {}
    ensures IsNext(bits, i, if v == NPOS then NPOS else 64 * v + Ctz(ws[v]))
  {
    hide Mirror, OnesFrom;
    NothingFrom(ws[i / 64], i % 64);
    if v != NPOS {
      Indexed(ws, bits, nbits, v, Ctz(ws[v]));
    }
    forall j | j in bits && i <= j
      ensures v != NPOS && 64 * v + Ctz(ws[v]) <= j
    {
      WordOf(ws, bits, nbits, j);
      assert j / 64 in sums;
      assert j / 64 == v ==> Ctz(ws[v]) <= j % 64;
    }
  }

  lemma NextPastEnd(ws: seq<Word>, bits: set<nat>, nbits: nat, i: nat)
    requires Mirror(ws, bits, nbits) && i >= 64 * |ws|
    ensures IsNext(bits, i, NPOS)
  {
  }

  lemma NextInLeaf(ws: seq<Word>, bits: set<nat>, nbits: nat, i: nat)
    requires Mirror(ws, bits, nbits) && nbits <= 64
    ensures IsNext(bits, i, if i >= 64 then NPOS
                            else var m := ws[0] * OnesFrom(i); if m != {} then Ctz(m) else NPOS)
  {
    hide Mirror, OnesFrom, Ctz, IsNext;
    OneWord(ws, bits, nbits);
    if i >= 64 {
      NextPastEnd(ws, bits, nbits, i);
    } else {
      assert i / 64 == 0 && i % 64 == i;
      if ws[0] * OnesFrom(i) != {} {
        NextInWord(ws, bits, nbits, i);
      } else {
        NoneInWord(ws, bits, nbits, i);
      }
    }
  }

  lemma OneWord(ws: seq<Word>, bits: set<nat>, nbits: nat)
    requires Mirror(ws, bits, nbits) && nbits <= 64
    ensures |ws| == 1
  {
  }

  lemma NoneInWord(ws: seq<Word>, bits: set<nat>, nbits: nat, i: nat)
    requires Mirror(ws, bits, nbits) && |ws| == 1 && i < 64 && ws[0] * OnesFrom(i) == {}
    ensures IsNext(bits, i, NPOS)
  {
    hide Mirror, OnesFrom;
    NothingFrom(ws[0], i);
    forall j | j in bits
      ensures j < i
    {
      WordOf(ws, bits, nbits, j);
    }
  }

  lemma PrevInLeaf(ws: seq<Word>, bits: set<nat>, nbits: nat, i: nat)
    requires Mirror(ws, bits, nbits) && nbits <= 64
    ensures IsPrev(bits, i, var m := if i >= 63 then ws[0] else ws[0] * OnesBelow(i + 1);
                            if m != {} then Top(m) else NPOS)
  {
    var m := if i >= 63 then ws[0] else ws[0] * OnesBelow(i + 1);
    var k := if i >= 63 then 63 else i;
    if m != {} {
      PrevInWord(ws, bits, nbits, k, m);
    } else {
      forall j | j in bits
        ensures i < j
      {
        assert j in ws[0];
        assert i < j || j in m;
      }
    }
  }

  lemma PrevInWord(ws: seq<Word>, bits: set<nat>, nbits: nat, i: nat, m: Word)
    requires Mirror(ws, bits, nbits) && nbits < NPOS - 63 && i / 64 < |ws|
    requires m == if i % 64 == 63 then ws[i / 64] else ws[i / 64] * OnesBelow(i % 64 + 1)
    requires m != {}
    ensures IsPrev(bits, i, 64 * (i / 64) + Top(m))
  {
    hide Mirror;
    Indexed(ws, bits, nbits, i / 64, Top(m));
    forall j | j in bits && j <= i
      ensures j <= 64 * (i / 64) + Top(m)
    {
      WordOf(ws, bits, nbits, j);
      assert j / 64 == i / 64 ==> j % 64 in m;
    }
  }

  lemma PrevInHead(ws: seq<Word>, bits: set<nat>, nbits: nat, i: nat, m: Word, sums: set<nat>, v: nat)
    requires Mirror(ws, bits, nbits) && nbits < NPOS - 63 && i / 64 < |ws|
    requires m == if i % 64 == 63 then ws[i / 64] else ws[i / 64] * OnesBelow(i % 64 + 1)
    requires m == {} && Summary(sums, ws)
    requires if i / 64 == 0 then v == NPOS else IsPrev(sums, i / 64 - 1, v)
    ensures v != NPOS ==> v < |ws| && ws[v] != {}
    ensures IsPrev(bits, i, if v == NPOS then NPOS else 64 * v + Top(ws[v]))
  {
    hide Mirror;
    if i % 64 < 63 {
      NothingBelow(ws[i / 64], i % 64 + 1);
    }
    if v != NPOS {
      Indexed(ws, bits, nbits, v, Top(ws[v]));
    }
    forall j | j in bits && j <= i
      ensures v != NPOS && j <= 64 * v + Top(ws[v])
    {
      WordOf(ws, bits, nbits, j);
      assert j / 64 in sums;
      assert j / 64 == v ==> j % 64 <= Top(ws[v]);
    }
  }

  /** Words without a one-bit. */
  function Blank(n: nat): (ws: seq<Word>)
    ensures |ws| == n && forall w :: 0 <= w < n ==> ws[w] == {}
  {
    seq(n, _ => {})
  }

  method NewWords(n: nat) returns (ws: array<Word>)
    ensures fresh(ws) && ws.Length == n && forall w :: 0 <= w < n ==> ws[w] == {}
  {
    ws := new Word[n](_ => {});
  }

  class OccupancyBitmap {
    const nbits: nat
    const words: array<Word>
    const summary: OccupancyBitmap?  // null in a leaf
    ghost const Repr: set<object>
    ghost var bits: set<nat>      // the set of indices that the tiers represent
    ghost var model: seq<Word>    // the words

    /** At every tier the words hold the set, and the tier above holds the non-empty words. */
    ghost predicate Valid()
      reads this, Repr
      decreases nbits
    {
      && this in Repr && words in Repr && nbits < NPOS - 63
      && Mirror(model, bits, nbits) && words.Length == |model| == WordCount(nbits)
      && (forall w :: 0 <= w < |model| ==> words[w] == model[w])
      && (nbits <= 64 <==> summary == null)
      && (summary != null ==>
            && summary in Repr && summary.Repr <= Repr && this !in summary.Repr && words !in summary.Repr
            && summary.nbits == words.Length && summary.Valid()
            && Summary(summary.bits, model))
    }

    constructor (nbits: nat)
      requires nbits < NPOS - 63
      ensures Valid() && fresh(Repr) && this.nbits == nbits && bits == {}
      decreases nbits
    {
      hide Mirror, WordCount, Summary;
      this.nbits := nbits;
      var n := WordCount(nbits);
      var ws := NewWords(n);
      words := ws;
      bits := {};
      model := Blank(n);
      MirrorEmpty(Blank(n), nbits);
      SummaryEmpty(Blank(n));
      if nbits <= 64 {
        summary := null;
        Repr := {this, ws};
      } else {
        var s := new OccupancyBitmap(n);
        summary := s;
        Repr := {this, ws} + s.Repr;
      }
    }

    method Reset()
      requires Valid()
      modifies Repr
      ensures Valid() && bits == {}
      decreases nbits
    {
      for w := 0 to words.Length
        invariant forall v :: 0 <= v < w ==> words[v] == {}
        invariant summary != null ==> summary.Valid()
        modifies words
      {
        words[w] := {};
      }
      bits, model := {}, Blank(WordCount(nbits));
      if summary != null {
        summary.Reset();
      }
    }

    method Set(i: nat)
      requires Valid() && i < nbits
      modifies Repr
      ensures Valid() && bits == old(bits) + {i}
      decreases nbits
    {
      hide Mirror, WordCount;
      MirrorSet(model, bits, nbits, i);
      words[i / 64] := words[i / 64] + Single(i % 64);
      model := model[i / 64 := words[i / 64]];
      bits := bits + {i};
      if summary != null {
        summary.Set(i / 64);
      }
    }

    method Clear(i: nat)
      requires Valid() && i < nbits
      modifies Repr
      ensures Valid() && bits == old(bits) - {i}
      decreases nbits
    {
      var w := i / 64;
      hide Mirror, WordCount;
      MirrorClear(model, bits, nbits, i);
      words[w] := words[w] - Single(i % 64);
      model := model[w := words[w]];
      bits := bits - {i};
      if summary != null && words[w] == {} {
        summary.Clear(w);
      }
    }

    /** Least set bit at or above i, or NPOS. */
    function NextSet(i: nat): (r: nat)
      requires Valid()
      reads this, Repr
      ensures IsNext(bits, i, r)
      decreases nbits, 1
    {
      if summary == null then
        NextInLeaf(model, bits, nbits, i);
        if i >= 64 then NPOS else
        var m := words[0] * OnesFrom(i);
        if m != {} then Ctz(m) else NPOS
      else if i / 64 >= words.Length then
        NextPastEnd(model, bits, nbits, i);
        NPOS
      else
        var m := words[i / 64] * OnesFrom(i % 64);
        if m != {} then
          NextInWord(model, bits, nbits, i);
          64 * (i / 64) + Ctz(m)
        else NextBeyond(i)
    }

    /** The search past i's own word: the next non-empty word. */
    function NextBeyond(i: nat): (r: nat)
      requires Valid() && summary != null && i / 64 < words.Length && words[i / 64] * OnesFrom(i % 64) == {}
      reads this, Repr
      ensures IsNext(bits, i, r)
      decreases nbits, 0
    {
      var v := summary.NextSet(i / 64 + 1);
      NextInTail(model, bits, nbits, i, summary.bits, v);
      if v == NPOS then NPOS else 64 * v + Ctz(words[v])
    }

    /** Greatest set bit at or below i, or NPOS. */
    function PrevSet(i: nat): (r: nat)
      requires Valid() && (summary != null ==> i < 64 * words.Length)
      reads this, Repr
      ensures IsPrev(bits, i, r)
      decreases nbits, 1
    {
      if summary == null then
        PrevInLeaf(model, bits, nbits, i);
        var m := if i >= 63 then words[0] else words[0] * OnesBelow(i + 1);
        if m != {} then Top(m) else NPOS
      else
        var m := UpTo(i);
        if m != {} then
          PrevInWord(model, bits, nbits, i, m);
          64 * (i / 64) + Top(m)
        else PrevBefore(i)
    }

    /** The bits of i's word at or below i. */
    function UpTo(i: nat): Word
      requires i < 64 * words.Length
      reads words
    {
      if i % 64 == 63 then words[i / 64] else words[i / 64] * OnesBelow(i % 64 + 1)
    }

    /** The search before i's own word: the previous non-empty word. */
    function PrevBefore(i: nat): (r: nat)
      requires Valid() && summary != null && i < 64 * words.Length && UpTo(i) == {}
      reads this, Repr
      ensures IsPrev(bits, i, r)
      decreases nbits, 0
    {
      if i / 64 == 0 then
        PrevInHead(model, bits, nbits, i, {}, summary.bits, NPOS);
        NPOS
      else
        var v := summary.PrevSet(i / 64 - 1);
        PrevInHead(model, bits, nbits, i, {}, summary.bits, v);
        if v == NPOS then NPOS else 64 * v + Top(words[v])
    }
  }
}
