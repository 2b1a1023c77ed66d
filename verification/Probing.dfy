/**
 Open addressing with linear probing over a circular array, shared by core's
 order map and exec's order table: which slots a probe from a key's home slot
 passes over, what inserting keeps, and why both backward-shift deletions of the
 program keep every key reachable.
 */
module Probing {

  datatype Cell = Empty | Full(key: nat)

  /** Number of forward steps from slot a to slot b around the circle. */
  function Dist(a: nat, b: nat, cap: nat): nat
    requires a < cap && b < cap
  {
    if a <= b then b - a else b + cap - a
  }

  function Next(i: nat, cap: nat): (r: nat)
    requires i < cap
    ensures r < cap
  {
    if i + 1 == cap then 0 else i + 1
  }

  /**
   `x & MASK` of the program, whose capacities are powers of two: x modulo the capacity.
   Stepping by the capacity keeps the verifier out of nonlinear arithmetic.
   */
  function Mask(x: int, cap: nat): (r: nat)
    requires 0 < cap
    ensures r < cap
    decreases if x < 0 then cap - x else x
  {
    if x < 0 then Mask(x + cap, cap) else if x < cap then x else Mask(x - cap, cap)
  }

  lemma MaskSmall(i: nat, cap: nat)
    requires i < cap
    ensures Mask(i, cap) == i
  {
  }

  lemma {:induction false} MaskIsMod(x: int, cap: nat)
    requires 0 < cap
    ensures Mask(x, cap) == x % cap
    decreases if x < 0 then cap - x else x
  {
    if x < 0 {
      MaskIsMod(x + cap, cap);
      ModStep(x, cap);
    } else if x >= cap {
      MaskIsMod(x - cap, cap);
      ModStep(x - cap, cap);
    }
  }

  lemma {:induction false} MaskMultiple(x: int, q: nat, cap: nat)
    requires 0 < cap
    ensures Mask(x + q * cap, cap) == Mask(x, cap)
  {
    if q > 0 {
      MaskMultiple(x, q - 1, cap);
      assert q * cap == (q - 1) * cap + cap;
      MaskShift(x + (q - 1) * cap, cap);
    }
  }

  lemma MaskShift(x: int, cap: nat)
    requires 0 < cap
    ensures Mask(x + cap, cap) == Mask(x, cap)
  {
  }

  /** Indices less than a capacity apart have different slots. */
  lemma {:induction false} MaskDistinct(a: nat, b: nat, cap: nat)
    requires a < b < a + cap
    ensures Mask(a, cap) != Mask(b, cap)
  {
    if a >= cap {
      MaskDistinct(a - cap, b - cap, cap);
    }
  }

  lemma ModStep(x: int, cap: nat)
    requires 0 < cap
    ensures (x + cap) % cap == x % cap
  {
    var p := (x + cap) / cap - x / cap - 1;
    assert p * cap == x % cap - (x + cap) % cap;
    assert p >= 1 ==> p * cap >= cap;
    assert p <= -1 ==> p * cap <= -1 * cap;
  }

  /** Slot m lies on the probe path from slot a up to, not including, slot b. */
  predicate OnPath(a: nat, m: nat, b: nat, cap: nat)
    requires a < cap && b < cap && m < cap
  {
    Dist(a, m, cap) < Dist(a, b, cap)
  }

  /** The masked difference of two unreduced positions is the circular distance. */
  lemma {:induction false} MaskedDifference(a: nat, b: nat, cap: nat)
    requires 0 < cap
    ensures Mask(b - a, cap) == Dist(Mask(a, cap), Mask(b, cap), cap)
    decreases a + b
  {
    if a >= cap {
      MaskedDifference(a - cap, b, cap);
    } else if b >= cap {
      MaskedDifference(a, b - cap, cap);
    }
  }

  lemma {:induction false} MaskedStep(i: nat, cap: nat)
    requires 0 < cap
    ensures Mask(i + 1, cap) == Next(Mask(i, cap), cap)
  {
    if i >= cap {
      MaskedStep(i - cap, cap);
    }
  }

  /**
   The two shift tests of the program agree: core moves an entry when its home is
   farther from it than from the hole, exec when its home is no nearer than the hole.
   */
  lemma ShiftTestsAgree(home: nat, hole: nat, i: nat, cap: nat)
    requires 0 < cap
    requires Mask(hole, cap) != Mask(i, cap)
    ensures (Mask(i - home, cap) > Mask(hole - home, cap)) <==> (Mask(i - home, cap) >= Mask(i - hole, cap))
    ensures (Mask(i - home, cap) > Mask(hole - home, cap)) <==>
            OnPath(Mask(home, cap), Mask(hole, cap), Mask(i, cap), cap)
  {
    MaskedDifference(home, i, cap);
    MaskedDifference(home, hole, cap);
    MaskedDifference(hole, i, cap);
  }

  /** One step forward comes one nearer to any slot but the one stood on. */
  lemma StepCloser(pos: nat, e: nat, cap: nat)
    requires e < cap && Mask(pos, cap) != e
    ensures Dist(Mask(pos + 1, cap), e, cap) + 1 == Dist(Mask(pos, cap), e, cap)
  {
    MaskedStep(pos, cap);
  }

  function Home(hash: nat -> nat, key: nat, cap: nat): (r: nat)
    requires 0 < cap
    ensures r < cap
  {
    Mask(hash(key), cap)
  }

  /** Every slot between a stored key's home and its own slot is occupied, the hole excepted. */
  ghost predicate ReachBut(c: seq<Cell>, hash: nat -> nat, hole: int)
  {
    forall j, m {:trigger OnPath(Home(hash, c[j].key, |c|), m, j, |c|)} ::
      0 <= j < |c| && 0 <= m < |c| && c[j].Full? && OnPath(Home(hash, c[j].key, |c|), m, j, |c|) ==>
        c[m].Full? || m == hole
  }

  /** Every stored key is reached by probing from its home without meeting an empty slot. */
  ghost predicate Reach(c: seq<Cell>, hash: nat -> nat)
  {
    ReachBut(c, hash, -1)
  }

  /** The ghost index `at` names the one slot of every stored key. */
  ghost predicate Indexed(c: seq<Cell>, at: map<nat, nat>)
  {
    && (forall k :: k in at ==> at[k] < |c| && c[at[k]] == Full(k))
    && (forall i :: 0 <= i < |c| && c[i].Full? ==> c[i].key in at && at[c[i].key] == i)
  }

  /** No key stored strictly between the hole and slot i needs the hole to be reached. */
  ghost predicate Settled(c: seq<Cell>, hash: nat -> nat, hole: nat, i: nat)
    requires hole < |c| && i < |c|
  {
    forall j :: 0 <= j < |c| && 0 < Dist(hole, j, |c|) && (i == hole || OnPath(hole, j, i, |c|)) ==>
                  c[j].Full? && !OnPath(Home(hash, c[j].key, |c|), hole, j, |c|)
  }

  /** A probe for the key has gone from its home up to slot i over other keys only. */
  ghost predicate Passed(c: seq<Cell>, hash: nat -> nat, key: nat, i: nat)
    requires i < |c|
  {
    forall m {:trigger OnPath(Home(hash, key, |c|), m, i, |c|)} {:trigger c[m]} ::
      0 <= m < |c| && OnPath(Home(hash, key, |c|), m, i, |c|) ==> c[m].Full? && c[m] != Full(key)
  }

  lemma SlotOf(c: seq<Cell>, at: map<nat, nat>, key: nat)
    requires Indexed(c, at) && key in at
    ensures at[key] < |c| && c[at[key]] == Full(key)
    ensures forall i :: 0 <= i < |c| && c[i] == Full(key) ==> i == at[key]
  {
  }

  lemma ProbeStart(c: seq<Cell>, hash: nat -> nat, key: nat)
    requires |c| > 0
    ensures Passed(c, hash, key, Mask(hash(key), |c|))
  {
  }

  /** A scan from a toward slot j starts at or before it, and a step from an earlier slot stays so. */
  lemma ScanStart(pos: nat, j: nat, cap: nat)
    requires j < cap
    ensures Mask(pos, cap) == j || OnPath(Mask(pos, cap), Mask(pos, cap), j, cap)
  {
  }

  lemma ScanOn(a: nat, pos: nat, j: nat, cap: nat)
    requires a < cap && j < cap && OnPath(a, Mask(pos, cap), j, cap)
    ensures Mask(pos + 1, cap) == j || OnPath(a, Mask(pos + 1, cap), j, cap)
    ensures Dist(Mask(pos + 1, cap), j, cap) < Dist(Mask(pos, cap), j, cap)
  {
    MaskedStep(pos, cap);
  }

  /** A probe steps over another key, one nearer to the empty slot e that must stop it. */
  lemma ProbeOn(c: seq<Cell>, hash: nat -> nat, key: nat, pos: nat, e: nat)
    requires |c| > 0 && e < |c| && c[e].Empty?
    requires c[Mask(pos, |c|)].Full? && c[Mask(pos, |c|)] != Full(key)
    requires Passed(c, hash, key, Mask(pos, |c|))
    ensures Passed(c, hash, key, Mask(pos + 1, |c|))
    ensures Dist(Mask(pos + 1, |c|), e, |c|) < Dist(Mask(pos, |c|), e, |c|)
  {
    MaskedStep(pos, |c|);
  }

  /** Every slot a probe visits before the key's own slot j holds another key. */
  lemma BeforeOwnSlot(c: seq<Cell>, hash: nat -> nat, at: map<nat, nat>, key: nat, i: nat)
    requires Reach(c, hash) && Indexed(c, at) && key in at && i < |c|
    requires i != at[key] && OnPath(Home(hash, key, |c|), i, at[key], |c|)
    ensures c[i].Full? && c[i] != Full(key)
  {
    assert OnPath(Home(hash, c[at[key]].key, |c|), i, at[key], |c|);
  }

  /** An unsuccessful probe: the first empty slot on the path proves the key absent. */
  lemma EmptyMeansAbsent(c: seq<Cell>, hash: nat -> nat, at: map<nat, nat>, key: nat, p: nat)
    requires Reach(c, hash) && Indexed(c, at)
    requires p < |c| && c[p].Empty?
    requires Passed(c, hash, key, p)
    ensures key !in at
  {
    assert key in at ==> !OnPath(Home(hash, c[at[key]].key, |c|), p, at[key], |c|);
  }

  lemma InsertKeepsReach(c: seq<Cell>, hash: nat -> nat, at: map<nat, nat>, key: nat, p: nat)
    requires Reach(c, hash) && p < |c| && c[p].Empty? && Passed(c, hash, key, p)
    requires Indexed(c, at) && key !in at
    ensures Reach(c[p := Full(key)], hash) && Indexed(c[p := Full(key)], at[key := p])
  {
  }

  /** Moving an entry whose path crosses the hole into the hole moves the hole to where it was. */
  lemma MoveIntoHole(c: seq<Cell>, hash: nat -> nat, hole: nat, i: nat)
    requires hole < |c| && i < |c| && i != hole && c[hole].Empty? && c[i].Full?
    requires ReachBut(c, hash, hole)
    requires OnPath(Home(hash, c[i].key, |c|), hole, i, |c|)
    ensures ReachBut(c[hole := c[i]][i := Empty], hash, i)
    ensures Settled(c[hole := c[i]][i := Empty], hash, i, Next(i, |c|))
  {
    var d := c[hole := c[i]][i := Empty];
    forall j, m | 0 <= j < |c| && 0 <= m < |c| && d[j].Full? && OnPath(Home(hash, d[j].key, |c|), m, j, |c|)
      ensures d[m].Full? || m == i
    {
      var k := if j == hole then i else j;
      assert OnPath(Home(hash, c[k].key, |c|), m, k, |c|);
    }
  }

  lemma SkipEntry(c: seq<Cell>, hash: nat -> nat, hole: nat, i: nat)
    requires hole < |c| && i < |c| && i != hole && c[i].Full?
    requires Settled(c, hash, hole, i)
    requires !OnPath(Home(hash, c[i].key, |c|), hole, i, |c|)
    requires Next(i, |c|) != hole
    ensures Settled(c, hash, hole, Next(i, |c|))
  {
  }

  /** The scan may stop at the first empty slot: nothing beyond it can need the hole. */
  lemma CloseHole(c: seq<Cell>, hash: nat -> nat, hole: nat, i: nat)
    requires hole < |c| && i < |c| && i != hole && c[hole].Empty? && c[i].Empty?
    requires ReachBut(c, hash, hole) && Settled(c, hash, hole, i)
    ensures Reach(c, hash)
  {
    forall j, m | 0 <= j < |c| && 0 <= m < |c| && c[j].Full? && OnPath(Home(hash, c[j].key, |c|), m, j, |c|)
      ensures c[m].Full?
    {
      assert OnPath(hole, j, i, |c|) || OnPath(Home(hash, c[j].key, |c|), i, j, |c|) || m != hole;
    }
  }

  /** State of a backward shift: hole h, next slot to examine i, and an empty slot e that ends it. */
  ghost predicate Shifting(c: seq<Cell>, hash: nat -> nat, at: map<nat, nat>, h: nat, i: nat, e: nat)
  {
    && h < |c| && i < |c| && e < |c|
    && h != i && c[h].Empty? && c[e].Empty?
    && (e == i || OnPath(i, e, h, |c|))
    && ReachBut(c, hash, h) && Settled(c, hash, h, i) && Indexed(c, at)
  }

  /** Emptying a slot opens a hole that only keys further along can miss. */
  lemma OpenHole(c: seq<Cell>, hash: nat -> nat, at: map<nat, nat>, key: nat, e: nat)
    requires Reach(c, hash) && Indexed(c, at) && key in at && e < |c| && c[e].Empty?
    ensures |c| > 1
    ensures Shifting(c[at[key] := Empty], hash, at - {key}, at[key], Next(at[key], |c|), e)
  {
    assert c[at[key]] == Full(key);
  }

  lemma ShiftStep(c: seq<Cell>, hash: nat -> nat, at: map<nat, nat>, h: nat, i: nat, e: nat)
    requires Shifting(c, hash, at, h, i, e) && c[i].Full?
    requires OnPath(Home(hash, c[i].key, |c|), h, i, |c|)
    ensures Shifting(c[h := c[i]][i := Empty], hash, at[c[i].key := h], i, Next(i, |c|), e)
  {
    MoveIntoHole(c, hash, h, i);
  }

  lemma SkipStep(c: seq<Cell>, hash: nat -> nat, at: map<nat, nat>, h: nat, i: nat, e: nat)
    requires Shifting(c, hash, at, h, i, e) && c[i].Full?
    requires !OnPath(Home(hash, c[i].key, |c|), h, i, |c|)
    ensures Shifting(c, hash, at, h, Next(i, |c|), e)
  {
    SkipEntry(c, hash, h, i);
  }

  /** Pigeonhole: pairwise distinct values drawn from a set are no more than the set holds. */
  lemma DistinctFit<T>(s: seq<T>, pool: set<T>)
    requires forall i, j :: 0 <= i < j < |s| ==> s[i] != s[j]
    requires forall i :: 0 <= i < |s| ==> s[i] in pool
    ensures |s| <= |pool|
  {
    if s == [] {
    } else {
      var last := |s| - 1;
      DistinctFit(s[..last], pool - {s[last]});
    }
  }

  /** Fewer stored keys than slots leave an empty slot, so every probe stops. */
  lemma SomeEmpty(c: seq<Cell>, at: map<nat, nat>, pool: set<nat>) returns (e: nat)
    requires Indexed(c, at) && at.Keys <= pool && |pool| < |c|
    ensures e < |c| && c[e].Empty?
  {
    if forall i :: 0 <= i < |c| ==> c[i].Full? {
      var keys := seq(|c|, i requires 0 <= i < |c| => c[i].key);
      assert forall i, j :: 0 <= i < j < |c| ==> keys[i] != keys[j];
      DistinctFit(keys, pool);
    }
    e :| e < |c| && c[e].Empty?;
  }
}
