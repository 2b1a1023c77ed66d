/**
 64-bit words by their one-bits. A shift amount of 64 is undefined in C++, so the
 shifts here require less.
 */
module Words {

  type Word = w: set<nat> | forall b :: b in w ==> b < 64

  /** The word with the one-bit k. */
  function Single(k: nat): Word
    requires k < 64
  {
    {k}
  }

  /** All bits from k on. */
  function OnesFrom(k: nat): (w: Word)
    requires k < 64
    ensures forall b :: b in w <==> k <= b < 64
    decreases 64 - k
  {
    if k == 63 then {63} else {k} + OnesFrom(k + 1)
  }

  /** All bits below k. */
  function OnesBelow(k: nat): (w: Word)
    requires k < 64
    ensures forall b: int :: b in w <==> 0 <= b < k
  {
    if k == 0 then {} else OnesBelow(k - 1) + {k - 1}
  }

  /** Count of trailing zeros: the lowest one-bit. */
  function Ctz(w: Word): (r: nat)
    requires w != {}
    ensures r in w && forall b :: b in w ==> r <= b
  {
    LowestFrom(w, 0)
  }

  function LowestFrom(w: Word, k: nat): (r: nat)
    requires w != {} && forall b :: b in w ==> k <= b
    ensures r in w && forall b :: b in w ==> r <= b
    decreases 64 - k
  {
    if k in w then k else LowestFrom(w, k + 1)
  }

  /** 63 minus the count of leading zeros: the highest one-bit. */
  function Top(w: Word): (r: nat)
    requires w != {}
    ensures r in w && forall b :: b in w ==> b <= r
  {
    HighestFrom(w, 63)
  }

  function HighestFrom(w: Word, k: nat): (r: nat)
    requires w != {} && forall b :: b in w ==> b <= k
    ensures r in w && forall b :: b in w ==> b <= r
  {
    if k in w then k else HighestFrom(w, k - 1)
  }
}
