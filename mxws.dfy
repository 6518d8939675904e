/** The `mxws` bit generator: a multiply/rotate/add engine over six 64-bit
    words. One lane is a pair (x, w): a draw multiplies x by w (mod 2^64),
    rotates the product right by 32 bits to get the new x, and adds the new x
    to w. The 32-bit variant runs the lane (x, w); the 64-bit variant runs the
    lanes (x1, w1) and (x2, w2) side by side and glues the low words of their
    new x values into one 64-bit result. */
module BitGenerator {
  import opened CppInt

  /** The template argument RN: the type one call of operator()() returns. */
  datatype Width = U32 | U64

  /** The number of values of RN. */
  function Modulus(rn: Width): nat {
    if rn == U32 then TWO_32 else TWO_64
  }

  /** min() of the engine: the least value of RN. */
  function MinResult(rn: Width): nat {
    0
  }

  /** max() of the engine: the greatest value of RN. */
  function MaxResult(rn: Width): nat {
    Modulus(rn) - 1
  }

  /** The six state words x, w, x1, x2, w1, w2 of the engine. */
  datatype State = State(x: Word, w: Word, x1: Word, x2: Word, w1: Word, w2: Word)

  /** One multiply/rotate/add lane. */
  datatype Lane = Lane(x: Word, w: Word)

  /** One draw on a lane: x := rotr(x * w, 32), then w := w + x. */
  function LaneStep(l: Lane): Lane {
    var x := RotateRight32(Mul64(l.x, l.w));
    Lane(x, Add64(l.w, x))
  }

  /** The 32 bits a lane delivers on its draw: uint32_t of its new x, that
      is, the high half of the product x * w. */
  function LaneOutput(l: Lane): UInt32 {
    LaneStep(l).x.lo
  }

  /** The lane after n draws. */
  function LaneRun(l: Lane, n: nat): Lane {
    if n == 0 then l else LaneStep(LaneRun(l, n - 1))
  }

  function MainLane(s: State): Lane { Lane(s.x, s.w) }
  function FirstLane(s: State): Lane { Lane(s.x1, s.w1) }
  function SecondLane(s: State): Lane { Lane(s.x2, s.w2) }

  /** The state after one call of the 32-bit operator()(): the lane (x, w)
      steps, the lanes (x1, w1) and (x2, w2) stay. */
  function Advance32(s: State): State {
    var l := LaneStep(MainLane(s));
    s.(x := l.x, w := l.w)
  }

  /** The value one call of the 32-bit operator()() returns: RN(x) of the
      new x. */
  function Output32(s: State): UInt32 {
    LaneOutput(MainLane(s))
  }

  /** The state after one call of the 64-bit operator()(): the lanes
      (x1, w1) and (x2, w2) step, the lane (x, w) stays. */
  function Advance64(s: State): State {
    var a := LaneStep(FirstLane(s));
    var b := LaneStep(SecondLane(s));
    s.(x1 := a.x, w1 := a.w, x2 := b.x, w2 := b.w)
  }

  /** The value one call of the 64-bit operator()() returns (mxws.hpp:92):
      the low half of the new x1 moved to the top, the low half of the new x2
      below it. */
  function Output64(s: State): UInt64 {
    var t := Advance64(s);
    Value(Or(ShiftLeft32(t.x1), t.x2.lo))
  }

  /** The state after one call of operator()() of the engine for RN. */
  function Advance(rn: Width, s: State): State {
    if rn == U32 then Advance32(s) else Advance64(s)
  }

  /** The value of one call of operator()() of the engine for RN. */
  function Output(rn: Width, s: State): (r: nat)
    ensures r < Modulus(rn)
  {
    if rn == U32 then Output32(s) else Output64(s)
  }

  /** Each call of the 32-bit operator()() steps the lane (x, w) alone and
      returns the high half of the product x * w; each call of the 64-bit one
      steps the lanes (x1, w1) and (x2, w2) alone. */
  lemma AdvanceLanes(s: State)
    ensures MainLane(Advance32(s)) == LaneStep(MainLane(s))
    ensures FirstLane(Advance32(s)) == FirstLane(s) && SecondLane(Advance32(s)) == SecondLane(s)
    ensures Output32(s) == Advance32(s).x.lo == Mul64(s.x, s.w).hi
    ensures FirstLane(Advance64(s)) == LaneStep(FirstLane(s))
    ensures SecondLane(Advance64(s)) == LaneStep(SecondLane(s))
    ensures MainLane(Advance64(s)) == MainLane(s)
  {
  }

  /** Every value of operator()() lies between min() and max(). */
  lemma OutputBounds(rn: Width, s: State)
    ensures MinResult(rn) <= Output(rn, s) <= MaxResult(rn)
  {
  }

  /** The state after n calls of operator()(). */
  function Run(rn: Width, s: State, n: nat): State {
    if n == 0 then s else Advance(rn, Run(rn, s, n - 1))
  }

  /** The values of n successive calls of operator()(). */
  function Outputs(rn: Width, s: State, n: nat): (r: seq<nat>)
    ensures |r| == n
  {
    if n == 0 then [] else Outputs(rn, s, n - 1) + [Output(rn, Run(rn, s, n - 1))]
  }

  /** operator()(max) with T = int (mxws.hpp:129): one draw reduced modulo
      max + 1, where max + 1 is first converted to RN and the remainder is
      converted back to int. */
  function UpTo(rn: Width, draw: nat, max: int): (r: int)
    requires draw < Modulus(rn)
    requires IsInt(max) && max < INT_MAX  // max + 1 must not overflow int
    requires max != -1                    // max + 1 must not be a zero divisor
    ensures IsInt(r)
    ensures 0 <= max ==> 0 <= r <= max && r == draw % (max + 1)
  {
    ToInt(draw % ToUnsigned(max + 1, Modulus(rn)))
  }

  /** operator()(min, max) with T = int (mxws.hpp:136): one draw reduced
      modulo the width of the range and added to min; the width and min are
      converted to RN, the sum is taken modulo 2^N, and the result is
      converted back to int. */
  function Between(rn: Width, draw: nat, min: int, max: int): (r: int)
    requires draw < Modulus(rn)
    requires IsInt(min) && IsInt(max)
    requires IsInt(max - min) && max - min < INT_MAX  // max - min + 1 must not overflow int
    requires max - min != -1                          // max - min + 1 must not be a zero divisor
    ensures IsInt(r)
    ensures min <= max ==> min <= r <= max && r - min == draw % (max - min + 1)
  {
    var m := Modulus(rn);
    var u := draw % ToUnsigned(max - min + 1, m);
    var r := ToInt(ToUnsigned(ToUnsigned(min, m) + u, m));
    if min <= max then
      BetweenWraps(rn, min, u);
      r
    else
      r
  }

  /** Adding a small offset to min in RN and converting back gives min plus
      the offset. */
  lemma BetweenWraps(rn: Width, min: int, u: int)
    requires IsInt(min) && 0 <= u && IsInt(min + u)
    ensures ToInt(ToUnsigned(ToUnsigned(min, Modulus(rn)) + u, Modulus(rn))) == min + u
  {
    if rn == U32 {
      WrapsIn32(min, u);
    } else {
      WrapsIn64(min, u);
    }
  }

  /** BetweenWraps for a 32-bit RN: a negative min becomes min + 2^32, and
      the sum wraps back below 2^32 when it reaches it. */
  lemma WrapsIn32(min: int, u: int)
    requires IsInt(min) && 0 <= u && IsInt(min + u)
    ensures ToInt(ToUnsigned(ToUnsigned(min, TWO_32) + u, TWO_32)) == min + u
  {
    var a := ToUnsigned(min, TWO_32);
    var v := ToUnsigned(a + u, TWO_32);
    if min < 0 {
      assert a == min + TWO_32;
      if min + u < 0 {
        assert v == min + u + TWO_32;
      } else {
        assert v == min + u;
      }
    }
  }

  /** BetweenWraps for a 64-bit RN: a negative min becomes min + 2^64, and
      the conversion to int keeps the low 32 bits. */
  lemma WrapsIn64(min: int, u: int)
    requires IsInt(min) && 0 <= u && IsInt(min + u)
    ensures ToInt(ToUnsigned(ToUnsigned(min, TWO_64) + u, TWO_64)) == min + u
  {
    var a := ToUnsigned(min, TWO_64);
    var v := ToUnsigned(a + u, TWO_64);
    if min < 0 {
      assert a == min + TWO_64;
      if min + u < 0 {
        assert v == min + u + TWO_64;
        assert v % TWO_32 == min + u + TWO_32;
      } else {
        assert v == min + u;
      }
    }
  }

  /** The state every entropy-seeded start produces: x, x1 and x2 are 1,
      w1 is w and w2 is w1 + 1. */
  predicate Initialised(s: State) {
    s.x == ONE && s.x1 == ONE && s.x2 == ONE && s.w1 == s.w && s.w2 == Add64(s.w1, ONE)
  }

  /** The word whose high half is hi and low half is lo, built as
      mxws.hpp:54 builds w from two entropy words: shift, then or. */
  function Glue(hi: UInt32, lo: UInt32): (w: Word)
    ensures w == Word(hi, lo)
  {
    Or(ShiftLeft32(Word(0, hi)), lo)
  }

  /** init(): the state built from two words of the entropy device, the first
      for the high half of w and the second for its low half. */
  function EntropyState(hi: UInt32, lo: UInt32): (s: State)
    ensures Initialised(s) && s.w == Word(hi, lo)
  {
    var w := Glue(hi, lo);
    State(ONE, w, ONE, ONE, w, Add64(w, ONE))
  }

  /** mxws(seed_seq): with two seed values, w is the first value in the high
      half and the second in the low half (the values are copied reversed and
      read back from the end); with any other number, init(). */
  function SeedSeqState(seeds: seq<UInt32>, hi: UInt32, lo: UInt32): (s: State)
    ensures Initialised(s)
    ensures |seeds| == 2 ==> s.w == Word(seeds[0], seeds[1])
    ensures |seeds| != 2 ==> s == EntropyState(hi, lo)
  {
    if |seeds| == 2 then
      var reversed := [seeds[1], seeds[0]];
      var w := Glue(reversed[1], reversed[0]);
      State(ONE, w, ONE, ONE, w, Add64(w, ONE))
    else
      EntropyState(hi, lo)
  }

  /** init(seed): w := seed and x := 1; the lane words stay. */
  function Reseeded(s: State, seed: UInt64): (t: State)
    ensures Value(t.w) == seed && t.x == ONE
    ensures FirstLane(t) == FirstLane(s) && SecondLane(t) == SecondLane(s)
  {
    s.(w := FromValue(seed), x := ONE)
  }

  /** The engine. The entropy device is not modelled: every operation that
      reads it takes the two words it would deliver as parameters. */
  class Mxws {
    const rn: Width
    var x: Word, w: Word, x1: Word, x2: Word, w1: Word, w2: Word

    function Snapshot(): State
      reads this
    {
      State(x, w, x1, x2, w1, w2)
    }

    /** mxws(): init() from two entropy words. */
    constructor (rn: Width, hi: UInt32, lo: UInt32)
      ensures this.rn == rn
      ensures Snapshot() == EntropyState(hi, lo)
    {
      this.rn := rn;
      new;
      Init(hi, lo);
    }

    /** mxws(seed_seq). */
    constructor FromSeedSeq(rn: Width, seeds: seq<UInt32>, hi: UInt32, lo: UInt32)
      ensures this.rn == rn
      ensures Snapshot() == SeedSeqState(seeds, hi, lo)
    {
      this.rn := rn;
      new;
      if |seeds| == 2 {
        var reversed := [seeds[1], seeds[0]];
        w := Glue(reversed[1], reversed[0]);
        x := ONE;
        w1 := w;
        w2 := Add64(w1, ONE);
        x1, x2 := ONE, ONE;
      } else {
        Init(hi, lo);
      }
    }

    /** mxws(seed) for a uint64_t seed: the seed is ignored and the engine
        is built by init(). */
    constructor FromSeed(rn: Width, seed: UInt64, hi: UInt32, lo: UInt32)
      ensures this.rn == rn
      ensures Snapshot() == EntropyState(hi, lo)
    {
      this.rn := rn;
      new;
      Init(hi, lo);
    }

    /** init(). */
    method Init(hi: UInt32, lo: UInt32)
      modifies this
      ensures Snapshot() == EntropyState(hi, lo)
    {
      w := Glue(hi, lo);
      x := ONE;
      w1 := w;
      w2 := Add64(w1, ONE);
      x1, x2 := ONE, ONE;
    }

    /** seed(): init(), then x1 = x2 = 1 again. */
    method Seed(hi: UInt32, lo: UInt32)
      modifies this
      ensures Snapshot() == EntropyState(hi, lo)
    {
      Init(hi, lo);
      x1, x2 := ONE, ONE;
    }

    /** init(seed). */
    method InitWith(seed: UInt64)
      modifies this
      ensures Snapshot() == Reseeded(old(Snapshot()), seed)
    {
      w := FromValue(seed);
      x := ONE;
    }

    /** operator()() for RN = uint32_t (mxws.hpp:76): multiply x by w, swap
        the halves of the product into x, add x to w and return the low half
        of x. */
    method NextUint32() returns (r: UInt32)
      requires rn == U32
      modifies this
      ensures Snapshot() == Advance32(old(Snapshot()))
      ensures r == Output32(old(Snapshot()))
    {
      x := Mul64(x, w);
      x := RotateRight32(x);
      w := Add64(w, x);
      r := x.lo;
    }

    /** operator()() for RN = uint64_t. */
    method NextUint64() returns (r: UInt64)
      requires rn == U64
      modifies this
      ensures Snapshot() == Advance64(old(Snapshot()))
      ensures r == Output64(old(Snapshot()))
    {
      x1 := Mul64(x1, w1);
      x1 := RotateRight32(x1);
      w1 := Add64(w1, x1);

      x2 := Mul64(x2, w2);
      x2 := RotateRight32(x2);
      w2 := Add64(w2, x2);

      r := Value(Or(ShiftLeft32(x1), x2.lo));
    }

    /** (*this)(): the operator()() that RN selects. */
    method Next() returns (r: nat)
      modifies this
      ensures Snapshot() == Advance(rn, old(Snapshot()))
      ensures r == Output(rn, old(Snapshot()))
    {
      if rn == U32 {
        r := NextUint32();
      } else {
        r := NextUint64();
      }
    }

    /** n successive calls of (*this)(), as a caller makes them. */
    method Draws(n: nat) returns (values: seq<nat>)
      modifies this
      ensures Snapshot() == Run(rn, old(Snapshot()), n)
      ensures values == Outputs(rn, old(Snapshot()), n)
    {
      ghost var s0 := Snapshot();
      values := [];
      var i := 0;
      while i < n
        invariant 0 <= i <= n
        invariant Snapshot() == Run(rn, s0, i)
        invariant values == Outputs(rn, s0, i)
      {
        var v := Next();
        values := values + [v];
        i := i + 1;
      }
    }

    /** operator()(max) with T = int. */
    method NextUpTo(max: int) returns (r: int)
      requires IsInt(max) && max < INT_MAX && max != -1
      modifies this
      ensures Snapshot() == Advance(rn, old(Snapshot()))
      ensures r == UpTo(rn, Output(rn, old(Snapshot())), max)
      ensures 0 <= max ==> 0 <= r <= max
    {
      var draw := Next();
      r := UpTo(rn, draw, max);
    }

    /** operator()(min, max) with T = int. */
    method NextBetween(min: int, max: int) returns (r: int)
      requires IsInt(min) && IsInt(max)
      requires IsInt(max - min) && max - min < INT_MAX && max - min != -1
      modifies this
      ensures Snapshot() == Advance(rn, old(Snapshot()))
      ensures r == Between(rn, Output(rn, old(Snapshot())), min, max)
      ensures min <= max ==> min <= r <= max
    {
      var draw := Next();
      r := Between(rn, draw, min, max);
    }
  }

  /** Two engines built from the same two-value seed sequence deliver the same
      n values, whatever their entropy devices would have produced: the
      values depend on the seed sequence alone. */
  method Replay(rn: Width, seeds: seq<UInt32>, n: nat, hiA: UInt32, loA: UInt32, hiB: UInt32, loB: UInt32)
    returns (a: seq<nat>, b: seq<nat>)
    requires |seeds| == 2
    ensures a == b
    ensures a == Outputs(rn, SeedSeqState(seeds, hiA, loA), n)
  {
    var g := new Mxws.FromSeedSeq(rn, seeds, hiA, loA);
    var h := new Mxws.FromSeedSeq(rn, seeds, hiB, loB);
    a := g.Draws(n);
    b := h.Draws(n);
  }

  /** A 32-bit engine runs its lane (x, w) and leaves the lanes (x1, w1) and
      (x2, w2) as they were, however many draws it makes. */
  lemma {:induction false} Run32Lanes(s: State, n: nat)
    ensures MainLane(Run(U32, s, n)) == LaneRun(MainLane(s), n)
    ensures FirstLane(Run(U32, s, n)) == FirstLane(s)
    ensures SecondLane(Run(U32, s, n)) == SecondLane(s)
  {
    if n > 0 {
      Run32Lanes(s, n - 1);
    }
  }

  /** A 64-bit engine runs the lanes (x1, w1) and (x2, w2) independently of
      each other and leaves (x, w) as it was. */
  lemma {:induction false} Run64Lanes(s: State, n: nat)
    ensures FirstLane(Run(U64, s, n)) == LaneRun(FirstLane(s), n)
    ensures SecondLane(Run(U64, s, n)) == LaneRun(SecondLane(s), n)
    ensures MainLane(Run(U64, s, n)) == MainLane(s)
  {
    if n > 0 {
      Run64Lanes(s, n - 1);
    }
  }

  /** A value of the 64-bit operator()() is the 32-bit value of the lane
      (x1, w1) in its high half and that of the lane (x2, w2) in its low
      half. */
  lemma Output64Lanes(s: State)
    ensures Output64(s) == Value(Word(LaneOutput(FirstLane(s)), LaneOutput(SecondLane(s))))
  {
  }

  /** The j-th value of a 64-bit engine is two 32-bit streams side by side:
      its high half is the j-th value of a 32-bit engine started on (x1, w1),
      its low half the j-th value of one started on (x2, w2). */
  lemma TwoLanesMakeAWord(s: State, j: nat)
    ensures Output64(Run(U64, s, j))
      == Value(Word(Output32(Run(U32, s.(x := s.x1, w := s.w1), j)), Output32(Run(U32, s.(x := s.x2, w := s.w2), j))))
  {
    Run64Lanes(s, j);
    Run32Lanes(s.(x := s.x1, w := s.w1), j);
    Run32Lanes(s.(x := s.x2, w := s.w2), j);
    Output64Lanes(Run(U64, s, j));
  }

  /** A product with a zero factor is zero. */
  lemma MulByZero(a: Word, b: Word)
    requires a == ZERO || b == ZERO
    ensures Mul64(a, b) == ZERO
  {
    assert Value(a) * Value(b) == 0;
  }

  /** A draw on a lane with a zero x or w gives x = 0 and delivers 0. */
  lemma StuckStep(l: Lane)
    requires l.x == ZERO || l.w == ZERO
    ensures LaneStep(l).x == ZERO && LaneOutput(l) == 0
  {
    MulByZero(l.x, l.w);
  }

  /** A lane whose x or w is zero is stuck: its x is zero after the first
      draw, for ever, and every value it delivers is zero. */
  lemma {:induction false} StuckLane(l: Lane, n: nat)
    requires l.x == ZERO || l.w == ZERO
    ensures LaneRun(l, n + 1).x == ZERO
    ensures LaneOutput(LaneRun(l, n)) == 0
  {
    if n == 0 {
      StuckStep(l);
    } else {
      StuckLane(l, n - 1);
      StuckStep(LaneRun(l, n));
    }
  }

  /** The seed sequence {0, 0} makes a 32-bit engine deliver only zeros, and
      makes the high half of every value of a 64-bit engine zero. */
  lemma ZeroSeedIsStuck(hi: UInt32, lo: UInt32, j: nat)
    ensures Output32(Run(U32, SeedSeqState([0, 0], hi, lo), j)) == 0
    ensures Output64(Run(U64, SeedSeqState([0, 0], hi, lo), j)) < TWO_32
  {
    var s := SeedSeqState([0, 0], hi, lo);
    Run32Lanes(s, j);
    StuckLane(MainLane(s), j);
    Run64Lanes(s, j);
    StuckLane(FirstLane(s), j);
    Output64Lanes(Run(U64, s, j));
  }

  /** The seed sequence {0xFFFFFFFF, 0xFFFFFFFF} gives w = 2^64 - 1, so
      w2 = w1 + 1 wraps to zero. */
  lemma AllOnesSeedWrapsW2(hi: UInt32, lo: UInt32)
    ensures SecondLane(SeedSeqState([0xFFFF_FFFF, 0xFFFF_FFFF], hi, lo)).w == ZERO
  {
    var s := SeedSeqState([0xFFFF_FFFF, 0xFFFF_FFFF], hi, lo);
    assert s.w1 == Word(0xFFFF_FFFF, 0xFFFF_FFFF);
  }

  /** A 64-bit value whose second lane delivers zero has a zero low half. */
  lemma LowHalfZero(t: State)
    requires LaneOutput(SecondLane(t)) == 0
    ensures Output64(t) % TWO_32 == 0
  {
    Output64Lanes(t);
    var h := LaneOutput(FirstLane(t));
    assert Output64(t) == h * TWO_32;
  }

  /** The seed sequence {0xFFFFFFFF, 0xFFFFFFFF} makes the low half of every
      value of a 64-bit engine zero: its lane (x2, w2) starts with w2 = 0. */
  lemma AllOnesSeedIsStuck(hi: UInt32, lo: UInt32, j: nat)
    ensures Output64(Run(U64, SeedSeqState([0xFFFF_FFFF, 0xFFFF_FFFF], hi, lo), j)) % TWO_32 == 0
  {
    var s := SeedSeqState([0xFFFF_FFFF, 0xFFFF_FFFF], hi, lo);
    AllOnesSeedWrapsW2(hi, lo);
    Run64Lanes(s, j);
    StuckLane(SecondLane(s), j);
    LowHalfZero(Run(U64, s, j));
  }
}
