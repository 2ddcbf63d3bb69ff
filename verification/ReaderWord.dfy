/** The 64-bit words of src/xrcu.cpp that pack a grace-period phase (the top bit) and a nesting
    count (the other bits). The protocol model works on the two parts; the lemmas below show that
    its operations are the bit operations that the code performs on the packed word. */
module ReaderWord {
  const GP_PHASE_BIT: bv64 := 0x8000_0000_0000_0000
  const GP_NEST_MASK: bv64 := 0x7fff_ffff_ffff_ffff

  type Nest = n: bv64 | n <= GP_NEST_MASK

  datatype Word = Word(phase: bool, nest: Nest)

  const ZERO := Word(false, 0)
  const ONE := Word(false, 1)

  predicate InCs(w: Word) {
    w.nest != 0
  }

  predicate SamePhase(val: Word, ctr: Word) {
    val.phase == ctr.phase
  }

  function Nested(w: Word): Word
    requires w.nest != GP_NEST_MASK
  {
    w.(nest := w.nest + 1)
  }

  function Exited(w: Word): Word
    requires InCs(w)
  {
    w.(nest := w.nest - 1)
  }

  function Flipped(w: Word): Word {
    w.(phase := !w.phase)
  }

  /** The two parts of a packed word. */
  function Unpack(x: bv64): Word {
    MaskFits(x);
    Word(x & GP_PHASE_BIT != 0, x & GP_NEST_MASK)
  }

  lemma MaskFits(x: bv64)
    ensures x & GP_NEST_MASK <= GP_NEST_MASK
  {
  }

  /** The tests of tl_data::state and in_cs, on packed words. */
  lemma PackedTests(x: bv64, y: bv64)
    ensures InCs(Unpack(x)) <==> x & GP_NEST_MASK != 0
    ensures SamePhase(Unpack(x), Unpack(y)) <==> (x ^ y) & GP_PHASE_BIT == 0
  {
  }

  lemma AddOne(x: bv64)
    requires x & GP_NEST_MASK != GP_NEST_MASK
    ensures (x + 1) & GP_NEST_MASK == (x & GP_NEST_MASK) + 1
    ensures (x + 1) & GP_PHASE_BIT == x & GP_PHASE_BIT
  {
  }

  lemma AddOneOverflows(x: bv64)
    requires x & GP_NEST_MASK == GP_NEST_MASK
    ensures (x + 1) & GP_NEST_MASK == 0
    ensures ((x + 1) & GP_PHASE_BIT != 0) != (x & GP_PHASE_BIT != 0)
  {
  }

  lemma SubtractOne(x: bv64)
    requires x & GP_NEST_MASK != 0
    ensures (x - 1) & GP_NEST_MASK == (x & GP_NEST_MASK) - 1
    ensures (x - 1) & GP_PHASE_BIT == x & GP_PHASE_BIT
  {
  }

  lemma FlipBit(x: bv64)
    ensures (x ^ GP_PHASE_BIT) & GP_NEST_MASK == x & GP_NEST_MASK
    ensures ((x ^ GP_PHASE_BIT) & GP_PHASE_BIT != 0) != (x & GP_PHASE_BIT != 0)
  {
  }

  /** Adding one to the packed word nests exactly while the count fits; at the largest count it
      leaves the section and flips the phase. */
  lemma PackedEnter(x: bv64)
    ensures if Unpack(x).nest != GP_NEST_MASK then Unpack(x + 1) == Nested(Unpack(x))
            else Unpack(x + 1) == Flipped(Word(Unpack(x).phase, 0))
  {
    if x & GP_NEST_MASK != GP_NEST_MASK {
      AddOne(x);
    } else {
      AddOneOverflows(x);
    }
  }

  lemma PackedExit(x: bv64)
    requires InCs(Unpack(x))
    ensures Unpack(x - 1) == Exited(Unpack(x))
  {
    SubtractOne(x);
  }

  lemma PackedFlip(x: bv64)
    ensures Unpack(x ^ GP_PHASE_BIT) == Flipped(Unpack(x))
  {
    FlipBit(x);
  }
}
