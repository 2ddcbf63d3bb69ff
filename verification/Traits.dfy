/** The encoding of small integers in the words of queues and hash tables, wrapped_traits of
    xrcu/utils.hpp: a value is zero-extended to 64 bits, and the words FREE and DELT and the bit
    XBIT are told apart from every value. */
module Traits {
  const XBIT: bv64 := 0x8000_0000_0000_0000
  const FREE: bv64 := !0 & !XBIT
  const DELT: bv64 := FREE >> 1

  /** The bits of a type narrower than a word, at most 32 of them: 0xff, 0xffff or 0xffff_ffff. */
  predicate Narrow(bits: bv64) {
    bits & 0xffff_ffff_0000_0000 == 0
  }

  /** make, for a two's complement value that may have been sign-extended: the cast to the
      unsigned type keeps the low bits only. */
  function Make(val: bv64, bits: bv64): bv64 {
    val & bits
  }

  /** get drops the XBIT and truncates. */
  function Get(w: bv64, bits: bv64): bv64 {
    w & !XBIT & bits
  }

  /** A value survives its encoding, whether or not its word has been marked since, and it is never
      taken for FREE or DELT. */
  lemma RoundTrip(val: bv64, bits: bv64)
    requires Narrow(bits)
    ensures Get(Make(val, bits), bits) == val & bits && Get(Make(val, bits) | XBIT, bits) == val & bits
    ensures Make(val, bits) & XBIT == 0
    ensures Make(val, bits) != FREE && Make(val, bits) != DELT
    ensures Make(val, bits) | XBIT != FREE && Make(val, bits) | XBIT != DELT
  {
  }

  /** The special words differ, carry no XBIT, and are recovered when the XBIT of a retired array is
      masked, as lookups and iterators do before they compare with them. */
  lemma Specials()
    ensures FREE != DELT && FREE & XBIT == 0 && DELT & XBIT == 0
    ensures (FREE | XBIT) & !XBIT == FREE && (DELT | XBIT) & !XBIT == DELT
  {
  }
}
