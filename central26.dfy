/**
 * How many of the central 26-tone RUs the equal-split assignments hand out
 * beside the equal-sized RUs. The rule is the same in every scheduler file:
 * none when central RUs are disabled or every candidate already has an RU,
 * otherwise as many as are left over, capped by what the tone plan offers.
 * The subtraction is on `std::size_t` and wraps modulo 2^64.
 */
module Central26 {

  /** `std::size_t` values lie below this bound; arithmetic on them wraps modulo it. */
  const SizeModulus: nat := 0x1_0000_0000_0000_0000

  predicate IsSize(x: nat)
  {
    x < SizeModulus
  }

  /** A `std::size_t` value. */
  type Size = x: nat | IsSize(x)

  /** `a - b` on `std::size_t`. */
  function SizeSub(a: nat, b: nat): (r: nat)
    requires IsSize(a) && IsSize(b)
    ensures IsSize(r)
    ensures b <= a ==> r == a - b
    ensures a < b ==> r == SizeModulus - (b - a)
  {
    (a - b) % SizeModulus
  }

  function Min(a: nat, b: nat): nat
  {
    if a < b then a else b
  }

  /**
   * `nCentral26TonesRus` after the scheduler's correction, given the number
   * of candidates, the number of equal-sized RUs the library settled on and
   * the number of central 26-tone RUs the library reported.
   */
  function CentralCount(useCentral26: bool, nCandidates: nat, nRus: nat, libCentral: nat): nat
    requires IsSize(nCandidates) && IsSize(nRus)
  {
    if !useCentral26 || nCandidates == nRus then 0
    else Min(SizeSub(nCandidates, nRus), libCentral)
  }

  /**
   * When the library leaves no more RUs than candidates, the equal-sized and
   * the central RUs together never outnumber the candidates, and central RUs
   * go only to candidates that got no equal-sized RU. When it reports more
   * RUs than candidates, the wrapped subtraction lets the library's (small)
   * count through unchanged.
   */
  lemma CentralCountFits(useCentral26: bool, nCandidates: nat, nRus: nat, libCentral: nat)
    requires IsSize(nCandidates) && IsSize(nRus) && IsSize(libCentral)
    ensures var r := CentralCount(useCentral26, nCandidates, nRus, libCentral);
            (!useCentral26 ==> r == 0) &&
            (nRus <= nCandidates ==> nRus + r <= nCandidates && r <= libCentral) &&
            (useCentral26 && nRus < nCandidates ==>
               r == if nCandidates - nRus < libCentral then nCandidates - nRus else libCentral) &&
            (useCentral26 && nCandidates < nRus && nRus + libCentral < SizeModulus ==> r == libCentral)
  {
  }
}
