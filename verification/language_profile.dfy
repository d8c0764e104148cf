/**
 * The per-language n-gram profile consumed by the frequency aggregation.
 *
 * Its Java source is not part of this model; only the accessors the aggregation
 * calls are modelled: the locale, the set of tracked gram lengths, the gram
 * counts (`iterateGrams`) and the per-length totals (`getNumGramOccurrences`).
 */
module LanguageProfiles {
  import opened JavaStrings

  /** A `java.util.Locale`; only its identity matters here. */
  type Locale(==)

  datatype LanguageProfile = LanguageProfile(
    locale: Locale,
    gramLengths: set<int>,
    grams: map<string, nat>,
    totals: map<int, nat>)
  {
    /** Total number of gram occurrences of length `len`, 0 when none is recorded. */
    function NumGramOccurrences(len: int): nat {
      if len in totals then totals[len] else 0
    }

    /** The entries `iterateGrams(len)` yields: the grams whose Java length is `len`. */
    function GramsOfLength(len: int): (m: map<string, nat>)
      ensures forall g :: g in m <==> g in grams && Utf16Length(g) == len
      ensures forall g | g in m :: m[g] == grams[g]
    {
      map g | g in grams && Utf16Length(g) == len :: grams[g]
    }
  }

  /** A single supplementary character is a gram of length 2, not 1, for `iterateGrams`. */
  lemma SupplementaryCharIsBigram(p: LanguageProfile, c: char)
    requires [c] in p.grams && (c as int) >= SupplementaryBase
    ensures [c] in p.GramsOfLength(2) && [c] !in p.GramsOfLength(1)
  {
    SingleCharLength(c);
  }

  /** Every gram of a length in `lengths` has a non-zero total to be divided by. */
  ghost predicate TotalsPositive(p: LanguageProfile, lengths: seq<int>) {
    forall g | g in p.grams && Utf16Length(g) in lengths :: p.NumGramOccurrences(Utf16Length(g)) > 0
  }

  /** Every recorded gram has been observed at least once. */
  ghost predicate CountsPositive(p: LanguageProfile) {
    forall g | g in p.grams :: p.grams[g] >= 1
  }
}
