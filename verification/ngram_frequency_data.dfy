/**
 * `NgramFrequencyData`: the immutable cross-language table built from a batch of
 * language profiles. Each n-gram maps to one vector holding, at position i, its
 * relative frequency in the i-th profile; languages that do not know the n-gram
 * hold 0 there. N-grams no profile knows have no vector at all.
 */
module NgramFrequency {
  import opened Wrappers
  import opened LanguageProfiles
  import opened JavaStrings

  /** The n-gram to probability-vector map under construction. */
  type Table = map<string, seq<real>>

  /** The `IllegalArgumentException`s `create` throws. */
  datatype Error =
    | NoLanguageProfiles
    | NoGramLengths
    | MissingGramLength(locale: Locale, gramLength: int)

  /** The built table: the language order and the per-n-gram vectors in that order. */
  datatype FreqData = FreqData(languages: seq<Locale>, probs: Table)
  {
    /** `getLanguageList`: the languages in vector-slot order. */
    function GetLanguageList(): seq<Locale> {
      languages
    }

    /** `getLanguage(pos)`; an index outside the list is Java's `IndexOutOfBoundsException`. */
    function GetLanguage(pos: int): (r: Option<Locale>)
      ensures r.Some? <==> 0 <= pos < |languages|
      ensures r.Some? ==> r.value == languages[pos]
    {
      if 0 <= pos < |languages| then Some(languages[pos]) else None
    }

    /** `getProbabilities(ngram)`: the vector, or `null` (None) when no profile knows the n-gram. */
    function GetProbabilities(ngram: string): (r: Option<seq<real>>)
      ensures r.Some? <==> ngram in probs
      ensures r.Some? ==> r.value == probs[ngram]
    {
      if ngram in probs then Some(probs[ngram]) else None
    }
  }

  // ---------------------------------------------------------------------------
  // Reference definition of the table

  /** Profile `p` contributes `ngram` when it records it at one of the requested lengths. */
  ghost predicate Knows(p: LanguageProfile, lengths: seq<int>, ngram: string) {
    ngram in p.grams && Utf16Length(ngram) in lengths
  }

  /** Count of `ngram` relative to all grams of the same length in `p`. */
  function RelFreq(p: LanguageProfile, ngram: string): real
    requires ngram in p.grams && p.NumGramOccurrences(Utf16Length(ngram)) > 0
  {
    p.grams[ngram] as real / p.NumGramOccurrences(Utf16Length(ngram)) as real
  }

  /** The value slot j of the vector for `ngram` must hold. */
  ghost function Expected(profiles: seq<LanguageProfile>, lengths: seq<int>, ngram: string, j: nat): real
    requires j < |profiles| && TotalsPositive(profiles[j], lengths)
  {
    if Knows(profiles[j], lengths, ngram) then RelFreq(profiles[j], ngram) else 0.0
  }

  ghost predicate AllTotalsPositive(profiles: seq<LanguageProfile>, lengths: seq<int>) {
    forall i | 0 <= i < |profiles| :: TotalsPositive(profiles[i], lengths)
  }

  /**
   * `table` is the result of processing the first `done` profiles: it has a key
   * exactly for the n-grams one of them knows, every vector has one slot per
   * profile, processed slots hold the expected value and the others are still 0.
   */
  ghost predicate Built(profiles: seq<LanguageProfile>, lengths: seq<int>, done: nat, table: Table)
    requires done <= |profiles| && AllTotalsPositive(profiles, lengths)
  {
    && (forall g :: g in table <==> exists j | 0 <= j < done :: Knows(profiles[j], lengths, g))
    && (forall g | g in table :: |table[g]| == |profiles|)
    && (forall g, j | g in table && 0 <= j < |profiles| ::
          table[g][j] == if j < done then Expected(profiles, lengths, g, j) else 0.0)
  }

  /** `data` is the table for `profiles` and `lengths`, with the languages in input order. */
  ghost predicate Describes(data: FreqData, profiles: seq<LanguageProfile>, lengths: seq<int>)
    requires AllTotalsPositive(profiles, lengths)
  {
    && |data.languages| == |profiles|
    && (forall i | 0 <= i < |profiles| :: data.languages[i] == profiles[i].locale)
    && Built(profiles, lengths, |profiles|, data.probs)
  }

  /** Profile `p` tracks every requested gram length. */
  ghost predicate TracksAll(p: LanguageProfile, lengths: seq<int>) {
    forall k | 0 <= k < |lengths| :: lengths[k] in p.gramLengths
  }

  /** `lengths[k]` is the first requested length `p` does not track. */
  ghost predicate FirstMissingLength(p: LanguageProfile, lengths: seq<int>, k: int) {
    && 0 <= k < |lengths|
    && lengths[k] !in p.gramLengths
    && (forall k' | 0 <= k' < k :: lengths[k'] in p.gramLengths)
  }

  /** (i, k) is the first (profile, length) pair in iteration order where the profile lacks the length. */
  ghost predicate FirstMissing(profiles: seq<LanguageProfile>, lengths: seq<int>, i: int, k: int) {
    && 0 <= i < |profiles|
    && (forall i' | 0 <= i' < i :: TracksAll(profiles[i'], lengths))
    && FirstMissingLength(profiles[i], lengths, k)
  }

  // ---------------------------------------------------------------------------
  // Construction

  /** A fresh vector, `new double[size]`. */
  function Zeros(size: nat): (v: seq<real>)
    ensures |v| == size && forall j | 0 <= j < size :: v[j] == 0.0
  {
    seq(size, _ => 0.0)
  }

  /** Slot j of the vector for `ngram` before a write: 0 when no vector is allocated yet. */
  function Prior(table: Table, ngram: string, j: nat): real {
    if ngram in table && j < |table[ngram]| then table[ngram][j] else 0.0
  }

  predicate SizedVectors(table: Table, size: nat) {
    forall g | g in table :: |table[g]| == size
  }

  /**
   * The innermost loop: writes profile `index`'s relative frequency of every gram
   * of length `len` into slot `index`, allocating a zero vector only for keys not
   * yet present, so no other slot of any vector changes.
   */
  function PutGrams(table: Table, p: LanguageProfile, index: nat, size: nat, len: int): (r: Table)
    requires index < size && SizedVectors(table, size)
    requires forall g | g in p.grams && Utf16Length(g) == len :: p.NumGramOccurrences(len) > 0
    ensures r.Keys == table.Keys + p.GramsOfLength(len).Keys
    ensures SizedVectors(r, size)
    ensures forall g, j | g in r && 0 <= j < size && j != index :: r[g][j] == Prior(table, g, j)
    ensures forall g | g in r ::
              r[g][index] == if g in p.grams && Utf16Length(g) == len then RelFreq(p, g) else Prior(table, g, index)
  {
    var r := map g | g in table.Keys + p.GramsOfLength(len).Keys :: Written(table, p, index, size, len, g);
    assert forall g | g in r :: r[g] == Written(table, p, index, size, len, g);
    r
  }

  /** The vector for `ngram` after profile `index` wrote its grams of length `len`. */
  function Written(table: Table, p: LanguageProfile, index: nat, size: nat, len: int, ngram: string): (v: seq<real>)
    requires index < size && SizedVectors(table, size)
    requires forall g | g in p.grams && Utf16Length(g) == len :: p.NumGramOccurrences(len) > 0
    requires ngram in table || (ngram in p.grams && Utf16Length(ngram) == len)
    ensures |v| == size
    ensures forall j | 0 <= j < size && j != index :: v[j] == Prior(table, ngram, j)
    ensures v[index] == if ngram in p.grams && Utf16Length(ngram) == len then RelFreq(p, ngram) else Prior(table, ngram, index)
  {
    if ngram in p.grams && Utf16Length(ngram) == len then
      (if ngram in table then table[ngram] else Zeros(size))[index := RelFreq(p, ngram)]
    else table[ngram]
  }

  /**
   * The loop over the requested gram lengths for profile `index`: fails on the
   * first length the profile does not track, otherwise writes slot `index` of
   * every gram of each requested length.
   */
  function PutLengths(table: Table, p: LanguageProfile, index: nat, size: nat, lengths: seq<int>)
    : (r: Result<Table, Error>)
    requires index < size && SizedVectors(table, size)
    requires TotalsPositive(p, lengths)
    decreases |lengths|
    ensures r.Success? ==> SizedVectors(r.value, size)
  {
    if |lengths| == 0 then Success(table)
    else if lengths[0] !in p.gramLengths then Failure(MissingGramLength(p.locale, lengths[0]))
    else
      TotalsPositiveSplit(p, lengths);
      PutLengths(PutGrams(table, p, index, size, lengths[0]), p, index, size, lengths[1..])
  }

  lemma TotalsPositiveSplit(p: LanguageProfile, lengths: seq<int>)
    requires |lengths| > 0 && TotalsPositive(p, lengths)
    ensures TotalsPositive(p, lengths[1..])
    ensures forall g | g in p.grams && Utf16Length(g) == lengths[0] :: p.NumGramOccurrences(lengths[0]) > 0
  {
    forall g | g in p.grams && Utf16Length(g) in lengths[1..] ensures p.NumGramOccurrences(Utf16Length(g)) > 0 {
      assert Utf16Length(g) in lengths;
    }
  }

  /** `PutLengths` fails exactly when a requested length is untracked, naming the first one. */
  lemma {:induction false} PutLengthsFailure(table: Table, p: LanguageProfile, index: nat, size: nat, lengths: seq<int>)
    requires index < size && SizedVectors(table, size)
    requires TotalsPositive(p, lengths)
    decreases |lengths|
    ensures PutLengths(table, p, index, size, lengths).Success? <==> TracksAll(p, lengths)
    ensures var r := PutLengths(table, p, index, size, lengths);
            r.Failure? ==>
              exists k | FirstMissingLength(p, lengths, k) :: r.error == MissingGramLength(p.locale, lengths[k])
  {
    if |lengths| > 0 && lengths[0] in p.gramLengths {
      TotalsPositiveSplit(p, lengths);
      var t := PutGrams(table, p, index, size, lengths[0]);
      PutLengthsFailure(t, p, index, size, lengths[1..]);
      var r := PutLengths(t, p, index, size, lengths[1..]);
      assert PutLengths(table, p, index, size, lengths) == r;
      if r.Failure? {
        var k :| FirstMissingLength(p, lengths[1..], k) && r.error == MissingGramLength(p.locale, lengths[1..][k]);
        forall k' | 0 <= k' < k + 1 ensures lengths[k'] in p.gramLengths {
          if k' > 0 { assert lengths[k'] == lengths[1..][k' - 1]; }
        }
        assert FirstMissingLength(p, lengths, k + 1);
      } else {
        forall k | 0 <= k < |lengths| ensures lengths[k] in p.gramLengths {
          if k > 0 { assert lengths[k] == lengths[1..][k - 1]; }
        }
      }
    } else if |lengths| > 0 {
      assert FirstMissingLength(p, lengths, 0);
    }
  }

  /**
   * A successful `PutLengths` adds exactly the grams `p` knows, writes their
   * relative frequency into slot `index` and leaves every other slot as it was.
   */
  lemma {:induction false} PutLengthsWrites(table: Table, p: LanguageProfile, index: nat, size: nat, lengths: seq<int>)
    requires index < size && SizedVectors(table, size)
    requires TotalsPositive(p, lengths)
    requires PutLengths(table, p, index, size, lengths).Success?
    decreases |lengths|
    ensures var t := PutLengths(table, p, index, size, lengths).value;
            && (forall g :: g in t <==> g in table || Knows(p, lengths, g))
            && (forall g, j | g in t && 0 <= j < size && j != index :: t[g][j] == Prior(table, g, j))
            && (forall g | g in t :: t[g][index] == if Knows(p, lengths, g) then RelFreq(p, g) else Prior(table, g, index))
  {
    if |lengths| > 0 {
      TotalsPositiveSplit(p, lengths);
      var t1 := PutGrams(table, p, index, size, lengths[0]);
      PutLengthsWrites(t1, p, index, size, lengths[1..]);
      var t := PutLengths(t1, p, index, size, lengths[1..]).value;
      assert PutLengths(table, p, index, size, lengths).value == t;
      forall g ensures Knows(p, lengths, g) <==> (g in p.grams && Utf16Length(g) == lengths[0]) || Knows(p, lengths[1..], g) {
        assert lengths == [lengths[0]] + lengths[1..];
      }
      forall g, j | g in t && 0 <= j < size ensures Prior(t1, g, j) == if j == index && g in p.grams && Utf16Length(g) == lengths[0] then RelFreq(p, g) else Prior(table, g, j) {
      }
    }
  }

  /**
   * The outer loop over the profiles from position `index` on; `table` holds what
   * the profiles before it wrote.
   */
  function PutProfiles(profiles: seq<LanguageProfile>, lengths: seq<int>, index: nat, table: Table)
    : (r: Result<Table, Error>)
    requires index <= |profiles| && AllTotalsPositive(profiles, lengths)
    requires SizedVectors(table, |profiles|)
    decreases |profiles| - index
    ensures r.Success? ==> SizedVectors(r.value, |profiles|)
  {
    if index == |profiles| then Success(table)
    else
      match PutLengths(table, profiles[index], index, |profiles|, lengths)
      case Failure(e) => Failure(e)
      case Success(t) => PutProfiles(profiles, lengths, index + 1, t)
  }

  /** One pass of the outer loop turns the table for `index` profiles into the one for `index + 1`. */
  lemma BuiltStep(profiles: seq<LanguageProfile>, lengths: seq<int>, index: nat, table: Table)
    requires index < |profiles| && AllTotalsPositive(profiles, lengths)
    requires Built(profiles, lengths, index, table)
    requires PutLengths(table, profiles[index], index, |profiles|, lengths).Success?
    ensures Built(profiles, lengths, index + 1, PutLengths(table, profiles[index], index, |profiles|, lengths).value)
  {
    var p := profiles[index];
    var n := |profiles|;
    var t := PutLengths(table, p, index, n, lengths).value;
    PutLengthsWrites(table, p, index, n, lengths);
    forall g ensures g in t <==> exists j | 0 <= j < index + 1 :: Knows(profiles[j], lengths, g) {
      if g in t && !Knows(p, lengths, g) {
        assert g in table;
        var j :| 0 <= j < index && Knows(profiles[j], lengths, g);
      }
      if exists j | 0 <= j < index + 1 :: Knows(profiles[j], lengths, g) {
        var j :| 0 <= j < index + 1 && Knows(profiles[j], lengths, g);
        if j < index { assert g in table; }
      }
    }
    forall g, j | g in t && 0 <= j < n
      ensures t[g][j] == if j < index + 1 then Expected(profiles, lengths, g, j) else 0.0
    {
      if j != index && g !in table && j < index {
        assert !Knows(profiles[j], lengths, g);
      }
    }
  }

  /** Processing the remaining profiles from a correct partial table yields the full table. */
  lemma {:induction false} PutProfilesBuilds(profiles: seq<LanguageProfile>, lengths: seq<int>, index: nat, table: Table)
    requires index <= |profiles| && AllTotalsPositive(profiles, lengths)
    requires Built(profiles, lengths, index, table)
    requires PutProfiles(profiles, lengths, index, table).Success?
    decreases |profiles| - index
    ensures Built(profiles, lengths, |profiles|, PutProfiles(profiles, lengths, index, table).value)
  {
    if index < |profiles| {
      BuiltStep(profiles, lengths, index, table);
      var t := PutLengths(table, profiles[index], index, |profiles|, lengths).value;
      PutProfilesBuilds(profiles, lengths, index + 1, t);
    }
  }

  /** The outer loop succeeds exactly when every profile from `index` on tracks every requested length. */
  lemma {:induction false} PutProfilesSuccess(profiles: seq<LanguageProfile>, lengths: seq<int>, index: nat, table: Table)
    requires index <= |profiles| && AllTotalsPositive(profiles, lengths)
    requires SizedVectors(table, |profiles|)
    decreases |profiles| - index
    ensures PutProfiles(profiles, lengths, index, table).Success? <==>
              forall i | index <= i < |profiles| :: TracksAll(profiles[i], lengths)
  {
    if index < |profiles| {
      PutLengthsFailure(table, profiles[index], index, |profiles|, lengths);
      var step := PutLengths(table, profiles[index], index, |profiles|, lengths);
      if step.Success? {
        PutProfilesSuccess(profiles, lengths, index + 1, step.value);
      }
    }
  }

  /** When the outer loop fails, it names the first profile from `index` on that misses a length, and that length. */
  lemma {:induction false} PutProfilesFailure(profiles: seq<LanguageProfile>, lengths: seq<int>, index: nat, table: Table)
    requires index <= |profiles| && AllTotalsPositive(profiles, lengths)
    requires SizedVectors(table, |profiles|)
    requires PutProfiles(profiles, lengths, index, table).Failure?
    decreases |profiles| - index
    ensures var e := PutProfiles(profiles, lengths, index, table).error;
            exists i, k | index <= i < |profiles| && FirstMissingLength(profiles[i], lengths, k) ::
              && (forall i' | index <= i' < i :: TracksAll(profiles[i'], lengths))
              && e == MissingGramLength(profiles[i].locale, lengths[k])
  {
    var p := profiles[index];
    PutLengthsFailure(table, p, index, |profiles|, lengths);
    var step := PutLengths(table, p, index, |profiles|, lengths);
    if step.Success? {
      PutProfilesFailure(profiles, lengths, index + 1, step.value);
    } else {
      var k :| FirstMissingLength(p, lengths, k) && step.error == MissingGramLength(p.locale, lengths[k]);
      assert FirstMissingLength(profiles[index], lengths, k);
    }
  }

  /**
   * `NgramFrequencyData.create`: validates the inputs, fixes the language order
   * and builds the table, failing fast on the first profile/length pair where the
   * profile does not track a requested length.
   */
  function Create(profiles: seq<LanguageProfile>, lengths: seq<int>): (r: Result<FreqData, Error>)
    requires AllTotalsPositive(profiles, lengths)
    ensures r == Failure(NoLanguageProfiles) <==> |profiles| == 0
    ensures r == Failure(NoGramLengths) <==> |profiles| > 0 && |lengths| == 0
    ensures r.Success? <==>
              |profiles| > 0 && |lengths| > 0 && forall i | 0 <= i < |profiles| :: TracksAll(profiles[i], lengths)
    ensures r.Failure? && r.error.MissingGramLength? ==>
              exists i, k | FirstMissing(profiles, lengths, i, k) ::
                r.error == MissingGramLength(profiles[i].locale, lengths[k])
    ensures r.Success? ==> Describes(r.value, profiles, lengths)
  {
    if |profiles| == 0 then Failure(NoLanguageProfiles)
    else if |lengths| == 0 then Failure(NoGramLengths)
    else
      var langlist := seq(|profiles|, i requires 0 <= i < |profiles| => profiles[i].locale);
      PutProfilesSuccess(profiles, lengths, 0, map[]);
      var r := PutProfiles(profiles, lengths, 0, map[]);
      if r.Failure? then
        PutProfilesFailure(profiles, lengths, 0, map[]);
        Failure(r.error)
      else
        PutProfilesBuilds(profiles, lengths, 0, map[]);
        Success(FreqData(langlist, r.value))
  }

  // ---------------------------------------------------------------------------
  // Properties of a built table, as seen through the query surface

  /** The language list is the profiles' locales in input order, and `getLanguage` agrees with it at every position. */
  lemma LanguageOrder(profiles: seq<LanguageProfile>, lengths: seq<int>)
    requires AllTotalsPositive(profiles, lengths) && Create(profiles, lengths).Success?
    ensures var data := Create(profiles, lengths).value;
            && |data.GetLanguageList()| == |profiles|
            && forall pos | 0 <= pos < |profiles| ::
                 data.GetLanguage(pos) == Some(data.GetLanguageList()[pos]) &&
                 data.GetLanguageList()[pos] == profiles[pos].locale
  {
  }

  /** `getProbabilities(g)` is null exactly when no profile records `g` at a requested length. */
  lemma AbsentIffUnknown(profiles: seq<LanguageProfile>, lengths: seq<int>, ngram: string)
    requires AllTotalsPositive(profiles, lengths) && Create(profiles, lengths).Success?
    ensures Create(profiles, lengths).value.GetProbabilities(ngram).None? <==>
              forall i | 0 <= i < |profiles| :: ngram !in profiles[i].grams || Utf16Length(ngram) !in lengths
  {
  }

  /** An n-gram of a length that was not requested is never in the table. */
  lemma WrongLengthAbsent(profiles: seq<LanguageProfile>, lengths: seq<int>, ngram: string)
    requires AllTotalsPositive(profiles, lengths) && Create(profiles, lengths).Success?
    requires Utf16Length(ngram) !in lengths
    ensures Create(profiles, lengths).value.GetProbabilities(ngram) == None
  {
  }

  /**
   * Slot i of a returned vector is the n-gram's count in profile i over that
   * profile's total for the n-gram's length, or 0 when profile i lacks it.
   */
  lemma SlotValue(profiles: seq<LanguageProfile>, lengths: seq<int>, ngram: string, i: nat)
    requires AllTotalsPositive(profiles, lengths) && Create(profiles, lengths).Success?
    requires Create(profiles, lengths).value.GetProbabilities(ngram).Some? && i < |profiles|
    ensures var v := Create(profiles, lengths).value.GetProbabilities(ngram).value;
            && |v| == |profiles|
            && (ngram in profiles[i].grams ==>
                  profiles[i].NumGramOccurrences(Utf16Length(ngram)) > 0 &&
                  v[i] == profiles[i].grams[ngram] as real / profiles[i].NumGramOccurrences(Utf16Length(ngram)) as real)
            && (ngram !in profiles[i].grams ==> v[i] == 0.0)
  {
    var data := Create(profiles, lengths).value;
    assert ngram in data.probs;
    assert exists j | 0 <= j < |profiles| :: Knows(profiles[j], lengths, ngram);
  }

  /**
   * When every recorded count is at least 1, each stored vector is non-negative
   * and has a positive slot, so a present vector is never all zero.
   */
  lemma VectorNotAllZero(profiles: seq<LanguageProfile>, lengths: seq<int>, ngram: string)
    requires AllTotalsPositive(profiles, lengths) && Create(profiles, lengths).Success?
    requires forall i | 0 <= i < |profiles| :: CountsPositive(profiles[i])
    requires Create(profiles, lengths).value.GetProbabilities(ngram).Some?
    ensures var v := Create(profiles, lengths).value.GetProbabilities(ngram).value;
            && (forall i | 0 <= i < |v| :: v[i] >= 0.0)
            && (exists i | 0 <= i < |v| :: v[i] > 0.0)
  {
    var data := Create(profiles, lengths).value;
    var v := data.probs[ngram];
    forall i | 0 <= i < |v| ensures v[i] >= 0.0 {
      if Knows(profiles[i], lengths, ngram) {
        PositiveQuotient(profiles[i], ngram);
      }
    }
    var j :| 0 <= j < |profiles| && Knows(profiles[j], lengths, ngram);
    PositiveQuotient(profiles[j], ngram);
    assert v[j] > 0.0;
  }

  lemma PositiveQuotient(p: LanguageProfile, ngram: string)
    requires ngram in p.grams && p.NumGramOccurrences(Utf16Length(ngram)) > 0 && p.grams[ngram] >= 1
    ensures RelFreq(p, ngram) > 0.0
  {
  }

  /**
   * Worked example: "en" with {"th": 10, "he": 5} over 15 bigrams and "fr" with
   * {"le": 8} over 8 bigrams, aggregated over length 2.
   */
  lemma TwoLanguageExample(en: LanguageProfile, fr: LanguageProfile)
    requires en.grams == map["th" := 10, "he" := 5] && en.totals == map[2 := 15] && 2 in en.gramLengths
    requires fr.grams == map["le" := 8] && fr.totals == map[2 := 8] && 2 in fr.gramLengths
    ensures AllTotalsPositive([en, fr], [2])
    ensures var r := Create([en, fr], [2]);
            && r.Success?
            && r.value.GetLanguageList() == [en.locale, fr.locale]
            && r.value.GetProbabilities("th") == Some([10.0 / 15.0, 0.0])
            && r.value.GetProbabilities("he") == Some([5.0 / 15.0, 0.0])
            && r.value.GetProbabilities("le") == Some([0.0, 1.0])
            && r.value.GetProbabilities("xy") == None
  {
    var profiles := [en, fr];
    ExampleSlots(en, fr);
    var r := Create(profiles, [2]);
    assert r.Success?;
    ExampleLanguages(profiles, [2], r.value);
    ExampleVector(profiles, [2], r.value, "th", 10.0 / 15.0, 0.0);
    ExampleVector(profiles, [2], r.value, "he", 5.0 / 15.0, 0.0);
    ExampleVector(profiles, [2], r.value, "le", 0.0, 1.0);
    ExampleAbsent(profiles, [2], r.value, "xy");
  }

  lemma ExampleLanguages(profiles: seq<LanguageProfile>, lengths: seq<int>, data: FreqData)
    requires |profiles| == 2 && AllTotalsPositive(profiles, lengths) && Describes(data, profiles, lengths)
    ensures data.GetLanguageList() == [profiles[0].locale, profiles[1].locale]
  {
  }

  lemma ExampleAbsent(profiles: seq<LanguageProfile>, lengths: seq<int>, data: FreqData, ngram: string)
    requires |profiles| == 2 && AllTotalsPositive(profiles, lengths) && Describes(data, profiles, lengths)
    requires !Knows(profiles[0], lengths, ngram) && !Knows(profiles[1], lengths, ngram)
    ensures data.GetProbabilities(ngram) == None
  {
  }

  lemma ExampleSlots(en: LanguageProfile, fr: LanguageProfile)
    requires en.grams == map["th" := 10, "he" := 5] && en.totals == map[2 := 15] && 2 in en.gramLengths
    requires fr.grams == map["le" := 8] && fr.totals == map[2 := 8] && 2 in fr.gramLengths
    ensures var profiles := [en, fr];
            && AllTotalsPositive(profiles, [2])
            && TracksAll(profiles[0], [2]) && TracksAll(profiles[1], [2])
            && Knows(profiles[0], [2], "th") && Knows(profiles[0], [2], "he") && Knows(profiles[1], [2], "le")
            && Expected(profiles, [2], "th", 0) == 10.0 / 15.0 && Expected(profiles, [2], "th", 1) == 0.0
            && Expected(profiles, [2], "he", 0) == 5.0 / 15.0 && Expected(profiles, [2], "he", 1) == 0.0
            && Expected(profiles, [2], "le", 0) == 0.0 && Expected(profiles, [2], "le", 1) == 1.0
            && !Knows(profiles[0], [2], "xy") && !Knows(profiles[1], [2], "xy")
  {
    assert Utf16Length("th") == 2 && Utf16Length("he") == 2 && Utf16Length("le") == 2;
    assert "th" != "he" && "th" != "le" && "he" != "le";
    assert "xy" != "th" && "xy" != "he" && "xy" != "le";
  }

  lemma ExampleVector(profiles: seq<LanguageProfile>, lengths: seq<int>, data: FreqData, ngram: string, a: real, b: real)
    requires |profiles| == 2 && AllTotalsPositive(profiles, lengths) && Describes(data, profiles, lengths)
    requires Knows(profiles[0], lengths, ngram) || Knows(profiles[1], lengths, ngram)
    requires Expected(profiles, lengths, ngram, 0) == a && Expected(profiles, lengths, ngram, 1) == b
    ensures data.GetProbabilities(ngram) == Some([a, b])
  {
    assert ngram in data.probs;
    assert data.probs[ngram] == [a, b];
  }
}
