# Language-identification data layer, modelled in Dafny

This project models the data layer of the `com.optimaize.langdetect` language
detector. It has three parts:

- **`NgramFrequencyData.create`** (`ngram_frequency_data.dfy`, module `NgramFrequency`).
  It takes an ordered batch of language profiles and a list of gram lengths. It
  returns either an `IllegalArgumentException` (modelled as `Error`) or an
  table (a Dafny value; see "## Left out" for the shared arrays Java hands out). The table pairs the languages, in input order, with a map from
  each n-gram to a vector. Slot i of that vector holds the n-gram's relative
  frequency in the i-th profile: its count divided by that profile's total for
  grams of the same length.
  - A vector is allocated zero-filled the first time an n-gram is seen. Later
    profiles only write their own slot.
  - An n-gram that no profile knows at a requested length has no vector (`null`).
    This is different from a vector of zeros.
  - The recursive functions `PutProfiles` and `PutLengths` follow the two outer
    loops of `create`, and the map comprehension `PutGrams` is the innermost one. `Built` and `Describes` give an independent
    definition of the finished table.
- **`LanguageProfileReader`** (`language_profile_reader.dfy`, module `ProfileReader`).
  This is bulk profile loading.
  - Loading from class-path resources is all-or-nothing and keeps the input
    order. A resource path is the directory, one `/`, then the file name.
  - Built-in profiles are looked up under `languages` by each locale's language tag.
  - Folder scanning keeps regular files whose names contain no `.` and pass the
    locale-tag check, in listing order.
- **`LangProfile`** (`lang_profile.dfy`, module `LangProfiles`). This is the
  training-side profile: an optional name and a count per n-gram. Its Java
  implementation is not part of this model, so its behaviour is the one
  `LangProfileTest` asserts:
  - `add` raises a count by exactly one.
  - `add` rejects a nameless profile and grams whose length is outside 1..3.
  - Every gram length is Java's `String.length()`, the number of UTF-16 code
    units (`Utf16Length` in `java_string.dfy`, module `JavaStrings`). A
    character outside the Basic Multilingual Plane counts twice, so a single
    emoji is a 2-gram and two emoji are rejected by `add`.
  - `omitLessFreq` rejects a nameless profile and otherwise returns a sub-map of
    the counts.

`language_profile.dfy` (module `LanguageProfiles`) holds the aggregation's view
of a `LanguageProfile`: a locale, the tracked gram lengths, the gram counts and
the per-length totals (`getNumGramOccurrences`). `wrappers.dfy` holds `Option`
and `Result`, which stand for Java's `null` and its exceptions.

These parts of the environment are parameters of the model:
- The class loader is a function `resolve` from a resource path to an optional profile.
- A folder is a value with its existence, readability and listing (`None` when
  `listFiles` returns null).
- Reading one profile file is a function `load`.
- `Locale.toLanguageTag` is `toTag`, and whether `Locale.forLanguageTag` accepts a
  name is `acceptsTag`.
- `java.util.Locale` itself is an abstract type.
- The list of built-in languages is a parameter of `ReadAllBuiltIn`.

Probabilities are exact `real` quotients rather than doubles.

The code and its description disagree in two places; the model follows the code.
- Pruning does not protect unigrams. The test prunes the unigram "a"
  (`LangProfileTest.java:103`). `OmitLessFreq` therefore puts no restriction on
  which grams may be dropped.
- A stored vector is guaranteed a non-zero slot only when every recorded count is at least 1.
  `create` does not check this; `VectorNotAllZero` assumes it.

## Model

| member | source | states |
|---|---|---|
| NgramFrequency.Create | src/main/java/com/optimaize/langdetect/NgramFrequencyData.java:63-97 | Fails with "no profiles" exactly when the profile list is empty. Fails with "no gram lengths" exactly when profiles are given but no lengths. Succeeds exactly when both lists are non-empty and every profile tracks every requested length. Otherwise it fails at the first (profile, length) pair in iteration order where the length is missing, naming that profile's locale and that length. On success the result is the table `Describes` defines. |
| NgramFrequency.PutGrams | src/main/java/com/optimaize/langdetect/NgramFrequencyData.java:84-92 | Writing one profile's grams of one length adds exactly those grams as keys. It sets slot `index` to count/total for those grams. It allocates a zero vector only for new keys, so every other slot of every vector keeps its previous value (0 for a new key). |
| NgramFrequency.PutLengthsFailure | src/main/java/com/optimaize/langdetect/NgramFrequencyData.java:80-83 | The loop over the requested lengths fails exactly when the profile lacks one of them, and it names the first missing length together with the profile's locale. |
| NgramFrequency.PutLengthsWrites | src/main/java/com/optimaize/langdetect/NgramFrequencyData.java:80-92 | After the loop over the lengths, the keys are the old keys plus the grams the profile records at a requested length. Slot `index` holds their relative frequency. Every other slot is unchanged. |
| NgramFrequency.BuiltStep | src/main/java/com/optimaize/langdetect/NgramFrequencyData.java:75-93 | One pass of the outer loop turns a correct table for the first `index` profiles into a correct table for the first `index + 1`. |
| NgramFrequency.PutProfilesBuilds | src/main/java/com/optimaize/langdetect/NgramFrequencyData.java:74-94 | The outer loop, started on a correct partial table, yields the table for all profiles: keys are exactly the known n-grams, every vector has one slot per profile, and each slot holds the expected value. |
| NgramFrequency.PutProfilesSuccess | src/main/java/com/optimaize/langdetect/NgramFrequencyData.java:74-83 | The outer loop succeeds exactly when every remaining profile tracks every requested length. |
| NgramFrequency.PutProfilesFailure | src/main/java/com/optimaize/langdetect/NgramFrequencyData.java:74-83 | When the outer loop fails, the error names the locale of the first remaining profile that lacks a requested length, and that profile's first missing length. |
| NgramFrequency.LanguageOrder | src/main/java/com/optimaize/langdetect/NgramFrequencyData.java:105-113 | The language list has one entry per profile and is the profiles' locales in input order. `getLanguage(pos)` equals the list's element at every position. |
| NgramFrequency.AbsentIffUnknown | src/main/java/com/optimaize/langdetect/NgramFrequencyData.java:115-123 | `getProbabilities(g)` is null exactly when no profile records `g` at a requested length. |
| NgramFrequency.WrongLengthAbsent | src/test/java/com/optimaize/langdetect/NgramFrequencyDataTest.java:76-80 | An n-gram whose length was not requested is never in the table, as with the 2-gram "da" when only 3-grams were asked for. |
| NgramFrequency.SlotValue | src/main/java/com/optimaize/langdetect/NgramFrequencyData.java:53-55 | A returned vector has exactly one slot per language. Slot i is profile i's count of the n-gram divided by its total for that length when profile i records it, and 0 otherwise. |
| NgramFrequency.VectorNotAllZero | src/main/java/com/optimaize/langdetect/NgramFrequencyData.java:87-91 | When all counts are positive, every slot of a returned vector is non-negative and at least one is positive, so a present vector is never all zero. |
| NgramFrequency.TwoLanguageExample | src/main/java/com/optimaize/langdetect/NgramFrequencyData.java:84-91 | Worked example: "en" with th=10 and he=5 over 15 bigrams, "fr" with le=8 over 8 bigrams, length 2. Lookups give th = [10/15, 0], he = [5/15, 0], le = [0, 1], and "xy" is absent. |
| ProfileReader.MakePathForClassLoader | src/main/java/com/optimaize/langdetect/profiles/LanguageProfileReader.java:81-84 | The resource path is the directory, then a single '/', then the file name. No slash is added in front. |
| ProfileReader.PathDeterminesName | src/main/java/com/optimaize/langdetect/profiles/LanguageProfileReader.java:81-84 | Within one directory, the path determines the file name: equal paths mean equal names. |
| ProfileReader.BuiltInPathShape | src/main/java/com/optimaize/langdetect/profiles/LanguageProfileReader.java:40 | A built-in profile's path is "languages/" followed by the file name and never starts with '/'. |
| ProfileReader.Read | src/main/java/com/optimaize/langdetect/profiles/LanguageProfileReader.java:67-79 | Succeeds exactly when every name resolves at `dir/name`. It then returns one profile per name, in order, the k-th being the one resolved for the k-th name. Otherwise it fails at the first unresolvable name, with an error naming that file name and its path, and returns no partial list. |
| ProfileReader.ProfileFileNamesAppend | src/main/java/com/optimaize/langdetect/profiles/LanguageProfileReader.java:112-124 | File names follow the locale list: the names for a concatenation of locale lists are the names for the first list followed by those for the second. |
| ProfileReader.ReadBuiltInOne | src/main/java/com/optimaize/langdetect/profiles/LanguageProfileReader.java:100-110 | A single built-in profile is the resource at "languages/" + tag. When that resource is absent, the error names the tag and that path. |
| ProfileReader.ReadBuiltIn | src/main/java/com/optimaize/langdetect/profiles/LanguageProfileReader.java:117-124 | Succeeds exactly when every locale's "languages/" + tag resolves. It then returns those profiles in the order of the locales. Otherwise the error names the tag of the first locale whose resource is missing, and its path "languages/" + tag. |
| ProfileReader.ReadAllBuiltInAgrees | src/main/java/com/optimaize/langdetect/profiles/LanguageProfileReader.java:136-142 | Loading the built-in locales one at a time gives the same result as the bulk `readBuiltIn`, including the same error. |
| ProfileReader.DottedNamesRejected | src/main/java/com/optimaize/langdetect/profiles/LanguageProfileReader.java:186-196 | A file name containing '.' never passes the profile-name filter, whatever the tag parser says, and neither does a file with that name. |
| ProfileReader.ListProfileFilesMembers | src/main/java/com/optimaize/langdetect/profiles/LanguageProfileReader.java:159-164 | The filtered listing contains exactly the listed entries that are files with a profile-like name. |
| ProfileReader.ListProfileFilesAppend | src/main/java/com/optimaize/langdetect/profiles/LanguageProfileReader.java:159-164 | The filter keeps listing order: filtering a concatenation is the concatenation of the filtered parts. |
| ProfileReader.ReadFilesLoadsEach | src/main/java/com/optimaize/langdetect/profiles/LanguageProfileReader.java:169-176 | Over pre-filtered entries, the loop loads every entry in order. It fails exactly when one cannot be loaded, naming the first such file in listing order. |
| ProfileReader.ReadAll | src/main/java/com/optimaize/langdetect/profiles/LanguageProfileReader.java:152-177 | Fails with "no such folder", "not readable" or "failed reading" for a missing, unreadable or unlistable folder, in that order. Otherwise it succeeds exactly when every listed profile file loads. It then returns one profile per listed file with a profile-like name, in listing order. When such a file fails to load, the error names the first one in listing order. |
| ProfileReader.ReadAllSkipsDottedNames | src/main/java/com/optimaize/langdetect/profiles/LanguageProfileReader.java:179-196 | Every profile `readAll` returns was loaded from a listed regular file whose name has no '.'. |
| LangProfiles.NamelessProfileRejected | src/test/java/com/optimaize/langdetect/cybozu/util/LangProfileTest.java:61-67 | A profile built without a name has no name, and `add` on it fails with an illegal-state error (as does `omitLessFreq`). |
| LangProfiles.NamedProfileAccepts | src/test/java/com/optimaize/langdetect/cybozu/util/LangProfileTest.java:42-46 | A profile built with a name reports that name, and `add` on it succeeds exactly for grams of Java length 1 to 3 (UTF-16 code units). |
| LangProfiles.Add | src/test/java/com/optimaize/langdetect/cybozu/util/LangProfileTest.java:69-83 | A nameless profile fails with illegal-state. A named profile fails with illegal-argument for a gram whose Java length (UTF-16 code units) is 0 or above 3. Otherwise the gram's count rises by exactly one (from 0 to 1 when it was absent), the name is kept, and every other count is unchanged. |
| LangProfiles.AddTwiceExample | src/test/java/com/optimaize/langdetect/cybozu/util/LangProfileTest.java:51-57 | Adding "a" to a fresh "en" profile gives count 1, and adding it again gives 2. |
| LangProfiles.AddAllCounts | src/test/java/com/optimaize/langdetect/cybozu/util/LangProfileTest.java:91-101 | Adding a sequence of valid grams to a named profile succeeds and raises each gram's count by exactly its number of occurrences in the sequence. |
| LangProfiles.OmitLessFreq | src/test/java/com/optimaize/langdetect/cybozu/util/LangProfileTest.java:108-114 | Pruning fails with illegal-state exactly for a nameless profile. Otherwise it keeps the name and returns a sub-map of the counts: the dropped grams are gone and every surviving count is unchanged. |
| LangProfiles.OmitNeverGrows | src/test/java/com/optimaize/langdetect/cybozu/util/LangProfileTest.java:102-105 | Pruning never raises a count and never adds a gram. |
| LangProfiles.OmitScenario | src/test/java/com/optimaize/langdetect/cybozu/util/LangProfileTest.java:88-106 | Five rounds over the 13 test grams plus one "ぐ" give counts a=5, あ=5, ぐ=1. If pruning drops "a" and "ぐ" but not "あ", the pruned profile lacks both dropped grams and still has あ=5, so a unigram can be pruned. |
| JavaStrings.Utf16Length | src/main/java/com/optimaize/langdetect/NgramFrequencyData.java:90 | `ngram.length()` counts UTF-16 code units: at least one and at most two per character. |
| JavaStrings.Utf16LengthIsSize | src/main/java/com/optimaize/langdetect/NgramFrequencyData.java:90 | The Java length equals the character count exactly when no character lies outside the Basic Multilingual Plane. |
| JavaStrings.Utf16LengthAppend | src/main/java/com/optimaize/langdetect/NgramFrequencyData.java:90 | The Java length of a concatenation is the sum of the parts' lengths. |
| LanguageProfiles.SupplementaryCharIsBigram | src/main/java/com/optimaize/langdetect/NgramFrequencyData.java:84-90 | A gram made of one supplementary character is among the grams of length 2 and not among those of length 1. |
| LangProfiles.SupplementaryPairRejected | src/test/java/com/optimaize/langdetect/cybozu/util/LangProfileTest.java:69-83 | `add` rejects a gram of two supplementary characters with an illegal-argument error, because its Java length is 4. |

## Left out

- NgramFrequency.VectorNotAllZero: assumes every recorded count is at least 1. That is an invariant of the profile class, whose source is not part of this model; `create` itself does not check it.
- NgramFrequency.Create: requires a positive per-length total wherever a gram of a requested length exists. The Java code divides doubles and would give infinity or NaN for a zero total; double rounding is not modelled.
- LangProfiles.OmitLessFreq: the pruning thresholds are a parameter (the set of grams to drop), because the `LangProfile` implementation is not part of this model. Only the sub-map shape and the nameless-profile error are stated, so idempotence is not claimed.
- LangProfiles.Add: checks the name before the gram length. The tests do not fix which error a nameless profile gets for a bad gram.
- LangProfiles.Add: the per-length word totals (`getNWords`) that the real class also keeps are not modelled.
- Single-file reading (`read(File)`, `read(InputStream)`, `LangProfileReader`, `OldLangProfileConverter`) and the text file format are not part of this model. Their result enters as `resolve` / `load`. A parse failure of a resource that exists is folded into `resolve` returning None.
- The profile writer and the write/read round trip are left out: their sources are not part of this model, so a format would have to be invented.
- `read(String, Collection)` and `read(Collection)` only fix the class loader, or the loader and the "languages" directory, before calling `Read`. `readAll()` is a deprecated alias of `readAllBuiltIn`. None of them has its own logic.
- The class loader, file-system calls, stream closing (try-with-resources) and `Locale` parsing are I/O or library code and enter as parameters.
- NgramFrequency.FreqData.GetProbabilities: Java returns the table's own mutable `double[]` (NgramFrequencyData.java:116-122), so a caller that writes to it changes every later lookup of that n-gram. The model returns a value, so caller mutation is not modelled.
- `Collections.unmodifiableMap`/`unmodifiableList` wrap the map and the language list; the model's map and sequence are values, so the wrappers add nothing. Determinism of `create` is immediate because it is a function.
- JavaStrings.Utf16Length: Dafny strings hold Unicode scalar values only, so a Java string with an unpaired surrogate (such as `"\uD83D"`, length 1, which `add` accepts) cannot be represented. The length agrees with Java's `String.length()` for every string the model can hold.
- LangProfiles.Add: counts are unbounded `nat`s. The Java `Integer` count would wrap around after 2^31 - 1 additions of one gram, and that overflow is not modelled.
- Facts about the shipped data (71 built-in languages, the n-gram "dam", per-file entry counts) depend on resource files, not code.
- The Lucene tokenizer and analyzer adapters (mmseg, jcseg, HanLP pinyin, jieba, ansj) are thin glue over third-party segmenters, with no logic of their own.
