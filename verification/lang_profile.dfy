/**
 * `LangProfile` (the training-side profile): a possibly missing language name
 * and a count per observed n-gram.
 *
 * Its Java source is not part of this model; the behaviour here is the one its
 * unit tests pin down. The pruning heuristic of `omitLessFreq` comes in as a
 * parameter that picks the grams to drop.
 */
module LangProfiles {
  import opened Wrappers
  import opened JavaStrings

  /** The longest n-gram a profile accepts, in UTF-16 code units (Java's `String.length()`). */
  const MaxGramLength: nat := 3

  datatype LangProfile = LangProfile(name: Option<string>, freq: map<string, nat>)

  /** The exceptions the profile throws. */
  datatype ProfileError =
    | IllegalState     // the profile has no name yet
    | IllegalArgument  // the gram's length is outside 1..MaxGramLength

  /** The no-argument constructor, used by deserializers before the name is known. */
  function EmptyProfile(): LangProfile {
    LangProfile(None, map[])
  }

  /** The constructor taking a language name. */
  function NamedProfile(name: string): LangProfile {
    LangProfile(Some(name), map[])
  }

  /** A profile made without a name has none, and both `add` and `omitLessFreq` reject it. */
  lemma NamelessProfileRejected(gram: string, dropped: map<string, nat> -> set<string>)
    ensures EmptyProfile().name == None
    ensures Add(EmptyProfile(), gram) == Failure(IllegalState)
    ensures OmitLessFreq(EmptyProfile(), dropped) == Failure(IllegalState)
  {
  }

  /** A profile made with a name reports that name and accepts every gram one to three UTF-16 code units long. */
  lemma NamedProfileAccepts(name: string, gram: string)
    ensures NamedProfile(name).name == Some(name)
    ensures Add(NamedProfile(name), gram).Success? <==> 1 <= Utf16Length(gram) <= MaxGramLength
  {
  }

  /**
   * Length is Java's: two supplementary characters (two emoji, say) make a gram
   * four units long, which `add` rejects, although it has only two characters.
   */
  lemma SupplementaryPairRejected(name: string, c: char, d: char)
    requires (c as int) >= SupplementaryBase && (d as int) >= SupplementaryBase
    ensures Add(NamedProfile(name), [c, d]) == Failure(IllegalArgument)
  {
    SupplementaryPairLength(c, d);
  }

  /** The count recorded for `gram`, 0 when it was never observed. */
  function Count(p: LangProfile, gram: string): nat {
    if gram in p.freq then p.freq[gram] else 0
  }

  /**
   * `add(gram)`: counts one more occurrence of `gram`. A nameless profile
   * rejects the call first; a gram whose Java length is 0 or above 3 is rejected next.
   */
  function Add(p: LangProfile, gram: string): (r: Result<LangProfile, ProfileError>)
    ensures p.name.None? ==> r == Failure(IllegalState)
    ensures p.name.Some? && !(1 <= Utf16Length(gram) <= MaxGramLength) ==> r == Failure(IllegalArgument)
    ensures r.Success? <==> p.name.Some? && 1 <= Utf16Length(gram) <= MaxGramLength
    ensures r.Success? ==>
              && r.value.name == p.name
              && Count(r.value, gram) == Count(p, gram) + 1
              && r.value.freq.Keys == p.freq.Keys + {gram}
              && forall g | g in p.freq && g != gram :: r.value.freq[g] == p.freq[g]
  {
    if p.name.None? then Failure(IllegalState)
    else if Utf16Length(gram) < 1 || Utf16Length(gram) > MaxGramLength then Failure(IllegalArgument)
    else Success(p.(freq := p.freq[gram := Count(p, gram) + 1]))
  }

  /** `add` applied to each gram in turn, stopping at the first rejection. */
  function AddAll(p: LangProfile, grams: seq<string>): Result<LangProfile, ProfileError>
    decreases |grams|
  {
    if |grams| == 0 then Success(p)
    else
      match Add(p, grams[0])
      case Failure(e) => Failure(e)
      case Success(q) => AddAll(q, grams[1..])
  }

  /**
   * Adding a sequence of valid grams to a named profile raises each count by
   * exactly the number of times the gram occurs in the sequence.
   */
  lemma {:induction false} AddAllCounts(p: LangProfile, grams: seq<string>)
    requires p.name.Some?
    requires forall k | 0 <= k < |grams| :: 1 <= Utf16Length(grams[k]) <= MaxGramLength
    ensures AddAll(p, grams).Success?
    ensures AddAll(p, grams).value.name == p.name
    ensures forall g :: Count(AddAll(p, grams).value, g) == Count(p, g) + multiset(grams)[g]
    decreases |grams|
  {
    if |grams| > 0 {
      var q := Add(p, grams[0]).value;
      AddAllCounts(q, grams[1..]);
      assert grams == [grams[0]] + grams[1..];
      assert multiset(grams) == multiset{grams[0]} + multiset(grams[1..]);
      forall g ensures Count(AddAll(p, grams).value, g) == Count(p, g) + multiset(grams)[g] {
        if g != grams[0] {
          assert Count(q, g) == Count(p, g);
        }
      }
    }
  }

  /** Adding "a" twice to a profile named "en" leaves the count 2. */
  lemma AddTwiceExample()
    ensures var once := Add(NamedProfile("en"), "a");
            && once.Success? && Count(once.value, "a") == 1
            && Add(once.value, "a").Success? && Count(Add(once.value, "a").value, "a") == 2
  {
  }

  /**
   * `omitLessFreq`: drops the grams the pruning heuristic `dropped` picks from
   * the current counts; a nameless profile rejects the call.
   */
  function OmitLessFreq(p: LangProfile, dropped: map<string, nat> -> set<string>): (r: Result<LangProfile, ProfileError>)
    ensures r.Failure? <==> p.name.None?
    ensures r.Failure? ==> r.error == IllegalState
    ensures r.Success? ==>
              && r.value.name == p.name
              && r.value.freq.Keys == p.freq.Keys - dropped(p.freq)
              && forall g | g in r.value.freq :: g in p.freq && r.value.freq[g] == p.freq[g]
  {
    if p.name.None? then Failure(IllegalState)
    else
      var keep := map g | g in p.freq && g !in dropped(p.freq) :: p.freq[g];
      Success(p.(freq := keep))
  }

  /** Pruning never raises a count and never adds a gram. */
  lemma OmitNeverGrows(p: LangProfile, dropped: map<string, nat> -> set<string>, g: string)
    requires p.name.Some?
    ensures Count(OmitLessFreq(p, dropped).value, g) <= Count(p, g)
    ensures g in OmitLessFreq(p, dropped).value.freq ==> g in p.freq
  {
  }

  /** The letters of the pruning scenario. */
  const ScenarioLetters: string := "abcあいうえおかがきぎく"

  /** The thirteen grams of the pruning scenario, one per letter. */
  function ScenarioGrams(): (s: seq<string>)
    ensures |s| == |ScenarioLetters| && forall k | 0 <= k < |s| :: s[k] == [ScenarioLetters[k]]
  {
    seq(|ScenarioLetters|, k requires 0 <= k < |ScenarioLetters| => [ScenarioLetters[k]])
  }

  lemma CountDistinct(s: seq<string>, i: nat)
    requires i < |s| && forall j | 0 <= j < |s| && j != i :: s[j] != s[i]
    ensures multiset(s)[s[i]] == 1
  {
    assert s == s[..i] + [s[i]] + s[i + 1..];
    assert s[i] !in s[..i];
    assert s[i] !in s[i + 1..];
  }

  /** "a" and "あ" occur once among the scenario grams, "ぐ" not at all, and every gram is one UTF-16 unit long. */
  lemma ScenarioGramFacts()
    ensures multiset(ScenarioGrams())["a"] == 1
    ensures multiset(ScenarioGrams())["あ"] == 1
    ensures multiset(ScenarioGrams())["ぐ"] == 0
    ensures forall k | 0 <= k < |ScenarioGrams()| :: Utf16Length(ScenarioGrams()[k]) == 1
  {
    var s := ScenarioGrams();
    assert |ScenarioLetters| == 13;
    assert forall j | 0 <= j < 13 :: ScenarioLetters[j] != 'ぐ';
    assert "ぐ" !in s;
    assert forall j | 1 <= j < 13 :: ScenarioLetters[j] != 'a';
    CountDistinct(s, 0);
    assert forall j | 0 <= j < 13 && j != 3 :: ScenarioLetters[j] != 'あ';
    CountDistinct(s, 3);
    assert forall j | 0 <= j < 13 :: (ScenarioLetters[j] as int) < SupplementaryBase;
    forall k | 0 <= k < |s| ensures Utf16Length(s[k]) == 1 {
      SingleCharLength(ScenarioLetters[k]);
    }
  }

  /** `grams` repeated `n` times. */
  function Repeat(grams: seq<string>, n: nat): seq<string> {
    if n == 0 then [] else grams + Repeat(grams, n - 1)
  }

  lemma {:induction false} RepeatCount(grams: seq<string>, n: nat, g: string)
    ensures multiset(Repeat(grams, n))[g] == n * multiset(grams)[g]
  {
    if n > 0 {
      RepeatCount(grams, n - 1, g);
      assert multiset(grams + Repeat(grams, n - 1)) == multiset(grams) + multiset(Repeat(grams, n - 1));
      assert (n - 1) * multiset(grams)[g] + multiset(grams)[g] == n * multiset(grams)[g];
    }
  }

  lemma {:induction false} RepeatMembers(grams: seq<string>, n: nat)
    ensures forall k | 0 <= k < |Repeat(grams, n)| :: Repeat(grams, n)[k] in grams
  {
    if n > 0 {
      RepeatMembers(grams, n - 1);
      forall k | 0 <= k < |Repeat(grams, n)| ensures Repeat(grams, n)[k] in grams {
        if k >= |grams| {
          assert Repeat(grams, n)[k] == Repeat(grams, n - 1)[k - |grams|];
        }
      }
    }
  }

  /** The profile the pruning scenario builds: five rounds over the thirteen grams, then one "ぐ". */
  function ScenarioInput(): seq<string> {
    Repeat(ScenarioGrams(), 5) + ["ぐ"]
  }

  /** Every gram of the scenario input is a valid gram for `add`. */
  lemma ScenarioInputValid()
    ensures forall k | 0 <= k < |ScenarioInput()| :: 1 <= Utf16Length(ScenarioInput()[k]) <= MaxGramLength
  {
    var grams := ScenarioGrams();
    var rounds := Repeat(grams, 5);
    var all := ScenarioInput();
    ScenarioGramFacts();
    RepeatMembers(grams, 5);
    forall k | 0 <= k < |all| ensures 1 <= Utf16Length(all[k]) <= MaxGramLength {
      if k < |rounds| {
        assert all[k] == rounds[k];
        assert all[k] in grams;
      }
    }
  }

  /** The scenario input holds "a" and "あ" five times each and "ぐ" once. */
  lemma ScenarioInputCounts()
    ensures multiset(ScenarioInput())["a"] == 5
    ensures multiset(ScenarioInput())["あ"] == 5
    ensures multiset(ScenarioInput())["ぐ"] == 1
  {
    var grams := ScenarioGrams();
    ScenarioGramFacts();
    RepeatCount(grams, 5, "a");
    RepeatCount(grams, 5, "あ");
    RepeatCount(grams, 5, "ぐ");
    assert multiset(ScenarioInput()) == multiset(Repeat(grams, 5)) + multiset{"ぐ"};
  }

  /**
   * The pruning scenario: the built profile counts "a" and "あ" five times and
   * "ぐ" once; when the heuristic drops "a" and "ぐ" but not "あ", the pruned
   * profile lacks the first two and still counts "あ" five times, so unigrams
   * can be pruned.
   */
  lemma OmitScenario(input: seq<string>, dropped: map<string, nat> -> set<string>)
    requires input == ScenarioInput()
    ensures var built := AddAll(NamedProfile("en"), input);
            && built.Success?
            && Count(built.value, "a") == 5 && Count(built.value, "あ") == 5 && Count(built.value, "ぐ") == 1
            && (("a" in dropped(built.value.freq) && "ぐ" in dropped(built.value.freq) &&
                 "あ" !in dropped(built.value.freq)) ==>
                  var pruned := OmitLessFreq(built.value, dropped);
                  && pruned.Success?
                  && "a" !in pruned.value.freq && "ぐ" !in pruned.value.freq
                  && Count(pruned.value, "あ") == 5)
  {
    ScenarioInputValid();
    ScenarioInputCounts();
    AddAllCounts(NamedProfile("en"), input);
  }
}
