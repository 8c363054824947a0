/** Two titles carrying one scope, by the weight of the words they share: internal/admission/admission.go. A title is
    here the set of its words that say what the work is. Arithmetic is over the reals. */
module Scopes {
  type Word(==,!new)

  const SCOPE_THRESHOLD: real := 0.70
  const MINIMUM_SCOPE_WORDS := 3

  /** The sum of the weights of some words, in whichever order they come. */
  ghost function Mass(weight: Word -> real, words: set<Word>): real
    decreases words
  {
    if words == {} then 0.0 else
      var word :| word in words;
      weight(word) + Mass(weight, words - {word})
  }

  lemma {:induction false} MassWithout(weight: Word -> real, words: set<Word>, word: Word)
    requires word in words
    ensures Mass(weight, words) == weight(word) + Mass(weight, words - {word})
    decreases words
  {
    var first :| first in words && Mass(weight, words) == weight(first) + Mass(weight, words - {first});
    if first != word {
      MassWithout(weight, words - {first}, word);
      MassWithout(weight, words - {word}, first);
      assert words - {first} - {word} == words - {word} - {first};
    }
  }

  lemma {:induction false} MassOfUnion(weight: Word -> real, a: set<Word>, b: set<Word>)
    requires a !! b
    ensures Mass(weight, a + b) == Mass(weight, a) + Mass(weight, b)
    decreases a
  {
    if a == {} {
      assert a + b == b;
    } else {
      var word :| word in a;
      MassWithout(weight, a, word);
      MassWithout(weight, a + b, word);
      MassOfUnion(weight, a - {word}, b);
      assert a + b - {word} == a - {word} + b;
    }
  }

  ghost predicate NonNegative(weight: Word -> real) { forall word :: weight(word) >= 0.0 }

  ghost predicate Positive(weight: Word -> real) { forall word :: weight(word) > 0.0 }

  lemma {:induction false} MassIsPositive(weight: Word -> real, words: set<Word>)
    requires NonNegative(weight)
    ensures Mass(weight, words) >= 0.0
    ensures Positive(weight) && words != {} ==> Mass(weight, words) > 0.0
    decreases words
  {
    if words != {} {
      var word :| word in words;
      MassWithout(weight, words, word);
      MassIsPositive(weight, words - {word});
    }
  }

  lemma MassGrows(weight: Word -> real, part: set<Word>, whole: set<Word>)
    requires NonNegative(weight) && part <= whole
    ensures Mass(weight, part) <= Mass(weight, whole)
  {
    MassOfUnion(weight, part, whole - part);
    MassIsPositive(weight, whole - part);
    assert part + (whole - part) == whole;
  }

  function Smaller(a: real, b: real): real { if a <= b then a else b }

  /** The answer: enough words each, some weight in the lighter, and enough of that weight shared. */
  ghost predicate SameScope(weight: Word -> real, candidate: set<Word>, existing: set<Word>) {
    var smaller := Smaller(Mass(weight, candidate), Mass(weight, existing));
    && |candidate| >= MINIMUM_SCOPE_WORDS && |existing| >= MINIMUM_SCOPE_WORDS
    && smaller > 0.0 && Mass(weight, candidate * existing) / smaller >= SCOPE_THRESHOLD
  }

  /** `mass`, going through the words in any order. */
  method MassOf(weight: Word -> real, words: set<Word>) returns (total: real)
    ensures total == Mass(weight, words)
  {
    total := 0.0;
    var left := words;
    while left != {}
      invariant left <= words && total + Mass(weight, left) == Mass(weight, words)
      decreases left
    {
      var word :| word in left;
      MassWithout(weight, left, word);
      total := total + weight(word);
      left := left - {word};
    }
  }

  /** `sameScope`, likewise. */
  method Same(weight: Word -> real, candidate: set<Word>, existing: set<Word>) returns (same: bool)
    ensures same <==> SameScope(weight, candidate, existing)
  {
    if |candidate| < MINIMUM_SCOPE_WORDS || |existing| < MINIMUM_SCOPE_WORDS {
      return false;
    }
    var shared := 0.0;
    var left := candidate;
    while left != {}
      invariant left <= candidate
      invariant shared + Mass(weight, left * existing) == Mass(weight, candidate * existing)
      decreases left
    {
      var word :| word in left;
      if word in existing {
        MassWithout(weight, left * existing, word);
        shared := shared + weight(word);
      }
      assert (left - {word}) * existing == left * existing - {word};
      assert word !in existing ==> left * existing - {word} == left * existing;
      left := left - {word};
    }
    assert {} * existing == {};
    var mine := MassOf(weight, candidate);
    var theirs := MassOf(weight, existing);
    var smaller := Smaller(mine, theirs);
    if smaller <= 0.0 {
      return false;
    }
    return shared / smaller >= SCOPE_THRESHOLD;
  }

  lemma Symmetric(weight: Word -> real, a: set<Word>, b: set<Word>)
    ensures SameScope(weight, a, b) <==> SameScope(weight, b, a)
  {
    assert a * b == b * a;
  }

  /** Division by something positive, without the division. */
  lemma Share(shared: real, smaller: real, least: real)
    requires smaller > 0.0
    ensures shared / smaller >= least <==> shared >= least * smaller
    ensures shared / smaller <= 1.0 <==> shared <= smaller
  {
    assert shared == (shared / smaller) * smaller;
  }

  /** Two titles carry one scope exactly when each has three words or more that say what the work is, both weigh
      something, and what they share is seven tenths of what one of them weighs. */
  lemma SameScopeExactly(weight: Word -> real, a: set<Word>, b: set<Word>)
    ensures SameScope(weight, a, b) <==>
      && |a| >= 3 && |b| >= 3 && Mass(weight, a) > 0.0 && Mass(weight, b) > 0.0
      && (10.0 * Mass(weight, a * b) >= 7.0 * Mass(weight, a) || 10.0 * Mass(weight, a * b) >= 7.0 * Mass(weight, b))
  {
    var smaller := Smaller(Mass(weight, a), Mass(weight, b));
    if smaller > 0.0 {
      Share(Mass(weight, a * b), smaller, SCOPE_THRESHOLD);
    }
  }

  /** The share is never more than the whole. */
  lemma RatioAtMostOne(weight: Word -> real, a: set<Word>, b: set<Word>)
    requires NonNegative(weight) && Smaller(Mass(weight, a), Mass(weight, b)) > 0.0
    ensures 0.0 <= Mass(weight, a * b) / Smaller(Mass(weight, a), Mass(weight, b)) <= 1.0
  {
    MassGrows(weight, a * b, a);
    MassGrows(weight, a * b, b);
    MassIsPositive(weight, a * b);
    Share(Mass(weight, a * b), Smaller(Mass(weight, a), Mass(weight, b)), 0.0);
  }

  /** A title that says everything another of three or more words says is the same scope. */
  lemma ContainmentIsSameScope(weight: Word -> real, part: set<Word>, whole: set<Word>)
    requires Positive(weight) && part <= whole && |part| >= MINIMUM_SCOPE_WORDS
    ensures SameScope(weight, part, whole) && SameScope(weight, whole, part)
  {
    assert part * whole == part;
    MassGrows(weight, part, whole);
    MassIsPositive(weight, part);
    Share(Mass(weight, part), Mass(weight, part), SCOPE_THRESHOLD);
    SizeOfPart(part, whole);
    Symmetric(weight, part, whole);
  }

  lemma SizeOfPart(part: set<Word>, whole: set<Word>)
    requires part <= whole
    ensures |part| <= |whole|
  {
    assert part + (whole - part) == whole;
  }

  /** Words the other title does not hold only ever count against a match, once there are three words to compare. */
  lemma ForeignWordsNeverMatch(weight: Word -> real, candidate: set<Word>, foreign: set<Word>, existing: set<Word>)
    requires NonNegative(weight) && |candidate| >= MINIMUM_SCOPE_WORDS && foreign !! existing
    ensures SameScope(weight, candidate + foreign, existing) ==> SameScope(weight, candidate, existing)
  {
    var wider := candidate + foreign;
    assert wider * existing == candidate * existing;
    MassGrows(weight, candidate, wider);
    var shared, more, less := Mass(weight, candidate * existing), Smaller(Mass(weight, wider), Mass(weight, existing)),
      Smaller(Mass(weight, candidate), Mass(weight, existing));
    if SameScope(weight, wider, existing) {
      Share(shared, more, SCOPE_THRESHOLD);
      MassGrows(weight, candidate * existing, candidate);
      Share(shared, less, SCOPE_THRESHOLD);
    }
  }

  /** And with fewer they can: a third word that no other title holds makes a two-word candidate match. */
  lemma ForeignWordMakesAMatch(weight: Word -> real, a: Word, b: Word, c: Word, d: Word)
    requires Positive(weight) && a != b && a != c && a != d && b != c && b != d && c != d
    requires weight(a) + weight(b) >= SCOPE_THRESHOLD * (weight(a) + weight(b) + Smaller(weight(c), weight(d)))
    ensures !SameScope(weight, {a, b}, {a, b, c}) && SameScope(weight, {a, b} + {d}, {a, b, c})
  {
    Two(weight, a, b);
    Three(weight, a, b, c);
    Three(weight, a, b, d);
    assert {a, b} + {d} == {a, b, d} && {a, b, d} * {a, b, c} == {a, b};
    Share(weight(a) + weight(b), weight(a) + weight(b) + Smaller(weight(c), weight(d)), SCOPE_THRESHOLD);
  }

  lemma Two(weight: Word -> real, a: Word, b: Word)
    requires a != b
    ensures Mass(weight, {a, b}) == weight(a) + weight(b)
  {
    MassWithout(weight, {a, b}, a);
    assert {a, b} - {a} == {b} && {b} - {b} == {};
    MassWithout(weight, {b}, b);
  }

  lemma Three(weight: Word -> real, a: Word, b: Word, c: Word)
    requires a != b && b != c && a != c
    ensures Mass(weight, {a, b, c}) == weight(a) + weight(b) + weight(c)
  {
    MassWithout(weight, {a, b, c}, c);
    assert {a, b, c} - {c} == {a, b};
    Two(weight, a, b);
  }

  // ---- Where the weights come from ----

  /** How many of the titles hold a word, and how many hold any. */
  function Holding(titles: seq<set<Word>>, word: Word): nat {
    if titles == [] then 0 else
      Holding(titles[..|titles| - 1], word) + if word in titles[|titles| - 1] then 1 else 0
  }

  function Worded(titles: seq<set<Word>>): nat {
    if titles == [] then 0 else Worded(titles[..|titles| - 1]) + if titles[|titles| - 1] == {} then 0 else 1
  }

  /** `newScope`, before a count is turned into a weight. */
  method NewScope(titles: seq<set<Word>>) returns (worded: nat, frequency: map<Word, nat>)
    ensures worded == Worded(titles)
    ensures forall word :: if word in frequency then frequency[word] == Holding(titles, word) > 0
        else Holding(titles, word) == 0
  {
    worded, frequency := 0, map[];
    for at := 0 to |titles|
      invariant worded == Worded(titles[..at])
      invariant forall word ::
        if word in frequency then frequency[word] == Holding(titles[..at], word) > 0
          else Holding(titles[..at], word) == 0
    {
      var words := titles[at];
      assert titles[..at + 1][..at] == titles[..at];
      if words == {} {
        continue;
      }
      worded := worded + 1;
      frequency := Count(frequency, words);
    }
    assert titles[..|titles|] == titles;
  }

  function Of(frequency: map<Word, nat>, word: Word): nat { if word in frequency then frequency[word] else 0 }

  method Count(frequency: map<Word, nat>, words: set<Word>) returns (counted: map<Word, nat>)
    ensures forall word :: word in counted <==> word in frequency || word in words
    ensures forall word :: Of(counted, word) == Of(frequency, word) + if word in words then 1 else 0
  {
    counted := frequency;
    var left := words;
    while left != {}
      invariant left <= words
      invariant forall word :: word in counted <==> word in frequency || (word in words && word !in left)
      invariant forall word ::
        Of(counted, word) == Of(frequency, word) + if word in words && word !in left then 1 else 0
      decreases left
    {
      var word :| word in left;
      counted := counted[word := Of(counted, word) + 1];
      left := left - {word};
    }
  }

  /** `wordWeight`, for a logarithm `ln`. */
  function WordWeight(ln: real -> real, titles: nat, count: nat): real {
    ln(1.0 + titles as real / (count + 1) as real)
  }

  /** What a word is rare by: the titles that have words and those that hold it, and one more, over the latter and one
      more. */
  lemma WeighsExactly(ln: real -> real, titles: nat, count: nat, rarity: real)
    requires rarity * (count + 1) as real == (titles + count + 1) as real
    ensures WordWeight(ln, titles, count) == ln(rarity)
  {
    var each := (count + 1) as real;
    var share := titles as real / each;
    assert share * each == titles as real;
    var apart := rarity - 1.0 - share;
    assert apart * each == 0.0;
    assert apart == (apart * each) / each == 0.0;
  }

  ghost predicate Logarithm(ln: real -> real) {
    ln(1.0) == 0.0 && forall x, y | 0.0 < x < y :: ln(x) < ln(y)
  }

  /** A weight is positive once any title has words, none without; and the rarer word weighs more, so that no word
      outweighs one the backlog has never used. */
  lemma RarerWeighsMore(ln: real -> real, titles: nat, count: nat, more: nat)
    requires Logarithm(ln) && count < more
    ensures titles > 0 ==> WordWeight(ln, titles, count) > WordWeight(ln, titles, more) > 0.0
    ensures titles == 0 ==> WordWeight(ln, titles, count) == 0.0
  {
    if titles > 0 {
      Fraction(titles as real, (count + 1) as real, (more + 1) as real);
    }
  }

  lemma Fraction(n: real, d: real, e: real)
    requires n > 0.0 && 0.0 < d < e
    ensures n / d > n / e > 0.0
  {
    assert n == (n / d) * d && n == (n / e) * e;
  }

  /** `weightOf`, over some titles: a word none of them holds weighs what a count of none does. */
  function WeightOf(ln: real -> real, titles: seq<set<Word>>): Word -> real {
    (word: Word) => WordWeight(ln, Worded(titles), Holding(titles, word))
  }

  lemma {:induction false} WordedWith(titles: seq<set<Word>>, at: nat)
    requires at < |titles| && titles[at] != {}
    ensures Worded(titles) > 0
    decreases |titles|
  {
    if at < |titles| - 1 {
      WordedWith(titles[..|titles| - 1], at);
    }
  }

  lemma BacklogWeighs(ln: real -> real, titles: seq<set<Word>>, at: nat)
    requires Logarithm(ln) && at < |titles| && titles[at] != {}
    ensures Positive(WeightOf(ln, titles))
  {
    WordedWith(titles, at);
    forall word ensures WeightOf(ln, titles)(word) > 0.0 {
      RarerWeighsMore(ln, Worded(titles), Holding(titles, word), Holding(titles, word) + 1);
    }
  }

  /** Measured over the titles the tracker holds: what is contained in one of them, or contains it, is the same
      scope; and a word no title holds counts for as much as any and never makes a match. */
  lemma MeasuredOverBacklog(ln: real -> real, titles: seq<set<Word>>, at: nat, candidate: set<Word>, foreign: set<Word>)
    requires Logarithm(ln) && at < |titles| && titles[at] != {} && |candidate| >= MINIMUM_SCOPE_WORDS
    requires forall word | word in foreign :: Holding(titles, word) == 0
    ensures candidate <= titles[at] || (titles[at] <= candidate && |titles[at]| >= MINIMUM_SCOPE_WORDS)
      ==> SameScope(WeightOf(ln, titles), candidate, titles[at])
    ensures SameScope(WeightOf(ln, titles), candidate + foreign, titles[at])
        ==> SameScope(WeightOf(ln, titles), candidate, titles[at])
  {
    BacklogWeighs(ln, titles, at);
    var weight := WeightOf(ln, titles);
    if candidate <= titles[at] {
      ContainmentIsSameScope(weight, candidate, titles[at]);
    } else if titles[at] <= candidate && |titles[at]| >= MINIMUM_SCOPE_WORDS {
      ContainmentIsSameScope(weight, titles[at], candidate);
    }
    forall word | word in foreign ensures word !in titles[at] {
      HeldBySome(titles, at, word);
    }
    ForeignWordsNeverMatch(weight, candidate, foreign, titles[at]);
  }

  lemma {:induction false} HeldBySome(titles: seq<set<Word>>, at: nat, word: Word)
    requires at < |titles|
    ensures word in titles[at] ==> Holding(titles, word) > 0
    decreases |titles|
  {
    if at < |titles| - 1 {
      HeldBySome(titles[..|titles| - 1], at, word);
    }
  }
}
