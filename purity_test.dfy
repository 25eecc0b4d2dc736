/**
  The purity-score calculator of `initializeRicePurityTest`: a form of
  checkboxes, each with an optional `data-weight` attribute, a score computed
  from the checked boxes, a four-tier interpretation, a share sentence, and a
  reset that clears every box.

  The attribute reaches the model already parsed: `Some(w)` when `parseInt`
  returns the integer `w`, `None` when it returns NaN (the attribute is
  missing, empty or does not start with a number).
*/
module PurityTest {
  import opened Wrappers
  import Text

  const BaseScore: int := 100
  const DefaultWeight: int := 5

  /** `parseInt(weight) || 5`: every falsy parse result, NaN and 0 alike,
      is replaced by the default weight. */
  function EffectiveWeight(w: Option<int>): (r: int)
    ensures r != 0
    ensures (w.None? || w.value >= 0) ==> r > 0
  {
    match w
    case Some(v) => if v != 0 then v else DefaultWeight
    case None => DefaultWeight
  }

  predicate NonNegativeWeights(weights: seq<Option<int>>) {
    forall i :: 0 <= i < |weights| ==> weights[i].None? || weights[i].value >= 0
  }

  /** Sum of the effective weights of the checked boxes, box by box in document order. */
  function Deduction(checked: seq<bool>, weights: seq<Option<int>>): int
    requires |checked| == |weights|
  {
    if checked == [] then 0
    else
      var n := |checked| - 1;
      Deduction(checked[..n], weights[..n]) + (if checked[n] then EffectiveWeight(weights[n]) else 0)
  }

  /** `Math.max(0, 100 - totalDeduction)`. */
  function Score(checked: seq<bool>, weights: seq<Option<int>>): nat
    requires |checked| == |weights|
  {
    if BaseScore - Deduction(checked, weights) < 0 then 0 else BaseScore - Deduction(checked, weights)
  }

  lemma {:induction false} DeductionOfUnchecked(checked: seq<bool>, weights: seq<Option<int>>)
    requires |checked| == |weights|
    requires forall i :: 0 <= i < |checked| ==> !checked[i]
    ensures Deduction(checked, weights) == 0
  {
    if checked != [] {
      var n := |checked| - 1;
      DeductionOfUnchecked(checked[..n], weights[..n]);
    }
  }

  /** With no box checked the score is the full 100. */
  lemma NothingCheckedScoresFull(checked: seq<bool>, weights: seq<Option<int>>)
    requires |checked| == |weights|
    requires forall i :: 0 <= i < |checked| ==> !checked[i]
    ensures Score(checked, weights) == 100
  {
    DeductionOfUnchecked(checked, weights);
  }

  /** With non-negative weights each checked box deducts at least its own weight. */
  lemma {:induction false} DeductionCoversEachCheckedBox(checked: seq<bool>, weights: seq<Option<int>>)
    requires |checked| == |weights| && NonNegativeWeights(weights)
    ensures Deduction(checked, weights) >= 0
    ensures forall i :: 0 <= i < |checked| && checked[i] ==> Deduction(checked, weights) >= EffectiveWeight(weights[i])
  {
    if checked != [] {
      var n := |checked| - 1;
      assert NonNegativeWeights(weights[..n]) by {
        forall i | 0 <= i < n ensures weights[..n][i].None? || weights[..n][i].value >= 0 { assert weights[..n][i] == weights[i]; }
      }
      DeductionCoversEachCheckedBox(checked[..n], weights[..n]);
      forall i | 0 <= i < n && checked[i] ensures Deduction(checked, weights) >= EffectiveWeight(weights[i]) {
        assert checked[..n][i] == checked[i] && weights[..n][i] == weights[i];
      }
    }
  }

  /** The score is never negative and, when no weight is negative, never above 100. */
  lemma ScoreInRange(checked: seq<bool>, weights: seq<Option<int>>)
    requires |checked| == |weights| && NonNegativeWeights(weights)
    ensures 0 <= Score(checked, weights) <= 100
  {
    DeductionCoversEachCheckedBox(checked, weights);
  }

  /** With non-negative weights, checking any box costs at least one point
      (a weight of 0 still deducts 5). */
  lemma CheckedBoxLowersScore(checked: seq<bool>, weights: seq<Option<int>>, k: nat)
    requires |checked| == |weights| && NonNegativeWeights(weights)
    requires k < |checked| && checked[k]
    ensures Score(checked, weights) < 100
  {
    DeductionCoversEachCheckedBox(checked, weights);
  }

  /** Checking more boxes never raises the score when no weight is negative. */
  lemma {:induction false} ScoreMonotone(fewer: seq<bool>, more: seq<bool>, weights: seq<Option<int>>)
    requires |fewer| == |more| == |weights| && NonNegativeWeights(weights)
    requires forall i :: 0 <= i < |fewer| && fewer[i] ==> more[i]
    ensures Deduction(fewer, weights) <= Deduction(more, weights)
    ensures Score(more, weights) <= Score(fewer, weights)
  {
    if fewer != [] {
      var n := |fewer| - 1;
      assert NonNegativeWeights(weights[..n]) by {
        forall i | 0 <= i < n ensures weights[..n][i].None? || weights[..n][i].value >= 0 { assert weights[..n][i] == weights[i]; }
      }
      ScoreMonotone(fewer[..n], more[..n], weights[..n]);
    }
  }

  /** A negative weight is accepted as is and lifts the score above 100:
      nothing clamps the top. */
  lemma NegativeWeightExceedsFull()
    ensures Score([true], [Some(-10)]) == 110
  {
    assert [true][..0] == [];
    assert [Some(-10)][..0] == [];
  }

  /** A weight of 0 is falsy and so deducts the default 5, as does a missing one. */
  lemma ZeroOrMissingWeightDeductsDefault()
    ensures Score([true], [Some(0)]) == 95
    ensures Score([true], [None]) == 95
  {
    assert [true][..0] == [];
    var none: seq<Option<int>> := [None];
    assert [Some(0)][..0] == [] && none[..0] == [];
  }

  /** The four interpretation tiers of `getScoreInterpretation`. */
  datatype Tier = HighPurity | ModerateExperience | BroadExperience | ExtensiveExperience

  /** Tiers ordered from most to least pure. */
  function Rank(t: Tier): nat {
    match t
    case HighPurity => 3
    case ModerateExperience => 2
    case BroadExperience => 1
    case ExtensiveExperience => 0
  }

  function TierOf(score: int): (t: Tier)
    ensures t == HighPurity <==> 80 <= score
    ensures t == ModerateExperience <==> 50 <= score < 80
    ensures t == BroadExperience <==> 20 <= score < 50
    ensures t == ExtensiveExperience <==> score < 20
  {
    if score >= 80 then HighPurity
    else if score >= 50 then ModerateExperience
    else if score >= 20 then BroadExperience
    else ExtensiveExperience
  }

  /** A higher score never lands in a less pure tier. */
  lemma TierMonotone(lo: int, hi: int)
    requires lo <= hi
    ensures Rank(TierOf(lo)) <= Rank(TierOf(hi))
  {
  }

  const TierOpening: string := "You have "
  const HighPurityText: string := TierOpening + "high purity!" + " You've had fewer experiences in the areas the test covers, which often reflects focused priorities or being early in your exploration journey. There's no rush - everyone moves at their own pace."
  const ModerateText: string := TierOpening + "moderate experience!" + " You've had a balanced mix of experiences, suggesting you're actively exploring life while maintaining some boundaries. This shows thoughtful decision-making."
  const BroadText: string := TierOpening + "broad experience!" + " You've had many varied experiences across different areas. This often indicates openness to new things and comfort with exploration. Remember that every experience is a learning opportunity."
  const ExtensiveText: string := TierOpening + "extensive experience!" + " You've experienced a lot across many categories. This might reflect an adventurous spirit. Remember to balance adventure with self-care and reflection on what truly serves your well-being."

  function TierText(t: Tier): string {
    match t
    case HighPurity => HighPurityText
    case ModerateExperience => ModerateText
    case BroadExperience => BroadText
    case ExtensiveExperience => ExtensiveText
  }

  /** `getScoreInterpretation`. */
  function Interpretation(score: int): string {
    TierText(TierOf(score))
  }

  /** The four texts differ (already in their tenth character), so the text
      shown tells the tier: two scores get the same text exactly when they
      fall in the same tier. */
  lemma InterpretationTellsTier(a: int, b: int)
    ensures Interpretation(a) == Interpretation(b) <==> TierOf(a) == TierOf(b)
  {
    if TierOf(a) != TierOf(b) {
      assert Interpretation(a)[9] != Interpretation(b)[9];
    }
  }

  /** An untouched test reads as high purity. */
  lemma NothingCheckedIsHighPurity(checked: seq<bool>, weights: seq<Option<int>>)
    requires |checked| == |weights|
    requires forall i :: 0 <= i < |checked| ==> !checked[i]
    ensures Interpretation(Score(checked, weights)) == HighPurityText
  {
    NothingCheckedScoresFull(checked, weights);
  }

  const SharePrefix: string := "I scored "
  const OutOf: string := "/100"
  const ShareTail: string := " on the Rice Purity Test! It was interesting to reflect on my college experiences. Check it out on Student Bonding!"
  const ShareSuffix: string := OutOf + ShareTail

  /** The share sentence, with the score rendered as `<score>/100`. */
  function ShareText(score: nat): string {
    SharePrefix + Text.Decimal(score) + ShareSuffix
  }

  /** Reads the score back out of a share sentence. */
  function ScoreOfShareText(s: string): Option<nat> {
    if |s| >= |SharePrefix| && s[..|SharePrefix|] == SharePrefix then
      var digits := Text.LeadingDigits(s[|SharePrefix|..]);
      if digits != [] then Some(Text.DecimalValue(digits)) else None
    else None
  }

  /** Digits placed right after the prefix, and followed by a non-digit,
      are read back as their value. */
  lemma ReadAfterPrefix(d: string, rest: string)
    requires d != [] && Text.AllDigits(d) && (rest == [] || !Text.IsDigit(rest[0]))
    ensures ScoreOfShareText(SharePrefix + d + rest) == Some(Text.DecimalValue(d))
  {
    var s := SharePrefix + d + rest;
    assert s[..|SharePrefix|] == SharePrefix;
    assert s[|SharePrefix|..] == d + rest;
    Text.LeadingDigitsOf(d, rest);
  }

  /** The share sentence carries the score: it can be read back exactly. */
  lemma ShareTextRoundTrip(score: nat)
    ensures ScoreOfShareText(ShareText(score)) == Some(score)
  {
    assert ShareSuffix[0] == OutOf[0] == '/';
    ReadAfterPrefix(Text.Decimal(score), ShareSuffix);
    Text.DecimalRoundTrip(score);
  }

  /** Right after the prefix the share sentence reads `<score>/100`. */
  lemma ShareTextShowsOutOf(score: nat)
    ensures var d := Text.Decimal(score);
            ShareText(score)[|SharePrefix|..|SharePrefix| + |d| + |OutOf|] == d + OutOf
  {
    var d := Text.Decimal(score);
    assert ShareText(score) == (SharePrefix + d + OutOf) + ShareTail;
    assert (SharePrefix + d + OutOf)[|SharePrefix|..] == d + OutOf;
  }

  /**
    The purity-test form on the page: its checkboxes (in document order),
    their parsed weights, and the parts of the results region that the
    calculator writes.
  */
  class PurityForm {
    const weights: seq<Option<int>>
    const checked: array<bool>
    var resultsVisible: bool
    var interpretationText: string
    var shareText: string

    ghost predicate Valid()
      reads this
    {
      checked.Length == |weights|
    }

    constructor (weights: seq<Option<int>>, initial: seq<bool>)
      requires |initial| == |weights|
      ensures Valid() && fresh(checked)
      ensures this.weights == weights && checked[..] == initial
      ensures !resultsVisible && interpretationText == [] && shareText == []
    {
      this.weights := weights;
      checked := new bool[|initial|](i requires 0 <= i < |initial| => initial[i]);
      resultsVisible := false;
      interpretationText := [];
      shareText := [];
    }

    /** `calculatePurityScore`, up to the call of `displayResults`: sum the
        effective weights of the checked boxes and floor at 0. */
    method ComputeScore() returns (score: nat)
      requires Valid()
      ensures score == Score(checked[..], weights)
    {
      var totalDeduction := 0;
      var i := 0;
      while i < checked.Length
        invariant 0 <= i <= checked.Length
        invariant totalDeduction == Deduction(checked[..i], weights[..i])
      {
        assert checked[..i + 1][..i] == checked[..i] && weights[..i + 1][..i] == weights[..i];
        if checked[i] {
          totalDeduction := totalDeduction + EffectiveWeight(weights[i]);
        }
        i := i + 1;
      }
      assert checked[..i] == checked[..] && weights[..i] == weights;
      score := if BaseScore - totalDeduction < 0 then 0 else BaseScore - totalDeduction;
    }

    /** `displayResults` without its animations: interpretation, share text,
        and the results region shown. */
    method DisplayResults(score: nat)
      modifies this
      ensures resultsVisible
      ensures interpretationText == Interpretation(score) && shareText == ShareText(score)
    {
      interpretationText := Interpretation(score);
      shareText := ShareText(score);
      resultsVisible := true;
    }

    /** The calculate button: checkbox states are read, not changed. */
    method Calculate() returns (score: nat)
      requires Valid()
      modifies this
      ensures Valid() && checked[..] == old(checked[..])
      ensures score == Score(checked[..], weights)
      ensures resultsVisible && interpretationText == Interpretation(score) && shareText == ShareText(score)
    {
      score := ComputeScore();
      DisplayResults(score);
    }

    /** `resetTest`: unchecks every box in place and hides the results
        region; the texts already written are left as they are. */
    method Reset()
      requires Valid()
      modifies checked, this`resultsVisible
      ensures Valid()
      ensures forall i :: 0 <= i < checked.Length ==> !checked[i]
      ensures !resultsVisible
      ensures interpretationText == old(interpretationText) && shareText == old(shareText)
      ensures Score(checked[..], weights) == 100
    {
      var i := 0;
      while i < checked.Length
        invariant 0 <= i <= checked.Length
        invariant forall k :: 0 <= k < i ==> !checked[k]
      {
        checked[i] := false;
        i := i + 1;
      }
      resultsVisible := false;
      NothingCheckedScoresFull(checked[..], weights);
    }
  }

  /** Three boxes weighted 10, 15 and 5: a score of 70, the moderate tier,
      and "70/100" in the share sentence. */
  lemma WorkedExample()
    ensures Score([true, true, true], [Some(10), Some(15), Some(5)]) == 70
    ensures TierOf(70) == ModerateExperience
    ensures ShareText(70)[9..15] == "70/100"
  {
    var c, w := [true, true, true], [Some(10), Some(15), Some(5)];
    assert c[..2] == [true, true] && w[..2] == [Some(10), Some(15)];
    assert c[..2][..1] == [true] && w[..2][..1] == [Some(10)];
    assert [true][..0] == [] && [Some(10)][..0] == [];
    assert Deduction([true], [Some(10)]) == 10;
    assert Deduction(c[..2], w[..2]) == 25;
    assert Deduction(c, w) == 30;
    assert Text.Decimal(70) == "70";
    ShareTextShowsOutOf(70);
  }
}
