/**
 * The assessment detail page (src/pages/dashboard/assessment/AssessmentDetail.tsx): the
 * recommendation badge's colour and label, the pass/fail verdict and the section percentages.
 */
module AssessmentDetail {
  import opened Wrappers
  import opened Records
  import Text

  const StrongYesColor: string := "bg-green-100 text-green-800"
  const YesColor: string := "bg-emerald-100 text-emerald-800"
  const NeutralColor: string := "bg-yellow-100 text-yellow-800"
  const NoColor: string := "bg-orange-100 text-orange-800"
  const StrongNoColor: string := "bg-red-100 text-red-800"
  const DefaultColor: string := "bg-gray-100 text-gray-800"

  const Recommendations: set<string> := {"strong_yes", "yes", "neutral", "no", "strong_no"}

  /** `getRecommendationColor`. */
  function RecommendationColor(rec: string): (c: string)
    ensures rec == "strong_yes" ==> c == StrongYesColor
    ensures rec == "yes" ==> c == YesColor
    ensures rec == "neutral" ==> c == NeutralColor
    ensures rec == "no" ==> c == NoColor
    ensures rec == "strong_no" ==> c == StrongNoColor
    ensures rec !in Recommendations ==> c == DefaultColor
  {
    match rec
    case "strong_yes" => StrongYesColor
    case "yes" => YesColor
    case "neutral" => NeutralColor
    case "no" => NoColor
    case "strong_no" => StrongNoColor
    case _ => DefaultColor
  }

  /** The five recommendations get five different colours, none of them the default. */
  lemma RecommendationColorsDistinct(a: string, b: string)
    requires a in Recommendations && b in Recommendations && a != b
    ensures RecommendationColor(a) != RecommendationColor(b)
    ensures RecommendationColor(a) != DefaultColor
  {
  }

  /** The position of the first underscore of `s`, or `|s|` when there is none. */
  function UnderscoreIndex(s: string): (k: nat)
    ensures k <= |s|
    ensures k < |s| ==> s[k] == '_'
    ensures forall j :: 0 <= j < k ==> s[j] != '_'
  {
    if s == [] then 0
    else if s[0] == '_' then 0
    else 1 + UnderscoreIndex(s[1..])
  }

  /** `s.replace('_', ' ')` with a string pattern: only the first underscore is replaced. */
  function ReplaceFirstUnderscore(s: string): (r: string)
    ensures |r| == |s|
    ensures UnderscoreIndex(s) < |s| ==> r[UnderscoreIndex(s)] == ' '
    ensures forall j :: 0 <= j < |s| && j != UnderscoreIndex(s) ==> r[j] == s[j]
  {
    var k := UnderscoreIndex(s);
    if k == |s| then s else s[..k] + " " + s[k + 1..]
  }

  function UpperChar(c: char): char {
    if 'a' <= c <= 'z' then (c as int - 'a' as int + 'A' as int) as char else c
  }

  /** `toUpperCase()` on ASCII letters. */
  function ToUpper(s: string): (r: string)
    ensures |r| == |s|
    ensures forall i :: 0 <= i < |s| ==> r[i] == UpperChar(s[i])
  {
    if s == [] then [] else [UpperChar(s[0])] + ToUpper(s[1..])
  }

  datatype RecommendationBadge = RecommendationBadge(color: string, text: string)

  /**
   * The recommendation card: the colour falls back to 'neutral' but the text to 'pending',
   * so a missing recommendation shows "PENDING" in the neutral colour.
   */
  function Badge(rec: Option<string>): (b: RecommendationBadge)
    ensures !Text.Truthy(rec) ==> b == RecommendationBadge(NeutralColor, "PENDING")
    ensures Text.Truthy(rec) ==> b.color == RecommendationColor(rec.value)
    ensures Text.Truthy(rec) ==> |b.text| == |rec.value|
    ensures Text.Truthy(rec) && UnderscoreIndex(rec.value) < |rec.value| ==> b.text[UnderscoreIndex(rec.value)] == ' '
    ensures Text.Truthy(rec) ==> forall j :: 0 <= j < |rec.value| && j != UnderscoreIndex(rec.value) ==>
      b.text[j] == UpperChar(rec.value[j])
  {
    var src := Text.OrElse(rec, "pending");
    if !Text.Truthy(rec) then
      NoUnderscoreUnchanged("pending");
      UpperedPointwise("pending", "PENDING");
      RecommendationBadge(RecommendationColor(Text.OrElse(rec, "neutral")), ToUpper(ReplaceFirstUnderscore(src)))
    else
      RecommendationBadge(RecommendationColor(Text.OrElse(rec, "neutral")), ToUpper(ReplaceFirstUnderscore(src)))
  }

  lemma StrongYesBadge()
    ensures Badge(Some("strong_yes")) == RecommendationBadge(StrongYesColor, "STRONG YES")
  {
    StrongYesReplaced();
    StrongYesUpper();
  }

  lemma StrongYesReplaced()
    ensures ReplaceFirstUnderscore("strong_yes") == "strong yes"
  {
    FirstUnderscoreAt("strong_yes", 6);
    ReplacedPointwise("strong_yes", "strong yes");
  }

  /** The first underscore is the one with no underscore before it. */
  lemma FirstUnderscoreAt(s: string, k: nat)
    requires k < |s| && s[k] == '_' && forall j :: 0 <= j < k ==> s[j] != '_'
    ensures UnderscoreIndex(s) == k
  {
  }

  /** Without an underscore the replacement changes nothing. */
  lemma NoUnderscoreUnchanged(s: string)
    requires forall j :: 0 <= j < |s| ==> s[j] != '_'
    ensures ReplaceFirstUnderscore(s) == s
  {
  }

  /** A string equal to `s` except for a space at the first underscore is its replacement. */
  lemma ReplacedPointwise(s: string, t: string)
    requires |s| == |t| && UnderscoreIndex(s) < |s| && t[UnderscoreIndex(s)] == ' '
    requires forall j :: 0 <= j < |s| && j != UnderscoreIndex(s) ==> t[j] == s[j]
    ensures ReplaceFirstUnderscore(s) == t
  {
  }

  lemma StrongYesUpper()
    ensures ToUpper("strong yes") == "STRONG YES"
  {
    UpperedPointwise("strong yes", "STRONG YES");
  }

  /** A string whose every character is the uppercase of the other's is its uppercasing. */
  lemma UpperedPointwise(s: string, t: string)
    requires |s| == |t| && forall i :: 0 <= i < |s| ==> UpperChar(s[i]) == t[i]
    ensures ToUpper(s) == t
  {
  }

  /** Only the first underscore becomes a space: "a_b_c" reads "A B_C". */
  lemma OnlyFirstUnderscoreReplaced()
    ensures Badge(Some("a_b_c")).text == "A B_C"
  {
    FirstUnderscoreAt("a_b_c", 1);
    ReplacedPointwise("a_b_c", "a b_c");
    UpperedPointwise("a b_c", "A B_C");
  }

  datatype Verdict = Pass | Fail

  /**
   * `percentage! >= passing_score!`, shown as "Passed" or "Failed": a comparison with a
   * missing side is false, so "Passed" needs both values present.
   */
  function PassFail(c: AssessedCandidate): (v: Verdict)
    ensures v == Pass <==> c.percentage.Some? && c.passingScore.Some? && c.percentage.value >= c.passingScore.value
  {
    if c.percentage.Some? && c.passingScore.Some? && c.percentage.value >= c.passingScore.value then Pass
    else Fail
  }

  /** `passing_score || 80`, the figure the score card shows beside the total. */
  function DisplayedPassingScore(c: AssessedCandidate): (r: real)
    ensures c.passingScore.Some? && c.passingScore.value != 0.0 ==> r == c.passingScore.value
    ensures c.passingScore.None? || c.passingScore == Some(0.0) ==> r == 80.0
  {
    if c.passingScore.Some? && c.passingScore.value != 0.0 then c.passingScore.value else 80.0
  }

  /**
   * The verdict does not use the displayed default: with no passing score a 95% result is
   * "Failed" although the card shows a passing figure of 80.
   */
  lemma VerdictIgnoresDisplayedDefault(c: AssessedCandidate)
    requires c.percentage == Some(95.0) && c.passingScore.None?
    ensures DisplayedPassingScore(c) == 80.0 && c.percentage.value >= DisplayedPassingScore(c)
    ensures PassFail(c) == Fail
  {
  }

  /** `max_marks ? obtained_marks / max_marks * 100 : 0`. */
  function SectionPercentage(s: SectionScore): (r: real)
    ensures s.maxMarks.None? || s.maxMarks == Some(0.0) ==> r == 0.0
    ensures s.maxMarks.Some? && s.maxMarks.value != 0.0 ==> r * s.maxMarks.value == s.obtainedMarks * 100.0
  {
    if s.maxMarks.Some? && s.maxMarks.value != 0.0 then s.obtainedMarks / s.maxMarks.value * 100.0 else 0.0
  }

  /** `section_name || "Section " + (idx + 1)`. */
  function SectionTitle(s: SectionScore, idx: nat): (r: string)
    ensures Text.Truthy(s.sectionName) ==> r == s.sectionName.value
    ensures !Text.Truthy(s.sectionName) ==>
      |r| > 8 && r[..8] == "Section " && Text.AllDigits(r[8..]) && Text.DecimalValue(r[8..]) == idx + 1
      && r[8] != '0'
  {
    var fallback := "Section " + Text.NatToDecimal(idx + 1);
    Text.DecimalRoundTrip(idx + 1);
    assert fallback[8..] == Text.NatToDecimal(idx + 1);
    Text.OrElse(s.sectionName, fallback)
  }
}
