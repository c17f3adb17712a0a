// Second stage of the allocation engine: the skill score parsed from the
// model's reply (backend/routes/admin.js:163-183), the rank and district
// scores and the weighted total of every candidate (:189, :232-244).
// Totals are kept as integers scaled by 100, which is exact because all
// weights and scores are integers.

module EngineScoring {
  import opened Common
  import opened Database
  import opened EngineCandidates

  // ---------------------------------------------------------------------
  // parseInt(text) with no radix
  // ---------------------------------------------------------------------

  /** The value of `c` as a digit of `radix` (10 or 16), if it is one. */
  function RadixDigit(c: char, radix: nat): (r: Option<nat>)
    ensures r.Some? ==> r.value < radix
    ensures radix == 10 ==> (r.Some? <==> IsDigit(c))
  {
    if '0' <= c <= '9' && (c as int - '0' as int) < radix then Some(c as int - '0' as int)
    else if radix == 16 && 'a' <= c <= 'f' then Some(c as int - 'a' as int + 10)
    else if radix == 16 && 'A' <= c <= 'F' then Some(c as int - 'A' as int + 10)
    else None
  }

  predicate AllRadixDigits(s: string, radix: nat) {
    forall i :: 0 <= i < |s| ==> RadixDigit(s[i], radix).Some?
  }

  /** The longest prefix of `s` made of digits of `radix`. */
  function DigitPrefix(s: string, radix: nat): (r: string)
    ensures |r| <= |s| && r == s[..|r|]
    ensures AllRadixDigits(r, radix)
    ensures |r| < |s| ==> RadixDigit(s[|r|], radix).None?
    decreases |s|
  {
    if s != [] && RadixDigit(s[0], radix).Some? then [s[0]] + DigitPrefix(s[1..], radix) else []
  }

  function RadixValue(s: string, radix: nat): nat
    requires AllRadixDigits(s, radix)
  {
    if s == [] then 0
    else RadixValue(s[..|s| - 1], radix) * radix + RadixDigit(s[|s| - 1], radix).value
  }

  /** An optional sign at the front: whether it is '-', and the rest. */
  function StripSign(t: string): (bool, string) {
    if t != [] && (t[0] == '-' || t[0] == '+') then (t[0] == '-', t[1..]) else (false, t)
  }

  /** The unsigned part: an optional 0x/0X prefix selecting radix 16, then
      the longest run of digits; None when there is no digit. */
  function Magnitude(u: string): Option<nat> {
    var hex := |u| >= 2 && u[0] == '0' && (u[1] == 'x' || u[1] == 'X');
    var radix := if hex then 16 else 10;
    var z := DigitPrefix(if hex then u[2..] else u, radix);
    if z == [] then None else Some(RadixValue(z, radix))
  }

  /** parseInt(text) with no radix; None stands for NaN. */
  function ParseIntJs(text: string): Option<int> {
    var (negative, u) := StripSign(TrimStart(text));
    match Magnitude(u)
    case None => None
    case Some(m) => Some(if negative then -(m as int) else m as int)
  }

  lemma {:induction false} DecimalValue(s: string)
    requires AllDigits(s)
    ensures AllRadixDigits(s, 10) && RadixValue(s, 10) == DigitsValue(s)
    decreases |s|
  {
    if s != [] {
      DecimalValue(s[..|s| - 1]);
    }
  }

  lemma {:induction false} DigitPrefixAll(s: string, rest: string)
    requires AllDigits(s)
    requires rest == [] || !IsDigit(rest[0])
    ensures DigitPrefix(s + rest, 10) == s
    decreases |s|
  {
    if s == [] {
      assert s + rest == rest;
    } else {
      DigitPrefixAll(s[1..], rest);
      assert (s + rest)[1..] == s[1..] + rest;
    }
  }

  lemma MagnitudeOfNumeral(n: nat, rest: string)
    requires rest == [] || !IsDigit(rest[0])
    requires n == 0 ==> rest == [] || (rest[0] != 'x' && rest[0] != 'X')
    ensures Magnitude(NatToString(n) + rest) == Some(n)
  {
    var d := NatToString(n);
    NatToStringRoundTrip(n);
    DecimalValue(d);
    DigitPrefixAll(d, rest);
    NatToStringNoLeadingZero(n);
    var s := d + rest;
    assert s[0] == d[0];
    if |s| >= 2 && s[0] == '0' {
      assert |d| == 1;
      assert s[1] == rest[0];
    }
  }

  lemma ParseIntSteps(text: string, negative: bool, u: string, m: nat)
    requires TrimStart(text) == text && StripSign(text) == (negative, u) && Magnitude(u) == Some(m)
    ensures ParseIntJs(text) == Some(if negative then -(m as int) else m as int)
  {
  }

  /** A minus sign in front is kept by TrimStart and taken by StripSign. */
  lemma MinusFirst(s: string)
    ensures TrimStart(['-'] + s) == ['-'] + s && StripSign(['-'] + s) == (true, s)
  {
    var m := ['-'] + s;
    assert !IsJsSpace(m[0]);
    assert m[1..] == s;
  }

  /** A text that starts with a digit is left alone by TrimStart and by
      StripSign. */
  lemma DigitFirst(s: string)
    requires s != [] && IsDigit(s[0])
    ensures TrimStart(s) == s && StripSign(s) == (false, s)
  {
    assert s[0] != '-' && s[0] != '+';
    DigitNotSpace(s[0]);
  }

  lemma DigitNotSpace(c: char)
    requires IsDigit(c)
    ensures !IsJsSpace(c)
  {
    assert 48 <= c as int <= 57;
  }

  /** The decimal numeral of `n`, followed by anything that does not start
      with a digit, parses to `n`; "0" followed by x or X is the one
      exception, since parseInt reads it as a hexadecimal prefix. */
  lemma ParseIntOfNumeral(n: nat, rest: string)
    requires rest == [] || !IsDigit(rest[0])
    requires n == 0 ==> rest == [] || (rest[0] != 'x' && rest[0] != 'X')
    ensures ParseIntJs(NatToString(n) + rest) == Some(n)
  {
    MagnitudeOfNumeral(n, rest);
    var d := NatToString(n);
    var s := d + rest;
    assert s[0] == d[0];
    DigitFirst(s);
    ParseIntSteps(s, false, s, n);
  }

  /** The same numeral after a minus sign parses to `-n`. */
  lemma ParseIntOfNegativeNumeral(n: nat, rest: string)
    requires rest == [] || !IsDigit(rest[0])
    requires n == 0 ==> rest == [] || (rest[0] != 'x' && rest[0] != 'X')
    ensures ParseIntJs("-" + NatToString(n) + rest) == Some(-(n as int))
  {
    MagnitudeOfNumeral(n, rest);
    var s := NatToString(n) + rest;
    var m := "-" + NatToString(n) + rest;
    assert m == ['-'] + s;
    MinusFirst(s);
    ParseIntSteps(m, true, s, n);
  }

  /** Text whose first visible character is neither a sign nor a digit is
      NaN to parseInt. */
  lemma ParseIntNaN(text: string)
    requires var t := TrimStart(text); t == [] || (!IsDigit(t[0]) && t[0] != '-' && t[0] != '+')
    ensures ParseIntJs(text) == None
  {
    var t := TrimStart(text);
    assert StripSign(t) == (false, t);
    NoDigitNoMagnitude(t);
  }

  lemma NoDigitNoMagnitude(u: string)
    requires u == [] || !IsDigit(u[0])
    ensures Magnitude(u) == None
  {
    if u != [] {
      assert u[0] != '0';
      assert RadixDigit(u[0], 10).None?;
    }
    assert DigitPrefix(u, 10) == [];
  }

  // ---------------------------------------------------------------------
  // getSkillMatchScore
  // ---------------------------------------------------------------------

  /** What the call to the model produced: it threw, or it returned a
      result whose `text` may be missing. */
  datatype AiReply = Threw | Replied(text: Option<string>)

  /** getSkillMatchScore: the integer parsed from the trimmed reply text,
      0 when that is NaN or when the call throws; never clamped. */
  function SkillScore(reply: AiReply): int {
    match reply
    case Threw => 0
    case Replied(t) =>
      var text := Trim(if Truthy(t) then t.value else "");
      match ParseIntJs(text)
      case None => 0
      case Some(score) => score
  }

  /** The score of a reply is what parseInt makes of its trimmed text. */
  lemma SkillScoreOfText(text: string)
    ensures SkillScore(Replied(Some(text))) == match ParseIntJs(Trim(text)) case None => 0 case Some(v) => v
  {
    if text == "" {
      assert !Truthy(Some(text));
    }
  }

  /** A reply that is a decimal numeral, possibly padded with white space,
      scores that number, however large: a reply of 150 scores 150. */
  lemma SkillScoreOfNumeral(n: nat, pre: string, post: string)
    requires forall i :: 0 <= i < |pre| ==> IsJsSpace(pre[i])
    requires forall i :: 0 <= i < |post| ==> IsJsSpace(post[i])
    ensures SkillScore(Replied(Some(pre + NatToString(n) + post))) == n
  {
    var d := NatToString(n);
    var c := d[0];
    assert IsDigit(c) && 48 <= c as int <= 57;
    assert !IsJsSpace(d[0]) && !IsJsSpace(d[|d| - 1]);
    TrimPadded(pre, d, post);
    SkillScoreOfText(pre + d + post);
    ParseIntOfNumeral(n, []);
    assert d + [] == d;
  }

  /** A negative numeral scores below zero: a reply of -5 scores -5. */
  lemma SkillScoreOfNegativeNumeral(n: nat, pre: string, post: string)
    requires forall i :: 0 <= i < |pre| ==> IsJsSpace(pre[i])
    requires forall i :: 0 <= i < |post| ==> IsJsSpace(post[i])
    ensures SkillScore(Replied(Some(pre + ("-" + NatToString(n)) + post))) == -(n as int)
  {
    var d := "-" + NatToString(n);
    var c := d[|d| - 1];
    assert IsDigit(c) && 48 <= c as int <= 57;
    assert !IsJsSpace(d[0]) && !IsJsSpace(d[|d| - 1]);
    TrimPadded(pre, d, post);
    SkillScoreOfText(pre + d + post);
    ParseIntOfNegativeNumeral(n, []);
    assert "-" + NatToString(n) + [] == d;
  }

  /** A reply with no digit after the white space and the sign scores 0,
      as do a missing text and a call that throws. */
  lemma SkillScoreDefaults(text: string)
    requires var t := Trim(text); t == [] || (!IsDigit(t[0]) && t[0] != '-' && t[0] != '+')
    ensures SkillScore(Replied(Some(text))) == 0
    ensures SkillScore(Replied(None)) == 0
    ensures SkillScore(Threw) == 0
  {
    var t := Trim(text);
    TrimmedStartsClean(text);
    ParseIntNaN(t);
    SkillScoreOfText(text);
    SkillScoreMissingText();
  }

  lemma SkillScoreMissingText()
    ensures SkillScore(Replied(None)) == 0
  {
    assert Trim("") == "" by {
      assert TrimStart("") == "";
    }
    ParseIntNaN("");
  }

  /** A trimmed text has no white space left at its start. */
  lemma TrimmedStartsClean(text: string)
    ensures TrimStart(Trim(text)) == Trim(text)
  {
    var a := TrimStart(text);
    var t := TrimEnd(a);
    if t != [] {
      assert t[0] == a[0];
    }
  }

  // ---------------------------------------------------------------------
  // Weights, scores and totals
  // ---------------------------------------------------------------------

  /** A field of the request body: absent, null, or a number. */
  datatype WeightArg = Omitted | NullArg | Given(n: int)

  datatype EngineBody = EngineBody(skillWeight: WeightArg, preferenceWeight: WeightArg, fairnessBoost: WeightArg)

  datatype Weights = Weights(skill: int, preference: int, fairness: int)

  /** A destructuring default applies only to an absent field; a null one
      counts as 0 in the arithmetic that follows. */
  function ArgValue(a: WeightArg, default: int): int {
    match a
    case Omitted => default
    case NullArg => 0
    case Given(n) => n
  }

  /** `{ skillWeight = 50, preferenceWeight = 30, fairnessBoost = 10 }` */
  function WeightsOf(body: EngineBody): Weights {
    Weights(ArgValue(body.skillWeight, 50), ArgValue(body.preferenceWeight, 30), ArgValue(body.fairnessBoost, 10))
  }

  lemma DefaultWeights(body: EngineBody)
    ensures body.skillWeight.Omitted? ==> WeightsOf(body).skill == 50
    ensures body.preferenceWeight.Omitted? ==> WeightsOf(body).preference == 30
    ensures body.fairnessBoost.Omitted? ==> WeightsOf(body).fairness == 10
    ensures body.skillWeight.Given? ==> WeightsOf(body).skill == body.skillWeight.n
    ensures body.preferenceWeight.Given? ==> WeightsOf(body).preference == body.preferenceWeight.n
    ensures body.fairnessBoost.Given? ==> WeightsOf(body).fairness == body.fairnessBoost.n
    ensures body.skillWeight.NullArg? ==> WeightsOf(body).skill == 0
    ensures body.preferenceWeight.NullArg? ==> WeightsOf(body).preference == 0
    ensures body.fairnessBoost.NullArg? ==> WeightsOf(body).fairness == 0
  {
  }

  function PreferenceScore(rank: int): int {
    100 - (rank - 1) * 10
  }

  /** Rank 1 scores 100, each worse rank exactly 10 less, with no floor:
      ranks above 11 score below zero. */
  lemma PreferenceScoreSteps(rank: int)
    ensures PreferenceScore(1) == 100
    ensures PreferenceScore(rank + 1) == PreferenceScore(rank) - 10
    ensures rank > 11 <==> PreferenceScore(rank) < 0
  {
  }

  function District(student: ProfileRow): Option<Value> {
    if "district" in student.columns then Some(student.columns["district"]) else None
  }

  predicate Aspirational(student: ProfileRow) {
    District(student) == Some(Text("Aspirational"))
  }

  function FairnessScore(student: ProfileRow, boost: int): int {
    if Aspirational(student) then boost else 0
  }

  /** The bonus is the boost for a student whose district is exactly the
      string "Aspirational", and 0 for any other or missing district. */
  lemma FairnessScoreCases(student: ProfileRow, boost: int)
    ensures FairnessScore(student, boost) == (if Aspirational(student) then boost else 0)
    ensures !("district" in student.columns) ==> FairnessScore(student, boost) == 0
    ensures District(student) == Some(Text("aspirational")) ==> FairnessScore(student, boost) == 0
  {
  }

  /** One hundred times `match.total`. */
  function Total100(c: Candidate, skill: int, w: Weights): int {
    skill * w.skill + PreferenceScore(c.pref.rank) * w.preference + 100 * FairnessScore(c.student, w.fairness)
  }

  /** The scaled total is exactly one hundred times the total the handler
      computes as `skill·(sw/100) + pref·(pw/100) + fairness`. */
  lemma TotalIsExact(c: Candidate, skill: int, w: Weights)
    ensures Total100(c, skill, w) as real ==
      100.0 * ((skill as real) * ((w.skill as real) / 100.0) +
               (PreferenceScore(c.pref.rank) as real) * ((w.preference as real) / 100.0) +
               (FairnessScore(c.student, w.fairness) as real))
  {
  }

  datatype Scored = Scored(candidate: Candidate, total: int)

  /** The candidates with their totals; the k-th call to the model is the
      one made for the k-th candidate. */
  function ScoreAll(potential: seq<Candidate>, w: Weights, ai: nat -> AiReply): (r: seq<Scored>)
    ensures |r| == |potential|
    ensures forall k :: 0 <= k < |r| ==> r[k].candidate == potential[k]
  {
    seq(|potential|, k requires 0 <= k < |potential| => Scored(potential[k], Total100(potential[k], SkillScore(ai(k)), w)))
  }

  function ProgressLine(k: nat, n: nat): string {
    "Processed " + NatToString(k) + "/" + NatToString(n)
  }

  /** The progress lines logged after the first `k` of `n` candidates. */
  function ProgressLines(k: nat, n: nat): seq<string> {
    if k == 0 then []
    else ProgressLines(k - 1, n) + (if k % 10 == 0 then [ProgressLine(k, n)] else [])
  }

  /** One progress line per ten candidates scored. */
  lemma {:induction false} ProgressLinesCount(k: nat, n: nat)
    ensures |ProgressLines(k, n)| == k / 10
  {
    if k > 0 {
      ProgressLinesCount(k - 1, n);
    }
  }

  /** The scoring loop with its `processed` counter. */
  method ScoreCandidates(potential: seq<Candidate>, w: Weights, ai: nat -> AiReply)
    returns (scored: seq<Scored>, log: seq<string>)
    ensures scored == ScoreAll(potential, w, ai)
    ensures log == ProgressLines(|potential|, |potential|)
  {
    scored, log := [], [];
    var processed: nat := 0;
    for k := 0 to |potential|
      invariant processed == k
      invariant scored == ScoreAll(potential[..k], w, ai)
      invariant log == ProgressLines(processed, |potential|)
    {
      var m := potential[k];
      var skillScore := SkillScore(ai(k));
      var preferenceScore := PreferenceScore(m.pref.rank);
      var fairnessScore := FairnessScore(m.student, w.fairness);
      var total := skillScore * w.skill + preferenceScore * w.preference + 100 * fairnessScore;
      scored := scored + [Scored(m, total)];
      processed := processed + 1;
      if processed % 10 == 0 {
        log := log + [ProgressLine(processed, |potential|)];
      }
    }
    assert potential[..|potential|] == potential;
  }
}
