/**
 * The results page (app/results/page.tsx): it reads the score, the number of
 * questions and the number answered back from local storage, and derives the
 * percentage, the grade, the performance text and colour, the feedback and
 * the per-category counts shown.
 *
 * The stored values go through `Number.parseInt`, so any of them can be
 * `NaN`; the percentage is a JavaScript division, so it can also be infinite.
 */
module Results {
  import opened Wrappers
  import opened Text

  /** A value `Number.parseInt` yields: an integer, or `NaN`. */
  datatype Num = Int(n: int) | NaN

  /** How many leading characters of `s` are decimal digits. */
  function DigitRun(s: string): (n: nat)
    ensures n <= |s| && AllDigits(s[..n])
    ensures n < |s| ==> !IsDigit(s[n])
  {
    if s == [] || !IsDigit(s[0]) then 0
    else
      var n := 1 + DigitRun(s[1..]);
      assert s[..n] == [s[0]] + s[1..][..n - 1];
      n
  }

  /**
   * `Number.parseInt(s)`: an optional sign, then the longest run of digits;
   * with no digit at all the result is `NaN`.
   */
  function ParseInt(s: string): (r: Num)
    ensures (s == [] || (!IsDigit(s[0]) && s[0] != '-' && s[0] != '+')) ==> r == NaN
  {
    if s != [] && (s[0] == '-' || s[0] == '+') then
      var k := DigitRun(s[1..]);
      if k == 0 then NaN
      else
        var v: int := ParseNat(s[1..][..k]);
        Int(if s[0] == '-' then -v else v)
    else
      var k := DigitRun(s);
      if k == 0 then NaN else Int(ParseNat(s[..k]))
  }

  /** A run of digits followed by nothing or by a non-digit is read up to its end. */
  lemma {:induction false} DigitRunStops(a: string, b: string)
    requires AllDigits(a)
    requires b == [] || !IsDigit(b[0])
    ensures DigitRun(a + b) == |a|
    decreases |a|
  {
    if a != [] {
      assert (a + b)[0] == a[0];
      assert (a + b)[1..] == a[1..] + b;
      DigitRunStops(a[1..], b);
    } else {
      assert a + b == b;
    }
  }

  /** `parseInt` reads back every integer rendered in decimal. */
  lemma ParseIntString(n: int)
    ensures ParseInt(IntString(n)) == Int(n)
  {
    var m: nat := if n < 0 then -n else n;
    var digits := NatString(m);
    DigitRunStops(digits, []);
    assert digits + [] == digits;
    assert digits[..|digits|] == digits;
    ParseNatString(m);
    if n < 0 {
      assert IntString(n)[1..] == digits;
    } else {
      assert IsDigit(digits[0]);
    }
  }

  /** `parseInt` stops at the first non-digit: whatever follows a number is ignored. */
  lemma ParseIntIgnoresSuffix(n: nat, rest: string)
    requires rest == [] || !IsDigit(rest[0])
    ensures ParseInt(NatString(n) + rest) == Int(n)
  {
    var digits := NatString(n);
    DigitRunStops(digits, rest);
    assert (digits + rest)[..|digits|] == digits;
    assert IsDigit((digits + rest)[0]);
    ParseNatString(n);
  }

  /** What `getPercentage` can yield: a whole number, plus or minus `Infinity`, or `NaN`. */
  datatype Percentage = Finite(value: int) | Infinite(positive: bool) | NotANumber

  /**
   * `Math.round(n / d)`: the whole number nearest to `n / d`, halves rounded
   * up. Multiplied out: `p - 1/2 <= n / d < p + 1/2`.
   */
  function RoundedRatio(n: int, d: int): (p: int)
    requires d != 0
    ensures d > 0 ==> 2 * d * p - d <= 2 * n < 2 * d * p + d
    ensures d < 0 ==> 2 * d * p - d >= 2 * n > 2 * d * p + d
  {
    var num := if d > 0 then 2 * n + d else -2 * n - d;
    var den := if d > 0 then 2 * d else -2 * d;
    var p := num / den;
    assert den * p <= num < den * p + den;
    p
  }

  /**
   * `getPercentage`: `Math.round(score / total * 100)`. A zero total gives
   * `NaN` for a zero score and an infinity of the score's sign otherwise;
   * `NaN` anywhere gives `NaN`.
   */
  function GetPercentage(score: Num, total: Num): (p: Percentage)
    ensures score.Int? && total.Int? && total.n != 0 ==> p == Finite(RoundedRatio(100 * score.n, total.n))
    ensures p.Infinite? <==> score.Int? && total.Int? && total.n == 0 && score.n != 0
    ensures p.Infinite? ==> p.positive == (score.n > 0)
  {
    match (score, total)
    case (Int(s), Int(t)) =>
      if t != 0 then Finite(RoundedRatio(100 * s, t))
      else if s == 0 then NotANumber
      else Infinite(s > 0)
    case _ => NotANumber
  }

  /** `percentage >= k`: an infinity is above or below every bound, and `NaN` compares false. */
  predicate AtLeast(p: Percentage, k: int) {
    match p
    case Finite(v) => v >= k
    case Infinite(positive) => positive
    case NotANumber => false
  }

  /** `getGrade`. */
  function Grade(p: Percentage): (g: string)
    ensures g in {"A", "B", "C", "D", "F"}
    ensures g == "A" <==> AtLeast(p, 90)
    ensures g == "B" <==> AtLeast(p, 80) && !AtLeast(p, 90)
    ensures g == "C" <==> AtLeast(p, 70) && !AtLeast(p, 80)
    ensures g == "D" <==> AtLeast(p, 60) && !AtLeast(p, 70)
    ensures g == "F" <==> !AtLeast(p, 60)
  {
    if AtLeast(p, 90) then "A"
    else if AtLeast(p, 80) then "B"
    else if AtLeast(p, 70) then "C"
    else if AtLeast(p, 60) then "D"
    else "F"
  }

  /** `getPerformanceText`. */
  function PerformanceText(p: Percentage): (t: string)
    ensures t in {"Excellent", "Very Good", "Good", "Satisfactory", "Needs Improvement", "Poor"}
    ensures t == "Excellent" <==> AtLeast(p, 90)
    ensures t == "Very Good" <==> AtLeast(p, 80) && !AtLeast(p, 90)
    ensures t == "Good" <==> AtLeast(p, 70) && !AtLeast(p, 80)
    ensures t == "Satisfactory" <==> AtLeast(p, 60) && !AtLeast(p, 70)
    ensures t == "Needs Improvement" <==> AtLeast(p, 50) && !AtLeast(p, 60)
    ensures t == "Poor" <==> !AtLeast(p, 50)
  {
    if AtLeast(p, 90) then "Excellent"
    else if AtLeast(p, 80) then "Very Good"
    else if AtLeast(p, 70) then "Good"
    else if AtLeast(p, 60) then "Satisfactory"
    else if AtLeast(p, 50) then "Needs Improvement"
    else "Poor"
  }

  /** `getPerformanceColor`. */
  function PerformanceColor(p: Percentage): (c: string)
    ensures c in {"text-green-600", "text-blue-600", "text-amber-600", "text-red-600"}
    ensures c == "text-green-600" <==> AtLeast(p, 80)
    ensures c == "text-blue-600" <==> AtLeast(p, 60) && !AtLeast(p, 80)
    ensures c == "text-amber-600" <==> AtLeast(p, 50) && !AtLeast(p, 60)
    ensures c == "text-red-600" <==> !AtLeast(p, 50)
  {
    if AtLeast(p, 80) then "text-green-600"
    else if AtLeast(p, 60) then "text-blue-600"
    else if AtLeast(p, 50) then "text-amber-600"
    else "text-red-600"
  }

  const StrongFeedback := "Great job! You've demonstrated a solid understanding of the subject matter. Keep up the good work!"
  const BasicFeedback := "You've shown a basic understanding of the subject. With more practice and study, you can improve your performance."
  const ReviewFeedback := "You may need to review the subject material more thoroughly. Consider seeking additional resources or help to strengthen your understanding."

  /** The feedback paragraph. */
  function Feedback(p: Percentage): (f: string)
    ensures f in {StrongFeedback, BasicFeedback, ReviewFeedback}
    ensures f == StrongFeedback <==> AtLeast(p, 70)
    ensures f == BasicFeedback <==> AtLeast(p, 50) && !AtLeast(p, 70)
    ensures f == ReviewFeedback <==> !AtLeast(p, 50)
  {
    if AtLeast(p, 70) then StrongFeedback
    else if AtLeast(p, 50) then BasicFeedback
    else ReviewFeedback
  }

  /** The grade's place in A > B > C > D > F. */
  function GradeRank(g: string): nat {
    if g == "A" then 4 else if g == "B" then 3 else if g == "C" then 2 else if g == "D" then 1 else 0
  }

  /** `q` is at least as high as `p` against every bound. */
  ghost predicate NoLower(p: Percentage, q: Percentage) {
    forall k :: AtLeast(p, k) ==> AtLeast(q, k)
  }

  /** A higher percentage never earns a lower grade. */
  lemma GradeMonotone(p: Percentage, q: Percentage)
    requires NoLower(p, q)
    ensures GradeRank(Grade(p)) <= GradeRank(Grade(q))
  {
    assert AtLeast(p, 90) ==> AtLeast(q, 90);
    assert AtLeast(p, 80) ==> AtLeast(q, 80);
    assert AtLeast(p, 70) ==> AtLeast(q, 70);
    assert AtLeast(p, 60) ==> AtLeast(q, 60);
  }

  /** Whole-number percentages are ordered as numbers. */
  lemma FiniteNoLower(a: int, b: int)
    requires a <= b
    ensures NoLower(Finite(a), Finite(b))
  {
  }

  /** Multiplying by a positive number keeps strict order, both ways. */
  lemma CancelPositive(t: int, a: int, b: int)
    requires t > 0
    ensures t * a < t * b <==> a < b
  {
    assert t * b - t * a == t * (b - a);
  }

  /** A higher score out of the same positive total never gives a lower percentage. */
  lemma PercentageMonotone(s1: int, s2: int, t: int)
    requires s1 <= s2 && t > 0
    ensures GetPercentage(Int(s1), Int(t)).value <= GetPercentage(Int(s2), Int(t)).value
  {
    var p1 := RoundedRatio(100 * s1, t);
    var p2 := RoundedRatio(100 * s2, t);
    assert 2 * t * (p2 + 1) == 2 * t * p2 + 2 * t;
    CancelPositive(2 * t, p1, p2 + 1);
  }

  /** A score between none and all of a positive total gives a percentage from 0 to 100. */
  lemma PercentageBounds(s: int, t: int)
    requires 0 <= s <= t && t > 0
    ensures GetPercentage(Int(s), Int(t)).Finite?
    ensures 0 <= GetPercentage(Int(s), Int(t)).value <= 100
  {
    var p := RoundedRatio(100 * s, t);
    CancelPositive(2 * t, -1, p);
    CancelPositive(2 * t, p, 101);
  }

  /** Full marks out of a positive total: 100%, grade A, "Excellent", green, the strong feedback. */
  lemma FullMarks(t: int)
    requires t > 0
    ensures GetPercentage(Int(t), Int(t)) == Finite(100)
    ensures Grade(Finite(100)) == "A" && PerformanceText(Finite(100)) == "Excellent"
    ensures PerformanceColor(Finite(100)) == "text-green-600" && Feedback(Finite(100)) == StrongFeedback
  {
    var p := RoundedRatio(100 * t, t);
    CancelPositive(2 * t, 99, p);
    CancelPositive(2 * t, p, 101);
  }

  /**
   * The text, colour and feedback agree with the grade: each grade above F
   * has its own text, green is A or B, blue is C or D, and the two texts and
   * three colours under 60 all come with an F.
   */
  lemma DisplaysAgreeWithGrade(p: Percentage)
    ensures Grade(p) == "A" <==> PerformanceText(p) == "Excellent"
    ensures Grade(p) == "B" <==> PerformanceText(p) == "Very Good"
    ensures Grade(p) == "C" <==> PerformanceText(p) == "Good"
    ensures Grade(p) == "D" <==> PerformanceText(p) == "Satisfactory"
    ensures Grade(p) == "F" <==> PerformanceText(p) in {"Needs Improvement", "Poor"}
    ensures PerformanceColor(p) == "text-green-600" <==> Grade(p) in {"A", "B"}
    ensures PerformanceColor(p) == "text-blue-600" <==> Grade(p) in {"C", "D"}
    ensures PerformanceColor(p) == "text-amber-600" <==> PerformanceText(p) == "Needs Improvement"
    ensures PerformanceColor(p) == "text-red-600" <==> PerformanceText(p) == "Poor"
    ensures Feedback(p) == StrongFeedback <==> Grade(p) in {"A", "B", "C"}
    ensures Feedback(p) == ReviewFeedback <==> PerformanceText(p) == "Poor"
  {
  }

  /** A page with no result to show (`NaN`): grade F, "Poor", red, and the review feedback. */
  lemma NotANumberIsLowest()
    ensures Grade(NotANumber) == "F" && PerformanceText(NotANumber) == "Poor"
    ensures PerformanceColor(NotANumber) == "text-red-600" && Feedback(NotANumber) == ReviewFeedback
  {
  }

  /** `a - b` on parsed values. */
  function Minus(a: Num, b: Num): (r: Num)
    ensures r.Int? <==> a.Int? && b.Int?
  {
    if a.Int? && b.Int? then Int(a.n - b.n) else NaN
  }

  /** The incorrect count, `answeredQuestions - score`. */
  function Incorrect(answered: Num, score: Num): (r: Num)
    ensures r.Int? <==> answered.Int? && score.Int?
    ensures r.Int? ==> r.n == answered.n - score.n
  {
    Minus(answered, score)
  }

  /** The unanswered count, `totalQuestions - answeredQuestions`. */
  function Unanswered(total: Num, answered: Num): (r: Num)
    ensures r.Int? <==> total.Int? && answered.Int?
    ensures r.Int? ==> r.n == total.n - answered.n
  {
    Minus(total, answered)
  }

  /** What the page does on load: shows the stored result, or sends the visitor home. */
  datatype Loaded = Show(score: Num, total: Num, answered: Num, subject: string) | RedirectHome

  predicate Stored(item: Option<string>) {
    item.Some? && item.value != ""
  }

  /**
   * The load effect: the three numbers must all be stored and non-empty, and
   * are then parsed; a missing subject reads as "".
   */
  function Load(examScore: Option<string>, totalQuestions: Option<string>,
                answeredQuestions: Option<string>, examSubject: Option<string>): (r: Loaded)
    ensures r.RedirectHome? <==> !(Stored(examScore) && Stored(totalQuestions) && Stored(answeredQuestions))
  {
    if Stored(examScore) && Stored(totalQuestions) && Stored(answeredQuestions) then
      Show(ParseInt(examScore.value), ParseInt(totalQuestions.value), ParseInt(answeredQuestions.value),
           examSubject.GetOr(""))
    else RedirectHome
  }

  /** Numbers stored as their decimal text are shown as those numbers. */
  lemma LoadReadsBackStoredNumbers(score: int, total: int, answered: int, subject: Option<string>)
    ensures Load(Some(IntString(score)), Some(IntString(total)), Some(IntString(answered)), subject)
      == Show(Int(score), Int(total), Int(answered), if subject.Some? then subject.value else "")
  {
    ParseIntString(score);
    ParseIntString(total);
    ParseIntString(answered);
  }

  /**
   * Numbers stored as their decimal text show as incorrect `answered - score`
   * and unanswered `total - answered`.
   */
  lemma StoredCountsShown(score: int, total: int, answered: int, subject: Option<string>)
    ensures var r := Load(Some(IntString(score)), Some(IntString(total)), Some(IntString(answered)), subject);
      r.Show? && r.score == Int(score)
      && Incorrect(r.answered, r.score) == Int(answered - score)
      && Unanswered(r.total, r.answered) == Int(total - answered)
  {
    LoadReadsBackStoredNumbers(score, total, answered, subject);
  }

  /** A stored number that does not parse makes every count computed from it `NaN`. */
  lemma UnparsedCountIsNotANumber(score: string, total: string, answered: string, subject: Option<string>)
    requires score != "" && total != "" && answered != ""
    ensures var r := Load(Some(score), Some(total), Some(answered), subject);
      r.Show?
      && (Incorrect(r.answered, r.score).NaN? <==> ParseInt(answered).NaN? || ParseInt(score).NaN?)
      && (Unanswered(r.total, r.answered).NaN? <==> ParseInt(total).NaN? || ParseInt(answered).NaN?)
  {
  }

  /** The display names of the known subjects. */
  const SubjectNames: map<string, string> := map[
    "software-engineering" := "Software Engineering",
    "computer-architecture" := "Computer Architecture",
    "python" := "Python",
    "dsa" := "Data Structures and Algorithms",
    "html" := "HTML"]

  /**
   * `getSubjectName`: a known slug's display name, any other slug itself.
   * Every display name differs from its slug, so the name is the slug exactly
   * when the slug is unknown.
   */
  function SubjectName(slug: string): (name: string)
    ensures slug in SubjectNames ==> name == SubjectNames[slug]
    ensures name == slug <==> slug !in SubjectNames
  {
    if slug in SubjectNames then SubjectNames[slug] else slug
  }
}
