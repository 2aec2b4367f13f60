/** The statistics summary (components/Statistics.tsx): totals, the forms
    and submissions of school events, the share of answers showing high
    interest in the school, and the three most requested dates. */
module Statistics {
  import opened Seqs
  import opened Records
  import opened Types

  const BriefingMarker := "説明会"
  const TrialLessonMarker := "体験授業"
  const SurveyMarker := "アンケート"
  const InterestMarker := "志望度"
  const DateMarker := "日時"
  const PreferredDateMarker := "希望日時"
  const TopDates := 3

  // ---- totals and school forms ----

  predicate IsSchoolForm(f: Form) {
    Contains(f.title, BriefingMarker) || Contains(f.title, TrialLessonMarker) || Contains(f.title, SurveyMarker)
  }

  /** A briefing or a trial lesson: the forms the interest and date analyses read. */
  predicate IsEventForm(f: Form) {
    Contains(f.title, BriefingMarker) || Contains(f.title, TrialLessonMarker)
  }

  function SchoolFormTest(): Form -> bool {
    (f: Form) => IsSchoolForm(f)
  }

  /** `schoolForms`: exactly the school forms, in their order. */
  function SchoolForms(forms: seq<Form>): (r: seq<Form>)
    ensures IsSubsequence(r, forms)
    ensures forall k :: 0 <= k < |r| ==> IsSchoolForm(r[k])
    ensures forall k :: 0 <= k < |forms| && IsSchoolForm(forms[k]) ==> forms[k] in r
    ensures forall f :: multiset(r)[f] == if IsSchoolForm(f) then multiset(forms)[f] else 0
  {
    FilterIsSubsequence(forms, SchoolFormTest());
    FilterMultiplicity(forms, SchoolFormTest());
    Filter(forms, SchoolFormTest())
  }

  /** Whether some school form among `forms` has this id. */
  ghost predicate OfSchoolForm(forms: seq<Form>, formId: string) {
    exists j :: 0 <= j < |forms| && IsSchoolForm(forms[j]) && forms[j].id == formId
  }

  /** `schoolForms.some(form => form.id === formId)`. */
  function BelongsToSchoolForm(forms: seq<Form>, formId: string): (r: bool)
    ensures r <==> OfSchoolForm(forms, formId)
  {
    var school := SchoolForms(forms);
    var found := FindForm(school, formId);
    if found.Some? then
      assert found.value in forms;
      true
    else
      forall j | 0 <= j < |forms| && IsSchoolForm(forms[j]) ensures forms[j].id != formId {
        assert forms[j] in school;
      }
      false
  }

  function SchoolSubmissionTest(forms: seq<Form>): Submission -> bool {
    (s: Submission) => BelongsToSchoolForm(forms, s.formId)
  }

  /** `schoolSubmissions`: exactly the submissions of a school form, in their order. */
  function SchoolSubmissions(forms: seq<Form>, submissions: seq<Submission>): (r: seq<Submission>)
    ensures IsSubsequence(r, submissions)
    ensures forall k :: 0 <= k < |r| ==> OfSchoolForm(forms, r[k].formId)
    ensures forall k :: 0 <= k < |submissions| && OfSchoolForm(forms, submissions[k].formId) ==> submissions[k] in r
    ensures forall s :: multiset(r)[s] == if OfSchoolForm(forms, s.formId) then multiset(submissions)[s] else 0
  {
    FilterIsSubsequence(submissions, SchoolSubmissionTest(forms));
    FilterMultiplicity(submissions, SchoolSubmissionTest(forms));
    Filter(submissions, SchoolSubmissionTest(forms))
  }

  datatype Overview = Overview(totalForms: nat, totalSubmissions: nat,
                               schoolForms: seq<Form>, schoolSubmissions: seq<Submission>)

  /** The summary counts: the totals are the input sizes, and the school
      parts never outnumber them. */
  function Summary(forms: seq<Form>, submissions: seq<Submission>): (r: Overview)
    ensures r.totalForms == |forms| && r.totalSubmissions == |submissions|
    ensures r.schoolForms == SchoolForms(forms) && r.schoolSubmissions == SchoolSubmissions(forms, submissions)
    ensures |r.schoolForms| <= r.totalForms && |r.schoolSubmissions| <= r.totalSubmissions
  {
    Overview(|forms|, |submissions|, SchoolForms(forms), SchoolSubmissions(forms, submissions))
  }

  // ---- answers of event forms ----

  /** `questions.filter(wanted).map(q => answers[q.id]).filter(Boolean)`. */
  function QuestionAnswers(answers: Answers, questions: seq<Question>, wanted: Question -> bool): (r: seq<Answer>)
    ensures forall k :: 0 <= k < |r| ==> Truthy(Some(r[k]))
    ensures |r| <= |questions|
  {
    if questions == [] then []
    else
      var rest := QuestionAnswers(answers, questions[1..], wanted);
      var a := Lookup(answers, questions[0].id);
      if wanted(questions[0]) && Truthy(a) then [a.value] + rest else rest
  }

  /** The `filter`/`flatMap` pair: for each submission whose form is a
      briefing or trial lesson, its truthy answers to the wanted questions. */
  function EventAnswers(forms: seq<Form>, submissions: seq<Submission>, wanted: Question -> bool): (r: seq<Answer>)
    ensures forall k :: 0 <= k < |r| ==> Truthy(Some(r[k]))
  {
    if submissions == [] then []
    else
      var s := submissions[0];
      var rest := EventAnswers(forms, submissions[1..], wanted);
      match FindForm(forms, s.formId)
      case Some(f) =>
        if IsEventForm(f) then QuestionAnswers(s.answers, f.questions, wanted) + rest else rest
      case None => rest
  }

  /** Whether `a` is the truthy answer stored in `answers` for one of the wanted questions. */
  ghost predicate AnswersWanted(answers: Answers, questions: seq<Question>, wanted: Question -> bool, a: Answer) {
    exists k :: 0 <= k < |questions| && wanted(questions[k]) &&
                Lookup(answers, questions[k].id) == Some(a) && Truthy(Some(a))
  }

  /** The answers kept for one submission are exactly its truthy answers to the wanted questions. */
  lemma {:induction false} QuestionAnswersMembers(answers: Answers, questions: seq<Question>,
                                                  wanted: Question -> bool, a: Answer)
    ensures a in QuestionAnswers(answers, questions, wanted) <==> AnswersWanted(answers, questions, wanted, a)
  {
    if questions != [] {
      var rest := questions[1..];
      QuestionAnswersMembers(answers, rest, wanted, a);
      if AnswersWanted(answers, rest, wanted, a) {
        var k :| 0 <= k < |rest| && wanted(rest[k]) && Lookup(answers, rest[k].id) == Some(a) && Truthy(Some(a));
        assert questions[k + 1] == rest[k];
      }
      if AnswersWanted(answers, questions, wanted, a) {
        var k :| 0 <= k < |questions| && wanted(questions[k]) &&
                 Lookup(answers, questions[k].id) == Some(a) && Truthy(Some(a));
        if k > 0 {
          assert rest[k - 1] == questions[k];
        }
      }
    }
  }

  /** Whether `a` is an answer of submission `s` that the event analyses read:
      its form exists, is a briefing or trial lesson, and asks a wanted question `s` answered with `a`. */
  ghost predicate EventAnswerOf(forms: seq<Form>, s: Submission, wanted: Question -> bool, a: Answer) {
    match FindForm(forms, s.formId)
    case Some(f) => IsEventForm(f) && AnswersWanted(s.answers, f.questions, wanted, a)
    case None => false
  }

  /** The collected answers are exactly the event answers of the submissions. */
  lemma {:induction false} EventAnswersMembers(forms: seq<Form>, submissions: seq<Submission>,
                                               wanted: Question -> bool, a: Answer)
    ensures a in EventAnswers(forms, submissions, wanted) <==>
            exists i :: 0 <= i < |submissions| && EventAnswerOf(forms, submissions[i], wanted, a)
  {
    if submissions != [] {
      var rest := submissions[1..];
      EventAnswersMembers(forms, rest, wanted, a);
      var s := submissions[0];
      match FindForm(forms, s.formId) {
        case Some(f) =>
          if IsEventForm(f) {
            QuestionAnswersMembers(s.answers, f.questions, wanted, a);
          }
        case None =>
      }
      if exists i :: 0 <= i < |rest| && EventAnswerOf(forms, rest[i], wanted, a) {
        var i :| 0 <= i < |rest| && EventAnswerOf(forms, rest[i], wanted, a);
        assert submissions[i + 1] == rest[i];
      }
      if exists i :: 0 <= i < |submissions| && EventAnswerOf(forms, submissions[i], wanted, a) {
        var i :| 0 <= i < |submissions| && EventAnswerOf(forms, submissions[i], wanted, a);
        if i > 0 {
          assert rest[i - 1] == submissions[i];
        }
      }
    }
  }

  function AsksInterest(): Question -> bool {
    (q: Question) => Contains(q.text, InterestMarker)
  }

  function AsksDate(): Question -> bool {
    (q: Question) => Contains(q.text, DateMarker) || Contains(q.text, PreferredDateMarker)
  }

  // ---- interest level ----

  /** As written: a string answer counts as high interest when it contains
      '高い' or '非常に'. */
  predicate IsHighInterestAsWritten(a: Answer) {
    a.Single? && (Contains(a.text, "高い") || Contains(a.text, "非常に"))
  }

  /** Corrected: a string answer counts as high interest when it says
      '高い' (high) or '高く' (became high); '非常に' (very) alone no longer does. */
  predicate IsHighInterest(a: Answer) {
    a.Single? && (Contains(a.text, "高い") || Contains(a.text, "高く"))
  }

  /** The interest-change answers of the briefing survey: the test as
      written counts 'very much lower' as high interest and misses 'higher'. */
  lemma AsWrittenMisreadsTheSurvey()
    ensures IsHighInterestAsWritten(Single("非常に低くなった"))
    ensures !IsHighInterestAsWritten(Single("高くなった"))
  {
    assert IsPrefix("非常に", "非常に低くなった");
    NotContainsFirst("高くなった", "非常に");
    NotContainsFirst("高くなった"[1..], "高い");
    assert !IsPrefix("高い", "高くなった");
  }

  /** The "high" and "became high" options of the briefing questionnaires. */
  const HighOptions: seq<string> := ["非常に高い", "高い", "非常に高くなった", "高くなった"]
  /** Their other options. */
  const OtherOptions: seq<string> := ["普通", "低い", "未定", "変わらない", "低くなった", "非常に低くなった"]

  /** The corrected test on every option of the briefing questionnaires:
      exactly the "high" and "became high" answers count. */
  lemma HighInterestOnTemplateOptions()
    ensures forall k :: 0 <= k < |HighOptions| ==> IsHighInterest(Single(HighOptions[k]))
    ensures forall k :: 0 <= k < |OtherOptions| ==> !IsHighInterest(Single(OtherOptions[k]))
  {
    forall k | 0 <= k < |HighOptions| ensures IsHighInterest(Single(HighOptions[k])) {
      HighMark(HighOptions[k], if k % 2 == 0 then 3 else 0);
    }
    forall k | 0 <= k < |OtherOptions| ensures !IsHighInterest(Single(OtherOptions[k])) {
      NoHighMark(OtherOptions[k]);
    }
  }

  /** An answer saying '高い' or '高く' at position `at` counts as high interest. */
  lemma {:induction false} HighMark(text: string, at: nat)
    requires at + 2 <= |text| && text[at] == '高' && (text[at + 1] == 'い' || text[at + 1] == 'く')
    ensures IsHighInterest(Single(text))
  {
    if at == 0 {
      if text[1] == 'い' {
        assert IsPrefix("高い", text);
      } else {
        assert IsPrefix("高く", text);
      }
    } else {
      HighMark(text[1..], at - 1);
    }
  }

  /** An answer without the character '高' never counts as high interest. */
  lemma NoHighMark(text: string)
    requires '高' !in text
    ensures !IsHighInterest(Single(text))
  {
    NotContainsFirst(text, "高い");
    NotContainsFirst(text, "高く");
  }

  function HighTest(): Answer -> bool {
    (a: Answer) => IsHighInterest(a)
  }

  function HighTestAsWritten(): Answer -> bool {
    (a: Answer) => IsHighInterestAsWritten(a)
  }

  lemma MulMono(d: nat, a: nat, b: nat)
    requires a <= b
    ensures d * a <= d * b
  {
  }

  /** A quotient stays below any `q` with `n < d * q`. */
  lemma DivBelow(n: nat, d: nat, q: nat)
    requires d > 0 && n < d * q
    ensures n / d < q
  {
    var r := n / d;
    assert d * r <= n;
    if r >= q {
      MulMono(d, q, r);
    }
  }

  /** A quotient reaches any `q` with `d * q <= n`. */
  lemma DivAtLeast(n: nat, d: nat, q: nat)
    requires d > 0 && d * q <= n
    ensures q <= n / d
  {
    var r := n / d;
    assert n < d * r + d;
    if r + 1 <= q {
      MulMono(d, r + 1, q);
    }
  }

  /** The quotient brackets the dividend. */
  lemma DivBrackets(n: nat, d: nat)
    requires d > 0
    ensures d * (n / d) <= n < d * (n / d + 1)
  {
    var r := n / d;
    assert n == d * r + n % d;
    assert d * (r + 1) == d * r + d;
  }

  /** The rounded share of `high` in `total`, as a quotient of naturals. */
  lemma PercentFacts(high: nat, total: nat)
    requires 0 < total && high <= total
    ensures 2 * total * ((200 * high + total) / (2 * total)) <= 200 * high + total
    ensures 200 * high + total < 2 * total * ((200 * high + total) / (2 * total) + 1)
    ensures (200 * high + total) / (2 * total) <= 100
    ensures high == total ==> (200 * high + total) / (2 * total) == 100
  {
    var n := 200 * high + total;
    var d := 2 * total;
    DivBrackets(n, d);
    assert n < d * 101;
    DivBelow(n, d, 101);
    if high == total {
      assert d * 100 <= n;
      DivAtLeast(n, d, 100);
    }
  }

  /** `Math.round(100 * high / total)` on exact rationals, and 0 when there is nothing to divide by. */
  function RoundedPercent(high: nat, total: nat): (r: nat)
    requires high <= total
    ensures total == 0 ==> r == 0
    ensures total > 0 ==> 2 * total * r <= 200 * high + total < 2 * total * (r + 1)
    ensures r <= 100
    ensures high == total && total > 0 ==> r == 100
  {
    if total == 0 then 0
    else
      PercentFacts(high, total);
      (200 * high + total) / (2 * total)
  }

  datatype InterestLevel = InterestLevel(high: nat, total: nat, percentage: nat)

  /** `getInterestLevel`: of the answers to interest questions on event
      forms, how many pass the high-interest test `isHigh`, out of how many,
      and the rounded share (0 when there are none). `HighTestAsWritten()`
      is the source's test; `HighTest()` the corrected one. */
  function Interest(forms: seq<Form>, submissions: seq<Submission>, isHigh: Answer -> bool): (r: InterestLevel)
    ensures var answers := EventAnswers(forms, submissions, AsksInterest());
            && r.total == |answers| && r.high == Count(answers, isHigh)
            && r.high <= r.total && r.percentage <= 100
            && (r.total == 0 ==> r.percentage == 0)
            && (r.total > 0 ==> 2 * r.total * r.percentage <= 200 * r.high + r.total < 2 * r.total * (r.percentage + 1))
  {
    var answers := EventAnswers(forms, submissions, AsksInterest());
    var high := Count(answers, isHigh);
    CountAtMostLength(answers, isHigh);
    InterestLevel(high, |answers|, RoundedPercent(high, |answers|))
  }

  /** A briefing survey with one question on the change of interest, and
      one submission answering it 'very much lower'. */
  const SurveyQuestion := Question("q4", "本校への志望度の変化", Radio, None, true)
  const SurveyForm := Form("f", "説明会アンケート", "", [SurveyQuestion], "")
  const VeryMuchLower := Single("非常に低くなった")
  const SurveySubmission := Submission("s", "f", "", [("q4", VeryMuchLower)], "")

  /** On that survey the level as written is one high answer of one (100%),
      and the corrected level none of one (0%). */
  lemma InterestOnTheSurvey()
    ensures Interest([SurveyForm], [SurveySubmission], HighTestAsWritten()) == InterestLevel(1, 1, 100)
    ensures Interest([SurveyForm], [SurveySubmission], HighTest()) == InterestLevel(0, 1, 0)
  {
    SurveyAnswers();
    var answers := EventAnswers([SurveyForm], [SurveySubmission], AsksInterest());
    AsWrittenMisreadsTheSurvey();
    HighInterestOnTemplateOptions();
    assert OtherOptions[5] == VeryMuchLower.text;
    assert answers[..0] == [];
    assert Count(answers, HighTestAsWritten()) == 1;
    assert Count(answers, HighTest()) == 0;
  }

  /** The survey's one interest answer is the only answer the analysis reads. */
  lemma SurveyAnswers()
    ensures EventAnswers([SurveyForm], [SurveySubmission], AsksInterest()) == [VeryMuchLower]
  {
    ContainsAt(SurveyForm.title, BriefingMarker, 0);
    assert IsEventForm(SurveyForm);
    ContainsAt(SurveyQuestion.text, InterestMarker, 4);
    assert QuestionAnswers(SurveySubmission.answers, SurveyForm.questions, AsksInterest()) == [VeryMuchLower];
    assert FindForm([SurveyForm], SurveySubmission.formId) == Some(SurveyForm);
    assert [SurveySubmission][1..] == [];
  }

  // ---- popular dates ----

  /** `typeof a === 'string' && a === text`. */
  function IsText(text: string): Answer -> bool {
    (a: Answer) => a.Single? && a.text == text
  }

  /** The tally a date answer is meant to have: absent when never given. */
  function Tally(answers: seq<Answer>, text: string): Option<nat> {
    var n := Count(answers, IsText(text));
    if n > 0 then Some(n) else None
  }

  /** The `dateCounts` loop: one entry per distinct string answer, holding
      how often it was given. */
  method CountDates(answers: seq<Answer>) returns (dateCounts: Entries<nat>)
    ensures DistinctKeys(dateCounts)
    ensures forall text :: Lookup(dateCounts, text) == Tally(answers, text)
  {
    dateCounts := [];
    var i := 0;
    while i < |answers|
      invariant 0 <= i <= |answers|
      invariant DistinctKeys(dateCounts)
      invariant forall text :: Lookup(dateCounts, text) == Tally(answers[..i], text)
    {
      var a := answers[i];
      if a.Single? {
        var before := match Lookup(dateCounts, a.text) case Some(n) => n case None => 0;
        dateCounts := Put(dateCounts, a.text, before + 1);
      }
      forall text ensures Lookup(dateCounts, text) == Tally(answers[..i + 1], text) {
        CountStep(answers, i, IsText(text));
      }
      i := i + 1;
    }
    assert answers[..i] == answers;
  }

  /** Counts never increase along the sequence. */
  ghost predicate ByCountDescending(s: seq<(string, nat)>) {
    forall i, j :: 0 <= i < j < |s| ==> s[i].1 >= s[j].1
  }

  /** Puts `e` after every entry counted at least as often: the step of a
      stable sort by descending count. */
  function Insert(e: (string, nat), s: seq<(string, nat)>): (r: seq<(string, nat)>)
    ensures multiset(r) == multiset(s) + multiset{e}
  {
    if s == [] then [e]
    else if s[0].1 >= e.1 then
      assert s == [s[0]] + s[1..];
      [s[0]] + Insert(e, s[1..])
    else [e] + s
  }

  lemma {:induction false} InsertKeepsOrder(e: (string, nat), s: seq<(string, nat)>)
    requires ByCountDescending(s)
    ensures ByCountDescending(Insert(e, s))
  {
    if s == [] {
    } else {
      assert forall j :: 0 <= j < |s| ==> s[0].1 >= s[j].1;
      if s[0].1 >= e.1 {
        assert forall j :: 0 <= j < |s[1..]| ==> s[1..][j] == s[j + 1];
        InsertKeepsOrder(e, s[1..]);
        InsertStaysBelow(e, s[1..], s[0].1);
        ConsKeepsOrder(s[0], Insert(e, s[1..]));
      } else {
        ConsKeepsOrder(e, s);
      }
    }
  }

  /** A list in order stays in order behind an entry counted at least as often as each of its entries. */
  lemma ConsKeepsOrder(x: (string, nat), s: seq<(string, nat)>)
    requires ByCountDescending(s)
    requires forall j :: 0 <= j < |s| ==> x.1 >= s[j].1
    ensures ByCountDescending([x] + s)
  {
    var r := [x] + s;
    forall i, j | 0 <= i < j < |r| ensures r[i].1 >= r[j].1 {
      assert r[j] == s[j - 1];
      if i > 0 {
        assert r[i] == s[i - 1];
      }
    }
  }

  /** Inserting leaves every count at most a bound that the entry and the list keep. */
  lemma InsertStaysBelow(e: (string, nat), s: seq<(string, nat)>, bound: nat)
    requires e.1 <= bound
    requires forall j :: 0 <= j < |s| ==> s[j].1 <= bound
    ensures forall j :: 0 <= j < |Insert(e, s)| ==> Insert(e, s)[j].1 <= bound
  {
    var r := Insert(e, s);
    forall j | 0 <= j < |r| ensures r[j].1 <= bound {
      assert r[j] in multiset(r);
      if r[j] != e {
        assert r[j] in multiset(s);
        var m :| 0 <= m < |s| && s[m] == r[j];
      }
    }
  }


  /** `.sort(([, a], [, b]) => b - a)`: the same entries, by descending count;
      entries with equal counts keep their order. */
  function SortByCount(s: seq<(string, nat)>): (r: seq<(string, nat)>)
    ensures multiset(r) == multiset(s)
    ensures ByCountDescending(r)
  {
    if s == [] then []
    else
      assert s == s[..|s| - 1] + [s[|s| - 1]];
      var sorted := SortByCount(s[..|s| - 1]);
      InsertKeepsOrder(s[|s| - 1], sorted);
      Insert(s[|s| - 1], sorted)
  }

  /** `.slice(0, 3)`. */
  function Leading(sorted: seq<(string, nat)>): (r: seq<(string, nat)>)
    ensures |r| <= TopDates && |r| <= |sorted| && r == sorted[..|r|]
    ensures |r| == TopDates || r == sorted
  {
    if |sorted| <= TopDates then sorted else sorted[..TopDates]
  }

  /** Every entry shown is a tallied entry, with its tally. */
  lemma LeadingHoldTallies(counts: Entries<nat>)
    requires DistinctKeys(counts)
    ensures var top := Leading(SortByCount(counts));
            forall k :: 0 <= k < |top| ==> Lookup(counts, top[k].0) == Some(top[k].1)
  {
    var sorted := SortByCount(counts);
    var top := Leading(sorted);
    forall k | 0 <= k < |top| ensures Lookup(counts, top[k].0) == Some(top[k].1) {
      assert top[k] == sorted[k];
      assert sorted[k] in multiset(counts);
      var m :| 0 <= m < |counts| && counts[m] == sorted[k];
      LookupDistinct(counts, m);
    }
  }

  /** Entries with distinct keys hold each entry at most once. */
  lemma {:induction false} DistinctOnce(e: Entries<nat>, x: (string, nat))
    requires DistinctKeys(e)
    ensures multiset(e)[x] <= 1
  {
    if e != [] {
      var rest := e[1..];
      assert e == [e[0]] + rest;
      assert forall j :: 0 <= j < |rest| ==> rest[j] == e[j + 1];
      DistinctOnce(rest, x);
      if e[0] == x {
        forall j | 0 <= j < |rest| ensures rest[j] != x {
          assert e[0].0 != e[j + 1].0;
        }
      }
    }
  }

  /** With each date tallied once, no date is shown twice. */
  lemma LeadingDistinct(counts: Entries<nat>)
    requires DistinctKeys(counts)
    ensures var top := Leading(SortByCount(counts));
            forall j, k :: 0 <= j < k < |top| ==> top[j].0 != top[k].0
  {
    var sorted := SortByCount(counts);
    var top := Leading(sorted);
    forall j, k | 0 <= j < k < |top| ensures top[j].0 != top[k].0 {
      assert top[j] == sorted[j] && top[k] == sorted[k];
      assert sorted[j] in multiset(counts) && sorted[k] in multiset(counts);
      var m :| 0 <= m < |counts| && counts[m] == sorted[j];
      var n :| 0 <= n < |counts| && counts[n] == sorted[k];
      if m == n {
        TwoCopies(sorted, j, k);
        DistinctOnce(counts, sorted[j]);
      }
    }
  }

  /** A tallied entry not shown comes after three shown ones counted at least as often. */
  lemma LeadingAreMostFrequent(counts: Entries<nat>, text: string)
    requires Lookup(counts, text).Some?
    ensures var top := Leading(SortByCount(counts));
            (forall k :: 0 <= k < |top| ==> top[k].0 != text) ==>
              |top| == TopDates && Lookup(counts, text).value <= top[TopDates - 1].1
  {
    var sorted := SortByCount(counts);
    var top := Leading(sorted);
    var n := Lookup(counts, text).value;
    var m :| 0 <= m < |counts| && counts[m] == (text, n);
    assert (text, n) in multiset(sorted);
    var p :| 0 <= p < |sorted| && sorted[p] == (text, n);
    assert forall k :: 0 <= k < |top| ==> top[k] == sorted[k];
    if p >= |top| {
      assert sorted[TopDates - 1].1 >= sorted[p].1 || p == TopDates - 1;
    }
  }

  /** `getPopularDates`: the (at most three) date answers given most often,
      each with the number of times it was given, by descending count; a
      date left out was given no more often than the third one shown. */
  method PopularDates(forms: seq<Form>, submissions: seq<Submission>) returns (top: seq<(string, nat)>)
    ensures var answers := EventAnswers(forms, submissions, AsksDate());
            && |top| <= TopDates
            && ByCountDescending(top)
            && (forall j, k :: 0 <= j < k < |top| ==> top[j].0 != top[k].0)
            && (forall k :: 0 <= k < |top| ==> Tally(answers, top[k].0) == Some(top[k].1))
            && (forall text :: Tally(answers, text).Some? && (forall k :: 0 <= k < |top| ==> top[k].0 != text) ==>
                  |top| == TopDates && Tally(answers, text).value <= top[TopDates - 1].1)
  {
    var answers := EventAnswers(forms, submissions, AsksDate());
    var dateCounts := CountDates(answers);
    var sorted := SortByCount(dateCounts);
    top := Leading(sorted);
    LeadingHoldTallies(dateCounts);
    LeadingDistinct(dateCounts);
    forall text | Tally(answers, text).Some?
      ensures (forall k :: 0 <= k < |top| ==> top[k].0 != text) ==>
                |top| == TopDates && Tally(answers, text).value <= top[TopDates - 1].1
    {
      LeadingAreMostFrequent(dateCounts, text);
    }
  }
}
