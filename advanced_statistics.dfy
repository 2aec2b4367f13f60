/** The detailed statistics panel (components/AdvancedStatistics.tsx): a
    form and date-range filter over the submissions, then an answer tally per
    question, a histogram by time of day, one by weekday, a tally of the
    fixed "change of interest" answers, and the busiest slot and day.
    What a time stamp means as a date is supplied from outside: `instantOf`
    gives milliseconds, `hourOf` the local hour, `weekdayOf` the local
    weekday; each is `None` for a time stamp that is not a valid date. */
module AdvancedStatistics {
  import opened Seqs
  import opened Records
  import opened Types

  const AllForms := "all"
  const DayMillis := 24 * 60 * 60 * 1000

  /** The date-range selector: every submission, or the last `days` days. */
  datatype DateRange = AllTime | PastDays(days: nat)

  type Weekday = d: nat | d < 7

  /** The keys of the time-of-day histogram, in its order. */
  const SlotLabels: seq<string> := ["9:00-12:00", "12:00-15:00", "15:00-18:00", "18:00-21:00", "21:00-24:00", "0:00-9:00"]
  /** The keys of the weekday histogram, Sunday first as `getDay` counts. */
  const DayLabels: seq<string> := ["日曜日", "月曜日", "火曜日", "水曜日", "木曜日", "金曜日", "土曜日"]
  /** The answers the change-of-interest table counts, in its order. */
  const ChangeLabels: seq<string> := ["非常に高くなった", "高くなった", "変わらない", "低くなった", "非常に低くなった"]
  const ChangeQuestionMarker := "志望度の変化"

  // ---- filter ----

  /** Whether a submission survives the two selectors. */
  predicate Kept(s: Submission, selectedForm: string, range: DateRange, nowMillis: int,
                 instantOf: string -> Option<int>) {
    && (selectedForm != AllForms ==> s.formId == selectedForm)
    && (range.PastDays? ==> instantOf(s.submittedAt).Some? &&
                            instantOf(s.submittedAt).value >= nowMillis - range.days * DayMillis)
  }

  function FormIs(formId: string): Submission -> bool {
    (s: Submission) => s.formId == formId
  }

  function SubmittedSince(cutoff: int, instantOf: string -> Option<int>): Submission -> bool {
    (s: Submission) => instantOf(s.submittedAt).Some? && instantOf(s.submittedAt).value >= cutoff
  }

  /** `getFilteredSubmissions`: exactly the submissions that pass both
      selectors, in their order and with every copy; with both on 'all'
      every submission. */
  method FilteredSubmissions(submissions: seq<Submission>, selectedForm: string, range: DateRange,
                             nowMillis: int, instantOf: string -> Option<int>) returns (filtered: seq<Submission>)
    ensures IsSubsequence(filtered, submissions)
    ensures forall k :: 0 <= k < |filtered| ==> Kept(filtered[k], selectedForm, range, nowMillis, instantOf)
    ensures forall k :: 0 <= k < |submissions| && Kept(submissions[k], selectedForm, range, nowMillis, instantOf) ==>
              submissions[k] in filtered
    ensures selectedForm == AllForms && range == AllTime ==> filtered == submissions
    ensures forall x :: multiset(filtered)[x] ==
              if Kept(x, selectedForm, range, nowMillis, instantOf) then multiset(submissions)[x] else 0
  {
    filtered := submissions;
    SubsequenceReflexive(submissions);
    if selectedForm != AllForms {
      FilterIsSubsequence(filtered, FormIs(selectedForm));
      filtered := Filter(filtered, FormIs(selectedForm));
    }
    ghost var byForm := filtered;
    if range.PastDays? {
      var cutoff := nowMillis - range.days * DayMillis;
      var before := filtered;
      FilterIsSubsequence(before, SubmittedSince(cutoff, instantOf));
      filtered := Filter(before, SubmittedSince(cutoff, instantOf));
      SubsequenceTransitive(filtered, before, submissions);
    }
    FilteringKeepsCopies(submissions, selectedForm, range, nowMillis, instantOf, byForm, filtered);
  }

  /** The form filter and then the date filter keep every copy of a submission
      that passes both and none of another. */
  lemma FilteringKeepsCopies(submissions: seq<Submission>, selectedForm: string, range: DateRange,
                             nowMillis: int, instantOf: string -> Option<int>,
                             byForm: seq<Submission>, filtered: seq<Submission>)
    requires byForm == if selectedForm != AllForms then Filter(submissions, FormIs(selectedForm)) else submissions
    requires filtered == if range.PastDays?
                         then Filter(byForm, SubmittedSince(nowMillis - range.days * DayMillis, instantOf))
                         else byForm
    ensures forall x :: multiset(filtered)[x] ==
              if Kept(x, selectedForm, range, nowMillis, instantOf) then multiset(submissions)[x] else 0
    ensures forall k :: 0 <= k < |filtered| ==> Kept(filtered[k], selectedForm, range, nowMillis, instantOf)
    ensures forall k :: 0 <= k < |submissions| && Kept(submissions[k], selectedForm, range, nowMillis, instantOf) ==>
              submissions[k] in filtered
  {
    FilterMultiplicity(submissions, FormIs(selectedForm));
    if range.PastDays? {
      FilterMultiplicity(byForm, SubmittedSince(nowMillis - range.days * DayMillis, instantOf));
    }
  }

  // ---- time of day and weekday ----

  /** The time-of-day bucket of an hour; an unreadable time stamp's hour
      fails every comparison and lands in the last bucket. */
  function SlotOf(hour: Option<int>): (r: nat)
    ensures r < |SlotLabels|
    ensures r == 0 <==> hour.Some? && 9 <= hour.value < 12
    ensures r == 1 <==> hour.Some? && 12 <= hour.value < 15
    ensures r == 2 <==> hour.Some? && 15 <= hour.value < 18
    ensures r == 3 <==> hour.Some? && 18 <= hour.value < 21
    ensures r == 4 <==> hour.Some? && hour.value >= 21
    ensures r == 5 <==> hour.None? || hour.value < 9
  {
    match hour
    case None => 5
    case Some(h) =>
      if h >= 9 && h < 12 then 0
      else if h >= 12 && h < 15 then 1
      else if h >= 15 && h < 18 then 2
      else if h >= 18 && h < 21 then 3
      else if h >= 21 then 4
      else 5
  }

  function InSlot(j: nat, hourOf: string -> Option<int>): Submission -> bool {
    (s: Submission) => SlotOf(hourOf(s.submittedAt)) == j
  }

  function OnDay(d: nat, weekdayOf: string -> Option<Weekday>): Submission -> bool {
    (s: Submission) => weekdayOf(s.submittedAt) == Some(d)
  }

  function HasNoDay(weekdayOf: string -> Option<Weekday>): Submission -> bool {
    (s: Submission) => weekdayOf(s.submittedAt).None?
  }

  /** `getTimeAnalysis`: each bucket holds the number of submissions of that
      time of day, and since every submission falls in exactly one bucket the
      buckets add up to the number of submissions. */
  method TimeAnalysis(submissions: seq<Submission>, hourOf: string -> Option<int>) returns (counts: seq<nat>)
    ensures |counts| == |SlotLabels|
    ensures forall j :: 0 <= j < |counts| ==> counts[j] == Count(submissions, InSlot(j, hourOf))
    ensures Sum(counts) == |submissions|
  {
    counts := Zeros(|SlotLabels|);
    var i := 0;
    while i < |submissions|
      invariant 0 <= i <= |submissions| && |counts| == |SlotLabels|
      invariant forall j :: 0 <= j < |counts| ==> counts[j] == Count(submissions[..i], InSlot(j, hourOf))
      invariant Sum(counts) == i
    {
      var s := submissions[i];
      var slot := SlotOf(hourOf(s.submittedAt));
      SumIncrement(counts, slot);
      counts := counts[slot := counts[slot] + 1];
      assert submissions[..i + 1] == submissions[..i] + [s];
      forall j | 0 <= j < |counts|
        ensures counts[j] == Count(submissions[..i + 1], InSlot(j, hourOf))
      {
        CountAppend(submissions[..i], s, InSlot(j, hourOf));
      }
      i := i + 1;
    }
    assert submissions[..i] == submissions;
  }

  /** `weekDays[dayNames[day]]++` for one submission; an unreadable date adds to no weekday. */
  function TickDay(counts: seq<nat>, day: Option<Weekday>): seq<nat> {
    if day.Some? && day.value < |counts| then counts[day.value := counts[day.value] + 1] else counts
  }

  /** The weekday counts are those of the submissions `seen`. */
  ghost predicate WeekTallies(counts: seq<nat>, seen: seq<Submission>, weekdayOf: string -> Option<Weekday>) {
    && |counts| == |DayLabels|
    && (forall d :: 0 <= d < |counts| ==> counts[d] == Count(seen, OnDay(d, weekdayOf)))
    && Sum(counts) + Count(seen, HasNoDay(weekdayOf)) == |seen|
  }

  /** Counting one more submission keeps the weekday counts exact. */
  lemma WeekStep(submissions: seq<Submission>, i: nat, weekdayOf: string -> Option<Weekday>, counts: seq<nat>)
    requires i < |submissions| && WeekTallies(counts, submissions[..i], weekdayOf)
    ensures WeekTallies(TickDay(counts, weekdayOf(submissions[i].submittedAt)), submissions[..i + 1], weekdayOf)
  {
    var s := submissions[i];
    var day := weekdayOf(s.submittedAt);
    var next := TickDay(counts, day);
    CountStep(submissions, i, HasNoDay(weekdayOf));
    if day.Some? {
      SumIncrement(counts, day.value);
    }
    forall d | 0 <= d < |next|
      ensures next[d] == Count(submissions[..i + 1], OnDay(d, weekdayOf))
    {
      CountStep(submissions, i, OnDay(d, weekdayOf));
      assert OnDay(d, weekdayOf)(s) <==> day == Some(d);
    }
  }

  /** `getWeeklyAnalysis`: each weekday holds the number of submissions of
      that day; the seven add up to the submissions whose time stamp is a
      valid date (an invalid one is counted under no weekday). */
  method WeeklyAnalysis(submissions: seq<Submission>, weekdayOf: string -> Option<Weekday>)
      returns (counts: seq<nat>)
    ensures |counts| == |DayLabels|
    ensures forall d :: 0 <= d < |counts| ==> counts[d] == Count(submissions, OnDay(d, weekdayOf))
    ensures Sum(counts) + Count(submissions, HasNoDay(weekdayOf)) == |submissions|
  {
    counts := Zeros(|DayLabels|);
    var i := 0;
    while i < |submissions|
      invariant 0 <= i <= |submissions|
      invariant WeekTallies(counts, submissions[..i], weekdayOf)
    {
      WeekStep(submissions, i, weekdayOf, counts);
      var day := weekdayOf(submissions[i].submittedAt);
      if day.Some? {
        counts := counts[day.value := counts[day.value] + 1];
      }
      i := i + 1;
    }
    assert submissions[..i] == submissions;
  }

  /** `entries.reduce((a, b) => a[1] > b[1] ? a : b)` over the first `n`
      counts: a later entry replaces the one held unless that one is
      strictly larger, so the last of the largest counts wins. */
  function MostFrequentAmong(counts: seq<nat>, n: nat): (r: nat)
    requires 0 < n <= |counts|
    ensures r < n
    ensures forall k :: 0 <= k < n ==> counts[k] <= counts[r]
    ensures forall k :: r < k < n ==> counts[k] < counts[r]
  {
    if n == 1 then 0
    else
      var a := MostFrequentAmong(counts, n - 1);
      if counts[a] > counts[n - 1] then a else n - 1
  }

  /** The label shown as busiest ('最多回答時間' and '最多回答曜日'). */
  function MostFrequentLabel(labels: seq<string>, counts: seq<nat>): (r: string)
    requires 0 < |labels| == |counts|
    ensures exists k :: 0 <= k < |counts| && r == labels[k] && forall j :: 0 <= j < |counts| ==> counts[j] <= counts[k]
  {
    labels[MostFrequentAmong(counts, |counts|)]
  }

  // ---- answer trends and change of interest ----

  /** The (question text, answer text) pairs the analyses visit: for each
      submission whose form exists, each answer whose question the form has,
      in entry order. */
  function EntryObservations(entries: Answers, form: Form): seq<(string, string)>
  {
    if entries == [] then []
    else
      var last := entries[|entries| - 1];
      EntryObservations(entries[..|entries| - 1], form) +
        match FindQuestion(form.questions, last.0)
        case None => []
        case Some(q) => [(q.text, AnswerText(last.1))]
  }

  function SubmissionObservations(s: Submission, forms: seq<Form>): seq<(string, string)> {
    match FindForm(forms, s.formId)
    case None => []
    case Some(f) => EntryObservations(s.answers, f)
  }

  function Observations(submissions: seq<Submission>, forms: seq<Form>): seq<(string, string)>
  {
    if submissions == [] then []
    else Observations(submissions[..|submissions| - 1], forms) +
           SubmissionObservations(submissions[|submissions| - 1], forms)
  }

  /** The inner `Object.entries(sub.answers).forEach` walk over one submission's answers. */
  method CollectEntryObservations(entries: Answers, form: Form) returns (part: seq<(string, string)>)
    ensures part == EntryObservations(entries, form)
  {
    part := [];
    var j := 0;
    while j < |entries|
      invariant 0 <= j <= |entries|
      invariant part == EntryObservations(entries[..j], form)
    {
      assert entries[..j + 1][..j] == entries[..j];
      var question := FindQuestion(form.questions, entries[j].0);
      if question.Some? {
        part := part + [(question.value.text, AnswerText(entries[j].1))];
      }
      j := j + 1;
    }
    assert entries[..j] == entries;
  }

  /** The nested `forEach` walk that both the answer tally and the interest
      tally make, collected in visiting order. */
  method CollectObservations(submissions: seq<Submission>, forms: seq<Form>) returns (obs: seq<(string, string)>)
    ensures obs == Observations(submissions, forms)
  {
    obs := [];
    var i := 0;
    while i < |submissions|
      invariant 0 <= i <= |submissions|
      invariant obs == Observations(submissions[..i], forms)
    {
      var s := submissions[i];
      assert submissions[..i + 1][..i] == submissions[..i];
      var form := FindForm(forms, s.formId);
      if form.Some? {
        var part := CollectEntryObservations(s.answers, form.value);
        obs := obs + part;
      }
      i := i + 1;
    }
    assert submissions[..i] == submissions;
  }

  function IsPair(question: string, answer: string): ((string, string)) -> bool {
    (o: (string, string)) => o.0 == question && o.1 == answer
  }

  function AboutQuestion(question: string): ((string, string)) -> bool {
    (o: (string, string)) => o.0 == question
  }

  /** `trends[question][answer]`, with an absent entry read as 0. */
  function TrendCount(trends: map<string, map<string, nat>>, question: string, answer: string): nat {
    if question in trends && answer in trends[question] then trends[question][answer] else 0
  }

  /** `trends[q] ||= {}; trends[q][a] = (trends[q][a] || 0) + 1`. */
  function Bump(trends: map<string, map<string, nat>>, o: (string, string)): map<string, map<string, nat>> {
    var row := if o.0 in trends then trends[o.0] else map[];
    trends[o.0 := row[o.1 := (if o.1 in row then row[o.1] else 0) + 1]]
  }

  /** The tallies of `trends` are those of the observations `seen`. */
  ghost predicate Tallies(trends: map<string, map<string, nat>>, seen: seq<(string, string)>) {
    && (forall q, a :: TrendCount(trends, q, a) == Count(seen, IsPair(q, a)))
    && (forall q :: q in trends <==> Count(seen, AboutQuestion(q)) > 0)
    && (forall q, a :: q in trends && a in trends[q] ==> trends[q][a] > 0)
  }

  /** Bumping by one more observation keeps the tallies exact. */
  lemma BumpTallies(trends: map<string, map<string, nat>>, seen: seq<(string, string)>, o: (string, string))
    requires Tallies(trends, seen)
    ensures Tallies(Bump(trends, o), seen + [o])
  {
    var t := Bump(trends, o);
    forall q, a ensures TrendCount(t, q, a) == Count(seen + [o], IsPair(q, a)) {
      CountAppend(seen, o, IsPair(q, a));
      if q == o.0 && a == o.1 {
        assert TrendCount(t, q, a) == TrendCount(trends, q, a) + 1;
      } else if q == o.0 {
        assert TrendCount(t, q, a) == TrendCount(trends, q, a);
      } else {
        assert TrendCount(t, q, a) == TrendCount(trends, q, a);
      }
    }
    forall q ensures q in t <==> Count(seen + [o], AboutQuestion(q)) > 0 {
      CountAppend(seen, o, AboutQuestion(q));
    }
  }

  /** The counting loop of `getAnswerTrends` over the visited answers. */
  method TallyTrends(obs: seq<(string, string)>) returns (trends: map<string, map<string, nat>>)
    ensures Tallies(trends, obs)
  {
    trends := map[];
    var i := 0;
    while i < |obs|
      invariant 0 <= i <= |obs|
      invariant Tallies(trends, obs[..i])
    {
      BumpTallies(trends, obs[..i], obs[i]);
      assert obs[..i + 1] == obs[..i] + [obs[i]];
      trends := Bump(trends, obs[i]);
      i := i + 1;
    }
    assert obs[..i] == obs;
  }

  /** `getAnswerTrends`: for every question text and answer text, the tally
      is the number of times that answer was given to that question; a
      question appears exactly when it was answered, and an answer only with
      a positive count. */
  method AnswerTrends(submissions: seq<Submission>, forms: seq<Form>) returns (trends: map<string, map<string, nat>>)
    ensures forall q, a :: TrendCount(trends, q, a) == Count(Observations(submissions, forms), IsPair(q, a))
    ensures forall q :: q in trends <==> Count(Observations(submissions, forms), AboutQuestion(q)) > 0
    ensures forall q, a :: q in trends && a in trends[q] ==> trends[q][a] > 0
  {
    var obs := CollectObservations(submissions, forms);
    trends := TallyTrends(obs);
  }

  function IsChange(j: nat): ((string, string)) -> bool
    requires j < |ChangeLabels|
  {
    (o: (string, string)) => Contains(o.0, ChangeQuestionMarker) && o.1 == ChangeLabels[j]
  }

  function AboutChange(): ((string, string)) -> bool {
    (o: (string, string)) => Contains(o.0, ChangeQuestionMarker)
  }

  /** The index of a change-of-interest label, if the answer is one. */
  function ChangeIndex(answer: string): (r: Option<nat>)
    ensures r.Some? ==> r.value < |ChangeLabels| && ChangeLabels[r.value] == answer
    ensures r.None? <==> answer !in ChangeLabels
    ensures forall j :: 0 <= j < |ChangeLabels| && ChangeLabels[j] == answer ==> r == Some(j)
  {
    if answer == ChangeLabels[0] then Some(0)
    else if answer == ChangeLabels[1] then Some(1)
    else if answer == ChangeLabels[2] then Some(2)
    else if answer == ChangeLabels[3] then Some(3)
    else if answer == ChangeLabels[4] then Some(4)
    else None
  }

  /** The label an observation counts under, if any. */
  function ChangeOf(o: (string, string)): (r: Option<nat>)
    ensures r.Some? ==> r.value < |ChangeLabels| && AboutChange()(o)
    ensures forall j :: 0 <= j < |ChangeLabels| ==> (IsChange(j)(o) <==> r == Some(j))
  {
    if Contains(o.0, ChangeQuestionMarker) then ChangeIndex(o.1) else None
  }

  /** The change counts are those of the observations `seen`. */
  ghost predicate ChangeTallies(counts: seq<nat>, seen: seq<(string, string)>) {
    && |counts| == |ChangeLabels|
    && (forall j :: 0 <= j < |counts| ==> counts[j] == Count(seen, IsChange(j)))
    && Sum(counts) <= Count(seen, AboutChange())
  }

  /** `interestChanges[answerText]++` when the answer is one of the labels. */
  function TickChange(counts: seq<nat>, hit: Option<nat>): seq<nat> {
    if hit.Some? && hit.value < |counts| then counts[hit.value := counts[hit.value] + 1] else counts
  }

  /** Counting one more observation keeps the change counts exact. */
  lemma ChangeStep(obs: seq<(string, string)>, i: nat, counts: seq<nat>, next: seq<nat>)
    requires i < |obs| && ChangeTallies(counts, obs[..i])
    requires next == TickChange(counts, ChangeOf(obs[i]))
    ensures ChangeTallies(next, obs[..i + 1])
  {
    var hit := ChangeOf(obs[i]);
    CountStep(obs, i, AboutChange());
    if hit.Some? {
      SumIncrement(counts, hit.value);
    }
    forall j | 0 <= j < |next|
      ensures next[j] == Count(obs[..i + 1], IsChange(j))
    {
      CountStep(obs, i, IsChange(j));
    }
  }

  /** The counting loop of `getInterestChangeAnalysis` over the visited answers. */
  method TallyChanges(obs: seq<(string, string)>) returns (counts: seq<nat>)
    ensures |counts| == |ChangeLabels|
    ensures forall j :: 0 <= j < |counts| ==> counts[j] == Count(obs, IsChange(j))
    ensures Sum(counts) <= Count(obs, AboutChange())
  {
    counts := Zeros(|ChangeLabels|);
    var i := 0;
    while i < |obs|
      invariant 0 <= i <= |obs|
      invariant |counts| == |ChangeLabels|
      invariant ChangeTallies(counts, obs[..i])
    {
      var hit := ChangeOf(obs[i]);
      var before := counts;
      if hit.Some? {
        counts := counts[hit.value := counts[hit.value] + 1];
      }
      ChangeStep(obs, i, before, counts);
      i := i + 1;
    }
    assert obs[..i] == obs;
  }

  /** `getInterestChangeAnalysis`: the five fixed labels, each counting the
      answers equal to it given to a question about the change of interest;
      other answers count nowhere, so the five add up to at most the number
      of such answers. */
  method InterestChanges(submissions: seq<Submission>, forms: seq<Form>) returns (counts: seq<nat>)
    ensures |counts| == |ChangeLabels|
    ensures forall j :: 0 <= j < |counts| ==> counts[j] == Count(Observations(submissions, forms), IsChange(j))
    ensures Sum(counts) <= Count(Observations(submissions, forms), AboutChange())
    ensures Sum(counts) <= |Observations(submissions, forms)|
  {
    var obs := CollectObservations(submissions, forms);
    counts := TallyChanges(obs);
    CountAtMostLength(obs, AboutChange());
  }
}
