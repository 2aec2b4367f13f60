/** The entities of the application (types.ts). Timestamps are the ISO
    strings the source stores; what they mean as dates is supplied by the
    operations that need it. */
module Types {
  import opened Seqs
  import opened Records

  datatype QuestionType = Text | TextArea | Radio | Checkbox

  /** `options` is absent (`None`) until a RADIO or CHECKBOX question gets some. */
  datatype Question = Question(id: string, text: string, kind: QuestionType,
                               options: Option<seq<string>>, required: bool)

  datatype Form = Form(id: string, title: string, description: string,
                       questions: seq<Question>, createdBy: string)

  /** A single string (TEXT, TEXTAREA, RADIO) or a list of strings (CHECKBOX). */
  datatype Answer = Single(text: string) | Multi(items: seq<string>)

  /** `Record<string, string | string[]>` from question id to answer. */
  type Answers = Entries<Answer>

  datatype Submission = Submission(id: string, formId: string, submittedBy: string,
                                   answers: Answers, submittedAt: string)

  datatype Checkin = Checkin(id: string, submissionId: string, formId: string,
                             participantName: string, checkinTime: string, notes: string,
                             createdAt: string, updatedAt: Option<string>)

  datatype Role = Admin | Regular

  datatype User = User(email: string, role: Role)

  /** JavaScript truthiness of a looked-up answer: `undefined` and `''` are
      falsy, every array (even an empty one) is truthy. */
  predicate Truthy(a: Option<Answer>) {
    match a
    case None => false
    case Some(Single(s)) => s != ""
    case Some(Multi(_)) => true
  }

  /** `Array.isArray(a) ? a.join(', ') : a`, as the statistics views print an answer. */
  function AnswerText(a: Answer): string {
    match a
    case Single(s) => s
    case Multi(items) => Join(items, ", ")
  }

  /** The answer converted to a string by a template literal (`${a}`):
      an array becomes its items joined by commas. */
  function DisplayText(a: Answer): string {
    match a
    case Single(s) => s
    case Multi(items) => Join(items, ",")
  }

  /** `forms.find(f => f.id === id)`. */
  function FindForm(forms: seq<Form>, id: string): (r: Option<Form>)
    ensures r.Some? ==> r.value in forms && r.value.id == id
    ensures r.None? <==> forall k :: 0 <= k < |forms| ==> forms[k].id != id
    ensures r.Some? ==> exists k :: 0 <= k < |forms| && forms[k] == r.value &&
                                    forall j :: 0 <= j < k ==> forms[j].id != id
  {
    if forms == [] then None
    else if forms[0].id == id then Some(forms[0])
    else
      var r := FindForm(forms[1..], id);
      assert r.Some? ==> exists k :: 0 <= k < |forms| && forms[k] == r.value &&
                                     forall j :: 0 <= j < k ==> forms[j].id != id by {
        if r.Some? {
          var k :| 0 <= k < |forms[1..]| && forms[1..][k] == r.value &&
                   forall j :: 0 <= j < k ==> forms[1..][j].id != id;
          assert forms[k + 1] == r.value;
          forall j | 0 <= j < k + 1 ensures forms[j].id != id {
            if j > 0 {
              assert forms[j] == forms[1..][j - 1];
            }
          }
        }
      }
      r
  }

  /** `questions.find(q => q.id === id)`. */
  function FindQuestion(questions: seq<Question>, id: string): (r: Option<Question>)
    ensures r.Some? ==> r.value in questions && r.value.id == id
    ensures r.None? <==> forall k :: 0 <= k < |questions| ==> questions[k].id != id
    ensures r.Some? ==> exists k :: 0 <= k < |questions| && questions[k] == r.value &&
                                    forall j :: 0 <= j < k ==> questions[j].id != id
  {
    if questions == [] then None
    else if questions[0].id == id then Some(questions[0])
    else
      var r := FindQuestion(questions[1..], id);
      assert r.Some? ==> exists k :: 0 <= k < |questions| && questions[k] == r.value &&
                                     forall j :: 0 <= j < k ==> questions[j].id != id by {
        if r.Some? {
          var k :| 0 <= k < |questions[1..]| && questions[1..][k] == r.value &&
                   forall j :: 0 <= j < k ==> questions[1..][j].id != id;
          assert questions[k + 1] == r.value;
          forall j | 0 <= j < k + 1 ensures questions[j].id != id {
            if j > 0 {
              assert questions[j] == questions[1..][j - 1];
            }
          }
        }
      }
      r
  }

  /** `submissions.find(s => s.id === id)`. */
  function FindSubmission(submissions: seq<Submission>, id: string): (r: Option<Submission>)
    ensures r.Some? ==> r.value in submissions && r.value.id == id
    ensures r.None? <==> forall k :: 0 <= k < |submissions| ==> submissions[k].id != id
    ensures r.Some? ==> exists k :: 0 <= k < |submissions| && submissions[k] == r.value &&
                                    forall j :: 0 <= j < k ==> submissions[j].id != id
  {
    if submissions == [] then None
    else if submissions[0].id == id then Some(submissions[0])
    else
      var r := FindSubmission(submissions[1..], id);
      assert r.Some? ==> exists k :: 0 <= k < |submissions| && submissions[k] == r.value &&
                                     forall j :: 0 <= j < k ==> submissions[j].id != id by {
        if r.Some? {
          var k :| 0 <= k < |submissions[1..]| && submissions[1..][k] == r.value &&
                   forall j :: 0 <= j < k ==> submissions[1..][j].id != id;
          assert submissions[k + 1] == r.value;
          forall j | 0 <= j < k + 1 ensures submissions[j].id != id {
            if j > 0 {
              assert submissions[j] == submissions[1..][j - 1];
            }
          }
        }
      }
      r
  }
}
