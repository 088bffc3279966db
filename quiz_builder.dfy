/** The student quiz builder of app/quiz/page.tsx: the subject checkboxes and
    the create handler. The server's reply to the POST is a parameter; the
    request body is tied to the custom-quiz route it is sent to. */
module QuizBuilder {
  import opened Wrappers
  import opened Lists
  import opened Session
  import CustomQuizRoute

  datatype QuizForm = QuizForm(
    title: string,
    description: string,
    questionCount: int,
    duration: int,
    subjectIds: seq<string>,
    topicIds: seq<string>)

  datatype PageState = PageState(showCreateForm: bool, form: QuizForm)

  /** The form the page starts with and returns to after creating a quiz. */
  const EmptyForm := QuizForm("", "", 10, 30, [], [])

  /** A subject checkbox changing to `checked`: checking appends the id
      (nothing prevents a repeat), unchecking drops every copy of it and keeps
      the other ids in order. */
  function CheckSubject(f: QuizForm, id: string, checked: bool): (r: QuizForm)
    ensures checked ==> r.subjectIds == f.subjectIds + [id]
    ensures !checked ==>
      && id !in r.subjectIds
      && IsSubseq(r.subjectIds, f.subjectIds)
      && multiset(r.subjectIds) == multiset(f.subjectIds)[id := 0]
    ensures r.(subjectIds := f.subjectIds) == f
  {
    if checked then f.(subjectIds := f.subjectIds + [id])
    else
      RemoveAllIsSubseq(f.subjectIds, id);
      f.(subjectIds := RemoveAll(f.subjectIds, id))
  }

  /** Checking a subject that is not selected and unchecking it again
      restores the form. */
  lemma CheckThenUncheck(f: QuizForm, id: string)
    requires id !in f.subjectIds
    ensures CheckSubject(CheckSubject(f, id, true), id, false) == f
  {
    RemoveAllAppend(f.subjectIds, [id], id);
    RemoveAllAbsent(f.subjectIds, id);
    assert RemoveAll([id], id) == [];
  }

  /** How the POST ended: a 2xx reply, another status, or a thrown fetch. */
  datatype Reply = Success | HttpError | NetworkError

  /** What the handler does besides updating the page. */
  datatype Effect = NoSubjectAlert | CreateErrorAlert | Refetch

  /** The JSON body the page posts: every field of the form. */
  function Request(f: QuizForm): (body: CustomQuizRoute.QuizRequest)
    ensures body.title == Some(f.title) && body.subjectIds == Some(f.subjectIds)
  {
    CustomQuizRoute.QuizRequest(
      Some(f.title), Some(f.description), Some(f.questionCount), Some(f.duration),
      Some(f.subjectIds), Some(f.topicIds))
  }

  /** `handleCreateQuiz`: without a subject only an alert, and `reply` is not
      consulted because no request is sent; after a successful create the form
      closes and resets and the lists are fetched again; any failure leaves the
      page as it was and alerts. */
  function HandleCreateQuiz(s: PageState, reply: Reply): (r: (PageState, Effect))
    ensures |s.form.subjectIds| == 0 ==> r == (s, NoSubjectAlert)
    ensures |s.form.subjectIds| > 0 && reply == Success ==>
      r == (PageState(false, EmptyForm), Refetch)
    ensures |s.form.subjectIds| > 0 && reply != Success ==> r == (s, CreateErrorAlert)
  {
    if |s.form.subjectIds| == 0 then (s, NoSubjectAlert)
    else if reply == Success then (PageState(false, EmptyForm), Refetch)
    else (s, CreateErrorAlert)
  }

  /** Once a quiz is created the reset form has no subject, so pressing create
      again only alerts, whatever the server would answer. */
  lemma CreateAgainNeedsSubject(s: PageState, reply: Reply, next: Reply)
    requires |s.form.subjectIds| > 0
    ensures var after := HandleCreateQuiz(s, Success).0;
      HandleCreateQuiz(after, next) == (after, NoSubjectAlert)
  {
  }

  /** A request the page sends (one with a subject) is created by a signed-in
      user's server exactly when the title is not empty; the empty description
      of the form is stored as null, and the topic ids as they are. */
  lemma SentRequestOutcome(f: QuizForm, store: seq<CustomQuizRoute.CustomQuiz>, userId: Option<string>,
                           id: nat, now: CustomQuizRoute.Timestamp)
    requires |f.subjectIds| > 0 && SignedIn(userId)
    ensures var resp := CustomQuizRoute.Post(store, userId, Request(f), id, now).1;
      && (resp.Created? <==> f.title != "")
      && (resp.Created? ==>
            && resp.quiz.subjectIds == f.subjectIds
            && resp.quiz.topicIds == f.topicIds
            && (resp.quiz.description.None? <==> f.description == ""))
      && (!resp.Created? ==> resp == CustomQuizRoute.BadRequest)
  {
  }
}
