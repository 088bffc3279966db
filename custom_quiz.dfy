/** The custom-quiz API of app/api/quiz/custom/route.ts. The quiz table is an
    in-memory sequence; the identifier and creation time the database assigns
    to a new row are parameters. */
module CustomQuizRoute {
  import opened Wrappers
  import opened Lists
  import opened Session

  type Timestamp = int

  /** The parsed JSON body of a POST; absent fields are `None`. */
  datatype QuizRequest = QuizRequest(
    title: Option<string>,
    description: Option<string>,
    questionCount: Option<int>,
    duration: Option<int>,
    subjectIds: Option<seq<string>>,
    topicIds: Option<seq<string>>)

  /** A stored custom quiz. */
  datatype CustomQuiz = CustomQuiz(
    id: nat,
    title: string,
    description: Option<string>,
    questionCount: Option<int>,
    duration: Option<int>,
    subjectIds: seq<string>,
    topicIds: seq<string>,
    userId: string,
    createdAt: Timestamp)

  datatype PostResponse = PostUnauthorized | BadRequest | Created(quiz: CustomQuiz)

  datatype ListResponse = ListUnauthorized | Quizzes(quizzes: seq<CustomQuiz>)

  // ------------------------------------------------------------------- POST

  /** The required-field check: a truthy title and a non-empty list of
      subject ids. */
  predicate HasRequiredFields(body: QuizRequest)
  {
    && body.title.Some? && body.title.value != ""
    && body.subjectIds.Some? && |body.subjectIds.value| > 0
  }

  /** The row written for a valid request: `description || null`,
      `topicIds || []`, the rest as given, owned by the session user. */
  function NewQuiz(body: QuizRequest, userId: string, id: nat, now: Timestamp): (q: CustomQuiz)
    requires HasRequiredFields(body)
    ensures q.title == body.title.value && q.subjectIds == body.subjectIds.value
    ensures q.questionCount == body.questionCount && q.duration == body.duration
    ensures q.description.Some? <==> body.description.Some? && body.description.value != ""
    ensures q.description.Some? ==> q.description == body.description
    ensures body.topicIds.None? ==> q.topicIds == []
    ensures body.topicIds.Some? ==> q.topicIds == body.topicIds.value
    ensures q.userId == userId && q.id == id && q.createdAt == now
  {
    CustomQuiz(
      id,
      body.title.value,
      if body.description.Some? && body.description.value != "" then body.description else None,
      body.questionCount,
      body.duration,
      body.subjectIds.value,
      if body.topicIds.Some? then body.topicIds.value else [],
      userId,
      now)
  }

  /** `POST /api/quiz/custom`: the response and the table afterwards. */
  function Post(store: seq<CustomQuiz>, userId: Option<string>, body: QuizRequest, id: nat, now: Timestamp)
    : (r: (seq<CustomQuiz>, PostResponse))
    ensures !SignedIn(userId) ==> r == (store, PostUnauthorized)
    ensures SignedIn(userId) && !HasRequiredFields(body) ==> r == (store, BadRequest)
    ensures SignedIn(userId) && HasRequiredFields(body) ==>
      && r.1.Created?
      && r.1.quiz == NewQuiz(body, userId.value, id, now)
      && r.0 == store + [r.1.quiz]
  {
    if !SignedIn(userId) then (store, PostUnauthorized)
    else if !HasRequiredFields(body) then (store, BadRequest)
    else
      var q := NewQuiz(body, userId.value, id, now);
      (store + [q], Created(q))
  }

  // -------------------------------------------------------------------- GET

  ghost predicate NewestFirst(s: seq<CustomQuiz>)
  {
    forall i, j :: 0 <= i < j < |s| ==> s[i].createdAt >= s[j].createdAt
  }

  /** Places `q` before the first quiz created no later than it. */
  function InsertByDate(q: CustomQuiz, s: seq<CustomQuiz>): (r: seq<CustomQuiz>)
    requires NewestFirst(s)
    ensures NewestFirst(r)
    ensures multiset(r) == multiset(s) + multiset{q}
  {
    if s == [] then [q]
    else if q.createdAt >= s[0].createdAt then
      HeadIsNewest(s);
      ConsNewestFirst(q, s);
      [q] + s
    else
      TailNewestFirst(s);
      var rest := InsertByDate(q, s[1..]);
      InsertBelowHead(q, s, rest);
      [s[0]] + rest
  }

  /** Helper: the recursive step of `InsertByDate`, where `q` is older than
      the head and `rest` is `q` inserted into the tail. */
  lemma InsertBelowHead(q: CustomQuiz, s: seq<CustomQuiz>, rest: seq<CustomQuiz>)
    requires NewestFirst(s) && s != [] && q.createdAt < s[0].createdAt
    requires NewestFirst(rest) && multiset(rest) == multiset(s[1..]) + multiset{q}
    ensures NewestFirst([s[0]] + rest)
    ensures multiset([s[0]] + rest) == multiset(s) + multiset{q}
  {
    assert s == [s[0]] + s[1..];
    HeadIsNewest(s);
    forall y | y in rest ensures y.createdAt <= s[0].createdAt {
      assert y in multiset(rest);
      if y != q {
        assert y in multiset(s[1..]);
        assert y in s;
      }
    }
    ConsNewestFirst(s[0], rest);
    assert multiset([s[0]] + rest) == multiset{s[0]} + multiset(rest);
  }

  /** Helper: the head of a newest-first list is its newest quiz. */
  lemma HeadIsNewest(s: seq<CustomQuiz>)
    requires NewestFirst(s) && s != []
    ensures forall x :: x in s ==> x.createdAt <= s[0].createdAt
  {
    forall x | x in s ensures x.createdAt <= s[0].createdAt {
      var k :| 0 <= k < |s| && s[k] == x;
      assert k == 0 || s[0].createdAt >= s[k].createdAt;
    }
  }

  /** Helper: the tail of a newest-first list is newest first. */
  lemma TailNewestFirst(s: seq<CustomQuiz>)
    requires NewestFirst(s) && s != []
    ensures NewestFirst(s[1..])
  {
    forall i, j | 0 <= i < j < |s| - 1 ensures s[1..][i].createdAt >= s[1..][j].createdAt {
      assert s[1..][i] == s[i + 1] && s[1..][j] == s[j + 1];
    }
  }

  /** Helper: a quiz no older than every quiz of a newest-first list may lead it. */
  lemma ConsNewestFirst(x: CustomQuiz, r: seq<CustomQuiz>)
    requires NewestFirst(r)
    requires forall y :: y in r ==> y.createdAt <= x.createdAt
    ensures NewestFirst([x] + r)
  {
    forall i, j | 0 <= i < j < |r| + 1 ensures ([x] + r)[i].createdAt >= ([x] + r)[j].createdAt {
      assert ([x] + r)[j] == r[j - 1];
      assert r[j - 1] in r;
      if i > 0 {
        assert ([x] + r)[i] == r[i - 1];
      }
    }
  }

  /** `orderBy: { createdAt: "desc" }`: newest first (ties in input order). */
  function SortNewestFirst(s: seq<CustomQuiz>): (r: seq<CustomQuiz>)
    ensures NewestFirst(r)
    ensures multiset(r) == multiset(s)
  {
    if s == [] then []
    else
      assert s == [s[0]] + s[1..];
      InsertByDate(s[0], SortNewestFirst(s[1..]))
  }

  function OwnedBy(store: seq<CustomQuiz>, userId: string): seq<CustomQuiz>
  {
    Filter(store, (q: CustomQuiz) => q.userId == userId)
  }

  /** `GET /api/quiz/custom`: 401 without a signed-in user, else the caller's
      quizzes, newest first. */
  function List(store: seq<CustomQuiz>, userId: Option<string>): ListResponse
  {
    if !SignedIn(userId) then ListUnauthorized
    else Quizzes(SortNewestFirst(OwnedBy(store, userId.value)))
  }

  /** The listing holds exactly the caller's quizzes, each as often as it is
      stored, newest first. */
  lemma ListIsCallersQuizzes(store: seq<CustomQuiz>, userId: Option<string>)
    ensures !SignedIn(userId) <==> List(store, userId) == ListUnauthorized
    ensures SignedIn(userId) ==>
      var r := List(store, userId).quizzes;
      && NewestFirst(r)
      && (forall q :: multiset(r)[q] == if q.userId == userId.value then multiset(store)[q] else 0)
  {
    if SignedIn(userId) {
      FilterMultiset(store, (q: CustomQuiz) => q.userId == userId.value);
    }
  }

  /** After a successful POST the new quiz is in its owner's listing, and
      every other user's listing is unchanged. */
  lemma CreatedQuizIsListed(store: seq<CustomQuiz>, userId: Option<string>, body: QuizRequest,
                            id: nat, now: Timestamp, other: string)
    requires SignedIn(userId) && HasRequiredFields(body)
    requires other != userId.value
    ensures var (after, resp) := Post(store, userId, body, id, now);
      && resp.quiz in List(after, userId).quizzes
      && OwnedBy(after, other) == OwnedBy(store, other)
  {
    var (after, resp) := Post(store, userId, body, id, now);
    var q := resp.quiz;
    var mine := (x: CustomQuiz) => x.userId == userId.value;
    var theirs := (x: CustomQuiz) => x.userId == other;
    FilterAppend(store, [q], mine);
    FilterAppend(store, [q], theirs);
    assert Filter([q], mine) == [q];
    assert Filter([q], theirs) == [];
    assert OwnedBy(after, other) == OwnedBy(store, other) + [];
    var owned := OwnedBy(after, userId.value);
    assert q in multiset(owned);
  }
}
