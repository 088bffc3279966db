/** The question bank list of app/admin/questions/page.tsx: the search and
    select filters over the fetched questions, and the badge helpers. */
module QuestionList {
  import opened Lists
  import opened Text

  datatype Subject = Subject(id: string, name: string)

  /** A question as the admin list receives it; the answer options and
      statistics the page only displays are not modelled. */
  datatype Question = Question(
    id: string,
    question: string,
    questionType: string,
    difficulty: string,
    subject: Subject,
    category: string,
    points: int,
    timeLimit: int,
    isActive: bool)

  /** The search box and the three select filters. */
  datatype Criteria = Criteria(
    searchTerm: string,
    subject: string,
    difficulty: string,
    questionType: string)

  /** The search term occurs in the question text or the subject name,
      ignoring case. */
  predicate MatchesSearch(q: Question, term: string)
  {
    ContainsIgnoringCase(q.question, term) || ContainsIgnoringCase(q.subject.name, term)
  }

  /** The predicate passed to `questions.filter`. */
  predicate Matches(c: Criteria, q: Question)
  {
    && MatchesSearch(q, c.searchTerm)
    && AllOrEqual(c.subject, q.subject.id)
    && AllOrEqual(c.difficulty, q.difficulty)
    && AllOrEqual(c.questionType, q.questionType)
  }

  /** `filteredQuestions`. */
  function FilteredQuestions(questions: seq<Question>, c: Criteria): seq<Question>
  {
    Filter(questions, q => Matches(c, q))
  }

  /** The list shown is the fetched list with some questions dropped and the
      rest in their original order. */
  lemma FilteredQuestionsIsSubseq(questions: seq<Question>, c: Criteria)
    ensures IsSubseq(FilteredQuestions(questions, c), questions)
  {
    FilterIsSubseq(questions, q => Matches(c, q));
  }

  /** A question is shown exactly when it is fetched, its text or subject name
      contains the search term ignoring case, and each select is "all" or
      equal to the question's subject id, difficulty and type. */
  lemma FilteredQuestionsMembers(questions: seq<Question>, c: Criteria, q: Question)
    ensures q in FilteredQuestions(questions, c) <==>
      && q in questions
      && (Includes(Lower(q.question), Lower(c.searchTerm)) ||
          Includes(Lower(q.subject.name), Lower(c.searchTerm)))
      && (c.subject == "all" || q.subject.id == c.subject)
      && (c.difficulty == "all" || q.difficulty == c.difficulty)
      && (c.questionType == "all" || q.questionType == c.questionType)
  {
    FilterMembers(questions, q => Matches(c, q));
  }

  /** With an empty search and every select on "all", all questions are shown. */
  lemma NoCriteriaShowsAll(questions: seq<Question>)
    ensures FilteredQuestions(questions, Criteria("", "all", "all", "all")) == questions
  {
    var c := Criteria("", "all", "all", "all");
    forall q | q in questions ensures Matches(c, q) {
      ContainsIgnoringCaseFacts(q.question, "");
    }
    FilterAllKept(questions, q => Matches(c, q));
  }

  /** Typing the search term in upper or lower case shows the same list. */
  lemma SearchIgnoresCase(questions: seq<Question>, c: Criteria)
    ensures FilteredQuestions(questions, c.(searchTerm := Lower(c.searchTerm)))
         == FilteredQuestions(questions, c)
  {
    var lowered := c.(searchTerm := Lower(c.searchTerm));
    forall q | q in questions ensures Matches(lowered, q) == Matches(c, q) {
      ContainsIgnoringCaseFacts(q.question, c.searchTerm);
      ContainsIgnoringCaseFacts(q.subject.name, c.searchTerm);
    }
    FilterAgreeing(questions, q => Matches(lowered, q), q => Matches(c, q));
  }

  // ---------------------------------------------------------------- badges

  const GrayBadge := "bg-gray-100 text-gray-800"

  predicate IsDifficulty(d: string)
  {
    d == "easy" || d == "medium" || d == "hard"
  }

  /** `getDifficultyColor`, identical on the test-paper list. */
  function DifficultyColor(d: string): (r: string)
    ensures r == GrayBadge <==> !IsDifficulty(d)
  {
    match d
    case "easy" => "bg-green-100 text-green-800"
    case "medium" => "bg-yellow-100 text-yellow-800"
    case "hard" => "bg-red-100 text-red-800"
    case _ => GrayBadge
  }

  /** The three difficulties get three different badges. */
  lemma DifficultyColorsDiffer(d: string, e: string)
    requires IsDifficulty(d) && IsDifficulty(e) && d != e
    ensures DifficultyColor(d) != DifficultyColor(e)
  {
  }

  predicate IsQuestionType(t: string)
  {
    t == "multiple_choice" || t == "true_false" || t == "short_answer" || t == "essay"
  }

  /** `getTypeLabel`: a readable label for the four question types, any other
      string shown as it is. */
  function TypeLabel(t: string): (r: string)
    ensures r == t <==> !IsQuestionType(t)
    ensures IsQuestionType(t) ==> !IsQuestionType(r)
  {
    match t
    case "multiple_choice" => "Multiple Choice"
    case "true_false" => "True/False"
    case "short_answer" => "Short Answer"
    case "essay" => "Essay"
    case _ => t
  }

  /** The four types get four different labels. */
  lemma TypeLabelsDiffer(t: string, u: string)
    requires IsQuestionType(t) && IsQuestionType(u) && t != u
    ensures TypeLabel(t) != TypeLabel(u)
  {
  }
}
