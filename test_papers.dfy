/** The test-paper list of app/admin/test-papers/page.tsx: the search and
    select filters, and the question preview on each card. The difficulty
    badge is the same function as on the question list. */
module TestPapers {
  import opened Wrappers
  import opened Numbers
  import opened Lists
  import opened Text

  datatype ExamRef = ExamRef(id: string, name: string, category: string)

  datatype SubjectRef = SubjectRef(id: string, name: string)

  datatype PaperQuestion = PaperQuestion(id: string, question: string, questionType: string, points: int)

  /** A test paper as the admin list receives it; counters the card only
      displays are not modelled. */
  datatype TestPaper = TestPaper(
    id: string,
    title: string,
    description: string,
    exam: ExamRef,
    subject: SubjectRef,
    duration: int,
    totalMarks: int,
    difficulty: string,
    isActive: bool,
    questions: seq<PaperQuestion>)

  /** The search box and the exam, subject and difficulty selects. */
  datatype Criteria = Criteria(searchTerm: string, exam: string, subject: string, difficulty: string)

  /** The search term occurs in the title, the description or the exam name,
      ignoring case. */
  predicate MatchesSearch(p: TestPaper, term: string)
  {
    || ContainsIgnoringCase(p.title, term)
    || ContainsIgnoringCase(p.description, term)
    || ContainsIgnoringCase(p.exam.name, term)
  }

  /** The predicate passed to `testPapers.filter`. */
  predicate Matches(c: Criteria, p: TestPaper)
  {
    && MatchesSearch(p, c.searchTerm)
    && AllOrEqual(c.exam, p.exam.id)
    && AllOrEqual(c.subject, p.subject.id)
    && AllOrEqual(c.difficulty, p.difficulty)
  }

  /** `filteredTestPapers`. */
  function FilteredTestPapers(papers: seq<TestPaper>, c: Criteria): seq<TestPaper>
  {
    Filter(papers, p => Matches(c, p))
  }

  /** The papers shown keep their original order. */
  lemma FilteredTestPapersIsSubseq(papers: seq<TestPaper>, c: Criteria)
    ensures IsSubseq(FilteredTestPapers(papers, c), papers)
  {
    FilterIsSubseq(papers, p => Matches(c, p));
  }

  /** A paper is shown exactly when it is fetched, its title, description or
      exam name contains the search term ignoring case, and each select is
      "all" or equal to the paper's exam id, subject id and difficulty. */
  lemma FilteredTestPapersMembers(papers: seq<TestPaper>, c: Criteria, p: TestPaper)
    ensures p in FilteredTestPapers(papers, c) <==>
      && p in papers
      && (|| Includes(Lower(p.title), Lower(c.searchTerm))
          || Includes(Lower(p.description), Lower(c.searchTerm))
          || Includes(Lower(p.exam.name), Lower(c.searchTerm)))
      && (c.exam == "all" || p.exam.id == c.exam)
      && (c.subject == "all" || p.subject.id == c.subject)
      && (c.difficulty == "all" || p.difficulty == c.difficulty)
  {
    FilterMembers(papers, p => Matches(c, p));
  }

  /** With an empty search and every select on "all", all papers are shown. */
  lemma NoCriteriaShowsAll(papers: seq<TestPaper>)
    ensures FilteredTestPapers(papers, Criteria("", "all", "all", "all")) == papers
  {
    var c := Criteria("", "all", "all", "all");
    forall p | p in papers ensures Matches(c, p) {
      ContainsIgnoringCaseFacts(p.title, "");
    }
    FilterAllKept(papers, p => Matches(c, p));
  }

  // --------------------------------------------------------------- preview

  /** What a card shows of a paper's questions: the tiles, and the count on
      the "+k more questions" tile when there is one. */
  datatype Preview = Preview(shown: seq<PaperQuestion>, more: Option<nat>)

  /** `questions.slice(0, 4)` and the tile drawn when `questions.length > 4`. */
  function QuestionPreview(questions: seq<PaperQuestion>): (r: Preview)
    ensures |r.shown| == Min(4, |questions|) && r.shown == questions[..|r.shown|]
    ensures r.more.Some? <==> |questions| > 4
    ensures r.more.Some? ==> r.more.value == |questions| - 4
  {
    Preview(Take(questions, 4), if |questions| > 4 then Some(|questions| - 4) else None)
  }

  /** The tiles and the "+k more" count together account for every question. */
  lemma PreviewAccountsForAll(questions: seq<PaperQuestion>)
    ensures var r := QuestionPreview(questions);
      |r.shown| + (if r.more.Some? then r.more.value else 0) == |questions|
  {
  }
}
