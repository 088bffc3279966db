/** The dashboard statistics of app/api/dashboard/stats/route.ts. The two
    database reads become inputs: the user's completed attempts, already
    ordered by submission time, newest first; and the answers of those
    attempts, each tagged with its attempt's subject name. The rest of the
    handler is the fold modelled here. */
module DashboardStats {
  import opened Numbers
  import opened Wrappers
  import opened Lists
  import opened Session

  /** A point in time; only its identity and order matter here. */
  type Timestamp = int

  /** A completed test attempt with the fields the statistics read. */
  datatype Attempt = Attempt(
    id: string,
    title: string,
    subject: string,
    obtainedMarks: real,
    percentage: real,
    timeSpent: Option<int>,
    startedAt: Timestamp,
    submittedAt: Option<Timestamp>)

  datatype Answer = Answer(isCorrect: bool, subject: string)

  datatype RecentTest = RecentTest(
    id: string, title: string, score: real, percentage: real, completedAt: Timestamp)

  /** An entry of the per-subject map while the attempts are folded in. */
  datatype Tally = Tally(subject: string, tests: nat, totalScore: real)

  datatype SubjectStats = SubjectStats(subject: string, tests: nat, averageScore: int, accuracy: int)

  datatype Stats = Stats(
    totalTests: nat,
    averageScore: int,
    bestScore: real,
    totalTimeSpent: int,
    accuracy: int,
    recentTests: seq<RecentTest>,
    subjectWiseStats: seq<SubjectStats>)

  datatype Response = Unauthorized | Ok(stats: Stats)

  // ------------------------------------------------------------ overall totals

  function SumPercentages(s: seq<Attempt>): real
  {
    if s == [] then 0.0 else SumPercentages(s[..|s| - 1]) + s[|s| - 1].percentage
  }

  /** `averageScore`: the mean percentage rounded to the nearest integer, 0
      when there are no attempts. */
  function AverageScore(attempts: seq<Attempt>): (r: int)
    ensures |attempts| == 0 ==> r == 0
    ensures |attempts| > 0 ==>
      var mean := SumPercentages(attempts) / |attempts| as real;
      r as real - 0.5 <= mean < r as real + 0.5
  {
    if |attempts| > 0 then Round(SumPercentages(attempts) / |attempts| as real) else 0
  }

  predicate PercentagesInRange(s: seq<Attempt>)
  {
    forall i :: 0 <= i < |s| ==> 0.0 <= s[i].percentage <= 100.0
  }

  lemma {:induction false} SumPercentagesBounds(s: seq<Attempt>)
    requires PercentagesInRange(s)
    ensures 0.0 <= SumPercentages(s) <= 100.0 * |s| as real
  {
    if s != [] {
      SumPercentagesBounds(s[..|s| - 1]);
    }
  }

  /** With every percentage in [0, 100], so is the average score. */
  lemma AverageScoreBounds(attempts: seq<Attempt>)
    requires PercentagesInRange(attempts)
    ensures 0 <= AverageScore(attempts) <= 100
  {
    if |attempts| > 0 {
      var n := |attempts| as real;
      SumPercentagesBounds(attempts);
      MeanWithin(SumPercentages(attempts), n, 100.0);
      RoundWithin(SumPercentages(attempts) / n, 0, 100);
    }
  }

  /** `Math.max(...percentages)` over a non-empty list. */
  function MaxPercentage(s: seq<Attempt>): (r: real)
    requires |s| > 0
    ensures forall i :: 0 <= i < |s| ==> s[i].percentage <= r
    ensures exists i :: 0 <= i < |s| && s[i].percentage == r
  {
    if |s| == 1 then s[0].percentage
    else
      var m := MaxPercentage(s[1..]);
      assert forall i :: 1 <= i < |s| ==> s[i] == s[1..][i - 1];
      MaxReal(s[0].percentage, m)
  }

  /** `bestScore`: the highest percentage, 0 when there are no attempts. */
  function BestScore(attempts: seq<Attempt>): (r: real)
    ensures |attempts| == 0 ==> r == 0.0
    ensures forall i :: 0 <= i < |attempts| ==> attempts[i].percentage <= r
    ensures |attempts| > 0 ==> exists i :: 0 <= i < |attempts| && attempts[i].percentage == r
  {
    if |attempts| > 0 then MaxPercentage(attempts) else 0.0
  }

  /** `attempt.timeSpent || 0`. */
  function TimeOf(a: Attempt): int
  {
    if a.timeSpent.Some? then a.timeSpent.value else 0
  }

  function TimeSum(s: seq<Attempt>): int
  {
    if s == [] then 0 else TimeSum(s[..|s| - 1]) + TimeOf(s[|s| - 1])
  }

  /** `totalTimeSpent`: the summed time, which the attempts store in minutes,
      in whole hours rounded to the nearest, 0 when there are no attempts. */
  function TotalTimeSpent(attempts: seq<Attempt>): (r: int)
    ensures |attempts| == 0 ==> r == 0
    ensures |attempts| > 0 ==>
      r as real - 0.5 <= TimeSum(attempts) as real / 60.0 < r as real + 0.5
  {
    if |attempts| > 0 then Round(TimeSum(attempts) as real / 60.0) else 0
  }

  /** Attempts without a recorded time add nothing to the total. */
  lemma {:induction false} TimeSumSkipsMissing(s: seq<Attempt>)
    ensures TimeSum(s) == TimeSum(Filter(s, (a: Attempt) => a.timeSpent.Some?))
  {
    var p := (a: Attempt) => a.timeSpent.Some?;
    if s != [] {
      var init, last := s[..|s| - 1], s[|s| - 1];
      assert s == init + [last];
      TimeSumSkipsMissing(init);
      FilterAppend(init, [last], p);
      TimeSumAppend(Filter(init, p), Filter([last], p));
    }
  }

  lemma {:induction false} TimeSumAppend(s: seq<Attempt>, t: seq<Attempt>)
    ensures TimeSum(s + t) == TimeSum(s) + TimeSum(t)
    decreases |t|
  {
    if t == [] {
      assert s + t == s;
    } else {
      assert (s + t)[..|s + t| - 1] == s + t[..|t| - 1];
      TimeSumAppend(s, t[..|t| - 1]);
    }
  }

  predicate IsCorrect(a: Answer)
  {
    a.isCorrect
  }

  function CountCorrect(answers: seq<Answer>): (c: nat)
    ensures c <= |answers|
  {
    |Filter(answers, IsCorrect)|
  }

  /** `accuracy`: the share of correct answers as a whole percentage, rounded
      to the nearest; 0 when there are no answers. */
  function Accuracy(answers: seq<Answer>): (r: int)
    ensures 0 <= r <= 100
    ensures |answers| == 0 ==> r == 0
  {
    if |answers| > 0 then
      var n := |answers| as real;
      var c := CountCorrect(answers) as real;
      RatioWithin(c, n);
      RoundWithin(c / n * 100.0, 0, 100);
      Round(c / n * 100.0)
    else 0
  }

  /** Accuracy is the percentage of correct answers, rounded to the nearest
      integer. */
  lemma AccuracyNearest(answers: seq<Answer>)
    requires |answers| > 0
    ensures var share := CountCorrect(answers) as real / |answers| as real * 100.0;
      Accuracy(answers) as real - 0.5 <= share < Accuracy(answers) as real + 0.5
  {
  }

  /** Only correct answers give 100. */
  lemma AccuracyAllCorrect(answers: seq<Answer>)
    requires |answers| > 0
    requires forall i :: 0 <= i < |answers| ==> answers[i].isCorrect
    ensures Accuracy(answers) == 100
  {
    FilterAllKept(answers, IsCorrect);
    FullShare(|answers|);
  }

  /** Helper: all of a positive count, as a rounded percentage, is 100. */
  lemma FullShare(n: nat)
    requires n > 0
    ensures Round(n as real / n as real * 100.0) == 100
  {
    assert n as real / n as real * 100.0 == 100.0;
    RoundOfInteger(100);
  }

  /** No correct answer gives 0. */
  lemma AccuracyNoneCorrect(answers: seq<Answer>)
    requires forall i :: 0 <= i < |answers| ==> !answers[i].isCorrect
    ensures Accuracy(answers) == 0
  {
    FilterNoneKept(answers, IsCorrect);
    RoundOfInteger(0);
  }

  // ----------------------------------------------------------- recent tests

  /** The entry of `recentTests` for one attempt: `completedAt` is the
      submission time, or the start time when there is none. */
  function Recent(a: Attempt): (t: RecentTest)
    ensures t.id == a.id && t.title == a.title
    ensures t.score == a.obtainedMarks && t.percentage == a.percentage
    ensures a.submittedAt.Some? ==> t.completedAt == a.submittedAt.value
    ensures a.submittedAt.None? ==> t.completedAt == a.startedAt
  {
    RecentTest(a.id, a.title, a.obtainedMarks, a.percentage,
               if a.submittedAt.Some? then a.submittedAt.value else a.startedAt)
  }

  /** `recentTests`: the first five attempts (the newest, given the input
      order), projected. */
  function RecentTests(attempts: seq<Attempt>): (r: seq<RecentTest>)
    ensures |r| == Min(5, |attempts|)
    ensures forall i :: 0 <= i < |r| ==> r[i] == Recent(attempts[i])
  {
    var shown := Take(attempts, 5);
    seq(|shown|, i requires 0 <= i < |shown| => Recent(shown[i]))
  }

  // -------------------------------------------------------- per-subject stats

  /** The subject names of the attempts, in order. */
  function Names(s: seq<Attempt>): seq<string>
  {
    MapSeq(s, (a: Attempt) => a.subject)
  }

  /** The keys of the subject map, in insertion order. */
  function Subjects(ts: seq<Tally>): seq<string>
  {
    MapSeq(ts, (t: Tally) => t.subject)
  }

  /** Reference definition of first-appearance order: each name once, where
      it first occurs. */
  function Dedup(s: seq<string>): seq<string>
  {
    if s == [] then []
    else
      var d := Dedup(s[..|s| - 1]);
      if s[|s| - 1] in d then d else d + [s[|s| - 1]]
  }

  ghost predicate Distinct(s: seq<string>)
  {
    forall i, j :: 0 <= i < j < |s| ==> s[i] != s[j]
  }

  /** `Dedup` keeps each name once and loses none. */
  lemma {:induction false} DedupSound(s: seq<string>)
    ensures Distinct(Dedup(s))
    ensures forall x :: x in Dedup(s) <==> x in s
  {
    if s != [] {
      var init := s[..|s| - 1];
      DedupSound(init);
      assert s == init + [s[|s| - 1]];
    }
  }

  /** The position of `subject` in the map, or -1: `Map.has` / `Map.get`. */
  function Find(ts: seq<Tally>, subject: string): (i: int)
    ensures -1 <= i < |ts|
    ensures i >= 0 ==> ts[i].subject == subject
    ensures i == -1 ==> forall k :: 0 <= k < |ts| ==> ts[k].subject != subject
  {
    if ts == [] then -1
    else if ts[|ts| - 1].subject == subject then |ts| - 1
    else Find(ts[..|ts| - 1], subject)
  }

  /** A subject `Find` misses has no entry. */
  lemma FindMissing(ts: seq<Tally>, subject: string)
    requires Find(ts, subject) < 0
    ensures subject !in Subjects(ts)
  {
  }

  /** One step of the `forEach`: a new subject gets a fresh entry at the end,
      then its entry counts one more test and adds the percentage. */
  function AddAttempt(ts: seq<Tally>, a: Attempt): seq<Tally>
  {
    var i := Find(ts, a.subject);
    if i < 0 then ts + [Tally(a.subject, 1, a.percentage)]
    else ts[i := Tally(a.subject, ts[i].tests + 1, ts[i].totalScore + a.percentage)]
  }

  /** The map after the `forEach` over `s`, its entries in insertion order. */
  function Group(s: seq<Attempt>): seq<Tally>
  {
    if s == [] then [] else AddAttempt(Group(s[..|s| - 1]), s[|s| - 1])
  }

  /** The `forEach` of lines 74-88, as a loop over the attempts updating the
      entries in place. */
  method TallyBySubject(attempts: seq<Attempt>) returns (tallies: seq<Tally>)
    ensures tallies == Group(attempts)
  {
    tallies := [];
    var k := 0;
    while k < |attempts|
      invariant 0 <= k <= |attempts|
      invariant tallies == Group(attempts[..k])
    {
      var a := attempts[k];
      tallies := Bump(tallies, a);
      GroupStep(attempts, k);
      k := k + 1;
    }
    assert attempts[..k] == attempts;
  }

  /** The body of the `forEach`: a new subject gets an entry starting at
      zero, then the subject's entry counts the attempt. */
  method Bump(tallies: seq<Tally>, a: Attempt) returns (r: seq<Tally>)
    ensures r == AddAttempt(tallies, a)
  {
    r := tallies;
    var i := Find(r, a.subject);
    if i < 0 {
      r := r + [Tally(a.subject, 0, 0.0)];
      i := |r| - 1;
    }
    r := r[i := Tally(a.subject, r[i].tests + 1, r[i].totalScore + a.percentage)];
  }

  /** Helper: one more attempt is one more `AddAttempt`. */
  lemma GroupStep(s: seq<Attempt>, k: nat)
    requires k < |s|
    ensures Group(s[..k + 1]) == AddAttempt(Group(s[..k]), s[k])
  {
    assert s[..k + 1][..k] == s[..k];
  }

  /** The entries are the distinct subjects in order of first appearance. */
  lemma {:induction false} GroupSubjects(s: seq<Attempt>)
    ensures Subjects(Group(s)) == Dedup(Names(s))
  {
    if s != [] {
      var init, a := s[..|s| - 1], s[|s| - 1];
      GroupSubjects(init);
      NamesSnoc(s);
      var g := Group(init);
      var i := Find(g, a.subject);
      if i >= 0 {
        assert a.subject in Subjects(g);
        SubjectsUpdate(g, i, Tally(a.subject, g[i].tests + 1, g[i].totalScore + a.percentage));
      } else {
        FindMissing(g, a.subject);
        SubjectsSnoc(g, Tally(a.subject, 1, a.percentage));
      }
    }
  }

  lemma NamesSnoc(s: seq<Attempt>)
    requires s != []
    ensures Names(s) == Names(s[..|s| - 1]) + [s[|s| - 1].subject]
  {
  }

  lemma SubjectsSnoc(ts: seq<Tally>, t: Tally)
    ensures Subjects(ts + [t]) == Subjects(ts) + [t.subject]
  {
  }

  /** Updating an entry in place keeps the subject order. */
  lemma SubjectsUpdate(ts: seq<Tally>, i: nat, t: Tally)
    requires i < |ts| && t.subject == ts[i].subject
    ensures Subjects(ts[i := t]) == Subjects(ts)
  {
  }

  /** The attempts of one subject. */
  function OfSubject(s: seq<Attempt>, subject: string): seq<Attempt>
  {
    Filter(s, (a: Attempt) => a.subject == subject)
  }

  /** Entry `t` counts exactly the attempts of its subject in `s` and sums
      their percentages; so it counts at least one test. */
  ghost predicate TallyCorrect(s: seq<Attempt>, t: Tally)
  {
    && t.tests == |OfSubject(s, t.subject)|
    && t.totalScore == SumPercentages(OfSubject(s, t.subject))
    && t.tests >= 1
  }

  /** Every entry of the map is correct for the attempts folded in. */
  lemma {:induction false} GroupTallies(s: seq<Attempt>)
    ensures forall i :: 0 <= i < |Group(s)| ==> TallyCorrect(s, Group(s)[i])
  {
    if s != [] {
      var init, a := s[..|s| - 1], s[|s| - 1];
      assert s == init + [a];
      GroupTallies(init);
      GroupSubjects(init);
      DedupSound(Names(init));
      AddAttemptCorrect(init, a, Group(init));
    }
  }

  /** Helper: one step of the fold keeps every entry correct. */
  lemma AddAttemptCorrect(init: seq<Attempt>, a: Attempt, g: seq<Tally>)
    requires forall i :: 0 <= i < |g| ==> TallyCorrect(init, g[i])
    requires forall x :: x in Subjects(g) <==> x in Names(init)
    requires Distinct(Subjects(g))
    ensures forall i :: 0 <= i < |AddAttempt(g, a)| ==> TallyCorrect(init + [a], AddAttempt(g, a)[i])
  {
    var g' := AddAttempt(g, a);
    var j := Find(g, a.subject);
    forall i | 0 <= i < |g'|
      ensures TallyCorrect(init + [a], g'[i])
    {
      if i < |g| && i != j {
        assert j < 0 || Subjects(g)[i] != Subjects(g)[j];
        TallyStepOther(init, a, g[i]);
      } else if i < |g| {
        TallyStepSame(init, a, g[i]);
      } else {
        FindMissing(g, a.subject);
        TallyStepNew(init, a);
      }
    }
  }

  lemma TallyStepOther(init: seq<Attempt>, a: Attempt, t: Tally)
    requires TallyCorrect(init, t) && t.subject != a.subject
    ensures TallyCorrect(init + [a], t)
  {
    OfSubjectSnoc(init, a, t.subject);
  }

  lemma TallyStepSame(init: seq<Attempt>, a: Attempt, t: Tally)
    requires TallyCorrect(init, t) && t.subject == a.subject
    ensures TallyCorrect(init + [a], Tally(t.subject, t.tests + 1, t.totalScore + a.percentage))
  {
    OfSubjectSnoc(init, a, t.subject);
  }

  lemma TallyStepNew(init: seq<Attempt>, a: Attempt)
    requires a.subject !in Names(init)
    ensures TallyCorrect(init + [a], Tally(a.subject, 1, a.percentage))
  {
    OfSubjectSnoc(init, a, a.subject);
    NoneOfSubject(init, a.subject);
    assert [] + [a] == [a];
    assert [a][..0] == [];
  }

  /** Helper: appending an attempt adds it to its own subject only. */
  lemma OfSubjectSnoc(init: seq<Attempt>, a: Attempt, x: string)
    ensures a.subject == x ==>
      && OfSubject(init + [a], x) == OfSubject(init, x) + [a]
      && SumPercentages(OfSubject(init + [a], x)) == SumPercentages(OfSubject(init, x)) + a.percentage
    ensures a.subject != x ==> OfSubject(init + [a], x) == OfSubject(init, x)
  {
    var p := (b: Attempt) => b.subject == x;
    FilterAppend(init, [a], p);
    var fi := Filter(init, p);
    if a.subject == x {
      assert Filter([a], p) == [a];
      assert (fi + [a])[..|fi|] == fi;
    } else {
      assert Filter([a], p) == [];
      assert fi + [] == fi;
    }
  }

  /** Helper: a subject that no attempt has selects no attempts. */
  lemma NoneOfSubject(s: seq<Attempt>, subject: string)
    requires subject !in Names(s)
    ensures OfSubject(s, subject) == []
  {
    FilterNoneKept(s, (a: Attempt) => a.subject == subject);
  }

  function TestsTotal(ts: seq<Tally>): nat
  {
    if ts == [] then 0 else TestsTotal(ts[..|ts| - 1]) + ts[|ts| - 1].tests
  }

  lemma {:induction false} TestsTotalUpdate(ts: seq<Tally>, i: nat, t: Tally)
    requires i < |ts|
    ensures TestsTotal(ts[i := t]) == TestsTotal(ts) - ts[i].tests + t.tests
  {
    if i < |ts| - 1 {
      assert ts[i := t][..|ts| - 1] == ts[..|ts| - 1][i := t];
      TestsTotalUpdate(ts[..|ts| - 1], i, t);
    } else {
      assert ts[i := t][..|ts| - 1] == ts[..|ts| - 1];
    }
  }

  lemma TestsTotalSnoc(ts: seq<Tally>, t: Tally)
    ensures TestsTotal(ts + [t]) == TestsTotal(ts) + t.tests
  {
    assert (ts + [t])[..|ts|] == ts;
  }

  /** The per-subject test counts add up to the number of attempts. */
  lemma {:induction false} GroupTestsTotal(s: seq<Attempt>)
    ensures TestsTotal(Group(s)) == |s|
  {
    if s != [] {
      var init, a := s[..|s| - 1], s[|s| - 1];
      GroupTestsTotal(init);
      var g := Group(init);
      assert Group(s) == AddAttempt(g, a);
      var i := Find(g, a.subject);
      if i < 0 {
        var t := Tally(a.subject, 1, a.percentage);
        assert AddAttempt(g, a) == g + [t];
        TestsTotalSnoc(g, t);
      } else {
        var t := Tally(a.subject, g[i].tests + 1, g[i].totalScore + a.percentage);
        assert AddAttempt(g, a) == g[i := t];
        TestsTotalUpdate(g, i, t);
      }
    }
  }

  /** The answers of one subject: what the per-subject query returns. */
  function AnswersOf(answers: seq<Answer>, subject: string): seq<Answer>
  {
    Filter(answers, (a: Answer) => a.subject == subject)
  }

  /** One entry after the `for...of` loop, projected as in lines 114-119. */
  function Summarize(t: Tally, answers: seq<Answer>): SubjectStats
    requires t.tests >= 1
  {
    SubjectStats(t.subject, t.tests, Round(t.totalScore / t.tests as real),
                 Accuracy(AnswersOf(answers, t.subject)))
  }

  /** The `for...of` loop of lines 91-112 followed by the projection. */
  method SummarizeSubjects(tallies: seq<Tally>, answers: seq<Answer>) returns (r: seq<SubjectStats>)
    requires forall i :: 0 <= i < |tallies| ==> tallies[i].tests >= 1
    ensures r == Summaries(tallies, answers)
  {
    r := [];
    var k := 0;
    while k < |tallies|
      invariant 0 <= k <= |tallies|
      invariant r == Summaries(tallies[..k], answers)
    {
      var t := tallies[k];
      var averageScore := Round(t.totalScore / t.tests as real);
      var accuracy := Accuracy(AnswersOf(answers, t.subject));
      var entry := SubjectStats(t.subject, t.tests, averageScore, accuracy);
      assert entry == Summarize(t, answers);
      assert tallies[..k + 1][..k] == tallies[..k];
      r := r + [entry];
      k := k + 1;
    }
    assert tallies[..k] == tallies;
  }

  /** The entries after the loop, one per map entry in order. */
  function Summaries(ts: seq<Tally>, answers: seq<Answer>): seq<SubjectStats>
    requires forall i :: 0 <= i < |ts| ==> ts[i].tests >= 1
  {
    if ts == [] then []
    else Summaries(ts[..|ts| - 1], answers) + [Summarize(ts[|ts| - 1], answers)]
  }

  lemma {:induction false} SummariesAt(ts: seq<Tally>, answers: seq<Answer>)
    requires forall i :: 0 <= i < |ts| ==> ts[i].tests >= 1
    ensures |Summaries(ts, answers)| == |ts|
    ensures forall i :: 0 <= i < |ts| ==> Summaries(ts, answers)[i] == Summarize(ts[i], answers)
  {
    if ts != [] {
      var init := ts[..|ts| - 1];
      assert forall i :: 0 <= i < |init| ==> init[i] == ts[i];
      SummariesAt(init, answers);
      var r := Summaries(ts, answers);
      assert r == Summaries(init, answers) + [Summarize(ts[|ts| - 1], answers)];
      forall i | 0 <= i < |ts| ensures r[i] == Summarize(ts[i], answers) {
        if i < |init| {
          assert r[i] == Summaries(init, answers)[i];
        }
      }
    }
  }

  // ------------------------------------------------------------- the handler

  /** Every statistic of the response, as functions of the two reads. */
  function Statistics(attempts: seq<Attempt>, answers: seq<Answer>): Stats
  {
    GroupTallies(attempts);
    Stats(|attempts|, AverageScore(attempts), BestScore(attempts), TotalTimeSpent(attempts),
          Accuracy(answers), RecentTests(attempts), Summaries(Group(attempts), answers))
  }

  /** `GET /api/dashboard/stats`: 401 without a signed-in user, else the
      statistics of that user's attempts and answers. */
  method GetStats(userId: Option<string>, attempts: seq<Attempt>, answers: seq<Answer>)
    returns (r: Response)
    ensures !SignedIn(userId) <==> r == Unauthorized
    ensures SignedIn(userId) ==> r == Ok(Statistics(attempts, answers))
  {
    if !SignedIn(userId) {
      return Unauthorized;
    }
    var tallies := TallyBySubject(attempts);
    GroupTallies(attempts);
    var subjectWiseStats := SummarizeSubjects(tallies, answers);
    var stats := Stats(|attempts|, AverageScore(attempts), BestScore(attempts),
                       TotalTimeSpent(attempts), Accuracy(answers), RecentTests(attempts),
                       subjectWiseStats);
    r := Ok(stats);
  }

  /** `subjectWiseStats` has one entry per distinct subject, in order of first
      appearance; each counts that subject's attempts, rounds their mean
      percentage and takes the accuracy of that subject's answers (0 when it
      has none); the counts add up to `totalTests`. */
  lemma SubjectWiseStatsCorrect(attempts: seq<Attempt>, answers: seq<Answer>)
    ensures var st := Statistics(attempts, answers).subjectWiseStats;
      && |st| == |Dedup(Names(attempts))|
      && (forall i :: 0 <= i < |st| ==>
            && st[i].subject == Dedup(Names(attempts))[i]
            && st[i].tests == |OfSubject(attempts, st[i].subject)| >= 1
            && st[i].accuracy == Accuracy(AnswersOf(answers, st[i].subject))
            && var mean := SumPercentages(OfSubject(attempts, st[i].subject)) / st[i].tests as real;
               st[i].averageScore as real - 0.5 <= mean < st[i].averageScore as real + 0.5)
      && EntryTestsTotal(st) == Statistics(attempts, answers).totalTests
  {
    GroupSubjects(attempts);
    GroupTallies(attempts);
    GroupTestsTotal(attempts);
    SummariesAt(Group(attempts), answers);
    SummariesTestsTotal(Group(attempts), answers);
  }

  /** The sum of the `tests` counts of the response's per-subject entries. */
  function EntryTestsTotal(st: seq<SubjectStats>): nat
  {
    if st == [] then 0 else EntryTestsTotal(st[..|st| - 1]) + st[|st| - 1].tests
  }

  /** Summarising keeps each entry's count, so the counts keep their sum. */
  lemma {:induction false} SummariesTestsTotal(ts: seq<Tally>, answers: seq<Answer>)
    requires forall i :: 0 <= i < |ts| ==> ts[i].tests >= 1
    ensures EntryTestsTotal(Summaries(ts, answers)) == TestsTotal(ts)
  {
    if ts != [] {
      var init := ts[..|ts| - 1];
      assert forall i :: 0 <= i < |init| ==> init[i] == ts[i];
      SummariesTestsTotal(init, answers);
      var r := Summaries(ts, answers);
      assert r == Summaries(init, answers) + [Summarize(ts[|ts| - 1], answers)];
      assert r[..|r| - 1] == Summaries(init, answers);
    }
  }
}
