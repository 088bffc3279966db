/** The new-question form of app/admin/questions/new/page.tsx. Every handler
    is a `prev => next` updater of the form record. */
module QuestionForm {
  import opened Lists
  import opened Text

  datatype QuestionOption = QuestionOption(id: string, text: string, isCorrect: bool)

  datatype QuestionType = MultipleChoice | TrueFalse | ShortAnswer | Essay

  datatype Difficulty = Easy | Medium | Hard

  datatype Form = Form(
    question: string,
    questionType: QuestionType,
    difficulty: Difficulty,
    subject: string,
    category: string,
    options: seq<QuestionOption>,
    correctAnswer: string,
    explanation: string,
    points: int,
    timeLimit: int,
    isActive: bool)

  /** The keys of the form record. */
  datatype Field =
    | QuestionField | TypeField | DifficultyField | SubjectField | CategoryField
    | OptionsField | CorrectAnswerField | ExplanationField | PointsField
    | TimeLimitField | IsActiveField

  /** A value stored in one field of the form. */
  datatype FieldValue =
    | TextValue(text: string)
    | TypeValue(questionType: QuestionType)
    | DifficultyValue(difficulty: Difficulty)
    | OptionsValue(options: seq<QuestionOption>)
    | NumberValue(number: int)
    | FlagValue(flag: bool)

  function FieldOf(f: Form, field: Field): FieldValue
  {
    match field
    case QuestionField => TextValue(f.question)
    case TypeField => TypeValue(f.questionType)
    case DifficultyField => DifficultyValue(f.difficulty)
    case SubjectField => TextValue(f.subject)
    case CategoryField => TextValue(f.category)
    case OptionsField => OptionsValue(f.options)
    case CorrectAnswerField => TextValue(f.correctAnswer)
    case ExplanationField => TextValue(f.explanation)
    case PointsField => NumberValue(f.points)
    case TimeLimitField => NumberValue(f.timeLimit)
    case IsActiveField => FlagValue(f.isActive)
  }

  /** `value` has the type the form declares for `field`. */
  predicate Fits(field: Field, value: FieldValue)
  {
    match field
    case QuestionField | SubjectField | CategoryField | CorrectAnswerField | ExplanationField =>
      value.TextValue?
    case TypeField => value.TypeValue?
    case DifficultyField => value.DifficultyValue?
    case OptionsField => value.OptionsValue?
    case PointsField | TimeLimitField => value.NumberValue?
    case IsActiveField => value.FlagValue?
  }

  /** The form as the page first shows it. */
  function InitialForm(): (f: Form)
    ensures |f.options| == 4 && DistinctIds(f.options)
    ensures forall i :: 0 <= i < 4 ==> f.options[i] == QuestionOption(NatToString(i + 1), "", false)
  {
    Form("", MultipleChoice, Medium, "", "",
         [QuestionOption("1", "", false), QuestionOption("2", "", false),
          QuestionOption("3", "", false), QuestionOption("4", "", false)],
         "", "", 1, 2, true)
  }

  /** `handleInputChange(field, value)`: `{ ...prev, [field]: value }`. */
  function HandleInputChange(f: Form, field: Field, value: FieldValue): (r: Form)
    requires Fits(field, value)
    ensures FieldOf(r, field) == value
    ensures forall g :: g != field ==> FieldOf(r, g) == FieldOf(f, g)
  {
    match field
    case QuestionField => f.(question := value.text)
    case TypeField => f.(questionType := value.questionType)
    case DifficultyField => f.(difficulty := value.difficulty)
    case SubjectField => f.(subject := value.text)
    case CategoryField => f.(category := value.text)
    case OptionsField => f.(options := value.options)
    case CorrectAnswerField => f.(correctAnswer := value.text)
    case ExplanationField => f.(explanation := value.text)
    case PointsField => f.(points := value.number)
    case TimeLimitField => f.(timeLimit := value.number)
    case IsActiveField => f.(isActive := value.flag)
  }

  /** Two forms that agree on every field are the same form. */
  lemma FieldsDetermineForm(f: Form, g: Form)
    requires forall field :: FieldOf(f, field) == FieldOf(g, field)
    ensures f == g
  {
    assert FieldOf(f, QuestionField) == FieldOf(g, QuestionField);
    assert FieldOf(f, TypeField) == FieldOf(g, TypeField);
    assert FieldOf(f, DifficultyField) == FieldOf(g, DifficultyField);
    assert FieldOf(f, SubjectField) == FieldOf(g, SubjectField);
    assert FieldOf(f, CategoryField) == FieldOf(g, CategoryField);
    assert FieldOf(f, OptionsField) == FieldOf(g, OptionsField);
    assert FieldOf(f, CorrectAnswerField) == FieldOf(g, CorrectAnswerField);
    assert FieldOf(f, ExplanationField) == FieldOf(g, ExplanationField);
    assert FieldOf(f, PointsField) == FieldOf(g, PointsField);
    assert FieldOf(f, TimeLimitField) == FieldOf(g, TimeLimitField);
    assert FieldOf(f, IsActiveField) == FieldOf(g, IsActiveField);
  }

  /** Writing back the value a field already holds changes nothing. */
  lemma InputChangeUndo(f: Form, field: Field, value: FieldValue)
    requires Fits(field, value)
    ensures HandleInputChange(HandleInputChange(f, field, value), field, FieldOf(f, field)) == f
  {
    var g := HandleInputChange(HandleInputChange(f, field, value), field, FieldOf(f, field));
    FieldsDetermineForm(g, f);
  }

  // ---------------------------------------------------------------- options

  datatype OptionField = IdField | TextField | IsCorrectField

  datatype OptionValue = OptionText(text: string) | OptionFlag(flag: bool)

  predicate OptionFits(field: OptionField, value: OptionValue)
  {
    if field == IsCorrectField then value.OptionFlag? else value.OptionText?
  }

  /** `{ ...option, [field]: value }`. */
  function SetOptionField(o: QuestionOption, field: OptionField, value: OptionValue): (r: QuestionOption)
    requires OptionFits(field, value)
    ensures field == IdField ==> r == o.(id := value.text)
    ensures field == TextField ==> r == o.(text := value.text)
    ensures field == IsCorrectField ==> r == o.(isCorrect := value.flag)
  {
    match field
    case IdField => o.(id := value.text)
    case TextField => o.(text := value.text)
    case IsCorrectField => o.(isCorrect := value.flag)
  }

  /** `handleOptionChange(optionId, field, value)`: sets `field` on the options
      with that id; every other option and every other form field is kept. */
  function HandleOptionChange(f: Form, optionId: string, field: OptionField, value: OptionValue): (r: Form)
    requires OptionFits(field, value)
    ensures |r.options| == |f.options|
    ensures forall i :: 0 <= i < |f.options| ==>
      if f.options[i].id == optionId then r.options[i] == SetOptionField(f.options[i], field, value)
      else r.options[i] == f.options[i]
    ensures r.(options := f.options) == f
  {
    f.(options := seq(|f.options|, i requires 0 <= i < |f.options| =>
      if f.options[i].id == optionId then SetOptionField(f.options[i], field, value) else f.options[i]))
  }

  /** Changing the option with an id that no option has changes nothing. */
  lemma OptionChangeAbsentId(f: Form, optionId: string, field: OptionField, value: OptionValue)
    requires OptionFits(field, value)
    requires forall i :: 0 <= i < |f.options| ==> f.options[i].id != optionId
    ensures HandleOptionChange(f, optionId, field, value) == f
  {
    var r := HandleOptionChange(f, optionId, field, value);
    assert r.options == f.options;
  }

  ghost predicate DistinctIds(options: seq<QuestionOption>)
  {
    forall i, j :: 0 <= i < j < |options| ==> options[i].id != options[j].id
  }

  /** `addOption` as the page writes it: the new option's id is the list
      length plus one, written in decimal. */
  function AddOptionAsWritten(f: Form): (r: Form)
    ensures r.options == f.options + [QuestionOption(NatToString(|f.options| + 1), "", false)]
    ensures r.(options := f.options) == f
  {
    f.(options := f.options + [QuestionOption(NatToString(|f.options| + 1), "", false)])
  }

  /** `removeOption(optionId)`: with more than two options, drops every option
      with that id and keeps every other one, as often as it occurs and in
      order; otherwise does nothing. */
  function RemoveOption(f: Form, optionId: string): (r: Form)
    ensures |f.options| <= 2 ==> r == f
    ensures |f.options| > 2 ==>
      && IsSubseq(r.options, f.options)
      && (forall o :: o in r.options <==> o in f.options && o.id != optionId)
      && (forall o :: multiset(r.options)[o] == if o.id != optionId then multiset(f.options)[o] else 0)
    ensures r.(options := f.options) == f
  {
    if |f.options| > 2 then
      var kept := Filter(f.options, (o: QuestionOption) => o.id != optionId);
      FilterIsSubseq(f.options, (o: QuestionOption) => o.id != optionId);
      FilterMembers(f.options, (o: QuestionOption) => o.id != optionId);
      FilterMultiset(f.options, (o: QuestionOption) => o.id != optionId);
      f.(options := kept)
    else f
  }

  /** With distinct ids, removal takes away at most one option, so a list of
      more than two options keeps at least two. */
  lemma RemoveOptionKeepsTwo(f: Form, optionId: string)
    requires DistinctIds(f.options)
    ensures |RemoveOption(f, optionId).options| >= 2 || |f.options| < 2
    ensures DistinctIds(RemoveOption(f, optionId).options)
  {
    if |f.options| > 2 {
      var p := (o: QuestionOption) => o.id != optionId;
      FilterDropsAtMostOne(f.options, optionId);
      FilterIsSubseq(f.options, p);
      SubseqDistinctIds(Filter(f.options, p), f.options);
    }
  }

  /** Helper: with distinct ids, at most one option has a given id. */
  lemma {:induction false} FilterDropsAtMostOne(options: seq<QuestionOption>, optionId: string)
    requires DistinctIds(options)
    ensures |Filter(options, (o: QuestionOption) => o.id != optionId)| >= |options| - 1
    ensures (forall i :: 0 <= i < |options| ==> options[i].id != optionId) ==>
      |Filter(options, (o: QuestionOption) => o.id != optionId)| == |options|
  {
    var p := (o: QuestionOption) => o.id != optionId;
    if options != [] {
      FilterDropsAtMostOne(options[1..], optionId);
      if options[0].id == optionId {
        assert forall i :: 0 <= i < |options[1..]| ==> options[1..][i].id != optionId by {
          forall i | 0 <= i < |options[1..]| ensures options[1..][i].id != optionId {
            assert options[1..][i] == options[i + 1];
          }
        }
      }
    }
  }

  /** Helper: dropping options keeps ids distinct. */
  lemma SubseqDistinctIds(r: seq<QuestionOption>, s: seq<QuestionOption>)
    requires IsSubseq(r, s) && DistinctIds(s)
    ensures DistinctIds(r)
    decreases |s|
  {
    if r != [] && s != [] {
      if r[0] == s[0] && IsSubseq(r[1..], s[1..]) {
        SubseqDistinctIds(r[1..], s[1..]);
        SubseqMembers(r[1..], s[1..]);
        forall j | 0 < j < |r| ensures r[0].id != r[j].id {
          assert r[j] == r[1..][j - 1];
          assert r[j] in s[1..];
          var k :| 0 <= k < |s[1..]| && s[1..][k] == r[j];
          assert s[k + 1] == r[j];
        }
      } else {
        SubseqDistinctIds(r, s[1..]);
      }
    }
  }

  /** Helper: a subsequence's elements come from the sequence. */
  lemma SubseqMembers<T>(r: seq<T>, s: seq<T>)
    requires IsSubseq(r, s)
    ensures forall x :: x in r ==> x in s
    decreases |s|
  {
    if r != [] && s != [] {
      if r[0] == s[0] && IsSubseq(r[1..], s[1..]) {
        SubseqMembers(r[1..], s[1..]);
        assert r == [r[0]] + r[1..];
      } else {
        SubseqMembers(r, s[1..]);
      }
    }
  }

  /** The numeric value an id stands for, 0 for an id that is not a numeral. */
  function IdValue(id: string): nat
  {
    if IsNumeral(id) then NumeralValue(id) else 0
  }

  /** The largest value among the option ids (0 for no options). */
  function MaxIdValue(options: seq<QuestionOption>): (m: nat)
    ensures forall i :: 0 <= i < |options| ==> IdValue(options[i].id) <= m
  {
    if options == [] then 0
    else
      var rest := MaxIdValue(options[1..]);
      assert forall i :: 1 <= i < |options| ==> options[i] == options[1..][i - 1];
      if IdValue(options[0].id) > rest then IdValue(options[0].id) else rest
  }

  /** `addOption` with a fresh id: one past the largest numeric id in use. */
  function AddOption(f: Form): (r: Form)
    ensures r.options == f.options + [QuestionOption(NatToString(MaxIdValue(f.options) + 1), "", false)]
    ensures r.(options := f.options) == f
  {
    f.(options := f.options + [QuestionOption(NatToString(MaxIdValue(f.options) + 1), "", false)])
  }

  /** The corrected `addOption` keeps option ids distinct. */
  lemma AddOptionKeepsIdsDistinct(f: Form)
    requires DistinctIds(f.options)
    ensures DistinctIds(AddOption(f).options)
  {
    var m := MaxIdValue(f.options);
    var newId := NatToString(m + 1);
    NatToStringRoundTrip(m + 1);
    assert IdValue(newId) == m + 1;
    forall i | 0 <= i < |f.options| ensures f.options[i].id != newId {
      assert IdValue(f.options[i].id) <= m;
    }
  }

  /** The id `addOption` writes can repeat one in use: from the initial form,
      removing option "1" and adding an option gives two options with id "4";
      removing "2" and then "4" leaves a single option, below the two-option
      minimum `removeOption` guards. */
  lemma AddOptionAsWrittenDuplicatesId()
    ensures DistinctIds(InitialForm().options)
    ensures var f := AddOptionAsWritten(RemoveOption(InitialForm(), "1"));
      && |f.options| == 4 && f.options[2].id == "4" && f.options[3].id == "4"
      && !DistinctIds(f.options)
      && |RemoveOption(RemoveOption(f, "2"), "4").options| == 1
  {
    var f := AddOptionAsWritten(RemoveOption(InitialForm(), "1"));
    RemoveThenAdd();
    RemoveTwice(f);
  }

  /** Helper: the first two steps of the scenario. */
  lemma RemoveThenAdd()
    ensures AddOptionAsWritten(RemoveOption(InitialForm(), "1")).options ==
      [QuestionOption("2", "", false), QuestionOption("3", "", false),
       QuestionOption("4", "", false), QuestionOption("4", "", false)]
  {
    RemoveInitialOne();
    AddFourth(RemoveOption(InitialForm(), "1"));
  }

  /** Helper: the first step of the scenario drops option "1" alone. */
  lemma RemoveInitialOne()
    ensures RemoveOption(InitialForm(), "1").options ==
      [QuestionOption("2", "", false), QuestionOption("3", "", false), QuestionOption("4", "", false)]
  {
    DropFirst(InitialForm().options, "1");
  }

  /** Helper: the second step of the scenario appends a second option "4". */
  lemma AddFourth(f: Form)
    requires f.options ==
      [QuestionOption("2", "", false), QuestionOption("3", "", false), QuestionOption("4", "", false)]
    ensures AddOptionAsWritten(f).options ==
      [QuestionOption("2", "", false), QuestionOption("3", "", false),
       QuestionOption("4", "", false), QuestionOption("4", "", false)]
  {
    assert NatToString(4) == "4";
  }

  /** Helper: the last two steps of the scenario. */
  lemma RemoveTwice(f: Form)
    requires f.options ==
      [QuestionOption("2", "", false), QuestionOption("3", "", false),
       QuestionOption("4", "", false), QuestionOption("4", "", false)]
    ensures |RemoveOption(RemoveOption(f, "2"), "4").options| == 1
  {
    RemoveLeadingTwo(f);
    RemoveBothFours(RemoveOption(f, "2"));
  }

  /** Helper: the third step of the scenario drops option "2" alone. */
  lemma RemoveLeadingTwo(f: Form)
    requires f.options ==
      [QuestionOption("2", "", false), QuestionOption("3", "", false),
       QuestionOption("4", "", false), QuestionOption("4", "", false)]
    ensures RemoveOption(f, "2").options ==
      [QuestionOption("3", "", false), QuestionOption("4", "", false), QuestionOption("4", "", false)]
  {
    DropFirst(f.options, "2");
  }

  /** Helper: the last step of the scenario drops both options "4". */
  lemma RemoveBothFours(f: Form)
    requires f.options ==
      [QuestionOption("3", "", false), QuestionOption("4", "", false), QuestionOption("4", "", false)]
    ensures RemoveOption(f, "4").options == [QuestionOption("3", "", false)]
  {
    var o3, o4 := QuestionOption("3", "", false), QuestionOption("4", "", false);
    var p := (o: QuestionOption) => o.id != "4";
    FilterCons(o3, [o4, o4], p);
    FilterCons(o4, [o4], p);
    FilterCons(o4, [], p);
    assert [o3, o4, o4] == [o3] + [o4, o4] && [o4, o4] == [o4] + [o4] && [o4] == [o4] + [];
  }

  /** Helper: removing the id of the first option only, when no other option
      has it. */
  lemma DropFirst(options: seq<QuestionOption>, optionId: string)
    requires |options| > 0 && options[0].id == optionId
    requires forall i :: 1 <= i < |options| ==> options[i].id != optionId
    ensures Filter(options, (o: QuestionOption) => o.id != optionId) == options[1..]
  {
    var p := (o: QuestionOption) => o.id != optionId;
    assert options == [options[0]] + options[1..];
    FilterCons(options[0], options[1..], p);
    FilterAllKept(options[1..], p);
  }

  // --------------------------------------------------------- correct answer

  /** `handleCorrectAnswerChange(optionId)`: an option is marked correct
      exactly when its id is `optionId`; ids, texts and order are kept. */
  function HandleCorrectAnswerChange(f: Form, optionId: string): (r: Form)
    ensures |r.options| == |f.options|
    ensures forall i :: 0 <= i < |f.options| ==>
      && r.options[i].id == f.options[i].id
      && r.options[i].text == f.options[i].text
      && (r.options[i].isCorrect <==> f.options[i].id == optionId)
    ensures r.(options := f.options) == f
  {
    f.(options := seq(|f.options|, i requires 0 <= i < |f.options| =>
      f.options[i].(isCorrect := f.options[i].id == optionId)))
  }

  /** With distinct ids and `optionId` among them, exactly one option is
      correct afterwards. */
  lemma ExactlyOneCorrect(f: Form, optionId: string, k: nat)
    requires DistinctIds(f.options)
    requires k < |f.options| && f.options[k].id == optionId
    ensures var r := HandleCorrectAnswerChange(f, optionId);
      && r.options[k].isCorrect
      && forall i :: 0 <= i < |r.options| && r.options[i].isCorrect ==> i == k
  {
  }

  /** Choosing the same correct answer again changes nothing. */
  lemma CorrectAnswerIdempotent(f: Form, optionId: string)
    ensures HandleCorrectAnswerChange(HandleCorrectAnswerChange(f, optionId), optionId)
         == HandleCorrectAnswerChange(f, optionId)
  {
    var r := HandleCorrectAnswerChange(f, optionId);
    var r2 := HandleCorrectAnswerChange(r, optionId);
    assert r2.options == r.options;
  }

  // ------------------------------------------------------------------- save

  /** The save button is enabled when not saving and the question text is
      not blank. */
  predicate SaveEnabled(isSaving: bool, f: Form)
  {
    !isSaving && Trim(f.question) != ""
  }

  /** Saving is possible exactly when not saving and the question holds a
      character other than white space. */
  lemma SaveEnabledIff(isSaving: bool, f: Form)
    ensures SaveEnabled(isSaving, f) <==>
      !isSaving && exists i :: 0 <= i < |f.question| && !IsSpace(f.question[i])
  {
    TrimEmptyIffBlank(f.question);
  }
}
