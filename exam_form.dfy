/** The new-exam form of app/admin/exams/new/page.tsx: the field updater,
    the subject checkbox toggle and the submit-button test. */
module ExamFormPage {
  import opened Lists
  import opened Text

  datatype ExamForm = ExamForm(
    name: string,
    description: string,
    category: string,
    duration: int,
    totalMarks: int,
    subjects: seq<string>,
    isActive: bool,
    instructions: string,
    passingMarks: int,
    maxAttempts: int)

  /** `keyof ExamForm`. */
  datatype Field =
    | NameField | DescriptionField | CategoryField | DurationField | TotalMarksField
    | SubjectsField | IsActiveField | InstructionsField | PassingMarksField | MaxAttemptsField

  /** A value stored in one field of the form. */
  datatype FieldValue =
    | TextValue(text: string)
    | NumberValue(number: int)
    | IdsValue(ids: seq<string>)
    | FlagValue(flag: bool)

  function FieldOf(f: ExamForm, field: Field): FieldValue
  {
    match field
    case NameField => TextValue(f.name)
    case DescriptionField => TextValue(f.description)
    case CategoryField => TextValue(f.category)
    case DurationField => NumberValue(f.duration)
    case TotalMarksField => NumberValue(f.totalMarks)
    case SubjectsField => IdsValue(f.subjects)
    case IsActiveField => FlagValue(f.isActive)
    case InstructionsField => TextValue(f.instructions)
    case PassingMarksField => NumberValue(f.passingMarks)
    case MaxAttemptsField => NumberValue(f.maxAttempts)
  }

  /** `value` has the type of `field`, as the text inputs and every non-empty
      numeric input pass it. */
  predicate Fits(field: Field, value: FieldValue)
  {
    match field
    case NameField | DescriptionField | CategoryField | InstructionsField => value.TextValue?
    case DurationField | TotalMarksField | PassingMarksField | MaxAttemptsField => value.NumberValue?
    case SubjectsField => value.IdsValue?
    case IsActiveField => value.FlagValue?
  }

  /** The form as the page first shows it. */
  function InitialForm(): (f: ExamForm)
    ensures !SubmitEnabled(false, f)
  {
    ExamForm("", "", "", 60, 100, [], true, "", 40, 3)
  }

  /** `handleInputChange(field, value)`: `{...prev, [field]: value}`. */
  function HandleInputChange(f: ExamForm, field: Field, value: FieldValue): (r: ExamForm)
    requires Fits(field, value)
    ensures FieldOf(r, field) == value
    ensures forall g :: g != field ==> FieldOf(r, g) == FieldOf(f, g)
  {
    match field
    case NameField => f.(name := value.text)
    case DescriptionField => f.(description := value.text)
    case CategoryField => f.(category := value.text)
    case DurationField => f.(duration := value.number)
    case TotalMarksField => f.(totalMarks := value.number)
    case SubjectsField => f.(subjects := value.ids)
    case IsActiveField => f.(isActive := value.flag)
    case InstructionsField => f.(instructions := value.text)
    case PassingMarksField => f.(passingMarks := value.number)
    case MaxAttemptsField => f.(maxAttempts := value.number)
  }

  /** `handleSubjectToggle(id)`: an unchecked subject is appended, a checked
      one loses every occurrence while the others keep their order; no other
      field changes. */
  function HandleSubjectToggle(f: ExamForm, id: string): (r: ExamForm)
    ensures id !in f.subjects ==> r.subjects == f.subjects + [id]
    ensures id in f.subjects ==>
      && id !in r.subjects
      && IsSubseq(r.subjects, f.subjects)
      && multiset(r.subjects) == multiset(f.subjects)[id := 0]
    ensures forall g :: g != SubjectsField ==> FieldOf(r, g) == FieldOf(f, g)
  {
    f.(subjects := Toggle(f.subjects, id))
  }

  /** Checking and then unchecking a subject restores the form. */
  lemma SubjectToggleTwice(f: ExamForm, id: string)
    requires id !in f.subjects
    ensures HandleSubjectToggle(HandleSubjectToggle(f, id), id) == f
  {
    ToggleTwiceRestores(f.subjects, id);
  }

  /** The submit button is enabled when not saving, the name is not blank,
      a category is chosen and a subject is checked. */
  predicate SubmitEnabled(isSaving: bool, f: ExamForm)
  {
    !(isSaving || Trim(f.name) == "" || f.category == "" || |f.subjects| == 0)
  }

  /** Submit is disabled exactly when saving, or the name holds only white
      space, or no category is chosen, or no subject is checked. */
  lemma SubmitEnabledIff(isSaving: bool, f: ExamForm)
    ensures !SubmitEnabled(isSaving, f) <==>
      || isSaving
      || (forall i :: 0 <= i < |f.name| ==> IsSpace(f.name[i]))
      || f.category == ""
      || f.subjects == []
  {
    TrimEmptyIffBlank(f.name);
  }
}
