/** The question import page of app/admin/questions/import/page.tsx: the
    file picker, the import handler and how its result is presented. The
    server's reply is a parameter; a chosen file is known by its name. */
module QuestionImport {
  import opened Wrappers
  import opened Numbers
  import opened Lists

  datatype ImportResult = ImportResult(
    success: bool,
    totalQuestions: int,
    importedQuestions: int,
    failedQuestions: int,
    errors: seq<string>)

  datatype PageState = PageState(
    selectedFile: Option<string>,
    isImporting: bool,
    importResult: Option<ImportResult>)

  // ---------------------------------------------------------- presentation

  /** The three ways an import can end, as the result panel tells them apart. */
  datatype Outcome = Successful | Partial | Failed

  function Classify(r: ImportResult): (o: Outcome)
    ensures o == Successful <==> r.success
    ensures o == Partial <==> !r.success && r.importedQuestions > 0
    ensures o == Failed <==> !r.success && r.importedQuestions <= 0
  {
    if r.success then Successful
    else if r.importedQuestions > 0 then Partial
    else Failed
  }

  /** The panel's background and border. */
  function BoxClass(r: ImportResult): string
  {
    if r.success then "bg-green-50 border border-green-200"
    else if r.importedQuestions > 0 then "bg-yellow-50 border border-yellow-200"
    else "bg-red-50 border border-red-200"
  }

  function HeadingClass(r: ImportResult): string
  {
    if r.success then "text-green-800"
    else if r.importedQuestions > 0 then "text-yellow-800"
    else "text-red-800"
  }

  function HeadingText(r: ImportResult): string
  {
    if r.success then "Import Successful"
    else if r.importedQuestions > 0 then "Partial Import Success"
    else "Import Failed"
  }

  function BodyClass(r: ImportResult): string
  {
    if r.success then "text-green-700"
    else if r.importedQuestions > 0 then "text-yellow-700"
    else "text-red-700"
  }

  datatype Icon = GreenCheck | RedAlert

  /** The icon beside the heading has only two forms. */
  function ResultIcon(r: ImportResult): Icon
  {
    if r.success then GreenCheck else RedAlert
  }

  /** Two results get the same panel colour, heading colour, heading text and
      body colour exactly when they are classified alike. */
  lemma PresentationFollowsClassification(a: ImportResult, b: ImportResult)
    ensures BoxClass(a) == BoxClass(b) <==> Classify(a) == Classify(b)
    ensures HeadingClass(a) == HeadingClass(b) <==> Classify(a) == Classify(b)
    ensures HeadingText(a) == HeadingText(b) <==> Classify(a) == Classify(b)
    ensures BodyClass(a) == BodyClass(b) <==> Classify(a) == Classify(b)
  {
  }

  /** The icon does not follow the three-way split: a partial import shows the
      same red alert as a failed one. */
  lemma IconIsTwoWay(a: ImportResult, b: ImportResult)
    ensures ResultIcon(a) == ResultIcon(b) <==> a.success == b.success
    ensures Classify(a) == Partial ==> ResultIcon(a) == ResultIcon(a.(importedQuestions := 0))
  {
  }

  // -------------------------------------------------------------- handlers

  /** `handleFileSelect`: picking a file selects it and clears the previous
      result; closing the picker without a file changes nothing. */
  function HandleFileSelect(s: PageState, file: Option<string>): (r: PageState)
    ensures file.None? ==> r == s
    ensures file.Some? ==> r.selectedFile == file && r.importResult.None? && r.isImporting == s.isImporting
  {
    if file.Some? then s.(selectedFile := file, importResult := None) else s
  }

  /** The result shown when the request throws. */
  const NetworkErrorResult := ImportResult(false, 0, 0, 0, ["Import failed due to a network error"])

  /** How the POST ended: a parsed JSON body, or a thrown `fetch` or `json`. */
  datatype Reply = Body(result: ImportResult) | Thrown

  /** `handleImport`: with no file nothing happens and `reply` is not
      consulted; otherwise the page shows the body it received, or the
      network-error result, stops importing, and reports whether the history
      is fetched again. */
  function HandleImport(s: PageState, reply: Reply): (r: (PageState, bool))
    ensures s.selectedFile.None? ==> r == (s, false)
    ensures s.selectedFile.Some? ==>
      && r.0.selectedFile == s.selectedFile
      && !r.0.isImporting
      && r.0.importResult == Some(if reply.Body? then reply.result else NetworkErrorResult)
  {
    if s.selectedFile.None? then (s, false)
    else
      var result := if reply.Body? then reply.result else NetworkErrorResult;
      (s.(isImporting := false, importResult := Some(result)),
       reply.Body? && (result.success || result.importedQuestions > 0))
  }

  /** The history is fetched again exactly when a file was imported and the
      result it shows is not classified as failed. */
  lemma RefreshUnlessFailed(s: PageState, reply: Reply)
    ensures var (after, refresh) := HandleImport(s, reply);
      refresh <==> s.selectedFile.Some? && Classify(after.importResult.value) != Failed
  {
  }

  /** A thrown request is shown as a failure with zero counts and a single
      error message, and does not refresh the history. */
  lemma NetworkErrorIsFailure(s: PageState)
    requires s.selectedFile.Some?
    ensures var (after, refresh) := HandleImport(s, Thrown);
      && Classify(after.importResult.value) == Failed
      && after.importResult.value.totalQuestions == 0
      && after.importResult.value.importedQuestions == 0
      && after.importResult.value.failedQuestions == 0
      && |after.importResult.value.errors| == 1
      && !refresh
  {
  }

  /** The import button is enabled when a file is selected and no import is
      running. */
  predicate ImportEnabled(s: PageState)
  {
    !(s.selectedFile.None? || s.isImporting)
  }

  /** Picking a file while idle enables the button, and pressing an enabled
      button always sets a result to show. */
  lemma SelectThenImport(s: PageState, file: string, reply: Reply)
    requires !s.isImporting
    ensures ImportEnabled(HandleFileSelect(s, Some(file)))
    ensures HandleImport(HandleFileSelect(s, Some(file)), reply).0.importResult.Some?
  {
  }
}
