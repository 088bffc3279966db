/** The user-export page of app/admin/users/export/page.tsx: the column
    checkboxes, the export-button test and the history panel. Today's date,
    which the page reads from the clock, is a parameter. */
module UserExport {
  import opened Numbers
  import opened Lists

  datatype ExportFormat = Csv | Excel | Pdf

  datatype DateRange = DateRange(start: string, end: string)

  datatype UserFilter = UserFilter(role: string, status: string, activity: string)

  datatype ExportOptions = ExportOptions(
    format: ExportFormat,
    dateRange: DateRange,
    includeFields: seq<string>,
    filterBy: UserFilter)

  const DefaultFields: seq<string> :=
    ["name", "email", "role", "createdAt", "lastLogin", "totalAttempts", "averageScore"]

  /** The options the page starts with: CSV over the last thirty days (the
      two dates are computed from the clock), seven columns, no filter. */
  function InitialOptions(monthAgo: string, today: string): (o: ExportOptions)
    ensures ExportEnabled(false, o)
  {
    ExportOptions(Csv, DateRange(monthAgo, today), DefaultFields, UserFilter("all", "all", "all"))
  }

  /** `toggleField(field)`: an unchecked column is appended, a checked one
      loses every occurrence while the others keep their order; the format,
      dates and filters are untouched. */
  function ToggleField(o: ExportOptions, field: string): (r: ExportOptions)
    ensures field !in o.includeFields ==> r.includeFields == o.includeFields + [field]
    ensures field in o.includeFields ==>
      && field !in r.includeFields
      && IsSubseq(r.includeFields, o.includeFields)
      && multiset(r.includeFields) == multiset(o.includeFields)[field := 0]
    ensures r.format == o.format && r.dateRange == o.dateRange && r.filterBy == o.filterBy
  {
    o.(includeFields := Toggle(o.includeFields, field))
  }

  /** Checking and then unchecking a column restores the options. */
  lemma ToggleFieldTwice(o: ExportOptions, field: string)
    requires field !in o.includeFields
    ensures ToggleField(ToggleField(o, field), field) == o
  {
    ToggleTwiceRestores(o.includeFields, field);
  }

  /** The export button is enabled when no export is running and some column
      is checked. */
  predicate ExportEnabled(isExporting: bool, o: ExportOptions)
  {
    !(isExporting || |o.includeFields| == 0)
  }

  /** A toggle leaves no column checked exactly when it unchecks the only
      column name in the list, so only that toggle can disable the export. */
  lemma ToggleDisablesExport(o: ExportOptions, field: string)
    ensures ToggleField(o, field).includeFields == [] <==>
      o.includeFields != [] && forall x :: x in o.includeFields ==> x == field
  {
    var s := o.includeFields;
    var r := ToggleField(o, field).includeFields;
    if field in s {
      if r == [] {
        forall x | x in s ensures x == field {
          assert multiset(s)[x] > 0 && multiset(r) == multiset{};
          assert multiset(s)[field := 0][x] == 0;
        }
      } else {
        assert r[0] in multiset(r) && r[0] != field;
        assert multiset(s)[r[0]] > 0;
        assert r[0] in s;
      }
    } else if s != [] {
      assert s[0] in s;
    }
  }
}
