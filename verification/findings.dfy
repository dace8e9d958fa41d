/**
 * What the linter reports: findings of four severities, grouped into the
 * three buckets of a report with one pass/fail flag.
 */
module Reports {
  import opened Json

  /** The `type` field of a finding. */
  datatype Severity = Error | Warning | Info | Suggestion

  /** The three pattern tables. */
  datatype Table = ErrorTable | WarningTable | InfoTable

  /** Which message a finding carries. The wording itself is not modelled;
      messages that embed an index or an event name keep it. */
  datatype Text =
    // the orchestrator
    | NotAnObject
    | MissingType
    // one per structural check
    | PageBody
    | FormBody
    | FormItemName(index: nat)
    | FormApi
    | CrudApi
    | CrudColumns
    | CrudOperation
    | DialogBody
    | DialogTitle
    | ButtonLabel
    | ButtonAction
    | WizardSteps
    | StepTitle(index: nat)
    | StepContent(index: nat)
    | WizardApi
    | ApiAddress
    | ApiUrl
    | ApiMethod
    | EventActions(event: string)
    | ActionType(event: string, index: nat)
    // the fields of rule `index` of a pattern table
    | RuleMessage(table: Table, index: nat)
    | RuleFix(index: nat)
    | RuleExample(index: nat)
    | RuleSuggestion(table: Table, index: nat)
    // the four structural heuristics
    | ResponsiveForm
    | MobileCrud
    | CrudPaging
    | ButtonPermission

  /** `{type, message, fix?, example?, suggestion?}`; `None` is an absent field. */
  datatype Finding = Finding(severity: Severity, message: Text, fix: Option<Text>, example: Option<Text>, suggestion: Option<Text>)

  function ErrorOf(m: Text): Finding { Finding(Error, m, None, None, None) }
  function WarningOf(m: Text): Finding { Finding(Warning, m, None, None, None) }
  function InfoOf(m: Text): Finding { Finding(Info, m, None, None, None) }
  function SuggestionOf(m: Text): Finding { Finding(Suggestion, m, None, None, None) }

  /** `[f]` when `c` holds, else nothing: one conditional `push`. */
  function If(c: bool, f: Finding): seq<Finding>
  {
    if c then [f] else []
  }

  /** What one check contributes to each bucket. */
  datatype Findings = Findings(errors: seq<Finding>, warnings: seq<Finding>, suggestions: seq<Finding>)
  {
    /** The findings of `this` followed by those of `other`, bucket by bucket. */
    function Then(other: Findings): Findings
    {
      Findings(errors + other.errors, warnings + other.warnings, suggestions + other.suggestions)
    }
  }

  const NoFindings := Findings([], [], [])

  /** A check either returns or throws a JavaScript TypeError (reading a
      property of `null`, or calling `forEach` on something that is not an
      array). A TypeError is not caught: it leaves `validateAmisSchema`. */
  datatype Outcome<T> = Returns(value: T) | Throws

  /** The report record `{valid, errors, warnings, suggestions}`. */
  datatype ReportValue = ReportValue(valid: bool, errors: seq<Finding>, warnings: seq<Finding>, suggestions: seq<Finding>)
  {
    /** The report after a structural check: its findings appended, and
        `valid` cleared when it reported an error, since every structural
        error push comes with `valid = false`. */
    function Add(f: Findings): ReportValue
    {
      ReportValue(valid && f.errors == [], errors + f.errors, warnings + f.warnings, suggestions + f.suggestions)
    }
  }

  /** Adding warnings alone appends them to the warnings and changes
      nothing else. */
  lemma AddWarnings(r: ReportValue, ws: seq<Finding>)
    ensures r.Add(Findings([], ws, [])) == r.(warnings := r.warnings + ws)
  {
    assert r.errors + [] == r.errors;
    assert r.suggestions + [] == r.suggestions;
  }

  /** Adding two checks' findings one after the other is adding their
      concatenation. */
  lemma AddThen(r: ReportValue, a: Findings, b: Findings)
    ensures r.Add(a).Add(b) == r.Add(a.Then(b))
  {
    assert r.errors + a.errors + b.errors == r.errors + (a.errors + b.errors);
    assert r.warnings + a.warnings + b.warnings == r.warnings + (a.warnings + b.warnings);
    assert r.suggestions + a.suggestions + b.suggestions == r.suggestions + (a.suggestions + b.suggestions);
  }
}
