/**
 * What `validateAmisSchema` promises about its report, proved on the
 * specification functions of `SchemaValidator` (which its methods are
 * proved to implement).
 */
module ValidatorProperties {
  import opened Json
  import opened JsonText
  import opened KeywordMatch
  import opened Reports
  import opened CommonPatterns
  import opened SchemaValidator

  // ---------------------------------------------------------------------
  // The orchestrator
  // ---------------------------------------------------------------------

  /** Anything that is not an object or an array (`null`, a string, a
      number, a boolean) gets exactly the one "not an object" error and
      nothing else: no structural check and no pattern detector runs. */
  lemma NonObjectRejected(schema: Json, patternsLoaded: bool)
    requires !IsObject(schema)
    ensures Validate(schema, patternsLoaded).Returns?
    ensures var r := Validate(schema, patternsLoaded).value;
      !r.valid && r.errors == [ErrorOf(NotAnObject)] && r.warnings == [] && r.suggestions == []
  {
  }

  /** `typeof [] === "object"`: an array passes the object test and is
      then reported only for its missing `type`. */
  lemma ArrayPassesObjectCheck(items: seq<Json>)
    ensures Validate(JArr(items), false) == Returns(ReportValue(false, [ErrorOf(MissingType)], [], []))
  {
    var schema := JArr(items);
    var e: seq<Finding> := [ErrorOf(MissingType)];
    assert TypeMissing(schema) == Findings(e, [], []);
    assert TypeCheck(schema) == Returns(NoFindings);
    assert ApiCheck(schema) == NoFindings;
    assert EventCheck(schema) == Returns(NoFindings);
    var f := Findings(e, [], []);
    assert f.Then(NoFindings) == f;
    assert Structural(schema) == Returns(f);
    assert [] + e == e;
  }

  /** A missing `type` is reported first and does not stop the checks that
      follow: the API and event checks still run. */
  lemma MissingTypeContinues(schema: Json)
    requires IsObject(schema) && !Truthy(Get(schema, "type"))
    ensures Validate(schema, false).Throws? <==> EventCheck(schema).Throws?
    ensures Validate(schema, false).Returns? ==>
      Validate(schema, false).value
        == EmptyReport.Add(Findings([ErrorOf(MissingType)], [], [])).Add(ApiCheck(schema)).Add(EventCheck(schema).value)
  {
    if Validate(schema, false).Returns? {
      AddThen(EmptyReport, Findings([ErrorOf(MissingType)], [], []), ApiCheck(schema));
      AddThen(EmptyReport, Findings([ErrorOf(MissingType)], [], []).Then(ApiCheck(schema)), EventCheck(schema).value);
      assert TypeCheck(schema) == Returns(NoFindings);
      assert Findings([ErrorOf(MissingType)], [], []).Then(NoFindings) == Findings([ErrorOf(MissingType)], [], []);
    }
  }

  /** The pattern detectors only append: whether the validation throws, the
      `valid` flag, and the structural findings are the same as without
      them; the pattern findings follow, in detector order. */
  lemma PatternsOnlyAppend(schema: Json)
    ensures Validate(schema, true).Throws? <==> Validate(schema, false).Throws?
    ensures !IsObject(schema) ==> Validate(schema, true) == Validate(schema, false)
    ensures IsObject(schema) && Validate(schema, false).Returns? ==>
      var text := Serialize(schema);
      var plain := Validate(schema, false).value;
      var full := Validate(schema, true).value;
      && full.valid == plain.valid
      && full.errors == plain.errors + PatternErrors(text)
      && full.warnings == plain.warnings + PatternWarnings(text)
      && full.suggestions == plain.suggestions + PatternInfos(text) + AsSuggestions(Applicable(schema))
  {
  }

  /** `valid` is false exactly when a structural check reported an error:
      an error found by a pattern detector leaves it true. */
  lemma ValidMeansNoStructuralError(schema: Json, patternsLoaded: bool)
    requires Validate(schema, patternsLoaded).Returns?
    ensures Validate(schema, patternsLoaded).value.valid <==> Validate(schema, false).value.errors == []
  {
    PatternsOnlyAppend(schema);
  }

  /** A pattern error found in any nested value of a document with no
      structural error is reported, and the report stays valid. */
  lemma PatternErrorKeepsValid(schema: Json, c: Json, i: nat)
    requires Validate(schema, false).Returns? && Validate(schema, false).value.errors == []
    requires Within(c, schema) && i < |ErrorPatterns|
    requires Matches(Serialize(c), ErrorPatterns[i].keywords)
    ensures Validate(schema, true).Returns?
    ensures Validate(schema, true).value.valid
    ensures FindingFor(ErrorPatterns[i], Error) in Validate(schema, true).value.errors
  {
    ErrorTableWellFormed();
    NestedValueFires(c, schema, ErrorPatterns, ErrorTable, i, Error);
  }

  /** A string written as is by `JSON.stringify` that matches the first
      error rule still matches once serialized. */
  lemma PlainTextMatches(s: string)
    requires Escape(s) == s && Matches(s, ["missing", "type"])
    ensures Matches(Serialize(JStr(s)), ErrorPatterns[0].keywords)
  {
    PlainInfix(s);
    assert ErrorPatterns[0].keywords == ["missing", "type"];
    MatchesInfix(s, Serialize(JStr(s)), ["missing", "type"]);
  }

  lemma MissingTypeMatches()
    ensures Matches("missing type", ["missing", "type"])
  {
    var s := "missing type";
    assert OccursAt(s, "missing", 0);
    assert OccursAt(s, "type", 8);
    assert Unbroken(s, 12, 12);
    assert MatchesAt(s, [], 12);
    assert Tail(s, [], 12);
    assert Unbroken(s, 7, 8);
    assert MatchesAt(s, ["type"], 8);
    assert ["missing", "type"][1..] == ["type"];
    assert Tail(s, ["type"], 7);
    assert MatchesAt(s, ["missing", "type"], 0);
  }

  /** `{"type": "page", "body": "missing type"}` is valid and yet has an
      error: the pattern detectors read the text of every value. */
  lemma PageExample()
    ensures var schema := JObj([Member("type", JStr("page")), Member("body", JStr("missing type"))]);
      Validate(schema, true).Returns? && Validate(schema, true).value.valid && Validate(schema, true).value.errors != []
  {
    var c := JStr("missing type");
    var schema := JObj([Member("type", JStr("page")), Member("body", c)]);
    assert Get(schema, "type") == Some(JStr("page"));
    var ms := schema.members;
    assert ms[0].key != "body" by { assert ms[0].key[0] != "body"[0]; }
    assert ms[1..] == [Member("body", c)];
    assert Lookup(ms[1..], "body") == Some(c);
    assert Get(schema, "body") == Some(c);
    assert ms[1..][1..] == [];
    assert Lookup(ms[1..], "api") == None;
    assert Get(schema, "api") == None;
    assert Lookup(ms[1..], "onEvent") == None;
    assert Get(schema, "onEvent") == None;
    assert TypeMissing(schema) == NoFindings;
    assert PageCheck(schema) == NoFindings;
    assert TypeCheck(schema) == Returns(NoFindings);
    assert ApiCheck(schema) == NoFindings;
    assert EventCheck(schema) == Returns(NoFindings);
    assert NoFindings.Then(NoFindings) == NoFindings;
    assert Structural(schema) == Returns(NoFindings);
    assert Validate(schema, false) == Returns(ReportValue(true, [], [], []));
    assert schema.members[1].value == c;
    assert Within(c, schema);
    EscapePlain(c.s);
    MissingTypeMatches();
    PlainTextMatches(c.s);
    PatternErrorKeepsValid(schema, c, 0);
  }

  /** The report files each finding under its severity: errors hold errors,
      warnings hold warnings, suggestions hold infos and suggestions. */
  predicate Graded(r: ReportValue)
  {
    (forall f :: f in r.errors ==> f.severity == Error)
    && (forall f :: f in r.warnings ==> f.severity == Warning)
    && (forall f :: f in r.suggestions ==> f.severity == Info || f.severity == Suggestion)
  }

  /** The findings of the structural checks alone: no suggestion-type
      finding is among them. */
  predicate GradedFindings(f: Findings)
  {
    (forall x :: x in f.errors ==> x.severity == Error)
    && (forall x :: x in f.warnings ==> x.severity == Warning)
    && (forall x :: x in f.suggestions ==> x.severity == Info)
  }

  lemma TypeCheckGraded(schema: Json)
    requires TypeCheck(schema).Returns?
    ensures GradedFindings(TypeCheck(schema).value)
  {
    var t := Get(schema, "type");
    if IsString(t, "form") {
      assert GradedFindings(FormCheck(schema).value);
    } else if IsString(t, "crud") {
      assert GradedFindings(CrudCheck(schema).value);
    } else if IsString(t, "wizard") {
      assert GradedFindings(WizardCheck(schema).value);
    }
  }

  lemma GradedThen(a: Findings, b: Findings)
    requires GradedFindings(a) && GradedFindings(b)
    ensures GradedFindings(a.Then(b))
  {
  }

  /** The structural checks file every finding under its own severity. */
  lemma StructuralGraded(schema: Json)
    requires Structural(schema).Returns?
    ensures GradedFindings(Structural(schema).value)
  {
    TypeCheckGraded(schema);
    var a := TypeMissing(schema).Then(TypeCheck(schema).value);
    GradedThen(TypeMissing(schema), TypeCheck(schema).value);
    assert GradedFindings(ApiCheck(schema));
    GradedThen(a, ApiCheck(schema));
    assert GradedFindings(EventCheck(schema).value);
    GradedThen(a.Then(ApiCheck(schema)), EventCheck(schema).value);
  }

  lemma GradedAdd(r: ReportValue, f: Findings)
    requires Graded(r) && GradedFindings(f)
    ensures Graded(r.Add(f))
  {
  }

  /** Each pattern table yields findings of its own severity only. */
  lemma PatternSeverities(text: string)
    ensures forall f :: f in PatternErrors(text) ==> f.severity == Error
    ensures forall f :: f in PatternWarnings(text) ==> f.severity == Warning
    ensures forall f :: f in PatternInfos(text) ==> f.severity == Info
  {
    TablesWellFormed();
    DetectOrdered(ErrorPatterns, ErrorTable, Error, text);
    DetectOrdered(WarningPatterns, WarningTable, Warning, text);
    DetectOrdered(InfoPatterns, InfoTable, Info, text);
  }

  /** The pattern detectors add errors to the errors, warnings to the
      warnings, and infos and suggestions to the suggestions. */
  lemma PatternsGraded(r: ReportValue, schema: Json)
    requires Graded(r)
    ensures Graded(WithPatterns(r, schema))
  {
    PatternSeverities(Serialize(schema));
  }

  /** Infos followed by suggestions: no info after a suggestion. */
  predicate InfosFirst(s: seq<Finding>)
  {
    forall i, j :: 0 <= i < j < |s| && s[i].severity == Suggestion ==> s[j].severity == Suggestion
  }

  lemma ConcatInfosFirst(infos: seq<Finding>, sugg: seq<Finding>)
    requires forall f :: f in infos ==> f.severity == Info
    requires forall f :: f in sugg ==> f.severity == Suggestion
    ensures InfosFirst(infos + sugg)
  {
    var s := infos + sugg;
    forall k | 0 <= k < |s|
      ensures k < |infos| ==> s[k].severity == Info
      ensures k >= |infos| ==> s[k].severity == Suggestion
    {
      if k < |infos| {
        assert s[k] in infos;
      } else {
        assert s[k] in sugg;
      }
    }
  }

  /** After the pattern detectors, the suggestions list every info before
      every suggestion, provided they held only infos before. */
  lemma PatternsKeepInfosFirst(r: ReportValue, schema: Json)
    requires forall f :: f in r.suggestions ==> f.severity == Info
    ensures InfosFirst(WithPatterns(r, schema).suggestions)
  {
    var text := Serialize(schema);
    PatternSeverities(text);
    var sugg := AsSuggestions(Applicable(schema));
    assert forall f :: f in sugg ==> f.severity == Suggestion;
    ConcatInfosFirst(r.suggestions + PatternInfos(text), sugg);
  }

  /** Every report files each finding under its severity. */
  lemma ReportGraded(schema: Json, patternsLoaded: bool)
    requires Validate(schema, patternsLoaded).Returns?
    ensures Graded(Validate(schema, patternsLoaded).value)
  {
    if IsObject(schema) {
      StructuralGraded(schema);
      GradedAdd(EmptyReport, Structural(schema).value);
      if patternsLoaded {
        PatternsGraded(EmptyReport.Add(Structural(schema).value), schema);
      }
    }
  }

  /** In the suggestions every info comes before every suggestion: the
      structural and pattern infos are pushed before the heuristic
      suggestions. */
  lemma InfosBeforeSuggestions(schema: Json, patternsLoaded: bool)
    requires Validate(schema, patternsLoaded).Returns?
    ensures InfosFirst(Validate(schema, patternsLoaded).value.suggestions)
  {
    if IsObject(schema) {
      StructuralGraded(schema);
      var r := EmptyReport.Add(Structural(schema).value);
      assert forall f :: f in r.suggestions ==> f.severity == Info;
      if patternsLoaded {
        PatternsKeepInfosFirst(r, schema);
      } else {
        ConcatInfosFirst(r.suggestions, []);
        assert r.suggestions + [] == r.suggestions;
      }
    }
  }

  // ---------------------------------------------------------------------
  // The component checks
  // ---------------------------------------------------------------------

  /** The form findings: the body error exactly for a form with neither
      `controls` nor `body` (an empty array is truthy, so `body: []` counts
      as present), the item name warnings, then the API warning exactly
      when neither `api` nor `initApi` is set. */
  lemma FormBodyError(schema: Json)
    requires FormCheck(schema).Returns?
    ensures var f := FormCheck(schema).value;
      && f.errors == (if !Truthy(Get(schema, "controls")) && !Truthy(Get(schema, "body")) then [ErrorOf(FormBody)] else [])
      && f.warnings == NameWarnings(FormItems(schema)).value
           + (if !Truthy(Get(schema, "api")) && !Truthy(Get(schema, "initApi")) then [WarningOf(FormApi)] else [])
      && f.suggestions == []
  {
  }

  /** The page, dialog and button checks: one finding per missing field,
      and nothing else. */
  lemma SimpleChecks(schema: Json)
    ensures PageCheck(schema)
         == Findings([], if !Truthy(Get(schema, "body")) then [WarningOf(PageBody)] else [], [])
    ensures DialogCheck(schema)
         == Findings(if !Truthy(Get(schema, "body")) then [ErrorOf(DialogBody)] else [],
                     if !Truthy(Get(schema, "title")) then [WarningOf(DialogTitle)] else [],
                     [])
    ensures ButtonCheck(schema)
         == Findings([],
                     (if !Truthy(Get(schema, "label")) && !Truthy(Get(schema, "icon")) then [WarningOf(ButtonLabel)] else [])
                     + (if !Truthy(Get(schema, "actionType")) && !Truthy(Get(schema, "onEvent")) then [WarningOf(ButtonAction)] else []),
                     [])
  {
  }

  /** Form item `k` gets a name warning exactly when it exists and needs a
      name; items are numbered by their position. */
  lemma {:induction false} NameWarningsExact(items: seq<Json>, k: nat)
    requires NameWarnings(items).Returns?
    ensures WarningOf(FormItemName(k)) in NameWarnings(items).value <==> k < |items| && NeedsName(items[k])
    decreases |items|
  {
    if items != [] {
      var n := |items| - 1;
      assert items == items[..n] + [items[n]];
      assert JNull !in items[..n];
      NameWarningsExact(items[..n], k);
      if k < n {
        assert items[..n][k] == items[k];
      }
    }
  }

  /** The name warnings name items below the item count, in strictly
      increasing order: one warning per item at most, in item order. */
  lemma {:induction false} NameWarningsIncreasing(items: seq<Json>)
    requires NameWarnings(items).Returns?
    ensures var ws := NameWarnings(items).value;
      && (forall a :: 0 <= a < |ws| ==> ws[a] == WarningOf(FormItemName(ws[a].message.index)))
      && (forall a :: 0 <= a < |ws| ==> ws[a].message.index < |items|)
      && (forall a, b :: 0 <= a < b < |ws| ==> ws[a].message.index < ws[b].message.index)
    decreases |items|
  {
    if items != [] {
      var n := |items| - 1;
      assert items == items[..n] + [items[n]];
      assert JNull !in items[..n];
      NameWarningsIncreasing(items[..n]);
    }
  }

  /** A `null` form item makes `validateForm` throw. */
  lemma FormThrows(schema: Json)
    ensures FormCheck(schema).Throws? <==> JNull in FormItems(schema)
  {
  }

  /** `columns.some(...)` throws exactly when a `null` column comes before
      every operation column. */
  lemma {:induction false} SomeOperationThrows(cols: seq<Json>)
    ensures SomeOperation(cols).Throws?
        <==> exists i :: 0 <= i < |cols| && cols[i].JNull? && forall j :: 0 <= j < i ==> !IsOperation(cols[j])
  {
    if cols != [] && !cols[0].JNull? && !IsOperation(cols[0]) {
      SomeOperationThrows(cols[1..]);
      if SomeOperation(cols).Throws? {
        var i :| 0 <= i < |cols[1..]| && cols[1..][i].JNull? && forall j :: 0 <= j < i ==> !IsOperation(cols[1..][j]);
        assert forall j :: 0 <= j < i + 1 ==> !IsOperation(cols[j]) by {
          forall j | 0 <= j < i + 1
            ensures !IsOperation(cols[j])
          {
            if j > 0 {
              assert cols[j] == cols[1..][j - 1];
            }
          }
        }
        assert cols[i + 1].JNull?;
      }
    } else if cols != [] && cols[0].JNull? {
      assert cols[0].JNull?;
    }
  }

  /** The CRUD findings: an error per missing required field, and the
      operation-column info exactly when `columns` is an array without an
      operation column (an empty array included). */
  lemma CrudFindings(schema: Json)
    requires CrudCheck(schema).Returns?
    ensures var f := CrudCheck(schema).value;
      var cols := Get(schema, "columns");
      && f.errors == (if !Truthy(Get(schema, "api")) then [ErrorOf(CrudApi)] else [])
                     + (if !Truthy(cols) then [ErrorOf(CrudColumns)] else [])
      && f.warnings == []
      && f.suggestions
         == (if IsArray(cols) && forall i :: 0 <= i < |cols.value.items| ==> !IsOperation(cols.value.items[i])
             then [InfoOf(CrudOperation)] else [])
  {
    var cols := Get(schema, "columns");
    if IsArray(cols) {
      var some := SomeOperation(cols.value.items);
      if some.value {
        assert some == Returns(true);
      } else {
        assert some == Returns(false);
      }
    }
  }

  /** The warnings of one step. */
  lemma StepFindingsExact(step: Json, n: nat, k: nat)
    ensures WarningOf(StepTitle(k)) in StepFindings(step, n) <==> k == n && !Truthy(Get(step, "title"))
    ensures WarningOf(StepContent(k)) in StepFindings(step, n)
        <==> k == n && !Truthy(Get(step, "controls")) && !Truthy(Get(step, "body"))
  {
  }

  /** Step `k` gets a title warning exactly when it has no truthy `title`,
      and a content warning exactly when it has neither `controls` nor
      `body`. */
  lemma {:induction false} StepWarningsExact(steps: seq<Json>, k: nat)
    requires StepWarnings(steps).Returns?
    ensures WarningOf(StepTitle(k)) in StepWarnings(steps).value
        <==> k < |steps| && !Truthy(Get(steps[k], "title"))
    ensures WarningOf(StepContent(k)) in StepWarnings(steps).value
        <==> k < |steps| && !Truthy(Get(steps[k], "controls")) && !Truthy(Get(steps[k], "body"))
    decreases |steps|
  {
    if steps != [] {
      var n := |steps| - 1;
      assert steps == steps[..n] + [steps[n]];
      assert JNull !in steps[..n];
      StepWarningsExact(steps[..n], k);
      StepWarningsSnoc(steps, n);
      StepFindingsExact(steps[n], n, k);
      if k < n {
        assert steps[..n][k] == steps[k];
      }
    }
  }

  /** The step warnings name steps below the step count, in step order,
      with a step's title warning before its content warning: no warning
      is repeated. */
  lemma {:induction false} StepWarningsIncreasing(steps: seq<Json>)
    requires StepWarnings(steps).Returns?
    ensures var ws := StepWarnings(steps).value;
      && (forall a :: 0 <= a < |ws| ==>
            ws[a] == WarningOf(StepTitle(ws[a].message.index)) || ws[a] == WarningOf(StepContent(ws[a].message.index)))
      && (forall a :: 0 <= a < |ws| ==> ws[a].message.index < |steps|)
      && (forall a, b :: 0 <= a < b < |ws| ==>
            ws[a].message.index < ws[b].message.index
            || (ws[a].message.index == ws[b].message.index && ws[a].message.StepTitle? && ws[b].message.StepContent?))
    decreases |steps|
  {
    if steps != [] {
      var n := |steps| - 1;
      assert steps == steps[..n] + [steps[n]];
      assert JNull !in steps[..n];
      StepWarningsIncreasing(steps[..n]);
      StepWarningsSnoc(steps, n);
      assert steps[..n + 1] == steps;
      StepFindingsOrdered(steps[n], n);
    }
  }

  /** One step's warnings all carry its index, title before content. */
  lemma StepFindingsOrdered(step: Json, n: nat)
    ensures var fs := StepFindings(step, n);
      && (forall a :: 0 <= a < |fs| ==> fs[a] == WarningOf(StepTitle(n)) || fs[a] == WarningOf(StepContent(n)))
      && (forall a, b :: 0 <= a < b < |fs| ==> fs[a].message.StepTitle? && fs[b].message.StepContent?)
  {
  }

  /** A wizard throws exactly when `steps` is truthy but not an array, or
      is an array holding `null`. Otherwise its only possible error is the
      missing steps array; its warnings are those of the steps, then the
      API warning exactly when `api` is falsy. */
  lemma WizardOutcome(schema: Json)
    ensures var steps := Get(schema, "steps");
      WizardCheck(schema).Throws? <==> Truthy(steps) && (!IsArray(steps) || JNull in steps.value.items)
    ensures var steps := Get(schema, "steps");
      WizardCheck(schema).Returns? ==>
      && WizardCheck(schema).value.errors == (if !IsArray(steps) then [ErrorOf(WizardSteps)] else [])
      && WizardCheck(schema).value.warnings
         == (if IsArray(steps) then StepWarnings(steps.value.items).value else [])
            + (if !Truthy(Get(schema, "api")) then [WarningOf(WizardApi)] else [])
      && WizardCheck(schema).value.suggestions == []
  {
  }

  /** `{"type": "wizard", "steps": [{}]}`. */
  const WizardOneEmptyStep: Json := JObj([Member("type", JStr("wizard")), Member("steps", JArr([JObj([])]))])

  /** The empty step gets both step warnings. */
  lemma EmptyStepWarnings()
    ensures StepWarnings([JObj([])]) == Returns([WarningOf(StepTitle(0)), WarningOf(StepContent(0))])
  {
    var steps := [JObj([])];
    assert steps[..0] == [];
    assert StepWarnings(steps[..0]) == Returns([]);
    assert Get(JObj([]), "title") == None && Get(JObj([]), "controls") == None && Get(JObj([]), "body") == None;
    var ws: seq<Finding> := [WarningOf(StepTitle(0)), WarningOf(StepContent(0))];
    assert StepFindings(steps[0], 0) == ws;
    assert [] + ws == ws;
  }

  /** The wizard check of that document: no error, three warnings. */
  lemma EmptyStepWizardCheck()
    ensures WizardCheck(WizardOneEmptyStep)
         == Returns(Findings([], [WarningOf(StepTitle(0)), WarningOf(StepContent(0)), WarningOf(WizardApi)], []))
  {
    var schema := WizardOneEmptyStep;
    assert Get(schema, "steps") == Some(JArr([JObj([])]));
    assert Get(schema, "api") == None;
    EmptyStepWarnings();
    var ws: seq<Finding> := [WarningOf(StepTitle(0)), WarningOf(StepContent(0))];
    assert ws + [WarningOf(WizardApi)] == [WarningOf(StepTitle(0)), WarningOf(StepContent(0)), WarningOf(WizardApi)];
  }

  /** `{"type": "wizard", "steps": [{}]}` validates with no error, and
      three warnings (the step's title and content, and the missing `api`). */
  lemma WizardWithEmptyStep()
    ensures Validate(WizardOneEmptyStep, false)
         == Returns(ReportValue(true, [], [WarningOf(StepTitle(0)), WarningOf(StepContent(0)), WarningOf(WizardApi)], []))
  {
    var schema := WizardOneEmptyStep;
    var all: seq<Finding> := [WarningOf(StepTitle(0)), WarningOf(StepContent(0)), WarningOf(WizardApi)];
    assert Get(schema, "type") == Some(JStr("wizard"));
    assert Get(schema, "api") == None;
    assert Get(schema, "onEvent") == None;
    EmptyStepWizardCheck();
    assert TypeCheck(schema) == Returns(Findings([], all, []));
    assert TypeMissing(schema) == Findings([], [], []);
    assert ApiCheck(schema) == NoFindings;
    assert EventCheck(schema) == Returns(NoFindings);
    var f := Findings([], all, []);
    assert Findings([], [], []).Then(f) == f;
    assert f.Then(NoFindings) == f;
    assert Structural(schema) == Returns(f);
  }

  /** The API check: a string is accepted when it starts with `/` or with
      an HTTP method and a colon (in any case); an object or array needs a
      truthy `url` (an error) and should have a `method` (a warning); any
      other truthy value passes. */
  lemma ApiFindings(schema: Json)
    ensures var api := Get(schema, "api");
      var f := ApiCheck(schema);
      && (api.Some? && api.value.JStr? && api.value.s != "" ==>
            f == Findings([],
                          if !StartsWithMethod(api.value.s) && api.value.s[0] != '/' then [WarningOf(ApiAddress)] else [],
                          []))
      && (Truthy(api) && IsObject(api.value) ==>
            f == Findings(if !Truthy(Get(api.value, "url")) then [ErrorOf(ApiUrl)] else [],
                          if !Truthy(Get(api.value, "method")) then [WarningOf(ApiMethod)] else [],
                          []))
      && (!Truthy(api) || api.value.JNum? || api.value.JBool? ==> f == NoFindings)
  {
  }

  /** The method prefix is matched without regard to case: two strings
      that agree once ASCII letters are lower-cased agree on it. */
  lemma MethodPrefixIgnoresCase(s: string, t: string)
    requires |s| == |t| && forall i :: 0 <= i < |s| ==> Lower(s[i]) == Lower(t[i])
    ensures StartsWithMethod(s) <==> StartsWithMethod(t)
  {
    forall w | w in ["get:", "post:", "put:", "delete:"]
      ensures OccursAt(s, w, 0) <==> OccursAt(t, w, 0)
    {
    }
  }

  /** Only a colon lower-cases to a colon. */
  lemma LowerColon(c: char)
    requires Lower(c) == ':'
    ensures c == ':'
  {
  }

  /** An accepted prefix is a method name followed by a colon: the colon
      is at index 3 (`get`, `put`), 4 (`post`) or 6 (`delete`). */
  lemma MethodPrefixColon(s: string)
    requires StartsWithMethod(s)
    ensures (|s| > 3 && s[3] == ':') || (|s| > 4 && s[4] == ':') || (|s| > 6 && s[6] == ':')
  {
    if OccursAt(s, "get:", 0) {
      assert Lower(s[0 + 3]) == "get:"[3];
      LowerColon(s[3]);
    } else if OccursAt(s, "put:", 0) {
      assert Lower(s[0 + 3]) == "put:"[3];
      LowerColon(s[3]);
    } else if OccursAt(s, "post:", 0) {
      assert Lower(s[0 + 4]) == "post:"[4];
      LowerColon(s[4]);
    } else {
      assert Lower(s[0 + 6]) == "delete:"[6];
      LowerColon(s[6]);
    }
  }

  /** Addresses in upper and mixed case are accepted. */
  lemma MethodPrefixExamples()
    ensures StartsWithMethod("GET:/api/users")
    ensures StartsWithMethod("Delete:/api/users/1")
  {
    assert OccursAt("GET:/api/users", "get:", 0);
    assert OccursAt("Delete:/api/users/1", "delete:", 0);
  }

  /** An address without a method, or without the colon, is not. */
  lemma MethodPrefixCounterexamples()
    ensures !StartsWithMethod("api/users")
    ensures !StartsWithMethod("get/api")
  {
    var s, g := "api/users", "get/api";
    assert Lower(s[0]) == 'a' && Lower(g[0]) == 'g' && Lower(g[3]) == '/';
    Mismatch(s, "get:", 0);
    Mismatch(s, "post:", 0);
    Mismatch(s, "put:", 0);
    Mismatch(s, "delete:", 0);
    Mismatch(g, "get:", 3);
    Mismatch(g, "post:", 0);
    Mismatch(g, "put:", 0);
    Mismatch(g, "delete:", 0);
  }

  /** A word whose character `t` differs from the text's, ignoring case,
      does not occur at the start of the text. */
  lemma Mismatch(s: string, w: string, t: nat)
    requires t < |w| && t < |s| && Lower(s[t]) != w[t]
    ensures !OccursAt(s, w, 0)
  {
    assert Lower(s[0 + t]) != w[t];
  }

  /** The one warning an event entry can get for itself: its config has no
      truthy `actions`. */
  lemma EntryActionsWarning(entry: Member)
    requires EntryWarnings(entry).Returns?
    ensures WarningOf(EventActions(entry.key)) in EntryWarnings(entry).value <==> !Truthy(Get(entry.value, "actions"))
  {
  }

  /** An action of event `event` gets a warning exactly when it has no
      truthy `actionType`. */
  lemma {:induction false} ActionWarningsExact(event: string, actions: seq<Json>, k: nat)
    requires ActionWarnings(event, actions).Returns?
    ensures WarningOf(ActionType(event, k)) in ActionWarnings(event, actions).value
        <==> k < |actions| && !Truthy(Get(actions[k], "actionType"))
    decreases |actions|
  {
    if actions != [] {
      var n := |actions| - 1;
      assert actions == actions[..n] + [actions[n]];
      assert JNull !in actions[..n];
      ActionWarningsExact(event, actions[..n], k);
      if k < n {
        assert actions[..n][k] == actions[k];
      }
    }
  }

  /** The action warnings of one event name actions below the action
      count, in strictly increasing order. */
  lemma {:induction false} ActionWarningsIncreasing(event: string, actions: seq<Json>)
    requires ActionWarnings(event, actions).Returns?
    ensures var ws := ActionWarnings(event, actions).value;
      && (forall a :: 0 <= a < |ws| ==> ws[a] == WarningOf(ActionType(event, ws[a].message.index)))
      && (forall a :: 0 <= a < |ws| ==> ws[a].message.index < |actions|)
      && (forall a, b :: 0 <= a < b < |ws| ==> ws[a].message.index < ws[b].message.index)
    decreases |actions|
  {
    if actions != [] {
      var n := |actions| - 1;
      assert actions == actions[..n] + [actions[n]];
      assert JNull !in actions[..n];
      ActionWarningsIncreasing(event, actions[..n]);
    }
  }

  /** An event entry throws exactly when its config is `null`, or its
      `actions` is truthy and either not an array or an array holding
      `null`. */
  lemma EntryThrows(entry: Member)
    ensures var actions := Get(entry.value, "actions");
      EntryWarnings(entry).Throws?
      <==> entry.value.JNull? || (Truthy(actions) && (!IsArray(actions) || JNull in actions.value.items))
  {
  }

  /** An event gets the missing-actions warning exactly when one of its
      entries has that name and a config without truthy `actions`. */
  lemma {:induction false} EventActionsExact(entries: seq<Member>, name: string)
    requires EventWarnings(entries).Returns?
    ensures WarningOf(EventActions(name)) in EventWarnings(entries).value
        <==> exists i :: 0 <= i < |entries| && entries[i].key == name && !Truthy(Get(entries[i].value, "actions"))
    decreases |entries|
  {
    if entries != [] {
      var n := |entries| - 1;
      var prefix := entries[..n];
      assert forall i :: 0 <= i < n ==> prefix[i] == entries[i];
      EventActionsExact(prefix, name);
      EntryActionsWarning(entries[n]);
      var last := EntryWarnings(entries[n]);
      if !Truthy(Get(entries[n].value, "actions")) {
        assert last.value == [WarningOf(EventActions(entries[n].key))];
      } else {
        assert forall f :: f in last.value ==> f.message.ActionType?;
      }
      assert EventWarnings(entries).value == EventWarnings(prefix).value + last.value;
    }
  }

  /** A warning that event entry `m` yields by itself: the missing-actions
      warning when its `actions` is falsy, or the action-type warning for
      an action at index `k` of an `actions` array whose `actionType` is
      falsy. */
  predicate EntryYields(m: Member, w: Finding)
  {
    var actions := Get(m.value, "actions");
    (!Truthy(actions) && w == WarningOf(EventActions(m.key)))
    || (IsArray(actions) && w.message.ActionType? && w == WarningOf(ActionType(m.key, w.message.index))
        && w.message.index < |actions.value.items|
        && !Truthy(Get(actions.value.items[w.message.index], "actionType")))
  }

  /** One entry yields the missing-actions warning alone when `actions` is
      falsy, and otherwise exactly the warnings of its action loop; a
      warning is in its list exactly when the entry yields it. */
  lemma EntryWarningsExact(entry: Member)
    requires EntryWarnings(entry).Returns?
    ensures var actions := Get(entry.value, "actions");
      EntryWarnings(entry).value
      == if !Truthy(actions) then [WarningOf(EventActions(entry.key))]
         else ActionWarnings(entry.key, actions.value.items).value
    ensures forall w :: w in EntryWarnings(entry).value <==> EntryYields(entry, w)
  {
    var actions := Get(entry.value, "actions");
    if Truthy(actions) {
      var items := actions.value.items;
      var ws := ActionWarnings(entry.key, items).value;
      ActionWarningsIncreasing(entry.key, items);
      forall w
        ensures w in ws <==> EntryYields(entry, w)
      {
        if w in ws {
          var a :| 0 <= a < |ws| && ws[a] == w;
          ActionWarningsExact(entry.key, items, w.message.index);
        }
        if EntryYields(entry, w) {
          ActionWarningsExact(entry.key, items, w.message.index);
        }
      }
    }
  }

  /** The whole `onEvent` loop: a warning is in its list exactly when some
      entry yields it, so the list holds only missing-actions warnings and
      action-type warnings, each for a reason the source checks. */
  lemma EventWarningsExact(entries: seq<Member>)
    requires EventWarnings(entries).Returns?
    ensures forall w :: (w in EventWarnings(entries).value
                         <==> exists i :: 0 <= i < |entries| && EntryYields(entries[i], w))
  {
    forall w
      ensures w in EventWarnings(entries).value <==> exists i :: 0 <= i < |entries| && EntryYields(entries[i], w)
    {
      if w in EventWarnings(entries).value {
        EventWarningsFrom(entries, w);
      }
      if exists i :: 0 <= i < |entries| && EntryYields(entries[i], w) {
        var i :| 0 <= i < |entries| && EntryYields(entries[i], w);
        EventWarningsTo(entries, i, w);
      }
    }
  }

  /** Each warning of the loop is yielded by some entry. */
  lemma {:induction false} EventWarningsFrom(entries: seq<Member>, w: Finding)
    requires EventWarnings(entries).Returns? && w in EventWarnings(entries).value
    ensures exists i :: 0 <= i < |entries| && EntryYields(entries[i], w)
    decreases |entries|
  {
    var n := |entries| - 1;
    var prefix := entries[..n];
    EventWarningsSnoc(entries, n);
    assert entries[..n + 1] == entries;
    if w in EventWarnings(prefix).value {
      EventWarningsFrom(prefix, w);
      var i :| 0 <= i < |prefix| && EntryYields(prefix[i], w);
      assert entries[i] == prefix[i];
    } else {
      EntryYieldsIn(entries[n], w);
    }
  }

  /** Each warning an entry yields is in the loop's list. */
  lemma {:induction false} EventWarningsTo(entries: seq<Member>, i: nat, w: Finding)
    requires EventWarnings(entries).Returns? && i < |entries| && EntryYields(entries[i], w)
    ensures w in EventWarnings(entries).value
    decreases |entries|
  {
    var n := |entries| - 1;
    var prefix := entries[..n];
    EventWarningsSnoc(entries, n);
    assert entries[..n + 1] == entries;
    if i < n {
      assert prefix[i] == entries[i];
      EventWarningsTo(prefix, i, w);
    } else {
      EntryYieldsIn(entries[n], w);
    }
  }

  /** One entry's list holds `w` exactly when the entry yields it. */
  lemma EntryYieldsIn(entry: Member, w: Finding)
    requires EntryWarnings(entry).Returns?
    ensures w in EntryWarnings(entry).value <==> EntryYields(entry, w)
  {
    EntryWarningsExact(entry);
  }
}
