/**
 * `validateAmisSchema` and its structural checks. Each check is specified by
 * a pure function giving what it adds to each bucket of the report (or that
 * it throws a TypeError), and implemented by a method that pushes onto a
 * mutable `Report` as `validateAmisSchema` does.
 */
module SchemaValidator {
  import opened Json
  import opened JsonText
  import opened KeywordMatch
  import opened Reports
  import opened CommonPatterns

  // ---------------------------------------------------------------------
  // Specification: what each check contributes
  // ---------------------------------------------------------------------

  /** `Array.isArray(v)` for a property read. */
  predicate IsArray(v: Option<Json>)
  {
    v.Some? && v.value.JArr?
  }

  /** The elements of an array property, or nothing. */
  function ItemsOf(v: Option<Json>): seq<Json>
  {
    if IsArray(v) then v.value.items else []
  }

  /** Two checks in sequence: the first TypeError ends the validation. */
  function AndThen(a: Outcome<Findings>, b: Outcome<Findings>): Outcome<Findings>
  {
    if a.Throws? || b.Throws? then Throws else Returns(a.value.Then(b.value))
  }

  /** `validatePage`. */
  function PageCheck(schema: Json): Findings
  {
    Findings([], If(!Truthy(Get(schema, "body")), WarningOf(PageBody)), [])
  }

  /** `schema.body || schema.controls` when it is an array, else no items. */
  function FormItems(schema: Json): seq<Json>
  {
    ItemsOf(Or(Get(schema, "body"), Get(schema, "controls")))
  }

  /** A form item whose truthy `type` is not a button type must carry a
      truthy `name`. */
  predicate NeedsName(control: Json)
  {
    var t := Get(control, "type");
    Truthy(t) && !IsString(t, "button") && !IsString(t, "submit") && !IsString(t, "reset")
    && !Truthy(Get(control, "name"))
  }

  /** The name warnings of the `forEach` over the form items: a `null`
      item throws when its `type` is read. */
  function NameWarnings(items: seq<Json>): (r: Outcome<seq<Finding>>)
    ensures r.Throws? <==> JNull in items
    ensures r.Returns? ==> |r.value| <= |items|
    ensures r.Returns? ==> forall k :: 0 <= k < |r.value| ==> r.value[k].severity == Warning && r.value[k].message.FormItemName?
    decreases |items|
  {
    if items == [] then Returns([])
    else
      var n := |items| - 1;
      var prev := NameWarnings(items[..n]);
      assert items == items[..n] + [items[n]];
      if prev.Throws? || items[n].JNull? then Throws
      else Returns(prev.value + If(NeedsName(items[n]), WarningOf(FormItemName(n))))
  }

  /** `validateForm`. */
  function FormCheck(schema: Json): Outcome<Findings>
  {
    var ws := NameWarnings(FormItems(schema));
    if ws.Throws? then Throws
    else
      Returns(Findings(
        If(!Truthy(Get(schema, "controls")) && !Truthy(Get(schema, "body")), ErrorOf(FormBody)),
        ws.value + If(!Truthy(Get(schema, "api")) && !Truthy(Get(schema, "initApi")), WarningOf(FormApi)),
        []))
  }

  /** `col.type === "operation"`. */
  predicate IsOperation(col: Json)
  {
    IsString(Get(col, "type"), "operation")
  }

  /** `columns.some(col => col.type === "operation")`: stops at the first
      operation column; a `null` column reached before it throws. */
  function SomeOperation(cols: seq<Json>): (r: Outcome<bool>)
    ensures r == Returns(false) ==> forall i :: 0 <= i < |cols| ==> !IsOperation(cols[i])
    ensures r == Returns(true) ==> exists i :: 0 <= i < |cols| && IsOperation(cols[i])
  {
    if cols == [] then Returns(false)
    else if cols[0].JNull? then Throws
    else if IsOperation(cols[0]) then Returns(true)
    else
      var r := SomeOperation(cols[1..]);
      assert forall i :: 1 <= i < |cols| ==> cols[i] == cols[1..][i - 1];
      r
  }

  /** `validateCrud`. */
  function CrudCheck(schema: Json): Outcome<Findings>
  {
    var cols := Get(schema, "columns");
    var errs := If(!Truthy(Get(schema, "api")), ErrorOf(CrudApi)) + If(!Truthy(cols), ErrorOf(CrudColumns));
    if IsArray(cols) then
      var some := SomeOperation(cols.value.items);
      if some.Throws? then Throws
      else Returns(Findings(errs, [], If(!some.value, InfoOf(CrudOperation))))
    else Returns(Findings(errs, [], []))
  }

  /** `validateDialog`, for both `dialog` and `drawer`. */
  function DialogCheck(schema: Json): Findings
  {
    Findings(If(!Truthy(Get(schema, "body")), ErrorOf(DialogBody)), If(!Truthy(Get(schema, "title")), WarningOf(DialogTitle)), [])
  }

  /** `validateButton`. */
  function ButtonCheck(schema: Json): Findings
  {
    Findings([],
      If(!Truthy(Get(schema, "label")) && !Truthy(Get(schema, "icon")), WarningOf(ButtonLabel))
      + If(!Truthy(Get(schema, "actionType")) && !Truthy(Get(schema, "onEvent")), WarningOf(ButtonAction)),
      [])
  }

  /** The warnings for step `index`. */
  function StepFindings(step: Json, index: nat): seq<Finding>
  {
    If(!Truthy(Get(step, "title")), WarningOf(StepTitle(index)))
    + If(!Truthy(Get(step, "controls")) && !Truthy(Get(step, "body")), WarningOf(StepContent(index)))
  }

  /** The `forEach` over the steps: a `null` step throws. */
  function StepWarnings(steps: seq<Json>): (r: Outcome<seq<Finding>>)
    ensures r.Throws? <==> JNull in steps
    ensures r.Returns? ==> |r.value| <= 2 * |steps|
    ensures r.Returns? ==> forall k :: 0 <= k < |r.value| ==> r.value[k].severity == Warning && (r.value[k].message.StepTitle? || r.value[k].message.StepContent?)
    decreases |steps|
  {
    if steps == [] then Returns([])
    else
      var n := |steps| - 1;
      var prev := StepWarnings(steps[..n]);
      assert steps == steps[..n] + [steps[n]];
      if prev.Throws? || steps[n].JNull? then Throws
      else Returns(prev.value + StepFindings(steps[n], n))
  }

  /** One more step of the loop: the warnings so far, then the new step's. */
  lemma StepWarningsSnoc(steps: seq<Json>, i: nat)
    requires i < |steps|
    ensures StepWarnings(steps[..i + 1])
         == if StepWarnings(steps[..i]).Throws? || steps[i].JNull? then Throws
            else Returns(StepWarnings(steps[..i]).value + StepFindings(steps[i], i))
  {
    assert steps[..i + 1][..i] == steps[..i];
  }

  /** `validateWizard`. A truthy `steps` that is not an array has no
      `forEach`: the call throws, after the error has been pushed. */
  function WizardCheck(schema: Json): Outcome<Findings>
  {
    var steps := Get(schema, "steps");
    var ws := if Truthy(steps) && IsArray(steps) then StepWarnings(steps.value.items) else Returns([]);
    if Truthy(steps) && !IsArray(steps) then Throws
    else if ws.Throws? then Throws
    else
      Returns(Findings(
        If(!Truthy(steps) || !IsArray(steps), ErrorOf(WizardSteps)),
        ws.value + If(!Truthy(Get(schema, "api")), WarningOf(WizardApi)),
        []))
  }

  /** `validateApiConfig`: a string address should start with `/` or an
      HTTP method prefix; an object (or array) configuration must have a
      `url` and should have a `method`; numbers and booleans pass. */
  function ApiCheck(schema: Json): Findings
  {
    var api := Get(schema, "api");
    if !Truthy(api) then NoFindings
    else match api.value
      case JStr(s) =>
        Findings([], If(!StartsWithMethod(s) && !(|s| > 0 && s[0] == '/'), WarningOf(ApiAddress)), [])
      case JObj(_) =>
        Findings(If(!Truthy(Get(api.value, "url")), ErrorOf(ApiUrl)), If(!Truthy(Get(api.value, "method")), WarningOf(ApiMethod)), [])
      case JArr(_) =>
        Findings(If(!Truthy(Get(api.value, "url")), ErrorOf(ApiUrl)), If(!Truthy(Get(api.value, "method")), WarningOf(ApiMethod)), [])
      case _ => NoFindings
  }

  /** The `forEach` over the actions of event `event`: a `null` action throws. */
  function ActionWarnings(event: string, actions: seq<Json>): (r: Outcome<seq<Finding>>)
    ensures r.Throws? <==> JNull in actions
    ensures r.Returns? ==> |r.value| <= |actions|
    ensures r.Returns? ==> forall k :: 0 <= k < |r.value| ==> r.value[k].severity == Warning && r.value[k].message.ActionType? && r.value[k].message.event == event
    decreases |actions|
  {
    if actions == [] then Returns([])
    else
      var n := |actions| - 1;
      var prev := ActionWarnings(event, actions[..n]);
      assert actions == actions[..n] + [actions[n]];
      if prev.Throws? || actions[n].JNull? then Throws
      else Returns(prev.value + If(!Truthy(Get(actions[n], "actionType")), WarningOf(ActionType(event, n))))
  }

  /** One more action of the loop: the warnings so far, then the new action's. */
  lemma ActionWarningsSnoc(event: string, actions: seq<Json>, i: nat)
    requires i < |actions|
    ensures ActionWarnings(event, actions[..i + 1])
         == if ActionWarnings(event, actions[..i]).Throws? || actions[i].JNull? then Throws
            else Returns(ActionWarnings(event, actions[..i]).value
                         + If(!Truthy(Get(actions[i], "actionType")), WarningOf(ActionType(event, i))))
  {
    assert actions[..i + 1][..i] == actions[..i];
  }

  /** One `[eventName, eventConfig]` entry: a `null` config throws, a config
      without truthy `actions` gets one warning, a truthy `actions` that is
      not an array throws at `forEach`. */
  function EntryWarnings(entry: Member): (r: Outcome<seq<Finding>>)
    ensures r.Returns? ==> forall k :: 0 <= k < |r.value| ==> r.value[k].severity == Warning
  {
    if entry.value.JNull? then Throws
    else
      var actions := Get(entry.value, "actions");
      if !Truthy(actions) then Returns([WarningOf(EventActions(entry.key))])
      else if !IsArray(actions) then Throws
      else ActionWarnings(entry.key, actions.value.items)
  }

  /** The `for ... of Object.entries(schema.onEvent)` loop. */
  function EventWarnings(entries: seq<Member>): (r: Outcome<seq<Finding>>)
    ensures r.Throws? <==> exists i :: 0 <= i < |entries| && EntryWarnings(entries[i]).Throws?
    ensures r.Returns? ==> forall k :: 0 <= k < |r.value| ==> r.value[k].severity == Warning
    decreases |entries|
  {
    if entries == [] then Returns([])
    else
      var n := |entries| - 1;
      var prev := EventWarnings(entries[..n]);
      assert forall i :: 0 <= i < n ==> entries[..n][i] == entries[i];
      var last := EntryWarnings(entries[n]);
      if prev.Throws? || last.Throws? then Throws
      else Returns(prev.value + last.value)
  }

  /** One more entry of the loop: the warnings so far, then the new entry's. */
  lemma EventWarningsSnoc(entries: seq<Member>, i: nat)
    requires i < |entries|
    ensures EventWarnings(entries[..i + 1])
         == if EventWarnings(entries[..i]).Throws? || EntryWarnings(entries[i]).Throws? then Throws
            else Returns(EventWarnings(entries[..i]).value + EntryWarnings(entries[i]).value)
  {
    assert entries[..i + 1][..i] == entries[..i];
  }

  /** `validateEventActions`. */
  function EventCheck(schema: Json): Outcome<Findings>
  {
    var on := Get(schema, "onEvent");
    if !Truthy(on) then Returns(NoFindings)
    else
      var ws := EventWarnings(Entries(on.value));
      if ws.Throws? then Throws else Returns(Findings([], ws.value, []))
  }

  /** The component check chosen by `schema.type`: at most one applies,
      since the compared literals are distinct. */
  function TypeCheck(schema: Json): (r: Outcome<Findings>)
    ensures var t := Get(schema, "type");
      r.Throws? ==> IsString(t, "form") || IsString(t, "crud") || IsString(t, "wizard")
    ensures var t := Get(schema, "type");
      (!IsString(t, "page") && !IsString(t, "form") && !IsString(t, "crud") && !IsString(t, "dialog")
       && !IsString(t, "drawer") && !IsString(t, "button") && !IsString(t, "wizard")) ==> r == Returns(NoFindings)
  {
    var t := Get(schema, "type");
    if IsString(t, "page") then Returns(PageCheck(schema))
    else if IsString(t, "form") then FormCheck(schema)
    else if IsString(t, "crud") then CrudCheck(schema)
    else if IsString(t, "dialog") || IsString(t, "drawer") then Returns(DialogCheck(schema))
    else if IsString(t, "button") then Returns(ButtonCheck(schema))
    else if IsString(t, "wizard") then WizardCheck(schema)
    else Returns(NoFindings)
  }

  /** The root `type` check. */
  function TypeMissing(schema: Json): Findings
  {
    Findings(If(!Truthy(Get(schema, "type")), ErrorOf(MissingType)), [], [])
  }

  /** Everything `validateAmisSchema` checks on an object before the
      pattern detectors: the root `type`, the component check, the API
      configuration and the event actions, in that order. */
  function Structural(schema: Json): (r: Outcome<Findings>)
    ensures r.Throws? <==> TypeCheck(schema).Throws? || EventCheck(schema).Throws?
    ensures r.Returns? ==>
      r.value == TypeMissing(schema).Then(TypeCheck(schema).value).Then(ApiCheck(schema)).Then(EventCheck(schema).value)
  {
    AndThen(AndThen(AndThen(Returns(TypeMissing(schema)), TypeCheck(schema)), Returns(ApiCheck(schema))), EventCheck(schema))
  }

  /** The messages of `getSuggestions`, each wrapped as a suggestion finding. */
  function AsSuggestions(hs: seq<Text>): (r: seq<Finding>)
    ensures |r| == |hs| && forall i :: 0 <= i < |r| ==> r[i] == SuggestionOf(hs[i])
  {
    if hs == [] then [] else [SuggestionOf(hs[0])] + AsSuggestions(hs[1..])
  }

  /** The report after the pattern detectors: their errors and warnings
      appended to those buckets, their infos and then the heuristic
      suggestions appended to the suggestions; `valid` is left alone. */
  function WithPatterns(r: ReportValue, schema: Json): ReportValue
  {
    var text := Serialize(schema);
    ReportValue(r.valid,
      r.errors + PatternErrors(text),
      r.warnings + PatternWarnings(text),
      r.suggestions + PatternInfos(text) + AsSuggestions(Applicable(schema)))
  }

  const EmptyReport := ReportValue(true, [], [], [])

  /** `validateAmisSchema(schema)`. `patternsLoaded` says whether
      `require("./common-patterns")` succeeded; when it did not, the
      exception is swallowed and the pattern findings are absent. */
  function Validate(schema: Json, patternsLoaded: bool): (r: Outcome<ReportValue>)
    ensures r.Throws? <==> IsObject(schema) && Structural(schema).Throws?
    ensures r.Returns? ==> (r.value.valid <==> IsObject(schema) && Structural(schema).value.errors == [])
  {
    if !IsObject(schema) then Returns(ReportValue(false, [ErrorOf(NotAnObject)], [], []))
    else
      var s := Structural(schema);
      if s.Throws? then Throws
      else
        var r := EmptyReport.Add(s.value);
        Returns(if patternsLoaded then WithPatterns(r, schema) else r)
  }

  // ---------------------------------------------------------------------
  // Implementation: the mutable result object and the check functions
  // ---------------------------------------------------------------------

  /** The `result` object the checks push onto. */
  class Report {
    var valid: bool
    var errors: seq<Finding>
    var warnings: seq<Finding>
    var suggestions: seq<Finding>

    /** `{valid: true, errors: [], warnings: [], suggestions: []}`. */
    constructor ()
      ensures Value() == EmptyReport
    {
      valid := true;
      errors := [];
      warnings := [];
      suggestions := [];
    }

    function Value(): ReportValue
      reads this
    {
      ReportValue(valid, errors, warnings, suggestions)
    }
  }

  method ValidatePage(schema: Json, result: Report)
    modifies result
    ensures result.Value() == old(result.Value()).Add(PageCheck(schema))
  {
    if !Truthy(Get(schema, "body")) {
      result.warnings := result.warnings + [WarningOf(PageBody)];
    }
  }

  method ValidateForm(schema: Json, result: Report) returns (threw: bool)
    modifies result
    ensures threw <==> FormCheck(schema).Throws?
    ensures !threw ==> result.Value() == old(result.Value()).Add(FormCheck(schema).value)
  {
    if !Truthy(Get(schema, "controls")) && !Truthy(Get(schema, "body")) {
      result.errors := result.errors + [ErrorOf(FormBody)];
      result.valid := false;
    }
    var formItems := Or(Get(schema, "body"), Get(schema, "controls"));
    threw := false;
    if Truthy(formItems) && IsArray(formItems) {
      threw := PushNameWarnings(formItems.value.items, result);
      if threw {
        return;
      }
    }
    if !Truthy(Get(schema, "api")) && !Truthy(Get(schema, "initApi")) {
      result.warnings := result.warnings + [WarningOf(FormApi)];
    }
  }

  /** `formItems.forEach(...)`: the name warnings. */
  method PushNameWarnings(items: seq<Json>, result: Report) returns (threw: bool)
    modifies result
    ensures threw <==> NameWarnings(items).Throws?
    ensures !threw ==> result.Value() == old(result.Value()).Add(Findings([], NameWarnings(items).value, []))
  {
    for index := 0 to |items|
      invariant NameWarnings(items[..index]).Returns?
      invariant result.warnings == old(result.warnings) + NameWarnings(items[..index]).value
      invariant result.errors == old(result.errors) && result.valid == old(result.valid)
      invariant result.suggestions == old(result.suggestions)
    {
      var control := items[index];
      assert items[..index + 1][..index] == items[..index];
      if control.JNull? {
        assert JNull in items;
        return true;
      }
      var t := Get(control, "type");
      if Truthy(t) && !IsString(t, "button") && !IsString(t, "submit") && !IsString(t, "reset") {
        if !Truthy(Get(control, "name")) {
          result.warnings := result.warnings + [WarningOf(FormItemName(index))];
        }
      }
    }
    assert items[..|items|] == items;
    threw := false;
    AddWarnings(old(result.Value()), NameWarnings(items).value);
  }

  /** `columns.some(col => col.type === "operation")`, as a loop that
      stops at the first operation column. */
  method HasOperation(cols: seq<Json>) returns (threw: bool, found: bool)
    ensures threw <==> SomeOperation(cols).Throws?
    ensures !threw ==> SomeOperation(cols) == Returns(found)
  {
    var i := 0;
    while i < |cols|
      invariant 0 <= i <= |cols|
      invariant SomeOperation(cols) == SomeOperation(cols[i..])
    {
      if cols[i].JNull? {
        return true, false;
      }
      if IsString(Get(cols[i], "type"), "operation") {
        return false, true;
      }
      assert cols[i..][1..] == cols[i + 1..];
      i := i + 1;
    }
    return false, false;
  }

  method ValidateCrud(schema: Json, result: Report) returns (threw: bool)
    modifies result
    ensures threw <==> CrudCheck(schema).Throws?
    ensures !threw ==> result.Value() == old(result.Value()).Add(CrudCheck(schema).value)
  {
    threw := false;
    if !Truthy(Get(schema, "api")) {
      result.errors := result.errors + [ErrorOf(CrudApi)];
      result.valid := false;
    }
    if !Truthy(Get(schema, "columns")) {
      result.errors := result.errors + [ErrorOf(CrudColumns)];
      result.valid := false;
    }
    var columns := Get(schema, "columns");
    if Truthy(columns) && IsArray(columns) {
      var hasOperation;
      threw, hasOperation := HasOperation(columns.value.items);
      if threw {
        return;
      }
      if !hasOperation {
        result.suggestions := result.suggestions + [InfoOf(CrudOperation)];
      }
    }
  }

  method ValidateDialog(schema: Json, result: Report)
    modifies result
    ensures result.Value() == old(result.Value()).Add(DialogCheck(schema))
  {
    if !Truthy(Get(schema, "body")) {
      result.errors := result.errors + [ErrorOf(DialogBody)];
      result.valid := false;
    }
    if !Truthy(Get(schema, "title")) {
      result.warnings := result.warnings + [WarningOf(DialogTitle)];
    }
  }

  method ValidateButton(schema: Json, result: Report)
    modifies result
    ensures result.Value() == old(result.Value()).Add(ButtonCheck(schema))
  {
    if !Truthy(Get(schema, "label")) && !Truthy(Get(schema, "icon")) {
      result.warnings := result.warnings + [WarningOf(ButtonLabel)];
    }
    if !Truthy(Get(schema, "actionType")) && !Truthy(Get(schema, "onEvent")) {
      result.warnings := result.warnings + [WarningOf(ButtonAction)];
    }
  }

  method ValidateWizard(schema: Json, result: Report) returns (threw: bool)
    modifies result
    ensures threw <==> WizardCheck(schema).Throws?
    ensures !threw ==> result.Value() == old(result.Value()).Add(WizardCheck(schema).value)
  {
    var steps := Get(schema, "steps");
    if !Truthy(steps) || !IsArray(steps) {
      result.errors := result.errors + [ErrorOf(WizardSteps)];
      result.valid := false;
    }
    if Truthy(steps) {
      if !IsArray(steps) {
        return true;
      }
      threw := PushStepWarnings(steps.value.items, result);
      if threw {
        return;
      }
    }
    threw := false;
    if !Truthy(Get(schema, "api")) {
      result.warnings := result.warnings + [WarningOf(WizardApi)];
    }
  }

  /** `schema.steps.forEach(...)`: the warnings for each step. */
  method PushStepWarnings(steps: seq<Json>, result: Report) returns (threw: bool)
    modifies result
    ensures threw <==> StepWarnings(steps).Throws?
    ensures !threw ==> result.Value() == old(result.Value()).Add(Findings([], StepWarnings(steps).value, []))
  {
    for index := 0 to |steps|
      invariant StepWarnings(steps[..index]).Returns?
      invariant result.warnings == old(result.warnings) + StepWarnings(steps[..index]).value
      invariant result.errors == old(result.errors) && result.valid == old(result.valid)
      invariant result.suggestions == old(result.suggestions)
    {
      var step := steps[index];
      StepWarningsSnoc(steps, index);
      if step.JNull? {
        assert JNull in steps;
        return true;
      }
      PushStepFindings(step, index, result);
    }
    assert steps[..|steps|] == steps;
    threw := false;
    AddWarnings(old(result.Value()), StepWarnings(steps).value);
  }

  /** The body of the step loop for one step that is not `null`. */
  method PushStepFindings(step: Json, index: nat, result: Report)
    modifies result
    ensures result.Value() == old(result.Value()).(warnings := old(result.warnings) + StepFindings(step, index))
  {
    if !Truthy(Get(step, "title")) {
      result.warnings := result.warnings + [WarningOf(StepTitle(index))];
    }
    if !Truthy(Get(step, "controls")) && !Truthy(Get(step, "body")) {
      result.warnings := result.warnings + [WarningOf(StepContent(index))];
    }
  }

  method ValidateApiConfig(schema: Json, result: Report)
    modifies result
    ensures result.Value() == old(result.Value()).Add(ApiCheck(schema))
  {
    var api := Get(schema, "api");
    if !Truthy(api) {
      return;
    }
    match api.value {
      case JStr(s) =>
        if !StartsWithMethod(s) && !(|s| > 0 && s[0] == '/') {
          result.warnings := result.warnings + [WarningOf(ApiAddress)];
        }
      case JObj(_) =>
        ValidateApiObject(api.value, result);
      case JArr(_) =>
        ValidateApiObject(api.value, result);
      case _ =>
    }
  }

  /** The `typeof api === "object"` branch of `validateApiConfig`. */
  method ValidateApiObject(api: Json, result: Report)
    modifies result
    ensures result.Value() == old(result.Value()).Add(
      Findings(If(!Truthy(Get(api, "url")), ErrorOf(ApiUrl)), If(!Truthy(Get(api, "method")), WarningOf(ApiMethod)), []))
  {
    if !Truthy(Get(api, "url")) {
      result.errors := result.errors + [ErrorOf(ApiUrl)];
      result.valid := false;
    }
    if !Truthy(Get(api, "method")) {
      result.warnings := result.warnings + [WarningOf(ApiMethod)];
    }
  }

  method ValidateEventActions(schema: Json, result: Report) returns (threw: bool)
    modifies result
    ensures threw <==> EventCheck(schema).Throws?
    ensures !threw ==> result.Value() == old(result.Value()).Add(EventCheck(schema).value)
  {
    var on := Get(schema, "onEvent");
    if !Truthy(on) {
      return false;
    }
    threw := PushEventWarnings(Entries(on.value), result);
  }

  /** `for (const [eventName, eventConfig] of entries) { ... }`. */
  method PushEventWarnings(entries: seq<Member>, result: Report) returns (threw: bool)
    modifies result
    ensures threw <==> EventWarnings(entries).Throws?
    ensures !threw ==> result.Value() == old(result.Value()).Add(Findings([], EventWarnings(entries).value, []))
  {
    for e := 0 to |entries|
      invariant EventWarnings(entries[..e]).Returns?
      invariant result.warnings == old(result.warnings) + EventWarnings(entries[..e]).value
      invariant result.errors == old(result.errors) && result.valid == old(result.valid)
      invariant result.suggestions == old(result.suggestions)
    {
      EventWarningsSnoc(entries, e);
      threw := PushEntryWarnings(entries[e], result);
      if threw {
        return;
      }
    }
    assert entries[..|entries|] == entries;
    threw := false;
    AddWarnings(old(result.Value()), EventWarnings(entries).value);
  }

  /** The body of the loop over `Object.entries(schema.onEvent)`. */
  method PushEntryWarnings(entry: Member, result: Report) returns (threw: bool)
    modifies result
    ensures threw <==> EntryWarnings(entry).Throws?
    ensures !threw ==> result.Value() == old(result.Value()).(warnings := old(result.warnings) + EntryWarnings(entry).value)
  {
    var eventName, eventConfig := entry.key, entry.value;
    if eventConfig.JNull? {
      return true;
    }
    var actions := Get(eventConfig, "actions");
    if !Truthy(actions) {
      result.warnings := result.warnings + [WarningOf(EventActions(eventName))];
      return false;
    }
    if !IsArray(actions) {
      return true;
    }
    threw := PushActionWarnings(eventName, actions.value.items, result);
    if !threw {
      AddWarnings(old(result.Value()), ActionWarnings(eventName, actions.value.items).value);
    }
  }

  /** `eventConfig.actions.forEach(...)` for one event. */
  method PushActionWarnings(event: string, actions: seq<Json>, result: Report) returns (threw: bool)
    modifies result
    ensures threw <==> ActionWarnings(event, actions).Throws?
    ensures !threw ==> result.Value() == old(result.Value()).Add(Findings([], ActionWarnings(event, actions).value, []))
  {
    for index := 0 to |actions|
      invariant ActionWarnings(event, actions[..index]).Returns?
      invariant result.warnings == old(result.warnings) + ActionWarnings(event, actions[..index]).value
      invariant result.errors == old(result.errors) && result.valid == old(result.valid)
      invariant result.suggestions == old(result.suggestions)
    {
      var action := actions[index];
      ActionWarningsSnoc(event, actions, index);
      if action.JNull? {
        assert JNull in actions;
        return true;
      }
      if !Truthy(Get(action, "actionType")) {
        result.warnings := result.warnings + [WarningOf(ActionType(event, index))];
      }
    }
    assert actions[..|actions|] == actions;
    threw := false;
    AddWarnings(old(result.Value()), ActionWarnings(event, actions).value);
  }

  /** Appends every finding of `fs` to the errors, one `push` at a time. */
  method PushErrors(fs: seq<Finding>, result: Report)
    modifies result
    ensures result.Value() == old(result.Value()).(errors := old(result.errors) + fs)
  {
    for i := 0 to |fs|
      invariant result.Value() == old(result.Value()).(errors := old(result.errors) + fs[..i])
    {
      assert fs[..i + 1] == fs[..i] + [fs[i]];
      result.errors := result.errors + [fs[i]];
    }
    assert fs[..|fs|] == fs;
  }

  /** Appends every finding of `fs` to the warnings. */
  method PushWarnings(fs: seq<Finding>, result: Report)
    modifies result
    ensures result.Value() == old(result.Value()).(warnings := old(result.warnings) + fs)
  {
    for i := 0 to |fs|
      invariant result.Value() == old(result.Value()).(warnings := old(result.warnings) + fs[..i])
    {
      assert fs[..i + 1] == fs[..i] + [fs[i]];
      result.warnings := result.warnings + [fs[i]];
    }
    assert fs[..|fs|] == fs;
  }

  /** Appends every finding of `fs` to the suggestions. */
  method PushSuggestions(fs: seq<Finding>, result: Report)
    modifies result
    ensures result.Value() == old(result.Value()).(suggestions := old(result.suggestions) + fs)
  {
    for i := 0 to |fs|
      invariant result.Value() == old(result.Value()).(suggestions := old(result.suggestions) + fs[..i])
    {
      assert fs[..i + 1] == fs[..i] + [fs[i]];
      result.suggestions := result.suggestions + [fs[i]];
    }
    assert fs[..|fs|] == fs;
  }

  /** The `if (schema.type === ...)` dispatch of `validateAmisSchema`. */
  method ValidateType(schema: Json, result: Report) returns (threw: bool)
    modifies result
    ensures threw <==> TypeCheck(schema).Throws?
    ensures !threw ==> result.Value() == old(result.Value()).Add(TypeCheck(schema).value)
  {
    threw := false;
    var t := Get(schema, "type");
    if IsString(t, "page") {
      ValidatePage(schema, result);
    }
    if IsString(t, "form") {
      threw := ValidateForm(schema, result);
      if threw {
        return;
      }
    }
    if IsString(t, "crud") {
      threw := ValidateCrud(schema, result);
      if threw {
        return;
      }
    }
    if IsString(t, "dialog") || IsString(t, "drawer") {
      ValidateDialog(schema, result);
    }
    if IsString(t, "button") {
      ValidateButton(schema, result);
    }
    if IsString(t, "wizard") {
      threw := ValidateWizard(schema, result);
    }
  }

  /** The structural part of `validateAmisSchema` on an object. */
  method ValidateStructure(schema: Json, result: Report) returns (threw: bool)
    modifies result
    ensures threw <==> Structural(schema).Throws?
    ensures !threw ==> result.Value() == old(result.Value()).Add(Structural(schema).value)
  {
    if !Truthy(Get(schema, "type")) {
      result.errors := result.errors + [ErrorOf(MissingType)];
      result.valid := false;
    }
    ghost var r1 := result.Value();
    assert r1 == old(result.Value()).Add(TypeMissing(schema));
    threw := ValidateType(schema, result);
    if threw {
      return;
    }
    ghost var r2 := result.Value();
    ValidateApiConfig(schema, result);
    ghost var r3 := result.Value();
    threw := ValidateEventActions(schema, result);
    if threw {
      return;
    }
    AddThen(old(result.Value()), TypeMissing(schema), TypeCheck(schema).value);
    AddThen(old(result.Value()), TypeMissing(schema).Then(TypeCheck(schema).value), ApiCheck(schema));
    AddThen(old(result.Value()), TypeMissing(schema).Then(TypeCheck(schema).value).Then(ApiCheck(schema)), EventCheck(schema).value);
  }

  /** The `try` block of `validateAmisSchema` once the pattern module has
      loaded: run the four detectors, then push their findings. */
  method AddPatterns(schema: Json, result: Report)
    modifies result
    ensures result.Value() == WithPatterns(old(result.Value()), schema)
  {
    var errs := DetectErrorPatterns(schema);
    var warns := DetectWarningPatterns(schema);
    var infos := DetectInfoPatterns(schema);
    var suggests := GetSuggestions(schema);
    PushErrors(errs, result);
    PushWarnings(warns, result);
    PushSuggestions(infos, result);
    PushSuggestionMessages(suggests, result);
  }

  /** `suggests.forEach(s => result.suggestions.push({type: "suggestion", message: s}))`. */
  method PushSuggestionMessages(hs: seq<Text>, result: Report)
    modifies result
    ensures result.Value() == old(result.Value()).(suggestions := old(result.suggestions) + AsSuggestions(hs))
  {
    for i := 0 to |hs|
      invariant result.Value() == old(result.Value()).(suggestions := old(result.suggestions) + AsSuggestions(hs[..i]))
    {
      assert AsSuggestions(hs[..i + 1]) == AsSuggestions(hs[..i]) + [SuggestionOf(hs[i])];
      result.suggestions := result.suggestions + [SuggestionOf(hs[i])];
    }
    assert hs[..|hs|] == hs;
  }

  /** `validateAmisSchema`: `threw` is an uncaught TypeError, in which case
      no report is returned. */
  method ValidateAmisSchema(schema: Json, patternsLoaded: bool) returns (threw: bool, result: Report)
    ensures threw <==> Validate(schema, patternsLoaded).Throws?
    ensures !threw ==> result.Value() == Validate(schema, patternsLoaded).value
    ensures fresh(result)
  {
    result := new Report();
    threw := false;
    if !IsObject(schema) {
      result.valid := false;
      result.errors := result.errors + [ErrorOf(NotAnObject)];
      return;
    }
    threw := ValidateStructure(schema, result);
    if threw {
      return;
    }
    if patternsLoaded {
      AddPatterns(schema, result);
    }
  }
}
