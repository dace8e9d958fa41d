/**
 * The pattern library: three constant rule tables, the three detectors
 * that test every rule of a table against `JSON.stringify(schema)`, and
 * four structural heuristics. Nothing here mutates a table or keeps state
 * between calls (none of the regular expressions has the `g` flag, so
 * `test` keeps no `lastIndex`).
 */
module CommonPatterns {
  import opened Json
  import opened JsonText
  import opened KeywordMatch
  import opened Reports

  /** One entry of a table: the pattern `/k1.*k2(.*k3)?/i` as its
      keywords, and the rule's text fields (`None` where the entry has no
      such field: error rules have a fix and an example, warning and info
      rules a suggestion). */
  datatype Rule = Rule(keywords: seq<string>, message: Text, fix: Option<Text>, example: Option<Text>, suggestion: Option<Text>)

  function ErrorRule(keywords: seq<string>, i: nat): Rule
  {
    Rule(keywords, RuleMessage(ErrorTable, i), Some(RuleFix(i)), Some(RuleExample(i)), None)
  }

  function AdviceRule(keywords: seq<string>, table: Table, i: nat): Rule
  {
    Rule(keywords, RuleMessage(table, i), None, None, Some(RuleSuggestion(table, i)))
  }

  const ErrorPatterns: seq<Rule> := [
    ErrorRule(["missing", "type"], 0),
    ErrorRule(["missing", "name", "form"], 1),
    ErrorRule(["missing", "api", "crud"], 2),
    ErrorRule(["missing", "columns", "crud"], 3),
    ErrorRule(["invalid", "json"], 4)
  ]

  const WarningPatterns: seq<Rule> := [
    AdviceRule(["button", "without", "action"], WarningTable, 0),
    AdviceRule(["form", "without", "api"], WarningTable, 1),
    AdviceRule(["crud", "without", "operation"], WarningTable, 2),
    AdviceRule(["dialog", "without", "title"], WarningTable, 3),
    AdviceRule(["missing", "label", "button"], WarningTable, 4)
  ]

  const InfoPatterns: seq<Rule> := [
    AdviceRule(["form", "horizontal"], InfoTable, 0),
    AdviceRule(["crud", "table"], InfoTable, 1),
    AdviceRule(["without", "loading"], InfoTable, 2),
    AdviceRule(["without", "description"], InfoTable, 3)
  ]

  /** Every pattern is a sequence of keywords, and rule `i` of a table
      carries message `i` of that table. */
  predicate WellFormed(rules: seq<Rule>, table: Table)
  {
    forall i :: 0 <= i < |rules| ==> Keywords(rules[i].keywords) && rules[i].message == RuleMessage(table, i)
  }

  lemma TablesWellFormed()
    ensures WellFormed(ErrorPatterns, ErrorTable)
    ensures WellFormed(WarningPatterns, WarningTable)
    ensures WellFormed(InfoPatterns, InfoTable)
  {
    ErrorTableWellFormed();
    WarningTableWellFormed();
    InfoTableWellFormed();
  }

  lemma ErrorTableWellFormed()
    ensures WellFormed(ErrorPatterns, ErrorTable)
  {
    forall i | 0 <= i < |ErrorPatterns|
      ensures Keywords(ErrorPatterns[i].keywords) && ErrorPatterns[i].message == RuleMessage(ErrorTable, i)
    {
      var ks := ErrorPatterns[i].keywords;
      assert Keyword(ks[0]) && Keyword(ks[1]);
      assert |ks| == 3 ==> Keyword(ks[2]);
    }
  }

  lemma WarningTableWellFormed()
    ensures WellFormed(WarningPatterns, WarningTable)
  {
    forall i | 0 <= i < |WarningPatterns|
      ensures Keywords(WarningPatterns[i].keywords) && WarningPatterns[i].message == RuleMessage(WarningTable, i)
    {
      var ks := WarningPatterns[i].keywords;
      assert Keyword(ks[0]) && Keyword(ks[1]) && Keyword(ks[2]);
    }
  }

  lemma InfoTableWellFormed()
    ensures WellFormed(InfoPatterns, InfoTable)
  {
    forall i | 0 <= i < |InfoPatterns|
      ensures Keywords(InfoPatterns[i].keywords) && InfoPatterns[i].message == RuleMessage(InfoTable, i)
    {
      var ks := InfoPatterns[i].keywords;
      assert Keyword(ks[0]) && Keyword(ks[1]);
    }
  }

  /** The finding a detector pushes for a matching rule: the error
      detector copies `message`, `fix` and `example`, the warning and info
      detectors copy `message` and `suggestion`. */
  function FindingFor(rule: Rule, severity: Severity): Finding
  {
    if severity == Error then Finding(Error, rule.message, rule.fix, rule.example, None)
    else Finding(severity, rule.message, None, None, rule.suggestion)
  }

  /** The findings for the rules of `rules` whose pattern matches `text`,
      in table order. */
  function Detect(rules: seq<Rule>, severity: Severity, text: string): seq<Finding>
    requires forall i :: 0 <= i < |rules| ==> Keywords(rules[i].keywords)
    decreases |rules|
  {
    if rules == [] then []
    else
      var n := |rules| - 1;
      Detect(rules[..n], severity, text) + If(Test(text, rules[n].keywords), FindingFor(rules[n], severity))
  }

  /** A rule whose pattern test succeeds has its finding reported. */
  lemma {:induction false} DetectHas(rules: seq<Rule>, severity: Severity, text: string, i: nat)
    requires forall j :: 0 <= j < |rules| ==> Keywords(rules[j].keywords)
    requires i < |rules| && Test(text, rules[i].keywords)
    ensures FindingFor(rules[i], severity) in Detect(rules, severity, text)
    decreases |rules|
  {
    var n := |rules| - 1;
    if i < n {
      var prefix := rules[..n];
      assert prefix[i] == rules[i];
      DetectHas(prefix, severity, text, i);
    }
  }

  /** Every reported finding is that of a rule whose pattern test succeeds. */
  lemma {:induction false} DetectOnly(rules: seq<Rule>, severity: Severity, text: string, f: Finding)
    requires forall j :: 0 <= j < |rules| ==> Keywords(rules[j].keywords)
    requires f in Detect(rules, severity, text)
    ensures exists i :: 0 <= i < |rules| && Test(text, rules[i].keywords) && f == FindingFor(rules[i], severity)
    decreases |rules|
  {
    var n := |rules| - 1;
    var prefix := rules[..n];
    if f in Detect(prefix, severity, text) {
      DetectOnly(prefix, severity, text, f);
      var i :| 0 <= i < n && Test(text, prefix[i].keywords) && f == FindingFor(prefix[i], severity);
      assert prefix[i] == rules[i];
    } else {
      assert Test(text, rules[n].keywords) && f == FindingFor(rules[n], severity);
    }
  }

  /** Detection is exact: a finding is reported iff it is the finding of a
      rule whose pattern test succeeds on the text (and `Test` succeeds
      exactly when the regular expression matches). */
  lemma DetectExact(rules: seq<Rule>, table: Table, severity: Severity, text: string, f: Finding)
    requires WellFormed(rules, table)
    ensures f in Detect(rules, severity, text)
        <==> exists i :: 0 <= i < |rules| && Test(text, rules[i].keywords) && f == FindingFor(rules[i], severity)
  {
    if f in Detect(rules, severity, text) {
      DetectOnly(rules, severity, text, f);
    }
    if exists i :: 0 <= i < |rules| && Test(text, rules[i].keywords) && f == FindingFor(rules[i], severity) {
      var i :| 0 <= i < |rules| && Test(text, rules[i].keywords) && f == FindingFor(rules[i], severity);
      DetectHas(rules, severity, text, i);
    }
  }

  /** Every finding has the detector's severity and carries the message of
      a rule of the table; the rule indices strictly increase, so the
      findings keep table order and no rule fires twice. */
  lemma DetectOrdered(rules: seq<Rule>, table: Table, severity: Severity, text: string)
    requires WellFormed(rules, table)
    ensures var r := Detect(rules, severity, text);
      && |r| <= |rules|
      && (forall k :: 0 <= k < |r| ==> r[k].severity == severity && r[k].message.RuleMessage? && r[k].message.table == table && r[k].message.index < |rules|)
      && (forall a, b :: 0 <= a < b < |r| ==> r[a].message.index < r[b].message.index)
  {
    DetectFromTable(rules, table, severity, text);
    DetectIncreasing(rules, table, severity, text);
  }

  /** At most one finding per rule, each of the detector's severity and
      carrying the message of a rule of the table. */
  lemma {:induction false} DetectFromTable(rules: seq<Rule>, table: Table, severity: Severity, text: string)
    requires WellFormed(rules, table)
    ensures var r := Detect(rules, severity, text);
      && |r| <= |rules|
      && (forall k :: 0 <= k < |r| ==> r[k].severity == severity && r[k].message.RuleMessage? && r[k].message.table == table && r[k].message.index < |rules|)
    decreases |rules|
  {
    if rules != [] {
      var n := |rules| - 1;
      var prefix := rules[..n];
      assert WellFormed(prefix, table) by {
        forall i | 0 <= i < n
          ensures Keywords(prefix[i].keywords) && prefix[i].message == RuleMessage(table, i)
        {
          assert prefix[i] == rules[i];
        }
      }
      DetectFromTable(prefix, table, severity, text);
      var last := If(Test(text, rules[n].keywords), FindingFor(rules[n], severity));
      assert Detect(rules, severity, text) == Detect(prefix, severity, text) + last;
    }
  }

  /** The rule indices of the findings strictly increase. */
  lemma {:induction false} DetectIncreasing(rules: seq<Rule>, table: Table, severity: Severity, text: string)
    requires WellFormed(rules, table)
    ensures var r := Detect(rules, severity, text);
      forall a, b :: 0 <= a < b < |r| ==>
        r[a].message.RuleMessage? && r[b].message.RuleMessage? && r[a].message.index < r[b].message.index
    decreases |rules|
  {
    if rules != [] {
      var n := |rules| - 1;
      var prefix := rules[..n];
      assert WellFormed(prefix, table) by {
        forall i | 0 <= i < n
          ensures Keywords(prefix[i].keywords) && prefix[i].message == RuleMessage(table, i)
        {
          assert prefix[i] == rules[i];
        }
      }
      DetectIncreasing(prefix, table, severity, text);
      DetectFromTable(prefix, table, severity, text);
      var r0 := Detect(prefix, severity, text);
      var last := If(Test(text, rules[n].keywords), FindingFor(rules[n], severity));
      var r := r0 + last;
      assert Detect(rules, severity, text) == r;
      forall a, b | 0 <= a < b < |r|
        ensures r[a].message.RuleMessage? && r[b].message.RuleMessage? && r[a].message.index < r[b].message.index
      {
        if b < |r0| {
          assert r[a] == r0[a] && r[b] == r0[b];
        } else {
          assert r[a] == r0[a] && r[b] == FindingFor(rules[n], severity);
        }
      }
    }
  }

  /** The loop shared by the three detectors: serialize once, then test
      every rule of the table in order and push the finding of each rule
      that matches. */
  method RunDetector(rules: seq<Rule>, table: Table, severity: Severity, schema: Json) returns (results: seq<Finding>)
    requires WellFormed(rules, table)
    ensures results == Detect(rules, severity, Serialize(schema))
    ensures |results| <= |rules| && forall f :: f in results ==> f.severity == severity
  {
    results := [];
    var schemaStr := Serialize(schema);
    for i := 0 to |rules|
      invariant results == Detect(rules[..i], severity, schemaStr)
    {
      var item := rules[i];
      if Test(schemaStr, item.keywords) {
        results := results + [FindingFor(item, severity)];
      }
      assert rules[..i + 1][..i] == rules[..i];
    }
    assert rules[..|rules|] == rules;
    DetectFromTable(rules, table, severity, schemaStr);
  }

  /** The findings of each table for a text. */
  function PatternErrors(text: string): seq<Finding>
  {
    ErrorTableWellFormed();
    Detect(ErrorPatterns, Error, text)
  }

  function PatternWarnings(text: string): seq<Finding>
  {
    WarningTableWellFormed();
    Detect(WarningPatterns, Warning, text)
  }

  function PatternInfos(text: string): seq<Finding>
  {
    InfoTableWellFormed();
    Detect(InfoPatterns, Info, text)
  }

  /** `detectErrorPatterns`: one error finding with the rule's message, fix
      and example for each error rule that matches the serialized schema. */
  method DetectErrorPatterns(schema: Json) returns (results: seq<Finding>)
    ensures results == PatternErrors(Serialize(schema))
    ensures |results| <= 5 && forall f :: f in results ==> f.severity == Error
  {
    ErrorTableWellFormed();
    results := RunDetector(ErrorPatterns, ErrorTable, Error, schema);
  }

  /** `detectWarningPatterns`: one warning finding with the rule's message
      and suggestion for each warning rule that matches. */
  method DetectWarningPatterns(schema: Json) returns (results: seq<Finding>)
    ensures results == PatternWarnings(Serialize(schema))
    ensures |results| <= 5 && forall f :: f in results ==> f.severity == Warning
  {
    WarningTableWellFormed();
    results := RunDetector(WarningPatterns, WarningTable, Warning, schema);
  }

  /** `detectInfoPatterns`: one info finding with the rule's message and
      suggestion for each info rule that matches. */
  method DetectInfoPatterns(schema: Json) returns (results: seq<Finding>)
    ensures results == PatternInfos(Serialize(schema))
    ensures |results| <= 4 && forall f :: f in results ==> f.severity == Info
  {
    InfoTableWellFormed();
    results := RunDetector(InfoPatterns, InfoTable, Info, schema);
  }

  /** A rule that fires on a document fires on every document whose text
      contains that document's text: in particular, a string anywhere in
      the tree that matches a pattern makes the rule fire, whatever the
      structure around it (the accepted false positives of the detector). */
  lemma {:induction false} NestedValueFires(c: Json, schema: Json, rules: seq<Rule>, table: Table, i: nat, severity: Severity)
    requires WellFormed(rules, table) && i < |rules|
    requires Within(c, schema) && Matches(Serialize(c), rules[i].keywords)
    ensures FindingFor(rules[i], severity) in Detect(rules, severity, Serialize(schema))
  {
    WithinInfix(c, schema);
    MatchesInfix(Serialize(c), Serialize(schema), rules[i].keywords);
    DetectExact(rules, table, severity, Serialize(schema), FindingFor(rules[i], severity));
  }

  /** Whether heuristic `h` of `getSuggestions` applies to `schema`. */
  predicate Applies(h: Text, schema: Json)
  {
    var t := Get(schema, "type");
    match h
    case ResponsiveForm => IsString(t, "form") && IsString(Get(schema, "mode"), "horizontal")
    case MobileCrud => IsString(t, "crud") && IsString(Get(schema, "mode"), "table")
    case CrudPaging => IsString(t, "crud") && !Truthy(Get(schema, "loadDataOnce")) && !Truthy(Get(schema, "api"))
    case ButtonPermission => IsString(t, "button") && !Truthy(Get(schema, "hiddenOn")) && !Truthy(Get(schema, "disabled"))
    case _ => false
  }

  /** The four heuristics, in the order they are tried. */
  const HeuristicOrder: seq<Text> := [ResponsiveForm, MobileCrud, CrudPaging, ButtonPermission]

  /** The position of a heuristic in `HeuristicOrder`. */
  function Rank(h: Text): (k: nat)
    ensures h in HeuristicOrder ==> k < |HeuristicOrder| && HeuristicOrder[k] == h
  {
    match h
    case ResponsiveForm => 0
    case MobileCrud => 1
    case CrudPaging => 2
    case _ => 3
  }

  /** `[h]` when `c` holds, else nothing. */
  function When(c: bool, h: Text): seq<Text>
  {
    if c then [h] else []
  }

  /** The heuristics that apply to `schema`, in the order of `HeuristicOrder`. */
  function Applicable(schema: Json): seq<Text>
  {
    When(Applies(ResponsiveForm, schema), ResponsiveForm) + When(Applies(MobileCrud, schema), MobileCrud)
    + When(Applies(CrudPaging, schema), CrudPaging) + When(Applies(ButtonPermission, schema), ButtonPermission)
  }

  /** `getSuggestions`: the messages of the applicable heuristics, in the
      order of `HeuristicOrder`. */
  method GetSuggestions(schema: Json) returns (suggestions: seq<Text>)
    ensures suggestions == Applicable(schema)
  {
    suggestions := [];
    var t := Get(schema, "type");
    if IsString(t, "form") && IsString(Get(schema, "mode"), "horizontal") {
      suggestions := suggestions + [ResponsiveForm];
    }
    assert suggestions == When(Applies(ResponsiveForm, schema), ResponsiveForm);
    if IsString(t, "crud") && IsString(Get(schema, "mode"), "table") {
      suggestions := suggestions + [MobileCrud];
    }
    ghost var s2 := suggestions;
    assert s2 == When(Applies(ResponsiveForm, schema), ResponsiveForm) + When(Applies(MobileCrud, schema), MobileCrud);
    if IsString(t, "crud") && !Truthy(Get(schema, "loadDataOnce")) && !Truthy(Get(schema, "api")) {
      suggestions := suggestions + [CrudPaging];
    }
    ghost var s3 := suggestions;
    assert s3 == s2 + When(Applies(CrudPaging, schema), CrudPaging);
    if IsString(t, "button") && !Truthy(Get(schema, "hiddenOn")) && !Truthy(Get(schema, "disabled")) {
      suggestions := suggestions + [ButtonPermission];
    }
    assert suggestions == s3 + When(Applies(ButtonPermission, schema), ButtonPermission);
  }

  /** A heuristic fires exactly when its condition holds, at most once. */
  lemma HeuristicsExact(schema: Json, h: Text)
    ensures h in Applicable(schema) <==> h in HeuristicOrder && Applies(h, schema)
  {
  }

  /** The suggestions keep the order of `HeuristicOrder`, so none repeats. */
  lemma HeuristicsOrdered(schema: Json)
    ensures var r := Applicable(schema);
      forall i, j :: 0 <= i < j < |r| ==> Rank(r[i]) < Rank(r[j])
  {
    var r := Applicable(schema);
    var a, b := When(Applies(ResponsiveForm, schema), ResponsiveForm), When(Applies(MobileCrud, schema), MobileCrud);
    var c, d := When(Applies(CrudPaging, schema), CrudPaging), When(Applies(ButtonPermission, schema), ButtonPermission);
    assert r == a + b + c + d;
    forall i, j | 0 <= i < j < |r|
      ensures Rank(r[i]) < Rank(r[j])
    {
      assert forall k :: 0 <= k < |r| ==> Rank(r[k]) == if k < |a| then 0 else if k < |a + b| then 1 else if k < |a + b + c| then 2 else 3;
    }
  }

  /** At most one suggestion for a form, two for a crud, one for a button,
      and none for any other type. */
  lemma HeuristicsPerType(schema: Json)
    ensures var n := |Applicable(schema)|;
      && (IsString(Get(schema, "type"), "form") ==> n <= 1)
      && (IsString(Get(schema, "type"), "crud") ==> n <= 2)
      && (IsString(Get(schema, "type"), "button") ==> n <= 1)
      && ((!IsString(Get(schema, "type"), "form") && !IsString(Get(schema, "type"), "crud")
           && !IsString(Get(schema, "type"), "button")) ==> n == 0)
  {
  }

  /** A crud with a truthy `api` never gets the loadDataOnce suggestion; a
      button gets the permission suggestion exactly when both `hiddenOn` and
      `disabled` are falsy, whatever its other fields. */
  lemma HeuristicsGuards(schema: Json)
    ensures Truthy(Get(schema, "api")) ==> CrudPaging !in Applicable(schema)
    ensures IsString(Get(schema, "type"), "button") ==>
      (ButtonPermission in Applicable(schema)
       <==> !Truthy(Get(schema, "hiddenOn")) && !Truthy(Get(schema, "disabled")))
  {
  }
}
