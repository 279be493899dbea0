/**
 The platform configuration validator.  Every parser appends to one shared log of
 problems while it builds its part of the result; the configuration is returned only
 when the log stayed empty.  A problem is kept as the place and the rule it breaks.
 */
module PlatformConfig {
  import opened Basics
  import opened Json
  import Text

  // ----- tables of columns -----

  datatype Rule =
    | Line
    | Lines
    | OneOf(allowed: seq<string>, fallback: string)
    | Flag(default: bool)

  datatype Column = Column(name: string, rule: Rule)

  type Schema = s: seq<Column> | Distinct(Names(s)) witness []

  function Names(s: seq<Column>): seq<string> {
    seq(|s|, i requires 0 <= i < |s| => s[i].name)
  }

  predicate Distinct(names: seq<string>) {
    forall i, j :: 0 <= i < j < |names| ==> names[i] != names[j]
  }

  /** The columns of the four tables. */
  datatype Schemas = Schemas(stages: Schema, capabilities: Schema, agents: Schema, checklist: Schema)

  // ----- objects -----

  function Keys(fields: seq<Field>): seq<string> {
    seq(|fields|, i requires 0 <= i < |fields| => fields[i].key)
  }

  lemma {:induction false} GetAt(fields: seq<Field>, i: nat)
    requires i < |fields| && Distinct(Keys(fields))
    ensures Get(fields, fields[i].key) == Some(fields[i].value)
  {
    var n := |fields| - 1;
    if i < n {
      assert Keys(fields)[i] != Keys(fields)[n];
      assert Distinct(Keys(fields[..n])) by {
        forall a, b | 0 <= a < b < n ensures fields[a].key != fields[b].key {
          assert Keys(fields)[a] != Keys(fields)[b];
        }
      }
      GetAt(fields[..n], i);
    }
  }

  // ----- problems -----

  datatype Place = Whole | In(of: Place, key: string) | At(of: Place, index: nat)

  datatype Problem =
    | NotALine(at: Place)
    | NotAList(at: Place)
    | EmptyList(at: Place)
    | NoTable(at: Place)
    | NotARecord(at: Place)
    | NotOneOf(at: Place, allowed: seq<string>)
    | NotAFlag(at: Place)

  // ----- lines and lists of lines -----

  function LineOf(v: Option<Json>): string {
    if v.Some? && v.value.Str? then Text.Trim(v.value.chars) else []
  }

  function LineProblems(v: Option<Json>, at: Place): seq<Problem> {
    if LineOf(v) == [] then [NotALine(at)] else []
  }

  function KeptLine(item: Json): seq<Json> {
    if LineOf(Some(item)) == [] then [] else [Str(LineOf(Some(item)))]
  }

  /** The non-empty lines of a list. */
  function LinesOf(items: seq<Json>): seq<Json> {
    if items == [] then [] else LinesOf(items[..|items| - 1]) + KeptLine(items[|items| - 1])
  }

  function ItemProblems(items: seq<Json>, at: Place): seq<Problem> {
    if items == [] then []
    else ItemProblems(items[..|items| - 1], at) + LineProblems(Some(items[|items| - 1]), At(at, |items| - 1))
  }

  function ListOf(v: Option<Json>): seq<Json> {
    if v.Some? && v.value.Arr? then LinesOf(v.value.items) else []
  }

  function ListProblems(v: Option<Json>, at: Place): seq<Problem> {
    if v.Some? && v.value.Arr? then
      ItemProblems(v.value.items, at) + (if ListOf(v) == [] then [EmptyList(at)] else [])
    else [NotAList(at)]
  }

  // ----- cells, records and tables -----

  predicate Allowed(v: Option<Json>, allowed: seq<string>) {
    v.Some? && v.value.Str? && v.value.chars in allowed
  }

  function CellOf(v: Option<Json>, rule: Rule): Json {
    match rule
    case Line => Str(LineOf(v))
    case Lines => Arr(ListOf(v))
    case OneOf(allowed, fallback) => if Allowed(v, allowed) then v.value else Str(fallback)
    case Flag(fallback) => if v.Some? && v.value.Bool? then v.value else Bool(fallback)
  }

  /** What is checked before the record is built. */
  function ChoiceProblems(v: Option<Json>, rule: Rule, at: Place): seq<Problem> {
    match rule
    case OneOf(allowed, _) => if Allowed(v, allowed) then [] else [NotOneOf(at, allowed)]
    case Flag(_) => if v.Some? && v.value.Bool? then [] else [NotAFlag(at)]
    case _ => []
  }

  /** What is checked while the record is built. */
  function CellProblems(v: Option<Json>, rule: Rule, at: Place): seq<Problem> {
    match rule
    case Line => LineProblems(v, at)
    case Lines => ListProblems(v, at)
    case _ => []
  }

  function AllChoiceProblems(schema: seq<Column>, fields: seq<Field>, at: Place): seq<Problem> {
    if schema == [] then []
    else
      var c := schema[|schema| - 1];
      AllChoiceProblems(schema[..|schema| - 1], fields, at)
      + ChoiceProblems(Get(fields, c.name), c.rule, In(at, c.name))
  }

  function AllCellProblems(schema: seq<Column>, fields: seq<Field>, at: Place): seq<Problem> {
    if schema == [] then []
    else
      var c := schema[|schema| - 1];
      AllCellProblems(schema[..|schema| - 1], fields, at) + CellProblems(Get(fields, c.name), c.rule, In(at, c.name))
  }

  function RecordProblems(schema: seq<Column>, fields: seq<Field>, at: Place): seq<Problem> {
    AllChoiceProblems(schema, fields, at) + AllCellProblems(schema, fields, at)
  }

  function FieldOf(c: Column, fields: seq<Field>): Field {
    Field(c.name, CellOf(Get(fields, c.name), c.rule))
  }

  function RecordOf(schema: seq<Column>, fields: seq<Field>): seq<Field> {
    if schema == [] then []
    else RecordOf(schema[..|schema| - 1], fields) + [FieldOf(schema[|schema| - 1], fields)]
  }

  function RowsOf(schema: Schema, items: seq<Json>): seq<Json> {
    if items == [] then []
    else
      var last := items[|items| - 1];
      RowsOf(schema, items[..|items| - 1]) + OneRow(schema, last)
  }

  function RowProblems(schema: Schema, items: seq<Json>, at: Place): seq<Problem> {
    if items == [] then []
    else
      var n := |items| - 1;
      RowProblems(schema, items[..n], at) + OneRowProblems(schema, items[n], At(at, n))
  }

  predicate HasRows(v: Option<Json>) {
    v.Some? && v.value.Arr? && v.value.items != []
  }

  function TableOf(schema: Schema, v: Option<Json>): seq<Json> {
    if HasRows(v) then RowsOf(schema, v.value.items) else []
  }

  function TableProblems(schema: Schema, v: Option<Json>, at: Place): seq<Problem> {
    if HasRows(v) then RowProblems(schema, v.value.items, at) else [NoTable(at)]
  }

  // ----- the whole configuration -----

  datatype Content = Content(
    stages: seq<Json>, capabilities: seq<Json>, agents: seq<Json>, checklist: seq<Json>, notes: seq<Json>)

  datatype Config = Config(
    content: Content, publishedAt: Option<string>, publishedBy: Option<string>, updatedAt: string)

  /** The five values the content is read from. */
  datatype Sections = Sections(
    stages: Option<Json>, capabilities: Option<Json>, agents: Option<Json>, checklist: Option<Json>,
    notes: Option<Json>)

  function SectionsOf(fields: seq<Field>): Sections {
    Sections(Get(fields, "stages"), Get(fields, "capabilities"), Get(fields, "agents"),
             Get(fields, "governanceChecklist"), Get(fields, "notes"))
  }

  function Contents(s: Schemas, v: Sections): Content {
    Content(TableOf(s.stages, v.stages), TableOf(s.capabilities, v.capabilities), TableOf(s.agents, v.agents),
            TableOf(s.checklist, v.checklist), ListOf(v.notes))
  }

  function SectionProblems(s: Schemas, v: Sections): seq<Problem> {
    ListProblems(v.notes, In(Whole, "notes"))
    + TableProblems(s.stages, v.stages, In(Whole, "stages"))
    + TableProblems(s.capabilities, v.capabilities, In(Whole, "capabilities"))
    + TableProblems(s.agents, v.agents, In(Whole, "agents"))
    + TableProblems(s.checklist, v.checklist, In(Whole, "governanceChecklist"))
  }

  function ContentOf(s: Schemas, fields: seq<Field>): Content {
    Contents(s, SectionsOf(fields))
  }

  function ContentProblems(s: Schemas, fields: seq<Field>): seq<Problem> {
    SectionProblems(s, SectionsOf(fields))
  }

  /** A time stamp is kept as it is, unless it is blank. */
  function StampOf(v: Option<Json>): Option<string> {
    if LineOf(v) != [] then Some(v.value.chars) else None
  }

  function AuthorOf(v: Option<Json>): Option<string> {
    if LineOf(v) != [] then Some(LineOf(v)) else None
  }

  function ConfigOf(s: Schemas, fields: seq<Field>, clock: string): Config {
    var updated := StampOf(Get(fields, "updatedAt"));
    Config(ContentOf(s, fields), StampOf(Get(fields, "publishedAt")), AuthorOf(Get(fields, "publishedBy")),
           if updated.Some? then updated.value else clock)
  }

  function Parse(s: Schemas, input: Json, clock: string): Result<Config, seq<Problem>> {
    if !input.Obj? then Err([NotARecord(Whole)])
    else if ContentProblems(s, input.fields) != [] then Err(ContentProblems(s, input.fields))
    else Ok(ConfigOf(s, input.fields, clock))
  }

  // ----- one step of each loop -----

  lemma Associates<T>(a: seq<T>, b: seq<T>, c: seq<T>)
    ensures (a + b) + c == a + (b + c)
  {}

  lemma LinesStep(items: seq<Json>, at: Place, i: nat)
    requires i < |items|
    ensures LinesOf(items[..i + 1]) == LinesOf(items[..i]) + KeptLine(items[i])
    ensures ItemProblems(items[..i + 1], at) == ItemProblems(items[..i], at) + LineProblems(Some(items[i]), At(at, i))
  {
    assert items[..i + 1][..i] == items[..i];
  }

  lemma ChoicesStep(schema: seq<Column>, fields: seq<Field>, at: Place, i: nat)
    requires i < |schema|
    ensures AllChoiceProblems(schema[..i + 1], fields, at)
         == AllChoiceProblems(schema[..i], fields, at)
          + ChoiceProblems(Get(fields, schema[i].name), schema[i].rule, In(at, schema[i].name))
  {
    assert schema[..i + 1][..i] == schema[..i];
  }

  lemma CellsStep(schema: seq<Column>, fields: seq<Field>, at: Place, i: nat)
    requires i < |schema|
    ensures AllCellProblems(schema[..i + 1], fields, at)
         == AllCellProblems(schema[..i], fields, at)
          + CellProblems(Get(fields, schema[i].name), schema[i].rule, In(at, schema[i].name))
    ensures RecordOf(schema[..i + 1], fields) == RecordOf(schema[..i], fields) + [FieldOf(schema[i], fields)]
  {
    assert schema[..i + 1][..i] == schema[..i];
  }

  function OneRow(schema: Schema, item: Json): seq<Json> {
    if item.Obj? then [Obj(RecordOf(schema, item.fields))] else []
  }

  function OneRowProblems(schema: Schema, item: Json, at: Place): seq<Problem> {
    if item.Obj? then RecordProblems(schema, item.fields, at) else [NotARecord(at)]
  }

  lemma RowsStep(schema: Schema, items: seq<Json>, at: Place, i: nat)
    requires i < |items|
    ensures RowsOf(schema, items[..i + 1]) == RowsOf(schema, items[..i]) + OneRow(schema, items[i])
    ensures RowProblems(schema, items[..i + 1], at)
         == RowProblems(schema, items[..i], at) + OneRowProblems(schema, items[i], At(at, i))
  {
    assert items[..i + 1][..i] == items[..i];
  }

  // ----- the parsers -----

  /** The array every parser pushes its complaints onto. */
  class ErrorLog {
    var problems: seq<Problem>

    constructor ()
      ensures problems == []
    {
      problems := [];
    }

    method Push(p: Problem)
      modifies this
      ensures problems == old(problems) + [p]
    {
      problems := problems + [p];
    }
  }

  method RequiredString(value: Option<Json>, at: Place, errors: ErrorLog) returns (r: string)
    modifies errors
    ensures r == LineOf(value)
    ensures errors.problems == old(errors.problems) + LineProblems(value, at)
  {
    if value.None? || !value.value.Str? || Text.Trim(value.value.chars) == [] {
      errors.Push(NotALine(at));
      return [];
    }
    r := Text.Trim(value.value.chars);
  }

  method StringList(value: Option<Json>, at: Place, errors: ErrorLog) returns (r: seq<Json>)
    modifies errors
    ensures r == ListOf(value)
    ensures errors.problems == old(errors.problems) + ListProblems(value, at)
  {
    if value.None? || !value.value.Arr? {
      errors.Push(NotAList(at));
      return [];
    }
    r := TrimAll(value.value.items, at, errors);
    if r == [] {
      errors.Push(EmptyList(at));
      Associates(old(errors.problems), ItemProblems(value.value.items, at), [EmptyList(at)]);
    }
  }

  method TrimAll(items: seq<Json>, at: Place, errors: ErrorLog) returns (r: seq<Json>)
    modifies errors
    ensures r == LinesOf(items)
    ensures errors.problems == old(errors.problems) + ItemProblems(items, at)
  {
    r := [];
    for i := 0 to |items|
      invariant r == LinesOf(items[..i])
      invariant errors.problems == old(errors.problems) + ItemProblems(items[..i], at)
    {
      LinesStep(items, at, i);
      Associates(old(errors.problems), ItemProblems(items[..i], at), LineProblems(Some(items[i]), At(at, i)));
      var line := RequiredString(Some(items[i]), At(at, i), errors);
      if line != [] {
        r := r + [Str(line)];
      }
    }
    assert items[..|items|] == items;
  }

  method CheckChoice(value: Option<Json>, rule: Rule, at: Place, errors: ErrorLog)
    modifies errors
    ensures errors.problems == old(errors.problems) + ChoiceProblems(value, rule, at)
  {
    match rule {
      case OneOf(allowed, _) => if !Allowed(value, allowed) { errors.Push(NotOneOf(at, allowed)); }
      case Flag(_) => if value.None? || !value.value.Bool? { errors.Push(NotAFlag(at)); }
      case _ =>
    }
  }

  method ParseCell(value: Option<Json>, rule: Rule, at: Place, errors: ErrorLog) returns (cell: Json)
    modifies errors
    ensures cell == CellOf(value, rule)
    ensures errors.problems == old(errors.problems) + CellProblems(value, rule, at)
  {
    match rule {
      case Line =>
        var line := RequiredString(value, at, errors);
        cell := Str(line);
      case Lines =>
        var list := StringList(value, at, errors);
        cell := Arr(list);
      case OneOf(allowed, fallback) =>
        cell := if Allowed(value, allowed) then value.value else Str(fallback);
      case Flag(fallback) =>
        cell := if value.Some? && value.value.Bool? then value.value else Bool(fallback);
    }
  }

  method CheckChoices(schema: Schema, fields: seq<Field>, at: Place, errors: ErrorLog)
    modifies errors
    ensures errors.problems == old(errors.problems) + AllChoiceProblems(schema, fields, at)
  {
    for i := 0 to |schema|
      invariant errors.problems == old(errors.problems) + AllChoiceProblems(schema[..i], fields, at)
    {
      var c := schema[i];
      ChoicesStep(schema, fields, at, i);
      Associates(old(errors.problems), AllChoiceProblems(schema[..i], fields, at),
                 ChoiceProblems(Get(fields, c.name), c.rule, In(at, c.name)));
      CheckChoice(Get(fields, c.name), c.rule, In(at, c.name), errors);
    }
    assert schema[..|schema|] == schema;
  }

  method ParseCells(schema: Schema, fields: seq<Field>, at: Place, errors: ErrorLog) returns (r: seq<Field>)
    modifies errors
    ensures r == RecordOf(schema, fields)
    ensures errors.problems == old(errors.problems) + AllCellProblems(schema, fields, at)
  {
    r := [];
    for i := 0 to |schema|
      invariant r == RecordOf(schema[..i], fields)
      invariant errors.problems == old(errors.problems) + AllCellProblems(schema[..i], fields, at)
    {
      var c := schema[i];
      CellsStep(schema, fields, at, i);
      Associates(old(errors.problems), AllCellProblems(schema[..i], fields, at),
                 CellProblems(Get(fields, c.name), c.rule, In(at, c.name)));
      var cell := ParseCell(Get(fields, c.name), c.rule, In(at, c.name), errors);
      r := r + [Field(c.name, cell)];
    }
    assert schema[..|schema|] == schema;
  }

  /** One row: the choices are checked first, then the columns are read in order. */
  method ParseRecord(schema: Schema, fields: seq<Field>, at: Place, errors: ErrorLog) returns (r: seq<Field>)
    modifies errors
    ensures r == RecordOf(schema, fields)
    ensures errors.problems == old(errors.problems) + RecordProblems(schema, fields, at)
  {
    CheckChoices(schema, fields, at, errors);
    r := ParseCells(schema, fields, at, errors);
    Associates(old(errors.problems), AllChoiceProblems(schema, fields, at), AllCellProblems(schema, fields, at));
  }

  method ParseTable(schema: Schema, value: Option<Json>, at: Place, errors: ErrorLog) returns (rows: seq<Json>)
    modifies errors
    ensures rows == TableOf(schema, value)
    ensures errors.problems == old(errors.problems) + TableProblems(schema, value, at)
  {
    if value.None? || !value.value.Arr? || value.value.items == [] {
      errors.Push(NoTable(at));
      return [];
    }
    rows := ParseRows(schema, value.value.items, at, errors);
  }

  /** The rows that are records, one after the other. */
  method ParseRows(schema: Schema, items: seq<Json>, at: Place, errors: ErrorLog) returns (rows: seq<Json>)
    modifies errors
    ensures rows == RowsOf(schema, items)
    ensures errors.problems == old(errors.problems) + RowProblems(schema, items, at)
  {
    rows := [];
    for i := 0 to |items|
      invariant rows == RowsOf(schema, items[..i])
      invariant errors.problems == old(errors.problems) + RowProblems(schema, items[..i], at)
    {
      RowsStep(schema, items, at, i);
      Associates(old(errors.problems), RowProblems(schema, items[..i], at),
                 OneRowProblems(schema, items[i], At(at, i)));
      if items[i].Obj? {
        var row := ParseRecord(schema, items[i].fields, At(at, i), errors);
        rows := rows + [Obj(row)];
      } else {
        errors.Push(NotARecord(At(at, i)));
      }
    }
    assert items[..|items|] == items;
  }

  /** The notes and then the four tables, with one list of complaints. */
  method ParseSections(s: Schemas, v: Sections, errors: ErrorLog) returns (content: Content)
    requires errors.problems == []
    modifies errors
    ensures content == Contents(s, v)
    ensures errors.problems == SectionProblems(s, v)
  {
    var notes := StringList(v.notes, In(Whole, "notes"), errors);
    ghost var found := ListProblems(v.notes, In(Whole, "notes"));
    assert errors.problems == found;
    var stages := ParseTable(s.stages, v.stages, In(Whole, "stages"), errors);
    found := found + TableProblems(s.stages, v.stages, In(Whole, "stages"));
    assert errors.problems == found;
    var capabilities := ParseTable(s.capabilities, v.capabilities, In(Whole, "capabilities"), errors);
    found := found + TableProblems(s.capabilities, v.capabilities, In(Whole, "capabilities"));
    var agents := ParseTable(s.agents, v.agents, In(Whole, "agents"), errors);
    found := found + TableProblems(s.agents, v.agents, In(Whole, "agents"));
    assert errors.problems == found;
    var checklist := ParseTable(s.checklist, v.checklist, In(Whole, "governanceChecklist"), errors);
    found := found + TableProblems(s.checklist, v.checklist, In(Whole, "governanceChecklist"));
    assert errors.problems == found;
    content := Content(stages, capabilities, agents, checklist, notes);
  }

  method ValidatePlatformConfig(s: Schemas, input: Json, clock: string) returns (r: Result<Config, seq<Problem>>)
    ensures r == Parse(s, input, clock)
    ensures r.Ok? <==> WellFormed(s, input)
  {
    ErrorsIffIllFormed(s, input, clock);
    var errors := new ErrorLog();
    if !input.Obj? {
      return Err([NotARecord(Whole)]);
    }
    var fields := input.fields;
    var content := ParseSections(s, SectionsOf(fields), errors);
    if errors.problems != [] {
      return Err(errors.problems);
    }
    var updated := StampOf(Get(fields, "updatedAt"));
    r := Ok(Config(content, StampOf(Get(fields, "publishedAt")), AuthorOf(Get(fields, "publishedBy")),
                   if updated.Some? then updated.value else clock));
  }

  // ----- well-formed input -----

  predicate GoodLine(v: Json) {
    v.Str? && Text.Trim(v.chars) != []
  }

  predicate GoodList(v: Json) {
    v.Arr? && v.items != [] && GoodLines(v.items)
  }

  predicate GoodCell(v: Option<Json>, rule: Rule) {
    v.Some? &&
      match rule
      case Line => GoodLine(v.value)
      case Lines => GoodList(v.value)
      case OneOf(allowed, _) => v.value.Str? && v.value.chars in allowed
      case Flag(_) => v.value.Bool?
  }

  predicate GoodFields(schema: seq<Column>, fields: seq<Field>) {
    forall i :: 0 <= i < |schema| ==> GoodCell(Get(fields, schema[i].name), schema[i].rule)
  }

  predicate GoodRow(schema: seq<Column>, v: Json) {
    v.Obj? && GoodFields(schema, v.fields)
  }

  predicate GoodTable(schema: Schema, v: Option<Json>) {
    HasRows(v) && GoodRows(schema, v.value.items)
  }

  predicate GoodContent(s: Schemas, fields: seq<Field>) {
    && GoodTable(s.stages, Get(fields, "stages"))
    && GoodTable(s.capabilities, Get(fields, "capabilities"))
    && GoodTable(s.agents, Get(fields, "agents"))
    && GoodTable(s.checklist, Get(fields, "governanceChecklist"))
    && GoodCell(Get(fields, "notes"), Lines)
  }

  /** Every table is there with complete rows, and so are the notes. */
  predicate WellFormed(s: Schemas, input: Json) {
    input.Obj? && GoodContent(s, input.fields)
  }

  predicate GoodLines(items: seq<Json>) {
    forall i :: 0 <= i < |items| ==> GoodLine(items[i])
  }

  lemma GoodLinesStep(items: seq<Json>)
    requires items != []
    ensures GoodLines(items) <==> GoodLines(items[..|items| - 1]) && GoodLine(items[|items| - 1])
  {
    var n := |items| - 1;
    assert forall i :: 0 <= i < n ==> items[..n][i] == items[i];
  }

  lemma {:induction false} ItemsGood(items: seq<Json>, at: Place)
    ensures ItemProblems(items, at) == [] <==> GoodLines(items)
  {
    if items != [] {
      ItemsGood(items[..|items| - 1], at);
      GoodLinesStep(items);
      assert GoodLine(items[|items| - 1]) <==> LineProblems(Some(items[|items| - 1]), At(at, |items| - 1)) == [];
    }
  }

  lemma SomeLineKept(items: seq<Json>)
    requires GoodLines(items) && items != []
    ensures LinesOf(items) != []
  {
    assert GoodLine(items[|items| - 1]);
  }

  lemma CellsGood(v: Option<Json>, rule: Rule, at: Place)
    ensures ChoiceProblems(v, rule, at) == [] && CellProblems(v, rule, at) == [] <==> GoodCell(v, rule)
  {
    if rule.Lines? && v.Some? && v.value.Arr? {
      ItemsGood(v.value.items, at);
      if v.value.items != [] && GoodLines(v.value.items) { SomeLineKept(v.value.items); }
    }
  }

  lemma GoodFieldsStep(schema: seq<Column>, fields: seq<Field>)
    requires schema != []
    ensures GoodFields(schema, fields) <==>
      GoodFields(schema[..|schema| - 1], fields)
      && GoodCell(Get(fields, schema[|schema| - 1].name), schema[|schema| - 1].rule)
  {
    var n := |schema| - 1;
    assert forall i :: 0 <= i < n ==> schema[..n][i] == schema[i];
  }

  lemma {:induction false} RecordGood(schema: seq<Column>, fields: seq<Field>, at: Place)
    ensures RecordProblems(schema, fields, at) == [] <==> GoodFields(schema, fields)
  {
    if schema != [] {
      var c := schema[|schema| - 1];
      RecordGood(schema[..|schema| - 1], fields, at);
      CellsGood(Get(fields, c.name), c.rule, In(at, c.name));
      GoodFieldsStep(schema, fields);
    }
  }

  predicate GoodRows(schema: seq<Column>, items: seq<Json>) {
    forall i :: 0 <= i < |items| ==> GoodRow(schema, items[i])
  }

  lemma GoodRowsStep(schema: seq<Column>, items: seq<Json>)
    requires items != []
    ensures GoodRows(schema, items) <==> GoodRows(schema, items[..|items| - 1]) && GoodRow(schema, items[|items| - 1])
  {
    var n := |items| - 1;
    assert forall i :: 0 <= i < n ==> items[..n][i] == items[i];
  }

  lemma {:induction false} RowsGood(schema: Schema, items: seq<Json>, at: Place)
    ensures RowProblems(schema, items, at) == [] <==> GoodRows(schema, items)
  {
    if items != [] {
      var n := |items| - 1;
      RowsGood(schema, items[..n], at);
      GoodRowsStep(schema, items);
      if items[n].Obj? {
        RecordGood(schema, items[n].fields, At(at, n));
      }
    }
  }

  lemma TableGood(schema: Schema, v: Option<Json>, at: Place)
    ensures TableProblems(schema, v, at) == [] <==> GoodTable(schema, v)
  {
    if HasRows(v) {
      RowsGood(schema, v.value.items, at);
    }
  }

  /** Validation fails exactly on input that is not well formed. */
  lemma ErrorsIffIllFormed(s: Schemas, input: Json, clock: string)
    ensures Parse(s, input, clock).Ok? <==> WellFormed(s, input)
  {
    if input.Obj? {
      var fields := input.fields;
      TableGood(s.stages, Get(fields, "stages"), In(Whole, "stages"));
      TableGood(s.capabilities, Get(fields, "capabilities"), In(Whole, "capabilities"));
      TableGood(s.agents, Get(fields, "agents"), In(Whole, "agents"));
      TableGood(s.checklist, Get(fields, "governanceChecklist"), In(Whole, "governanceChecklist"));
      CellsGood(Get(fields, "notes"), Lines, In(Whole, "notes"));
      assert CellProblems(Get(fields, "notes"), Lines, In(Whole, "notes"))
          == ListProblems(Get(fields, "notes"), In(Whole, "notes"));
    }
  }

  // ----- what validation returns -----

  predicate CleanLine(v: Json) {
    v.Str? && v.chars != [] && Text.Tight(v.chars)
  }

  predicate CleanList(items: seq<Json>) {
    items != [] && CleanLines(items)
  }

  predicate CleanCell(v: Json, rule: Rule) {
    match rule
    case Line => CleanLine(v)
    case Lines => v.Arr? && CleanList(v.items)
    case OneOf(allowed, _) => v.Str? && v.chars in allowed
    case Flag(_) => v.Bool?
  }

  /** Exactly the columns of the schema, in order, each with a clean cell. */
  predicate CleanFields(schema: seq<Column>, fields: seq<Field>) {
    && |fields| == |schema|
    && forall i :: 0 <= i < |schema| ==> fields[i].key == schema[i].name && CleanCell(fields[i].value, schema[i].rule)
  }

  predicate CleanRow(schema: seq<Column>, v: Json) {
    v.Obj? && CleanFields(schema, v.fields)
  }

  predicate CleanTable(schema: seq<Column>, rows: seq<Json>) {
    rows != [] && CleanRows(schema, rows)
  }

  predicate CleanRows(schema: seq<Column>, rows: seq<Json>) {
    forall i :: 0 <= i < |rows| ==> CleanRow(schema, rows[i])
  }

  predicate CleanContent(s: Schemas, c: Content) {
    && CleanTable(s.stages, c.stages) && CleanTable(s.capabilities, c.capabilities)
    && CleanTable(s.agents, c.agents) && CleanTable(s.checklist, c.checklist) && CleanList(c.notes)
  }

  predicate CleanStamp(s: string) {
    Text.Trim(s) != []
  }

  predicate Canonical(s: Schemas, c: Config) {
    && CleanContent(s, c.content)
    && (c.publishedAt.Some? ==> CleanStamp(c.publishedAt.value))
    && (c.publishedBy.Some? ==> CleanLine(Str(c.publishedBy.value)))
    && CleanStamp(c.updatedAt)
  }

  predicate CleanLines(items: seq<Json>) {
    forall i :: 0 <= i < |items| ==> CleanLine(items[i])
  }

  lemma {:induction false} LinesAreClean(items: seq<Json>)
    requires GoodLines(items)
    ensures |LinesOf(items)| == |items| && CleanLines(LinesOf(items))
  {
    if items != [] {
      GoodLinesStep(items);
      LinesAreClean(items[..|items| - 1]);
      Text.TrimIsTight(items[|items| - 1].chars);
    }
  }

  lemma CleanLineKept(v: Json)
    requires CleanLine(v)
    ensures GoodLine(v) && KeptLine(v) == [v]
  {
    Text.TrimOfTight(v.chars);
  }

  lemma SplitLast<T>(s: seq<T>)
    requires s != []
    ensures s == s[..|s| - 1] + [s[|s| - 1]] && forall i :: 0 <= i < |s| - 1 ==> s[..|s| - 1][i] == s[i]
  {}

  lemma {:induction false} CleanLinesKept(items: seq<Json>)
    requires CleanLines(items)
    ensures GoodLines(items) && LinesOf(items) == items
  {
    if items != [] {
      SplitLast(items);
      CleanLinesKept(items[..|items| - 1]);
      CleanLineKept(items[|items| - 1]);
      GoodLinesStep(items);
    }
  }

  lemma CellIsClean(v: Option<Json>, rule: Rule)
    requires GoodCell(v, rule)
    ensures CleanCell(CellOf(v, rule), rule)
  {
    match rule
    case Line => Text.TrimIsTight(v.value.chars);
    case Lines => LinesAreClean(v.value.items);
    case _ =>
  }

  lemma CleanCellIsKept(v: Json, rule: Rule)
    requires CleanCell(v, rule)
    ensures GoodCell(Some(v), rule) && CellOf(Some(v), rule) == v
  {
    match rule
    case Line => Text.TrimOfTight(v.chars);
    case Lines =>
      CleanLinesKept(v.items);
    case _ =>
  }

  lemma {:induction false} RecordOfGood(schema: seq<Column>, fields: seq<Field>)
    requires GoodFields(schema, fields)
    ensures CleanFields(schema, RecordOf(schema, fields))
  {
    if schema != [] {
      var n := |schema| - 1;
      GoodPrefix(schema, fields);
      RecordOfGood(schema[..n], fields);
      CellIsClean(Get(fields, schema[n].name), schema[n].rule);
      CleanAppend(schema, RecordOf(schema[..n], fields), FieldOf(schema[n], fields));
    }
  }

  lemma GoodPrefix(schema: seq<Column>, fields: seq<Field>)
    requires schema != [] && GoodFields(schema, fields)
    ensures GoodFields(schema[..|schema| - 1], fields)
    ensures GoodCell(Get(fields, schema[|schema| - 1].name), schema[|schema| - 1].rule)
  {
    assert forall i :: 0 <= i < |schema| - 1 ==> schema[..|schema| - 1][i] == schema[i];
  }

  lemma CleanAppend(schema: seq<Column>, init: seq<Field>, last: Field)
    requires schema != [] && CleanFields(schema[..|schema| - 1], init)
    requires last.key == schema[|schema| - 1].name && CleanCell(last.value, schema[|schema| - 1].rule)
    ensures CleanFields(schema, init + [last])
  {
    assert forall i :: 0 <= i < |schema| - 1 ==> schema[..|schema| - 1][i] == schema[i];
  }

  lemma {:induction false} RowsOfGood(schema: Schema, items: seq<Json>)
    requires GoodRows(schema, items)
    ensures |RowsOf(schema, items)| == |items|
    ensures CleanRows(schema, RowsOf(schema, items))
  {
    if items != [] {
      var n := |items| - 1;
      RowsOfGood(schema, items[..n]);
      assert GoodRow(schema, items[n]);
      RecordOfGood(schema, items[n].fields);
    }
  }

  /** Validation returns canonical configurations only. */
  lemma ParsedIsCanonical(s: Schemas, input: Json, clock: string)
    requires Parse(s, input, clock).Ok? && CleanStamp(clock)
    ensures Canonical(s, Parse(s, input, clock).value)
  {
    ErrorsIffIllFormed(s, input, clock);
    ContentIsClean(s, input.fields);
    AuthorIsClean(Get(input.fields, "publishedBy"));
  }

  lemma ContentIsClean(s: Schemas, fields: seq<Field>)
    requires GoodContent(s, fields)
    ensures CleanContent(s, ContentOf(s, fields))
  {
    RowsOfGood(s.stages, Get(fields, "stages").value.items);
    RowsOfGood(s.capabilities, Get(fields, "capabilities").value.items);
    RowsOfGood(s.agents, Get(fields, "agents").value.items);
    RowsOfGood(s.checklist, Get(fields, "governanceChecklist").value.items);
    CellIsClean(Get(fields, "notes"), Lines);
  }

  lemma AuthorIsClean(v: Option<Json>)
    ensures AuthorOf(v).Some? ==> CleanLine(Str(AuthorOf(v).value))
  {
    if LineOf(v) != [] {
      Text.TrimIsTight(v.value.chars);
    }
  }

  // ----- validation is the identity on what it returns -----

  lemma {:induction false} RecordKept(schema: seq<Column>, all: seq<Field>, fields: seq<Field>)
    requires CleanFields(schema, fields)
    requires forall i :: 0 <= i < |fields| ==> Get(all, fields[i].key) == Some(fields[i].value)
    ensures RecordOf(schema, all) == fields && GoodFields(schema, all)
  {
    if schema != [] {
      var n := |schema| - 1;
      CleanPrefix(schema, fields);
      RecordKept(schema[..n], all, fields[..n]);
      CleanCellIsKept(fields[n].value, schema[n].rule);
      GoodAppend(schema, all);
      assert fields == fields[..n] + [fields[n]];
    }
  }

  lemma CleanPrefix(schema: seq<Column>, fields: seq<Field>)
    requires schema != [] && CleanFields(schema, fields)
    ensures CleanFields(schema[..|schema| - 1], fields[..|schema| - 1])
  {
    assert forall i :: 0 <= i < |schema| - 1 ==> schema[..|schema| - 1][i] == schema[i];
  }

  lemma GoodAppend(schema: seq<Column>, fields: seq<Field>)
    requires schema != [] && GoodFields(schema[..|schema| - 1], fields)
    requires GoodCell(Get(fields, schema[|schema| - 1].name), schema[|schema| - 1].rule)
    ensures GoodFields(schema, fields)
  {
    assert forall i :: 0 <= i < |schema| - 1 ==> schema[..|schema| - 1][i] == schema[i];
  }

  lemma RowKept(schema: Schema, fields: seq<Field>)
    requires CleanFields(schema, fields)
    ensures RecordOf(schema, fields) == fields && GoodFields(schema, fields)
  {
    assert Keys(fields) == Names(schema);
    forall i | 0 <= i < |fields| ensures Get(fields, fields[i].key) == Some(fields[i].value) {
      GetAt(fields, i);
    }
    RecordKept(schema, fields, fields);
  }

  lemma RowsStayGood(schema: Schema, rows: seq<Json>)
    requires CleanRows(schema, rows)
    ensures GoodRows(schema, rows)
  {
    forall i | 0 <= i < |rows| ensures GoodRow(schema, rows[i]) {
      assert CleanRow(schema, rows[i]);
      RowKept(schema, rows[i].fields);
    }
  }

  lemma {:induction false} RowsKept(schema: Schema, rows: seq<Json>)
    requires CleanRows(schema, rows)
    ensures RowsOf(schema, rows) == rows
  {
    if rows != [] {
      SplitLast(rows);
      RowsKept(schema, rows[..|rows| - 1]);
      assert CleanRow(schema, rows[|rows| - 1]);
      RowKept(schema, rows[|rows| - 1].fields);
    }
  }

  lemma TableKept(schema: Schema, rows: seq<Json>)
    requires CleanTable(schema, rows)
    ensures GoodTable(schema, Some(Arr(rows))) && TableOf(schema, Some(Arr(rows))) == rows
  {
    RowsStayGood(schema, rows);
    RowsKept(schema, rows);
  }

  function Printed(v: Option<string>): Json {
    if v.Some? then Str(v.value) else Null
  }

  /** The object that is written to the file. */
  function Print(c: Config): seq<Field> {
    [Field("stages", Arr(c.content.stages)),
     Field("capabilities", Arr(c.content.capabilities)),
     Field("agents", Arr(c.content.agents)),
     Field("governanceChecklist", Arr(c.content.checklist)),
     Field("notes", Arr(c.content.notes)),
     Field("publishedAt", Printed(c.publishedAt)),
     Field("publishedBy", Printed(c.publishedBy)),
     Field("updatedAt", Str(c.updatedAt))]
  }

  /** These fields hold this content, whatever else they hold. */
  predicate Holds(fields: seq<Field>, c: Content) {
    && Get(fields, "stages") == Some(Arr(c.stages))
    && Get(fields, "capabilities") == Some(Arr(c.capabilities))
    && Get(fields, "agents") == Some(Arr(c.agents))
    && Get(fields, "governanceChecklist") == Some(Arr(c.checklist))
    && Get(fields, "notes") == Some(Arr(c.notes))
  }

  lemma PrintDistinct(c: Config)
    ensures Distinct(Keys(Print(c)))
  {
    var keys := Keys(Print(c));
    assert keys == ["stages", "capabilities", "agents", "governanceChecklist", "notes",
                    "publishedAt", "publishedBy", "updatedAt"];
  }

  lemma PrintHolds(c: Config)
    ensures Holds(Print(c), c.content)
    ensures Get(Print(c), "publishedAt") == Some(Printed(c.publishedAt))
    ensures Get(Print(c), "publishedBy") == Some(Printed(c.publishedBy))
    ensures Get(Print(c), "updatedAt") == Some(Str(c.updatedAt))
  {
    PrintDistinct(c);
    forall i: nat | i < 8 ensures Get(Print(c), Print(c)[i].key) == Some(Print(c)[i].value) {
      GetAt(Print(c), i);
    }
    assert Print(c)[0].key == "stages" && Print(c)[1].key == "capabilities" && Print(c)[2].key == "agents"
        && Print(c)[3].key == "governanceChecklist" && Print(c)[4].key == "notes" && Print(c)[5].key == "publishedAt"
        && Print(c)[6].key == "publishedBy" && Print(c)[7].key == "updatedAt";
  }

  /** Clean content passes and is kept, whatever stands beside it. */
  lemma ContentKept(s: Schemas, fields: seq<Field>, c: Content)
    requires Holds(fields, c) && CleanContent(s, c)
    ensures GoodContent(s, fields) && ContentOf(s, fields) == c
  {
    TableKept(s.stages, c.stages);
    TableKept(s.capabilities, c.capabilities);
    TableKept(s.agents, c.agents);
    TableKept(s.checklist, c.checklist);
    CleanCellIsKept(Arr(c.notes), Lines);
  }

  lemma StampsKept(c: Config, s: Schemas)
    requires Canonical(s, c)
    ensures StampOf(Some(Printed(c.publishedAt))) == c.publishedAt
    ensures AuthorOf(Some(Printed(c.publishedBy))) == c.publishedBy
    ensures StampOf(Some(Str(c.updatedAt))) == Some(c.updatedAt)
  {
    if c.publishedBy.Some? {
      Text.TrimOfTight(c.publishedBy.value);
    }
  }

  /** The configurations that survive a round trip through validation are exactly the
      canonical ones, so validation is the identity on everything it returns. */
  lemma CanonicalIsFixpoint(s: Schemas, c: Config, clock: string)
    requires CleanStamp(clock)
    ensures Parse(s, Obj(Print(c)), clock) == Ok(c) <==> Canonical(s, c)
  {
    if Canonical(s, c) {
      PrintHolds(c);
      ContentKept(s, Print(c), c.content);
      ErrorsIffIllFormed(s, Obj(Print(c)), clock);
      StampsKept(c, s);
    } else if Parse(s, Obj(Print(c)), clock) == Ok(c) {
      ParsedIsCanonical(s, Obj(Print(c)), clock);
    }
  }

  lemma ParseIdempotent(s: Schemas, input: Json, clock: string, later: string)
    requires Parse(s, input, clock).Ok? && CleanStamp(clock) && CleanStamp(later)
    ensures Parse(s, Obj(Print(Parse(s, input, clock).value)), later) == Parse(s, input, clock)
  {
    ParsedIsCanonical(s, input, clock);
    CanonicalIsFixpoint(s, Parse(s, input, clock).value, later);
  }
}
