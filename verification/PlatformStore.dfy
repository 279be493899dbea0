/**
 The platform configuration file: drafts overwrite its content, publishing stamps it.
 `None` is the absent file; `defaults` is the built-in content.  The clock is read once
 per call.
 */
module PlatformStore {
  import opened Basics
  import opened Json
  import opened PlatformConfig
  import Text

  // ----- the four tables -----

  const Stages: seq<Column> := [
    Column("id", Line), Column("title", Line), Column("objective", Line),
    Column("status", OneOf(["planned", "in-progress", "ready"], "planned")),
    Column("owner", Line), Column("targetWindow", Line), Column("deliverables", Lines)]

  const Capabilities: seq<Column> := [
    Column("id", Line), Column("name", Line), Column("description", Line),
    Column("currentState", Line), Column("nextStep", Line)]

  const Agents: seq<Column> := [
    Column("id", Line), Column("name", Line), Column("role", Line),
    Column("runtimeState", OneOf(["staged", "sandbox", "pilot", "active", "blocked"], "staged")),
    Column("authorityLevel", OneOf(["observe", "prepare", "execute_with_approval", "routine_autonomy"], "observe")),
    Column("allowedActions", Lines), Column("blockedActions", Lines), Column("owner", Line)]

  const Checklist: seq<Column> := [
    Column("id", Line), Column("phaseId", Line), Column("title", Line),
    Column("status",
      OneOf(["not_started", "in_progress", "blocked", "ready_for_review", "approved", "deferred"], "not_started")),
    Column("owner", Line), Column("requiredEvidence", Lines),
    Column("riskLevel", OneOf(["low", "moderate", "high", "critical"], "moderate")),
    Column("blocksProgression", Flag(true))]

  lemma StagesDistinct()
    ensures Distinct(Names(Stages))
  {
    assert Names(Stages) == ["id", "title", "objective", "status", "owner", "targetWindow", "deliverables"];
  }

  lemma CapabilitiesDistinct()
    ensures Distinct(Names(Capabilities))
  {
    assert Names(Capabilities) == ["id", "name", "description", "currentState", "nextStep"];
  }

  lemma AgentsDistinct()
    ensures Distinct(Names(Agents))
  {
    assert Names(Agents) ==
      ["id", "name", "role", "runtimeState", "authorityLevel", "allowedActions", "blockedActions", "owner"];
  }

  lemma ChecklistDistinct()
    ensures Distinct(Names(Checklist))
  {
    assert Names(Checklist) ==
      ["id", "phaseId", "title", "status", "owner", "requiredEvidence", "riskLevel", "blocksProgression"];
  }

  function Tables(): Schemas {
    StagesDistinct();
    CapabilitiesDistinct();
    AgentsDistinct();
    ChecklistDistinct();
    Schemas(Stages, Capabilities, Agents, Checklist)
  }

  // ----- what the tables accept -----

  /** The column is a text with something in it. */
  predicate IsText(f: seq<Field>, key: string) {
    Get(f, key).Some? && Get(f, key).value.Str? && Text.Trim(Get(f, key).value.chars) != ""
  }

  /** The column is a list, not empty, of such texts. */
  predicate IsList(f: seq<Field>, key: string) {
    && Get(f, key).Some? && Get(f, key).value.Arr? && Get(f, key).value.items != []
    && forall v :: v in Get(f, key).value.items ==> v.Str? && Text.Trim(v.chars) != ""
  }

  predicate IsOneOf(f: seq<Field>, key: string, values: set<string>) {
    Get(f, key).Some? && Get(f, key).value.Str? && Get(f, key).value.chars in values
  }

  predicate IsFlag(f: seq<Field>, key: string) {
    Get(f, key).Some? && Get(f, key).value.Bool?
  }

  predicate CellGood(schema: seq<Column>, f: seq<Field>, i: nat)
    requires i < |schema|
  {
    GoodCell(Get(f, schema[i].name), schema[i].rule)
  }

  lemma TextCell(schema: seq<Column>, f: seq<Field>, i: nat, key: string)
    requires i < |schema| && schema[i] == Column(key, Line)
    ensures CellGood(schema, f, i) <==> IsText(f, key)
  {}

  lemma ListCell(schema: seq<Column>, f: seq<Field>, i: nat, key: string)
    requires i < |schema| && schema[i] == Column(key, Lines)
    ensures CellGood(schema, f, i) <==> IsList(f, key)
  {
    if IsList(f, key) {
      assert forall k :: 0 <= k < |Get(f, key).value.items| ==> Get(f, key).value.items[k] in Get(f, key).value.items;
    }
  }

  lemma FiveCells(schema: seq<Column>, f: seq<Field>)
    requires |schema| == 5
    ensures GoodFields(schema, f) <==>
      && CellGood(schema, f, 0) && CellGood(schema, f, 1) && CellGood(schema, f, 2) && CellGood(schema, f, 3)
      && CellGood(schema, f, 4)
  {
    if GoodFields(schema, f) {
      assert forall i: nat :: i < |schema| ==> CellGood(schema, f, i);
    }
  }

  lemma SevenCells(schema: seq<Column>, f: seq<Field>)
    requires |schema| == 7
    ensures GoodFields(schema, f) <==>
      && CellGood(schema, f, 0) && CellGood(schema, f, 1) && CellGood(schema, f, 2) && CellGood(schema, f, 3)
      && CellGood(schema, f, 4) && CellGood(schema, f, 5) && CellGood(schema, f, 6)
  {
    if GoodFields(schema, f) {
      assert forall i: nat :: i < |schema| ==> CellGood(schema, f, i);
    }
  }

  lemma EightCells(schema: seq<Column>, f: seq<Field>)
    requires |schema| == 8
    ensures GoodFields(schema, f) <==>
      && CellGood(schema, f, 0) && CellGood(schema, f, 1) && CellGood(schema, f, 2) && CellGood(schema, f, 3)
      && CellGood(schema, f, 4) && CellGood(schema, f, 5) && CellGood(schema, f, 6) && CellGood(schema, f, 7)
  {
    if GoodFields(schema, f) {
      assert forall i: nat :: i < |schema| ==> CellGood(schema, f, i);
    }
  }

  /** The records the validator accepts as a stage, whatever else they hold. */
  lemma StageAccepted(f: seq<Field>)
    ensures GoodFields(Stages, f) <==>
      && IsText(f, "id") && IsText(f, "title") && IsText(f, "objective") && IsText(f, "owner")
      && IsText(f, "targetWindow")
      && IsOneOf(f, "status", {"planned", "in-progress", "ready"})
      && IsList(f, "deliverables")
  {
    TextCell(Stages, f, 0, "id");
    TextCell(Stages, f, 1, "title");
    TextCell(Stages, f, 2, "objective");
    TextCell(Stages, f, 4, "owner");
    TextCell(Stages, f, 5, "targetWindow");
    ListCell(Stages, f, 6, "deliverables");
    SevenCells(Stages, f);
  }

  /** The records it accepts as a capability. */
  lemma CapabilityAccepted(f: seq<Field>)
    ensures GoodFields(Capabilities, f) <==>
      && IsText(f, "id") && IsText(f, "name") && IsText(f, "description") && IsText(f, "currentState")
      && IsText(f, "nextStep")
  {
    TextCell(Capabilities, f, 0, "id");
    TextCell(Capabilities, f, 1, "name");
    TextCell(Capabilities, f, 2, "description");
    TextCell(Capabilities, f, 3, "currentState");
    TextCell(Capabilities, f, 4, "nextStep");
    FiveCells(Capabilities, f);
  }

  /** The records it accepts as an agent. */
  lemma AgentAccepted(f: seq<Field>)
    ensures GoodFields(Agents, f) <==>
      && IsText(f, "id") && IsText(f, "name") && IsText(f, "role") && IsText(f, "owner")
      && IsOneOf(f, "runtimeState", {"staged", "sandbox", "pilot", "active", "blocked"})
      && IsOneOf(f, "authorityLevel", {"observe", "prepare", "execute_with_approval", "routine_autonomy"})
      && IsList(f, "allowedActions") && IsList(f, "blockedActions")
  {
    TextCell(Agents, f, 0, "id");
    TextCell(Agents, f, 1, "name");
    TextCell(Agents, f, 2, "role");
    ListCell(Agents, f, 5, "allowedActions");
    ListCell(Agents, f, 6, "blockedActions");
    TextCell(Agents, f, 7, "owner");
    EightCells(Agents, f);
  }

  /** The records it accepts as an item of the checklist. */
  lemma ChecklistItemAccepted(f: seq<Field>)
    ensures GoodFields(Checklist, f) <==>
      && IsText(f, "id") && IsText(f, "phaseId") && IsText(f, "title") && IsText(f, "owner")
      && IsOneOf(f, "status", {"not_started", "in_progress", "blocked", "ready_for_review", "approved", "deferred"})
      && IsOneOf(f, "riskLevel", {"low", "moderate", "high", "critical"})
      && IsList(f, "requiredEvidence")
      && IsFlag(f, "blocksProgression")
  {
    TextCell(Checklist, f, 0, "id");
    TextCell(Checklist, f, 1, "phaseId");
    TextCell(Checklist, f, 2, "title");
    TextCell(Checklist, f, 4, "owner");
    ListCell(Checklist, f, 5, "requiredEvidence");
    EightCells(Checklist, f);
  }

  // ----- reading and writing -----

  datatype Op =
    | Draft(input: Json, clock: string)
    | Publish(author: string, clock: string)

  type File = Option<Json>

  function Read(file: File, defaults: Content, clock: string): Result<Config, seq<Problem>> {
    match file
    case None => Ok(Config(defaults, None, None, clock))
    case Some(json) => Parse(Tables(), json, clock)
  }

  function Fields(input: Json): seq<Field> {
    if input.Obj? then input.fields else []
  }

  function Stamped(fields: seq<Field>, at: Json, author: Json, clock: string): Json {
    Obj(fields + [Field("publishedAt", at)] + [Field("publishedBy", author)] + [Field("updatedAt", Str(clock))])
  }

  /** What the operation validates, given the configuration it read. */
  function Candidate(op: Op, current: Config): Json {
    match op
    case Draft(input, clock) =>
      Stamped(Fields(input), Printed(current.publishedAt), Printed(current.publishedBy), clock)
    case Publish(author, clock) => Stamped(Print(current), Str(clock), Str(author), clock)
  }

  function Outcome(op: Op, file: File, defaults: Content): Result<Config, seq<Problem>> {
    match Read(file, defaults, op.clock)
    case Err(e) => Err(e)
    case Ok(current) => Parse(Tables(), Candidate(op, current), op.clock)
  }

  function After(op: Op, file: File, defaults: Content): File {
    match Outcome(op, file, defaults)
    case Err(_) => file
    case Ok(c) => Some(Obj(Print(c)))
  }

  class Store {
    var file: File
    const defaults: Content

    constructor (defaults: Content)
      ensures file == None && this.defaults == defaults
    {
      file := None;
      this.defaults := defaults;
    }

    method ReadConfig(clock: string) returns (r: Result<Config, seq<Problem>>)
      ensures r == Read(file, defaults, clock)
    {
      if file.None? {
        return Ok(Config(defaults, None, None, clock));
      }
      r := ValidatePlatformConfig(Tables(), file.value, clock);
    }

    method SaveDraft(input: Json, clock: string) returns (r: Result<Config, seq<Problem>>)
      modifies this
      ensures r == Outcome(Draft(input, clock), old(file), defaults)
      ensures file == After(Draft(input, clock), old(file), defaults)
    {
      var current := ReadConfig(clock);
      if current.Err? {
        return current;
      }
      var fields := if input.Obj? then input.fields else [];
      r := ValidatePlatformConfig(Tables(),
        Stamped(fields, Printed(current.value.publishedAt), Printed(current.value.publishedBy), clock), clock);
      if r.Ok? {
        file := Some(Obj(Print(r.value)));
      }
    }

    method PublishConfig(author: string, clock: string) returns (r: Result<Config, seq<Problem>>)
      modifies this
      ensures r == Outcome(Publish(author, clock), old(file), defaults)
      ensures file == After(Publish(author, clock), old(file), defaults)
    {
      var current := ReadConfig(clock);
      if current.Err? {
        return current;
      }
      r := ValidatePlatformConfig(Tables(), Stamped(Print(current.value), Str(clock), Str(author), clock), clock);
      if r.Ok? {
        file := Some(Obj(Print(r.value)));
      }
    }
  }

  // ----- what one operation does -----

  ghost predicate Legal(op: Op) {
    CleanStamp(op.clock)
  }

  /** The file is absent or holds what a validated configuration prints. */
  ghost predicate Sound(file: File, defaults: Content) {
    && CleanContent(Tables(), defaults)
    && (file.Some? ==> exists c :: Canonical(Tables(), c) && file.value == Obj(Print(c)))
  }

  lemma ReadSucceeds(file: File, defaults: Content, clock: string)
    requires Sound(file, defaults) && CleanStamp(clock)
    ensures var r := Read(file, defaults, clock); r.Ok? && Canonical(Tables(), r.value)
    ensures file.Some? ==> file.value == Obj(Print(Read(file, defaults, clock).value))
  {
    if file.Some? {
      var c :| Canonical(Tables(), c) && file.value == Obj(Print(c));
      CanonicalIsFixpoint(Tables(), c, clock);
    }
  }

  lemma GetStamped(fields: seq<Field>, at: Json, author: Json, clock: string, key: string)
    ensures Get(Stamped(fields, at, author, clock).fields, key) ==
      if key == "updatedAt" then Some(Str(clock)) else if key == "publishedBy" then Some(author)
      else if key == "publishedAt" then Some(at) else Get(fields, key)
  {
    var one := fields + [Field("publishedAt", at)];
    var two := one + [Field("publishedBy", author)];
    GetLast(fields, Field("publishedAt", at), key);
    GetLast(one, Field("publishedBy", author), key);
    GetLast(two, Field("updatedAt", Str(clock)), key);
  }

  /** The stamps leave the content alone. */
  lemma StampedContent(fields: seq<Field>, at: Json, author: Json, clock: string)
    ensures var all := Stamped(fields, at, author, clock).fields;
      && ContentOf(Tables(), all) == ContentOf(Tables(), fields)
      && ContentProblems(Tables(), all) == ContentProblems(Tables(), fields)
  {
    GetStamped(fields, at, author, clock, "stages");
    GetStamped(fields, at, author, clock, "capabilities");
    GetStamped(fields, at, author, clock, "agents");
    GetStamped(fields, at, author, clock, "governanceChecklist");
    GetStamped(fields, at, author, clock, "notes");
  }

  lemma StampedConfig(fields: seq<Field>, at: Json, author: Json, clock: string)
    requires CleanStamp(clock)
    ensures Parse(Tables(), Stamped(fields, at, author, clock), clock) ==
      if ContentProblems(Tables(), fields) != [] then Err(ContentProblems(Tables(), fields))
      else Ok(Config(ContentOf(Tables(), fields), StampOf(Some(at)), AuthorOf(Some(author)), clock))
  {
    StampedContent(fields, at, author, clock);
    GetStamped(fields, at, author, clock, "publishedAt");
    GetStamped(fields, at, author, clock, "publishedBy");
    GetStamped(fields, at, author, clock, "updatedAt");
  }

  /** A draft is accepted exactly when its content is well formed; it replaces the
      content and leaves the publication as it was. */
  lemma DraftOutcome(input: Json, clock: string, file: File, defaults: Content)
    requires Sound(file, defaults) && CleanStamp(clock)
    ensures Read(file, defaults, clock).Ok?
    ensures var r := Outcome(Draft(input, clock), file, defaults);
      var was := Read(file, defaults, clock).value;
      && (r.Ok? <==> GoodContent(Tables(), Fields(input)))
      && (r.Ok? ==> r.value == Config(ContentOf(Tables(), Fields(input)), was.publishedAt, was.publishedBy, clock))
  {
    ReadSucceeds(file, defaults, clock);
    var was := Read(file, defaults, clock).value;
    StampedConfig(Fields(input), Printed(was.publishedAt), Printed(was.publishedBy), clock);
    StampsKept(was, Tables());
    ErrorsIffIllFormed(Tables(), Obj(Fields(input)), clock);
  }

  lemma PrintedContent(c: Config, clock: string)
    requires Canonical(Tables(), c)
    ensures ContentProblems(Tables(), Print(c)) == [] && ContentOf(Tables(), Print(c)) == c.content
  {
    PrintHolds(c);
    ContentKept(Tables(), Print(c), c.content);
    ErrorsIffIllFormed(Tables(), Obj(Print(c)), clock);
  }

  /** Publishing never fails; it keeps the content and stamps it.  A blank author is
      recorded as none. */
  lemma PublishOutcome(author: string, clock: string, file: File, defaults: Content)
    requires Sound(file, defaults) && CleanStamp(clock)
    ensures Read(file, defaults, clock).Ok?
    ensures Outcome(Publish(author, clock), file, defaults) ==
      Ok(Config(Read(file, defaults, clock).value.content, Some(clock), AuthorOf(Some(Str(author))), clock))
  {
    ReadSucceeds(file, defaults, clock);
    var was := Read(file, defaults, clock).value;
    PrintedContent(was, clock);
    StampedConfig(Print(was), Str(clock), Str(author), clock);
  }

  lemma SoundAfter(op: Op, file: File, defaults: Content)
    requires Sound(file, defaults) && Legal(op)
    ensures Sound(After(op, file, defaults), defaults)
  {
    ReadSucceeds(file, defaults, op.clock);
    var r := Outcome(op, file, defaults);
    if r.Ok? {
      ParsedIsCanonical(Tables(), Candidate(op, Read(file, defaults, op.clock).value), op.clock);
    }
  }

  // ----- runs -----

  function Run(ops: seq<Op>, defaults: Content): File {
    if ops == [] then None else After(ops[|ops| - 1], Run(ops[..|ops| - 1], defaults), defaults)
  }

  ghost predicate AllLegal(ops: seq<Op>) {
    forall i :: 0 <= i < |ops| ==> Legal(ops[i])
  }

  lemma {:induction false} RunIsSound(ops: seq<Op>, defaults: Content)
    requires AllLegal(ops) && CleanContent(Tables(), defaults)
    ensures Sound(Run(ops, defaults), defaults)
  {
    if ops != [] {
      RunIsSound(ops[..|ops| - 1], defaults);
      SoundAfter(ops[|ops| - 1], Run(ops[..|ops| - 1], defaults), defaults);
    }
  }

  predicate Accepted(op: Op) {
    op.Draft? && GoodContent(Tables(), Fields(op.input))
  }

  /** The content of the last accepted draft. */
  function LastDraft(ops: seq<Op>, defaults: Content): Content {
    if ops == [] then defaults
    else if Accepted(ops[|ops| - 1]) then ContentOf(Tables(), Fields(ops[|ops| - 1].input))
    else LastDraft(ops[..|ops| - 1], defaults)
  }

  /** When and by whom the last publication was made. */
  function LastPublication(ops: seq<Op>): (Option<string>, Option<string>) {
    if ops == [] then (None, None)
    else
      var op := ops[|ops| - 1];
      if op.Publish? then (Some(op.clock), AuthorOf(Some(Str(op.author)))) else LastPublication(ops[..|ops| - 1])
  }

  lemma AfterIsRead(op: Op, file: File, defaults: Content, clock: string)
    requires Sound(file, defaults) && Legal(op) && CleanStamp(clock)
    ensures Read(After(op, file, defaults), defaults, clock).Ok?
    ensures var r, now := Outcome(op, file, defaults), Read(After(op, file, defaults), defaults, clock).value;
      if r.Ok? then now == r.value else now == Read(file, defaults, clock).value
  {
    SoundAfter(op, file, defaults);
    ReadSucceeds(After(op, file, defaults), defaults, clock);
    ReadSucceeds(file, defaults, op.clock);
    var r := Outcome(op, file, defaults);
    if r.Ok? {
      ParsedIsCanonical(Tables(), Candidate(op, Read(file, defaults, op.clock).value), op.clock);
      CanonicalIsFixpoint(Tables(), r.value, clock);
    }
  }

  lemma ReadAtAnyTime(file: File, defaults: Content, a: string, b: string)
    requires Sound(file, defaults) && CleanStamp(a) && CleanStamp(b)
    ensures Read(file, defaults, a).Ok? && Read(file, defaults, b).Ok?
    ensures var x, y := Read(file, defaults, a).value, Read(file, defaults, b).value;
      x.content == y.content && x.publishedAt == y.publishedAt && x.publishedBy == y.publishedBy
  {
    if file.Some? {
      var c :| Canonical(Tables(), c) && file.value == Obj(Print(c));
      CanonicalIsFixpoint(Tables(), c, a);
      CanonicalIsFixpoint(Tables(), c, b);
    }
  }

  /** After any run the file reads back, its content is that of the last accepted draft
      and its publication is the last one made: publishing publishes exactly the last
      draft and drafts never touch the publication. */
  lemma {:induction false} FileIsLastDraftAndPublication(ops: seq<Op>, defaults: Content, clock: string)
    requires AllLegal(ops) && CleanContent(Tables(), defaults) && CleanStamp(clock)
    ensures var r := Read(Run(ops, defaults), defaults, clock);
      && r.Ok? && r.value.content == LastDraft(ops, defaults)
      && (r.value.publishedAt, r.value.publishedBy) == LastPublication(ops)
  {
    if ops != [] {
      var before, op := ops[..|ops| - 1], ops[|ops| - 1];
      var file := Run(before, defaults);
      FileIsLastDraftAndPublication(before, defaults, clock);
      RunIsSound(before, defaults);
      assert Legal(op);
      AfterIsRead(op, file, defaults, clock);
      ReadAtAnyTime(file, defaults, clock, op.clock);
      match op
      case Draft(input, at) => DraftOutcome(input, at, file, defaults);
      case Publish(author, at) => PublishOutcome(author, at, file, defaults);
    }
  }
}
