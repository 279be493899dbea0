/**
 Entries of the memory index: searchable text, term counts and citation metadata, as
 built by the service and by the offline script, and what sensitive metadata can never
 reach.
 */
module MemoryIndex {
  import opened Basics
  import opened Json
  import opened Text

  const MAX_INDEX_TEXT: nat := 4000
  const MAX_METADATA_TEXT: nat := 200

  /** Library text functions: character folding and lower casing. */
  datatype Library = Library(fold: Fold, lower: string -> string)

  datatype MemoryEvent = MemoryEvent(
    id: string, receivedAt: string, source: string, kind: string,
    text: Option<string>, occurredAt: Option<string>, externalId: Option<string>,
    privacy: Option<string>, metadata: Option<Json>)

  type Terms = map<string, nat>

  datatype IndexEntry = IndexEntry(
    id: string, receivedAt: string, source: string, kind: string,
    occurredAt: Option<string>, externalId: Option<string>, privacy: Option<string>,
    text: Option<string>, metadata: Option<Json>, searchableText: string, terms: Terms)

  type Builder = MemoryEvent -> IndexEntry

  // ----- metadata text -----

  predicate SensitiveName(k: string) {
    || k == "body" || k == "content" || k == "email_body" || k == "html" || k == "message" || k == "raw"
    || k == "raw_body" || k == "text"
  }

  predicate Sensitive(lib: Library, key: string) {
    SensitiveName(lib.lower(key))
  }

  function JsonText(lib: Library, v: Json): string {
    match v
    case Null => ""
    case Bool(b) => if b then "true" else "false"
    case Num(t) => t
    case Str(s) => s
    case Arr(items) => Join(ItemTexts(lib, items), " ")
    case Obj(fields) => Join(FieldTexts(lib, fields), " ")
  }

  function ItemTexts(lib: Library, items: seq<Json>): seq<string> {
    if items == [] then [] else [JsonText(lib, items[0])] + ItemTexts(lib, items[1..])
  }

  function FieldText(lib: Library, f: Field): string {
    JsonText(lib, f.value)
  }

  function FieldTexts(lib: Library, fields: seq<Field>): seq<string> {
    if fields == [] then []
    else (if Sensitive(lib, fields[0].key) then [] else [FieldText(lib, fields[0])]) + FieldTexts(lib, fields[1..])
  }

  function Truncate(value: string, max: nat): (r: string)
    requires max > 0
    ensures |value| <= max ==> r == value
    ensures |r| <= max + 2
  {
    if |value| <= max then value else Trim(value[..max - 1]) + "..."
  }

  predicate Scalar(v: Json) {
    v.Str? || v.Num? || v.Bool? || v.Null?
  }

  function ShortValue(v: Json): Json {
    if v.Str? then Str(Truncate(v.chars, MAX_METADATA_TEXT)) else v
  }

  function SafeFields(lib: Library, fields: seq<Field>): seq<Field> {
    if fields == [] then []
    else
      (if !Sensitive(lib, fields[0].key) && Scalar(fields[0].value)
       then [Field(fields[0].key, ShortValue(fields[0].value))]
       else [])
      + SafeFields(lib, fields[1..])
  }

  /** Object.entries of a value that is not an object: indexed items or characters. */
  function Entries(index: nat -> string, v: Json): seq<Field> {
    match v
    case Obj(fields) => fields
    case Arr(items) => seq(|items|, k requires 0 <= k < |items| => Field(index(k), items[k]))
    case Str(s) => seq(|s|, k requires 0 <= k < |s| => Field(index(k), Str([s[k]])))
    case _ => []
  }

  predicate Truthy(v: Json) {
    match v
    case Null => false
    case Bool(b) => b
    case Num(t) => t != "0"
    case Str(s) => s != []
    case _ => true
  }

  /** The service keeps whatever a truthy value has entries for. */
  function ServiceMetadata(lib: Library, index: nat -> string, m: Option<Json>): Option<Json> {
    if m.None? || !Truthy(m.value) then None
    else
      var safe := SafeFields(lib, Entries(index, m.value));
      if safe == [] then None else Some(Obj(safe))
  }

  /** The offline script looks at objects only. */
  function ScriptMetadata(lib: Library, m: Option<Json>): Option<Json> {
    if m.None? || !m.value.Obj? then None
    else
      var safe := SafeFields(lib, m.value.fields);
      if safe == [] then None else Some(Obj(safe))
  }

  // ----- searchable text and terms -----

  function OrEmpty(s: Option<string>): string {
    if s.Some? then s.value else ""
  }

  function NonEmpty(parts: seq<string>): seq<string> {
    if parts == [] then [] else (if parts[0] == [] then [] else [parts[0]]) + NonEmpty(parts[1..])
  }

  function Parts(e: MemoryEvent, metadataText: string): seq<string> {
    [e.source, e.kind, OrEmpty(e.externalId), OrEmpty(e.occurredAt), e.receivedAt, OrEmpty(e.text), metadataText]
  }

  function SearchableText(e: MemoryEvent, metadataText: string): string {
    Truncate(Join(NonEmpty(Parts(e, metadataText)), " "), MAX_INDEX_TEXT)
  }

  function ServiceMetadataText(lib: Library, m: Option<Json>): string {
    if m.Some? && Truthy(m.value) then JsonText(lib, m.value) else ""
  }

  function ScriptMetadataText(lib: Library, m: Option<Json>): string {
    if m.Some? && m.value.Obj? then JsonText(lib, m.value) else ""
  }

  /** How often each token occurs. */
  function TermCounts(tokens: seq<string>): Terms {
    map t | t in tokens :: multiset(tokens)[t]
  }

  function Counted(terms: Terms, t: string): Terms {
    terms[t := (if t in terms then terms[t] else 0) + 1]
  }

  lemma TermCountsAppend(tokens: seq<string>, k: nat)
    requires k < |tokens|
    ensures TermCounts(tokens[..k + 1]) == Counted(TermCounts(tokens[..k]), tokens[k])
  {
    assert tokens[..k + 1] == tokens[..k] + [tokens[k]];
  }

  /** The loop of countTerms. */
  method CountTokens(tokens: seq<string>) returns (terms: Terms)
    ensures terms == TermCounts(tokens)
  {
    terms := map[];
    for k := 0 to |tokens|
      invariant terms == TermCounts(tokens[..k])
    {
      TermCountsAppend(tokens, k);
      terms := terms[tokens[k] := (if tokens[k] in terms then terms[tokens[k]] else 0) + 1];
    }
    assert tokens[..|tokens|] == tokens;
  }

  /** countTerms: one pass over the tokens. */
  method CountTerms(fold: Fold, value: string) returns (terms: Terms)
    ensures terms == TermCounts(Tokenize(fold, value))
  {
    terms := CountTokens(Tokenize(fold, value));
  }

  function Entry(e: MemoryEvent, metadata: Option<Json>, searchable: string, fold: Fold): IndexEntry {
    IndexEntry(e.id, e.receivedAt, e.source, e.kind, e.occurredAt, e.externalId, e.privacy,
               if e.text.Some? then Some(Truncate(e.text.value, MAX_INDEX_TEXT)) else None,
               metadata, searchable, TermCounts(Tokenize(fold, searchable)))
  }

  function ServiceEntry(lib: Library, index: nat -> string, e: MemoryEvent): IndexEntry {
    Entry(e, ServiceMetadata(lib, index, e.metadata), SearchableText(e, ServiceMetadataText(lib, e.metadata)), lib.fold)
  }

  function ScriptEntry(lib: Library, e: MemoryEvent): IndexEntry {
    Entry(e, ScriptMetadata(lib, e.metadata), SearchableText(e, ScriptMetadataText(lib, e.metadata)), lib.fold)
  }

  function Service(lib: Library, index: nat -> string): Builder {
    e => ServiceEntry(lib, index, e)
  }

  function Script(lib: Library): Builder {
    e => ScriptEntry(lib, e)
  }

  function EntriesOf(build: Builder, events: seq<MemoryEvent>): (r: seq<IndexEntry>)
    ensures |r| == |events| && forall k :: 0 <= k < |r| ==> r[k] == build(events[k])
  {
    seq(|events|, k requires 0 <= k < |events| => build(events[k]))
  }

  // ----- the two builders -----

  /** Metadata as the ingest path accepts it: absent or an object. */
  predicate IngestMetadata(e: MemoryEvent) {
    e.metadata.None? || e.metadata.value.Obj?
  }

  lemma BuildersAgree(lib: Library, index: nat -> string, e: MemoryEvent)
    requires IngestMetadata(e)
    ensures ServiceEntry(lib, index, e) == ScriptEntry(lib, e)
  {}

  // ----- when the two builders agree on a log edited by hand -----

  lemma {:induction false} TrimRightStops(s: string)
    ensures TrimRight(s) <= s && (|TrimRight(s)| < |s| ==> Space(s[|TrimRight(s)|]))
  {
    if s != [] && Space(s[|s| - 1]) {
      TrimRightStops(s[..|s| - 1]);
    }
  }

  /** A text that fits is not the shortened form of a longer one that begins with it. */
  lemma ShortenedDiffers(a: string, x: string, max: nat)
    requires 1 < max && |a| <= max < |x| && a <= x
    ensures Truncate(x, max) != a
  {
    var p := x[..max - 1];
    var t := Trim(p);
    TrimIsTight(p);
    TrimRightStops(p);
    if t != p {
      // the first place where the shortened text leaves the one it was made from
      var k := if Space(p[0]) then 0 else |t|;
      assert (t + "...")[k] != x[k];
    }
  }

  /** More text at the end shows exactly when what comes before it fits. */
  lemma TailShows(a: string, b: string, max: nat)
    requires 1 < max && b != []
    ensures Truncate(a + b, max) == Truncate(a, max) <==> |a| > max
  {
    if |a| > max {
      assert (a + b)[..max - 1] == a[..max - 1];
    } else if |a + b| > max {
      ShortenedDiffers(a, a + b, max);
    }
  }

  lemma {:induction false} NonEmptyAppend(parts: seq<string>, t: string)
    ensures NonEmpty(parts + [t]) == NonEmpty(parts) + if t == [] then [] else [t]
  {
    if parts == [] {
      assert parts + [t] == [t];
    } else {
      assert (parts + [t])[1..] == parts[1..] + [t] && (parts + [t])[0] == parts[0];
      NonEmptyAppend(parts[1..], t);
      var last := if t == [] then [] else [t];
      assert NonEmpty(parts) + last == (if parts[0] == [] then [] else [parts[0]]) + (NonEmpty(parts[1..]) + last);
    }
  }

  lemma {:induction false} JoinAppend(parts: seq<string>, t: string)
    ensures Join(parts + [t], " ") == if parts == [] then t else Join(parts, " ") + (" " + t)
  {
    if parts == [] {
      assert parts + [t] == [t];
    } else {
      assert (parts + [t])[1..] == parts[1..] + [t];
      JoinAppend(parts[1..], t);
    }
  }

  /** The fields of an event other than its metadata, joined. */
  function OwnText(e: MemoryEvent): string {
    Join(NonEmpty(Parts(e, "")), " ")
  }

  lemma OwnTextThenMetadata(e: MemoryEvent, t: string) returns (rest: string)
    requires t != []
    ensures rest != [] && Join(NonEmpty(Parts(e, t)), " ") == OwnText(e) + rest
  {
    var parts := Parts(e, "")[..6];
    assert Parts(e, "") == parts + [""] && Parts(e, t) == parts + [t];
    NonEmptyAppend(parts, "");
    NonEmptyAppend(parts, t);
    assert NonEmpty(parts) + [] == NonEmpty(parts);
    JoinAppend(NonEmpty(parts), t);
    rest := if NonEmpty(parts) == [] then t else " " + t;
    assert NonEmpty(parts) == [] ==> [] + t == t;
  }

  lemma MetadataTextShows(e: MemoryEvent, t: string)
    ensures SearchableText(e, t) == SearchableText(e, "") <==> t == [] || |OwnText(e)| > MAX_INDEX_TEXT
  {
    if t != [] {
      var rest := OwnTextThenMetadata(e, t);
      TailShows(OwnText(e), rest, MAX_INDEX_TEXT);
    }
  }

  /** The metadata is absent, an object or falsy; or none of its entries is a scalar
      under a harmless index, and its text is empty or finds no room. */
  predicate SameForBoth(lib: Library, index: nat -> string, e: MemoryEvent) {
    IngestMetadata(e) || e.metadata.value in {Null, Bool(false), Num("0"), Str("")}
    || (SafeFields(lib, Entries(index, e.metadata.value)) == []
        && (JsonText(lib, e.metadata.value) == [] || |OwnText(e)| > MAX_INDEX_TEXT))
  }

  /** The two builders make the same entry exactly then. */
  lemma BuildersAgreeExactly(lib: Library, index: nat -> string, e: MemoryEvent)
    ensures ServiceEntry(lib, index, e) == ScriptEntry(lib, e) <==> SameForBoth(lib, index, e)
  {
    if IngestMetadata(e) {
      BuildersAgree(lib, index, e);
    } else {
      var text := ServiceMetadataText(lib, e.metadata);
      SameEntry(e, ServiceMetadata(lib, index, e.metadata), None, SearchableText(e, text), SearchableText(e, ""),
                lib.fold);
      MetadataTextShows(e, text);
    }
  }

  lemma SameEntry(e: MemoryEvent, m: Option<Json>, n: Option<Json>, s: string, t: string, fold: Fold)
    ensures Entry(e, m, s, fold) == Entry(e, n, t, fold) <==> m == n && s == t
  {
    var a, b := Entry(e, m, s, fold), Entry(e, n, t, fold);
    assert a == b ==> a.metadata == b.metadata && a.searchableText == b.searchableText;
  }

  /** An event on which they differ: text as metadata is indexed by one only. */
  lemma BuildersDifferOnEditedLogs(lib: Library, index: nat -> string)
    requires !Sensitive(lib, index(0))
    ensures exists e: MemoryEvent :: ServiceEntry(lib, index, e) != ScriptEntry(lib, e)
  {
    var e := MemoryEvent("i", "r", "s", "k", None, None, None, None, Some(Str("x")));
    assert Entries(index, Str("x"))[0] == Field(index(0), Str("x"));
    assert SafeFields(lib, Entries(index, Str("x"))) != [];
    BuildersAgreeExactly(lib, index, e);
  }

  // ----- sensitive metadata -----

  /** The keys whose values are mail or message text. */
  predicate Hidden(lib: Library, key: string) {
    lib.lower(key) in {"body", "content", "email_body", "html", "message", "raw", "raw_body", "text"}
  }

  /** The value without anything below a sensitive key, at any depth. */
  function Visible(lib: Library, v: Json): Json {
    match v
    case Arr(items) => Arr(VisibleItems(lib, items))
    case Obj(fields) => Obj(VisibleFields(lib, fields))
    case _ => v
  }

  function VisibleItems(lib: Library, items: seq<Json>): seq<Json> {
    if items == [] then [] else [Visible(lib, items[0])] + VisibleItems(lib, items[1..])
  }

  function VisibleField(lib: Library, f: Field): Field {
    Field(f.key, Visible(lib, f.value))
  }

  function VisibleFields(lib: Library, fields: seq<Field>): seq<Field> {
    if fields == [] then []
    else
      (if Hidden(lib, fields[0].key) then [] else [VisibleField(lib, fields[0])])
      + VisibleFields(lib, fields[1..])
  }

  lemma {:induction false} TextOfVisible(lib: Library, v: Json)
    ensures JsonText(lib, Visible(lib, v)) == JsonText(lib, v)
  {
    match v
    case Arr(items) => ItemTextsOfVisible(lib, items);
    case Obj(fields) => FieldTextsOfVisible(lib, fields);
    case _ =>
  }

  lemma {:induction false} ItemTextsOfVisible(lib: Library, items: seq<Json>)
    ensures ItemTexts(lib, VisibleItems(lib, items)) == ItemTexts(lib, items)
  {
    if items != [] {
      TextOfVisible(lib, items[0]);
      ItemTextsOfVisible(lib, items[1..]);
      assert VisibleItems(lib, items)[1..] == VisibleItems(lib, items[1..]);
    }
  }

  lemma {:induction false} FieldTextOfVisible(lib: Library, f: Field)
    ensures FieldText(lib, VisibleField(lib, f)) == FieldText(lib, f)
  {
    TextOfVisible(lib, f.value);
  }

  lemma {:induction false} FieldTextsOfVisible(lib: Library, fields: seq<Field>)
    ensures FieldTexts(lib, VisibleFields(lib, fields)) == FieldTexts(lib, fields)
  {
    if fields != [] {
      FieldTextsOfVisible(lib, fields[1..]);
      if Sensitive(lib, fields[0].key) {
        assert VisibleFields(lib, fields) == VisibleFields(lib, fields[1..]);
        assert FieldTexts(lib, fields) == FieldTexts(lib, fields[1..]);
      } else {
        FieldTextOfVisible(lib, fields[0]);
        assert VisibleFields(lib, fields)[1..] == VisibleFields(lib, fields[1..]);
      }
    }
  }

  lemma {:induction false} SafeFieldsOfVisible(lib: Library, fields: seq<Field>)
    ensures SafeFields(lib, VisibleFields(lib, fields)) == SafeFields(lib, fields)
  {
    if fields != [] {
      SafeFieldsOfVisible(lib, fields[1..]);
      if Sensitive(lib, fields[0].key) {
        assert VisibleFields(lib, fields) == VisibleFields(lib, fields[1..]);
        assert SafeFields(lib, fields) == SafeFields(lib, fields[1..]);
      } else {
        assert VisibleFields(lib, fields)[1..] == VisibleFields(lib, fields[1..]);
        assert Scalar(Visible(lib, fields[0].value)) <==> Scalar(fields[0].value);
      }
    }
  }

  /** Events that differ only below sensitive metadata keys, at whatever depth, have
      the same index entry: text, terms and citation metadata alike. */
  lemma SensitiveValuesNeverIndexed(lib: Library, index: nat -> string, e: MemoryEvent, f: MemoryEvent)
    requires e.metadata.Some? && f.metadata.Some? && e.metadata.value.Obj? && f.metadata.value.Obj?
    requires f == e.(metadata := f.metadata)
    requires Visible(lib, e.metadata.value) == Visible(lib, f.metadata.value)
    ensures ServiceEntry(lib, index, e) == ServiceEntry(lib, index, f)
  {
    TextOfVisible(lib, e.metadata.value);
    TextOfVisible(lib, f.metadata.value);
    SafeFieldsOfVisible(lib, e.metadata.value.fields);
    SafeFieldsOfVisible(lib, f.metadata.value.fields);
  }

  // ----- term counts of an entry -----

  lemma {:induction false} EmptyPartsHaveNoTokens(fold: Fold, parts: seq<string>)
    ensures TokensOfAll(fold, NonEmpty(parts)) == TokensOfAll(fold, parts)
  {
    if parts != [] {
      EmptyPartsHaveNoTokens(fold, parts[1..]);
      if parts[0] == [] {
        assert Tokenize(fold, []) == [];
        assert NonEmpty(parts) == NonEmpty(parts[1..]);
      } else {
        assert NonEmpty(parts)[1..] == NonEmpty(parts[1..]);
      }
    }
  }

  /** A token's occurrences, field by field. */
  function SumOfCounts(fold: Fold, parts: seq<string>, t: string): nat {
    if parts == [] then 0 else multiset(Tokenize(fold, parts[0]))[t] + SumOfCounts(fold, parts[1..], t)
  }

  lemma {:induction false} CountsAddUp(fold: Fold, parts: seq<string>, t: string)
    ensures multiset(TokensOfAll(fold, parts))[t] == SumOfCounts(fold, parts, t)
  {
    if parts != [] {
      CountsAddUp(fold, parts[1..], t);
    }
  }

  // ----- the scalars of metadata -----

  /** The printed scalars of a value, in order, but for those below sensitive keys. */
  function Leaves(lib: Library, v: Json): seq<string> {
    match v
    case Null => []
    case Bool(b) => [if b then "true" else "false"]
    case Num(t) => [t]
    case Str(s) => [s]
    case Arr(items) => ItemLeaves(lib, items)
    case Obj(fields) => FieldLeaves(lib, fields)
  }

  function ItemLeaves(lib: Library, items: seq<Json>): seq<string> {
    if items == [] then [] else Leaves(lib, items[0]) + ItemLeaves(lib, items[1..])
  }

  function OneFieldLeaves(lib: Library, f: Field): seq<string> {
    Leaves(lib, f.value)
  }

  function FieldLeaves(lib: Library, fields: seq<Field>): seq<string> {
    if fields == [] then []
    else (if Hidden(lib, fields[0].key) then [] else OneFieldLeaves(lib, fields[0])) + FieldLeaves(lib, fields[1..])
  }

  lemma {:induction false} TokensConcat(fold: Fold, a: seq<string>, b: seq<string>)
    ensures TokensOfAll(fold, a + b) == TokensOfAll(fold, a) + TokensOfAll(fold, b)
  {
    if a == [] {
      assert a + b == b;
    } else {
      assert (a + b)[1..] == a[1..] + b;
      TokensConcat(fold, a[1..], b);
    }
  }

  lemma TokensOfOne(fold: Fold, s: string)
    ensures TokensOfAll(fold, [s]) == Tokenize(fold, s)
  {
    assert [s][1..] == [];
    assert TokensOfAll(fold, []) == [];
  }

  lemma TokensStep(fold: Fold, text: string, own: seq<string>, texts: seq<string>, leaves: seq<string>)
    requires Tokenize(fold, text) == TokensOfAll(fold, own) && TokensOfAll(fold, texts) == TokensOfAll(fold, leaves)
    ensures TokensOfAll(fold, [text] + texts) == TokensOfAll(fold, own + leaves)
  {
    TokensConcat(fold, [text], texts);
    TokensOfOne(fold, text);
    TokensConcat(fold, own, leaves);
  }

  /** The tokens of a value's text are those of its visible scalars. */
  lemma {:induction false} JsonTokens(lib: Library, v: Json)
    requires FoldsPlainly(lib.fold)
    ensures Tokenize(lib.fold, JsonText(lib, v)) == TokensOfAll(lib.fold, Leaves(lib, v))
  {
    match v
    case Null => assert Tokenize(lib.fold, []) == [];
    case Arr(items) =>
      TokenizeJoin(lib.fold, ItemTexts(lib, items));
      ItemTokens(lib, items);
    case Obj(fields) =>
      TokenizeJoin(lib.fold, FieldTexts(lib, fields));
      FieldTokens(lib, fields);
    case _ => TokensOfOne(lib.fold, JsonText(lib, v));
  }

  lemma {:induction false} ItemTokens(lib: Library, items: seq<Json>)
    requires FoldsPlainly(lib.fold)
    ensures TokensOfAll(lib.fold, ItemTexts(lib, items)) == TokensOfAll(lib.fold, ItemLeaves(lib, items))
  {
    if items != [] {
      JsonTokens(lib, items[0]);
      ItemTokens(lib, items[1..]);
      TokensConcat(lib.fold, Leaves(lib, items[0]), ItemLeaves(lib, items[1..]));
      assert ItemTexts(lib, items)[1..] == ItemTexts(lib, items[1..]);
    }
  }

  lemma {:induction false} OneFieldTokens(lib: Library, f: Field)
    requires FoldsPlainly(lib.fold)
    ensures Tokenize(lib.fold, FieldText(lib, f)) == TokensOfAll(lib.fold, OneFieldLeaves(lib, f))
  {
    JsonTokens(lib, f.value);
  }

  lemma {:induction false} FieldTokens(lib: Library, fields: seq<Field>)
    requires FoldsPlainly(lib.fold)
    ensures TokensOfAll(lib.fold, FieldTexts(lib, fields)) == TokensOfAll(lib.fold, FieldLeaves(lib, fields))
  {
    if fields != [] {
      var rest := fields[1..];
      FieldTokens(lib, rest);
      if Hidden(lib, fields[0].key) {
        assert FieldTexts(lib, fields) == FieldTexts(lib, rest);
        assert FieldLeaves(lib, fields) == FieldLeaves(lib, rest);
      } else {
        OneFieldTokens(lib, fields[0]);
        TokensStep(lib.fold, FieldText(lib, fields[0]), OneFieldLeaves(lib, fields[0]), FieldTexts(lib, rest),
                   FieldLeaves(lib, rest));
        assert FieldTexts(lib, fields) == [FieldText(lib, fields[0])] + FieldTexts(lib, rest);
        assert FieldLeaves(lib, fields) == OneFieldLeaves(lib, fields[0]) + FieldLeaves(lib, rest);
      }
    }
  }

  // ----- what an entry says about its event -----

  /** Text put after other text, a space between them where both are there. */
  function Then(a: string, b: string): string {
    if b == [] then a else if a == [] then b else a + (" " + b)
  }

  lemma {:induction false} JoinedIsEmpty(parts: seq<string>)
    ensures Join(NonEmpty(parts), " ") == [] <==> NonEmpty(parts) == []
  {
    if parts != [] {
      JoinedIsEmpty(parts[1..]);
      if parts[0] == [] {
        assert NonEmpty(parts) == NonEmpty(parts[1..]);
      } else {
        assert NonEmpty(parts)[0] == parts[0];
      }
    }
  }

  lemma JoinedThen(parts: seq<string>, t: string)
    ensures Join(NonEmpty(parts + [t]), " ") == Then(Join(NonEmpty(parts), " "), t)
  {
    NonEmptyAppend(parts, t);
    JoinedIsEmpty(parts);
    if t == [] {
      assert NonEmpty(parts) + [] == NonEmpty(parts);
    } else {
      JoinAppend(NonEmpty(parts), t);
    }
  }

  /** The event's own fields, but for its metadata. */
  function OwnFields(e: MemoryEvent): seq<string> {
    [e.source, e.kind, if e.externalId.Some? then e.externalId.value else "",
     if e.occurredAt.Some? then e.occurredAt.value else "", e.receivedAt, if e.text.Some? then e.text.value else ""]
  }

  function ThenAll(parts: seq<string>): string {
    if parts == [] then [] else Then(ThenAll(parts[..|parts| - 1]), parts[|parts| - 1])
  }

  lemma {:induction false} JoinedIsThenAll(parts: seq<string>)
    ensures Join(NonEmpty(parts), " ") == ThenAll(parts)
  {
    if parts != [] {
      var init := parts[..|parts| - 1];
      JoinedIsThenAll(init);
      JoinedThen(init, parts[|parts| - 1]);
      assert parts == init + [parts[|parts| - 1]];
    }
  }

  /** A text that is too long is cut one character short of the limit and trimmed. */
  predicate Shown(max: nat, shown: string, text: string)
    requires max > 0
  {
    if |text| <= max then shown == text else shown == Trim(text[..max - 1]) + "..."
  }

  /** What an entry shows of metadata: the scalars under harmless keys, long texts cut. */
  predicate ShownField(lib: Library, f: Field, g: Field) {
    && f.key == g.key && !Hidden(lib, g.key)
    && match g.value
       case Str(s) => f.value.Str? && Shown(200, f.value.chars, s)
       case Arr(_) => false
       case Obj(_) => false
       case _ => f.value == g.value
  }

  ghost predicate ShownIn(lib: Library, f: Field, fields: seq<Field>) {
    exists g :: g in fields && ShownField(lib, f, g)
  }

  lemma FirstIsShown(lib: Library, g: Field, f: Field)
    ensures ShownField(lib, f, g) <==>
      !Sensitive(lib, g.key) && Scalar(g.value) && f == Field(g.key, ShortValue(g.value))
  {
    assert Sensitive(lib, g.key) <==> Hidden(lib, g.key);
  }

  lemma {:induction false} SafeFieldsAreShown(lib: Library, fields: seq<Field>, f: Field)
    ensures f in SafeFields(lib, fields) <==> ShownIn(lib, f, fields)
  {
    if fields != [] {
      var rest := fields[1..];
      SafeFieldsAreShown(lib, rest, f);
      FirstIsShown(lib, fields[0], f);
      if ShownIn(lib, f, fields) {
        var g :| g in fields && ShownField(lib, f, g);
        assert g == fields[0] || g in rest;
      }
      if ShownIn(lib, f, rest) {
        var g :| g in rest && ShownField(lib, f, g);
        assert g in fields;
      }
    }
  }

  ghost predicate ShowsMetadata(lib: Library, shown: Option<Json>, m: Json)
    requires m.Obj?
  {
    && (shown.None? ==> forall f :: !ShownIn(lib, f, m.fields))
    && (shown.Some? ==> shown.value.Obj? && forall f :: f in shown.value.fields <==> ShownIn(lib, f, m.fields))
  }

  /** An entry is its event, column by column. */
  lemma EntryShowsEvent(lib: Library, index: nat -> string, e: MemoryEvent)
    requires e.metadata.None? || e.metadata.value.Obj?
    ensures var r := ServiceEntry(lib, index, e);
      && r.id == e.id && r.receivedAt == e.receivedAt && r.source == e.source && r.kind == e.kind
      && r.occurredAt == e.occurredAt && r.externalId == e.externalId && r.privacy == e.privacy
      && (e.text.None? ==> r.text.None?)
      && (e.text.Some? ==> r.text.Some? && Shown(4000, r.text.value, e.text.value))
      && (e.metadata.None? ==> r.metadata.None?)
      && (e.metadata.Some? ==> ShowsMetadata(lib, r.metadata, e.metadata.value))
      && Shown(4000, r.searchableText,
               ThenAll(OwnFields(e) + [if e.metadata.Some? then JsonText(lib, e.metadata.value) else ""]))
  {
    var t := ServiceMetadataText(lib, e.metadata);
    JoinedIsThenAll(Parts(e, t));
    assert Parts(e, t) == OwnFields(e) + [if e.metadata.Some? then JsonText(lib, e.metadata.value) else ""];
    if e.metadata.Some? {
      var fields := e.metadata.value.fields;
      forall f ensures f in SafeFields(lib, fields) <==> ShownIn(lib, f, fields) {
        SafeFieldsAreShown(lib, fields, f);
      }
      assert SafeFields(lib, fields) == [] || SafeFields(lib, fields)[0] in SafeFields(lib, fields);
    }
  }

  lemma {:induction false} SumOfConcat(fold: Fold, a: seq<string>, b: seq<string>, t: string)
    ensures SumOfCounts(fold, a + b, t) == SumOfCounts(fold, a, t) + SumOfCounts(fold, b, t)
  {
    if a == [] {
      assert a + b == b;
    } else {
      assert (a + b)[1..] == a[1..] + b;
      SumOfConcat(fold, a[1..], b, t);
    }
  }

  lemma EntryTokens(lib: Library, index: nat -> string, e: MemoryEvent)
    requires FoldsPlainly(lib.fold)
    requires |ThenAll(OwnFields(e) + [ServiceMetadataText(lib, e.metadata)])| <= 4000
    ensures ServiceEntry(lib, index, e).terms ==
      TermCounts(TokensOfAll(lib.fold, OwnFields(e) + [ServiceMetadataText(lib, e.metadata)]))
  {
    var text := ServiceMetadataText(lib, e.metadata);
    FittingText(e, text);
    TokensOfJoined(lib.fold, OwnFields(e) + [text]);
  }

  lemma FittingText(e: MemoryEvent, text: string)
    requires |ThenAll(OwnFields(e) + [text])| <= 4000
    ensures SearchableText(e, text) == Join(NonEmpty(OwnFields(e) + [text]), " ")
  {
    assert Parts(e, text) == OwnFields(e) + [text];
    JoinedIsThenAll(OwnFields(e) + [text]);
  }

  lemma TokensOfJoined(fold: Fold, parts: seq<string>)
    requires FoldsPlainly(fold)
    ensures Tokenize(fold, Join(NonEmpty(parts), " ")) == TokensOfAll(fold, parts)
  {
    TokenizeJoin(fold, NonEmpty(parts));
    EmptyPartsHaveNoTokens(fold, parts);
  }

  /** While the text fits, an entry counts each term once per occurrence in each field and
      in each visible scalar of the metadata: nothing is merged across fields and nothing
      is lost between them. */
  lemma TermsAreFieldSums(lib: Library, index: nat -> string, e: MemoryEvent, t: string)
    requires FoldsPlainly(lib.fold) && (e.metadata.None? || e.metadata.value.Obj?)
    requires |ThenAll(OwnFields(e) + [if e.metadata.Some? then JsonText(lib, e.metadata.value) else ""])| <= 4000
    ensures var terms := ServiceEntry(lib, index, e).terms;
      (if t in terms then terms[t] else 0) ==
        SumOfCounts(lib.fold, OwnFields(e), t)
        + (if e.metadata.Some? then SumOfCounts(lib.fold, Leaves(lib, e.metadata.value), t) else 0)
  {
    var text := ServiceMetadataText(lib, e.metadata);
    EntryTokens(lib, index, e);
    CountsAddUp(lib.fold, OwnFields(e) + [text], t);
    SumOfConcat(lib.fold, OwnFields(e), [text], t);
    MetadataCounts(lib, e, t);
  }

  lemma MetadataCounts(lib: Library, e: MemoryEvent, t: string)
    requires FoldsPlainly(lib.fold) && (e.metadata.None? || e.metadata.value.Obj?)
    ensures SumOfCounts(lib.fold, [ServiceMetadataText(lib, e.metadata)], t) ==
      if e.metadata.Some? then SumOfCounts(lib.fold, Leaves(lib, e.metadata.value), t) else 0
  {
    var text := ServiceMetadataText(lib, e.metadata);
    assert [text][1..] == [];
    assert SumOfCounts(lib.fold, [], t) == 0;
    if e.metadata.Some? {
      JsonTokens(lib, e.metadata.value);
      CountsAddUp(lib.fold, Leaves(lib, e.metadata.value), t);
    } else {
      assert Tokenize(lib.fold, []) == [];
    }
  }
}
