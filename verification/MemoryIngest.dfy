/**
 The two ways into the memory log: the ingest route, which validates, appends and tries
 to rebuild the index, and the mail webhook, which only appends.
 */
module MemoryIngest {
  import opened Basics
  import opened Json
  import opened Text
  import opened MemoryIndex
  import opened MemoryLog

  datatype Payload = Payload(
    source: string, kind: string, text: Option<string>, occurredAt: Option<string>,
    externalId: Option<string>, privacy: Option<string>, metadata: Option<Json>)

  datatype Refusal =
    InvalidPayload | SourceRequired | KindRequired | BadDate | BadPrivacy | BadMetadata | UnsupportedEvent

  /** Whether Date.parse understands a text. */
  type DateTest = string -> bool

  // ----- what a payload must satisfy -----

  function Chars(v: Option<Json>): Option<string> {
    if v.Some? && v.value.Str? then Some(v.value.chars) else None
  }

  function NonBlank(v: Option<string>): Option<string> {
    if v.Some? && !Blank(v.value) then v else None
  }

  predicate PrivacyLevel(s: string) {
    s == "public" || s == "internal" || s == "private" || s == "restricted"
  }

  /** The requirement behind each refusal of the ingest route. */
  predicate Meets(isDate: DateTest, payload: Json, refusal: Refusal) {
    if !payload.Obj? then !refusal.InvalidPayload?
    else
      var fields := payload.fields;
      match refusal
      case SourceRequired => NonBlank(Chars(Get(fields, "source"))).Some?
      case KindRequired => NonBlank(Chars(Get(fields, "kind"))).Some?
      case BadDate => Chars(Get(fields, "occurredAt")).Some? ==> isDate(Chars(Get(fields, "occurredAt")).value)
      case BadPrivacy => Chars(Get(fields, "privacy")).Some? ==> PrivacyLevel(Chars(Get(fields, "privacy")).value)
      case BadMetadata => Get(fields, "metadata").Some? ==> Get(fields, "metadata").value.Obj?
      case _ => true
  }

  function Rank(r: Refusal): nat {
    match r
    case InvalidPayload => 0
    case SourceRequired => 1
    case KindRequired => 2
    case BadDate => 3
    case BadPrivacy => 4
    case BadMetadata => 5
    case UnsupportedEvent => 6
  }

  predicate WellFormed(isDate: DateTest, payload: Json) {
    forall r: Refusal :: Meets(isDate, payload, r)
  }

  /** What is kept of a well-formed payload; names are trimmed, the text is not. */
  function Accepted(fields: seq<Field>): Payload {
    var id := NonBlank(Chars(Get(fields, "externalId")));
    Payload(
      Trim(Requested(Chars(Get(fields, "source")))), Trim(Requested(Chars(Get(fields, "kind")))),
      NonBlank(Chars(Get(fields, "text"))), Chars(Get(fields, "occurredAt")),
      if id.Some? then Some(Trim(id.value)) else None,
      Chars(Get(fields, "privacy")), Get(fields, "metadata"))
  }

  function Requested(s: Option<string>): string {
    if s.Some? then s.value else ""
  }

  /** Refuses at the first requirement that is not met. */
  method ValidateMemoryIngestPayload(isDate: DateTest, payload: Json) returns (r: Result<Payload, Refusal>)
    ensures r.Ok? <==> WellFormed(isDate, payload)
    ensures r.Ok? ==> payload.Obj? && r.value == Accepted(payload.fields)
    ensures r.Err? ==> !Meets(isDate, payload, r.error)
    ensures r.Err? ==> forall c: Refusal :: Rank(c) < Rank(r.error) ==> Meets(isDate, payload, c)
  {
    if !payload.Obj? {
      assert !Meets(isDate, payload, InvalidPayload);
      return Err(InvalidPayload);
    }
    var fields := payload.fields;
    var source := Chars(Get(fields, "source"));
    if source.None? || Blank(source.value) {
      assert !Meets(isDate, payload, SourceRequired);
      return Err(SourceRequired);
    }
    var kind := Chars(Get(fields, "kind"));
    if kind.None? || Blank(kind.value) {
      assert !Meets(isDate, payload, KindRequired);
      return Err(KindRequired);
    }
    var event := Payload(Trim(source.value), Trim(kind.value), None, None, None, None, None);
    var text := Chars(Get(fields, "text"));
    if text.Some? && !Blank(text.value) {
      event := event.(text := text);
    }
    var occurredAt := Chars(Get(fields, "occurredAt"));
    if occurredAt.Some? {
      if !isDate(occurredAt.value) {
        assert !Meets(isDate, payload, BadDate);
        return Err(BadDate);
      }
      event := event.(occurredAt := occurredAt);
    }
    var externalId := Chars(Get(fields, "externalId"));
    if externalId.Some? && !Blank(externalId.value) {
      event := event.(externalId := Some(Trim(externalId.value)));
    }
    var privacy := Chars(Get(fields, "privacy"));
    if privacy.Some? {
      if privacy.value != "public" && privacy.value != "internal" && privacy.value != "private"
         && privacy.value != "restricted" {
        assert !Meets(isDate, payload, BadPrivacy);
        return Err(BadPrivacy);
      }
      event := event.(privacy := privacy);
    }
    var metadata := Get(fields, "metadata");
    if metadata.Some? {
      if !metadata.value.Obj? {
        assert !Meets(isDate, payload, BadMetadata);
        return Err(BadMetadata);
      }
      event := event.(metadata := metadata);
    }
    r := Ok(event);
  }

  function EventOf(p: Payload, id: string, receivedAt: string): MemoryEvent {
    MemoryEvent(id, receivedAt, p.source, p.kind, p.text, p.occurredAt, p.externalId, p.privacy, p.metadata)
  }

  /** Whatever passes validation can be read back from the log, and both index builders
      treat it alike. */
  lemma AcceptedIsReadable(isDate: DateTest, payload: Json, id: string, receivedAt: string)
    requires payload.Obj? && WellFormed(isDate, payload) && !Blank(id) && !Blank(receivedAt)
    ensures var e := EventOf(Accepted(payload.fields), id, receivedAt); NonBlankFields(e) && IngestMetadata(e)
  {
    assert Meets(isDate, payload, SourceRequired) && Meets(isDate, payload, KindRequired);
    assert Meets(isDate, payload, BadMetadata);
    TrimIsTight(Requested(Chars(Get(payload.fields, "source"))));
    TrimIsTight(Requested(Chars(Get(payload.fields, "kind"))));
  }

  /** The logged event, field by field: source, kind and external id trimmed, the rest as
      supplied, and a blank text or external id left out. */
  lemma LoggedFields(payload: Json, id: string, receivedAt: string)
    requires payload.Obj?
    ensures var f, e := payload.fields, EventOf(Accepted(payload.fields), id, receivedAt);
      && e.id == id && e.receivedAt == receivedAt && e.metadata == Get(f, "metadata")
      && (forall s :: Get(f, "source") == Some(Str(s)) ==> e.source == Trim(s))
      && (forall s :: Get(f, "kind") == Some(Str(s)) ==> e.kind == Trim(s))
      && (forall s :: Get(f, "text") == Some(Str(s)) ==> e.text == if Trim(s) == "" then None else Some(s))
      && (forall s :: Get(f, "occurredAt") == Some(Str(s)) ==> e.occurredAt == Some(s))
      && (forall s :: Get(f, "externalId") == Some(Str(s)) ==>
           e.externalId == if Trim(s) == "" then None else Some(Trim(s)))
      && (forall s :: Get(f, "privacy") == Some(Str(s)) ==> e.privacy == Some(s))
      && (Get(f, "text").None? ==> e.text.None?) && (Get(f, "occurredAt").None? ==> e.occurredAt.None?)
      && (Get(f, "externalId").None? ==> e.externalId.None?) && (Get(f, "privacy").None? ==> e.privacy.None?)
  {}

  // ----- the webhook -----

  const SupportedEvent := "message.received"

  /** The name of the event the webhook was called for. */
  function Supplied(fields: seq<Field>): Option<string> {
    if Chars(Get(fields, "event")).Some? then Chars(Get(fields, "event"))
    else if Chars(Get(fields, "event_type")).Some? then Chars(Get(fields, "event_type"))
    else Chars(Get(fields, "type"))
  }

  function SuppliedId(fields: seq<Field>): string {
    if Chars(Get(fields, "id")).Some? then Chars(Get(fields, "id")).value
    else if Chars(Get(fields, "message_id")).Some? then Chars(Get(fields, "message_id")).value
    else "not-provided"
  }

  function WebhookPayload(fields: seq<Field>): Payload {
    Payload("hostinger-mail", "message.received", None, Chars(Get(fields, "timestamp")), Some(SuppliedId(fields)),
            Some("private"), Some(Obj([Field("event", Str(SupportedEvent))])))
  }

  /** What the webhook logs: a private mail event with the sender's id and time, and none of
      the mail itself. */
  lemma WebhookFields(fields: seq<Field>, id: string, receivedAt: string)
    ensures var e := EventOf(WebhookPayload(fields), id, receivedAt);
      && e.id == id && e.receivedAt == receivedAt && e.source == "hostinger-mail" && e.kind == "message.received"
      && e.text.None? && e.privacy == Some("private")
      && (forall s :: Get(fields, "timestamp") == Some(Str(s)) ==> e.occurredAt == Some(s))
      && (Get(fields, "timestamp").None? ==> e.occurredAt.None?)
      && (forall s :: Get(fields, "id") == Some(Str(s)) ==> e.externalId == Some(s))
      && (Get(fields, "id").None? ==>
           forall s :: Get(fields, "message_id") == Some(Str(s)) ==> e.externalId == Some(s))
      && (Get(fields, "id").None? && Get(fields, "message_id").None? ==> e.externalId == Some("not-provided"))
      && e.metadata == Some(Obj([Field("event", Str("message.received"))]))
  {}

  lemma WebhookIsReadable(fields: seq<Field>, id: string, receivedAt: string)
    requires !Blank(id) && !Blank(receivedAt)
    ensures var e := EventOf(WebhookPayload(fields), id, receivedAt); NonBlankFields(e) && IngestMetadata(e)
  {
    assert "hostinger-mail"[0] == 'h' && "hostinger-mail"[|"hostinger-mail"| - 1] == 'l';
    TrimOfTight("hostinger-mail");
    assert "message.received"[0] == 'm' && "message.received"[|"message.received"| - 1] == 'd';
    TrimOfTight("message.received");
  }

  // ----- the service -----

  class MemoryService {
    const codec: Codec
    const build: Builder
    var log: Option<string>
    var index: Option<Index>

    function Raw(): string
      reads this
    {
      Requested(log)
    }

    function Queued(): seq<MemoryEvent>
      reads this
    {
      ReadQueue(codec, Raw()).events
    }

    /** The log ends in a whole line, and the index lists a prefix of its events. */
    ghost predicate Valid()
      reads this
    {
      && IsCodec(codec) && EndsWithNewline(Raw())
      && (index.Some? ==> index.value.entries <= EntriesOf(build, Queued()))
    }

    constructor (codec: Codec, build: Builder)
      requires IsCodec(codec)
      ensures Valid() && log == None && index == None && this.codec == codec && this.build == build
    {
      this.codec, this.build, log, index := codec, build, None, None;
    }

    method AppendMemoryEvent(p: Payload, id: string, receivedAt: string) returns (event: MemoryEvent)
      requires Valid() && NonBlankFields(EventOf(p, id, receivedAt))
      modifies this`log
      ensures Valid() && event == EventOf(p, id, receivedAt)
      ensures log == Some(Append(codec, old(Raw()), event))
      ensures Queued() == old(Queued()) + [event]
    {
      event := MemoryEvent(id, receivedAt, p.source, p.kind, p.text, p.occurredAt, p.externalId, p.privacy, p.metadata);
      AppendedIsRead(codec, Raw(), event);
      var line := codec.format(event) + "\n";
      assert Raw() + line == Append(codec, Raw(), event);
      log := Some(Requested(log) + line);
    }

    /** Reads the whole log and replaces the index, unless writing it fails. */
    method RebuildMemoryIndex(fails: bool) returns (done: bool)
      requires Valid()
      modifies this`index
      ensures Valid() && done == !fails
      ensures index == if done then Some(Image(codec, build, Raw())) else old(index)
    {
      var queue := ReadMemoryEvents(codec, log);
      EmptyLogIsEmptyQueue(codec);
      var built := IndexOf(build, queue);
      if fails {
        return false;
      }
      index := Some(built);
      done := true;
    }

    /** An accepted event is the log's last; a failed rebuild costs the index only. */
    method Ingest(isDate: DateTest, payload: Json, id: string, receivedAt: string, rebuildFails: bool)
        returns (r: Result<bool, Refusal>)
      requires Valid() && !Blank(id) && !Blank(receivedAt)
      modifies this
      ensures Valid()
      ensures r.Ok? <==> WellFormed(isDate, payload)
      ensures r.Err? ==> log == old(log) && index == old(index)
      ensures r.Ok? ==> payload.Obj? && Queued() == old(Queued()) + [EventOf(Accepted(payload.fields), id, receivedAt)]
      ensures r.Ok? ==> r.value == !rebuildFails
      ensures r.Ok? ==> index == if r.value then Some(Image(codec, build, Raw())) else old(index)
    {
      var validated := ValidateMemoryIngestPayload(isDate, payload);
      if validated.Err? {
        return Err(validated.error);
      }
      AcceptedIsReadable(isDate, payload, id, receivedAt);
      var event := AppendMemoryEvent(validated.value, id, receivedAt);
      var indexed := RebuildMemoryIndex(rebuildFails);
      r := Ok(indexed);
    }

    /** The mail webhook appends when it is switched on; the index waits for the next
        rebuild. */
    method MailWebhook(enabled: bool, payload: Json, id: string, receivedAt: string) returns (r: Result<bool, Refusal>)
      requires Valid() && !Blank(id) && !Blank(receivedAt)
      modifies this`log
      ensures Valid()
      ensures r.Ok? <==> payload.Obj? && Supplied(payload.fields) in {None, Some(SupportedEvent)}
      ensures r.Ok? ==> r.value == enabled
      ensures Queued() == if r == Ok(true)
                          then old(Queued()) + [EventOf(WebhookPayload(payload.fields), id, receivedAt)]
                          else old(Queued())
    {
      if !payload.Obj? {
        return Err(InvalidPayload);
      }
      var fields := payload.fields;
      var supplied := Chars(Get(fields, "event"));
      if supplied.None? {
        supplied := Chars(Get(fields, "event_type"));
      }
      if supplied.None? {
        supplied := Chars(Get(fields, "type"));
      }
      if supplied.Some? && supplied.value != "message.received" {
        return Err(UnsupportedEvent);
      }
      var eventId := "not-provided";
      if Chars(Get(fields, "id")).Some? {
        eventId := Chars(Get(fields, "id")).value;
      } else if Chars(Get(fields, "message_id")).Some? {
        eventId := Chars(Get(fields, "message_id")).value;
      }
      if enabled {
        WebhookIsReadable(fields, id, receivedAt);
        var occurredAt := Chars(Get(fields, "timestamp"));
        var metadata := Obj([Field("event", Str("message.received"))]);
        var event := AppendMemoryEvent(
          Payload("hostinger-mail", "message.received", None, occurredAt, Some(eventId), Some("private"),
                  Some(metadata)),
          id, receivedAt);
      }
      r := Ok(enabled);
    }
  }

  // ----- logs written by the service -----

  /** What leads to a line of the log: an accepted payload or a call of the webhook. */
  datatype Origin =
    | ByIngest(payload: Json, id: string, receivedAt: string)
    | ByWebhook(fields: seq<Field>, id: string, receivedAt: string)

  predicate Admissible(isDate: DateTest, o: Origin) {
    !Blank(o.id) && !Blank(o.receivedAt) && (o.ByIngest? ==> o.payload.Obj? && WellFormed(isDate, o.payload))
  }

  function WrittenEvent(isDate: DateTest, o: Origin): MemoryEvent
    requires Admissible(isDate, o)
  {
    match o
    case ByIngest(payload, id, receivedAt) => EventOf(Accepted(payload.fields), id, receivedAt)
    case ByWebhook(fields, id, receivedAt) => EventOf(WebhookPayload(fields), id, receivedAt)
  }

  function WrittenEvents(isDate: DateTest, origins: seq<Origin>): (events: seq<MemoryEvent>)
    requires forall o :: o in origins ==> Admissible(isDate, o)
    ensures |events| == |origins| && forall k :: 0 <= k < |events| ==> events[k] == WrittenEvent(isDate, origins[k])
  {
    seq(|origins|, k requires 0 <= k < |origins| => WrittenEvent(isDate, origins[k]))
  }

  lemma WrittenIsReadable(isDate: DateTest, origins: seq<Origin>, e: MemoryEvent)
    requires forall o :: o in origins ==> Admissible(isDate, o)
    requires e in WrittenEvents(isDate, origins)
    ensures NonBlankFields(e) && IngestMetadata(e)
  {
    var k :| 0 <= k < |origins| && e == WrittenEvent(isDate, origins[k]);
    assert origins[k] in origins;
    match origins[k]
    case ByIngest(payload, id, receivedAt) => AcceptedIsReadable(isDate, payload, id, receivedAt);
    case ByWebhook(fields, id, receivedAt) => WebhookIsReadable(fields, id, receivedAt);
  }

  /** A log that was written by ingests and webhook calls only reads back as exactly
      their events. */
  lemma WrittenLogReads(c: Codec, isDate: DateTest, origins: seq<Origin>)
    requires IsCodec(c) && forall o :: o in origins ==> Admissible(isDate, o)
    ensures ReadQueue(c, LogOf(c, "", WrittenEvents(isDate, origins))) == Queue(WrittenEvents(isDate, origins), 0)
  {
    var events := WrittenEvents(isDate, origins);
    forall e | e in events ensures NonBlankFields(e) {
      WrittenIsReadable(isDate, origins, e);
    }
    EmptyLogIsEmptyQueue(c);
    LogReads(c, "", events);
    assert [] + events == events;
  }

  /** From every such log the offline script builds the index that the service builds. */
  lemma ScriptBuildsSameIndex(c: Codec, lib: Library, index: nat -> string, isDate: DateTest, origins: seq<Origin>)
    requires IsCodec(c) && forall o :: o in origins ==> Admissible(isDate, o)
    ensures var log := LogOf(c, "", WrittenEvents(isDate, origins));
      Image(c, Service(lib, index), log) == Image(c, Script(lib), log)
  {
    var events := WrittenEvents(isDate, origins);
    WrittenLogReads(c, isDate, origins);
    forall e | e in events ensures SameForBoth(lib, index, e) {
      WrittenIsReadable(isDate, origins, e);
    }
    ScriptBuildsSameIndexExactly(c, lib, index, LogOf(c, "", events));
  }
}
