/**
 The append-only event log and the stored index under concurrent ingests, webhook
 appends and rebuilds: whatever fails or races, the stored index is the image of some
 prefix of the log.
 */
module MemoryLog {
  import opened Basics
  import opened Text
  import opened MemoryIndex

  /** What a line of the log parses to. */
  datatype Parsed = Broken | NotAnEvent | Stored(event: MemoryEvent)

  /** The JSON library on log lines. */
  datatype Codec = Codec(parse: string -> Parsed, format: MemoryEvent -> string)

  predicate Blank(line: string) {
    Trim(line) == []
  }

  predicate OneLine(line: string) {
    forall k :: 0 <= k < |line| ==> line[k] != '\n'
  }

  predicate NonBlankFields(e: MemoryEvent) {
    !Blank(e.id) && !Blank(e.receivedAt) && !Blank(e.source) && !Blank(e.kind)
  }

  /** What the library promises: an event with its four required fields prints to one
      non-blank line that reads back as the event. */
  ghost predicate IsCodec(c: Codec) {
    forall e :: NonBlankFields(e) ==> c.parse(c.format(e)) == Stored(e) && OneLine(c.format(e)) && !Blank(c.format(e))
  }

  /** isStoredMemoryEvent: what the reader lets pass as an event has these fields. */
  ghost predicate ChecksFields(c: Codec) {
    forall line :: c.parse(line).Stored? ==> NonBlankFields(c.parse(line).event)
  }

  // ----- reading the queue -----

  /** raw.split('\n') */
  function Lines(cur: string, raw: string): (l: seq<string>)
    ensures l != []
    decreases |raw|
  {
    if raw == [] then [cur]
    else if raw[0] == '\n' then [cur] + Lines([], raw[1..])
    else Lines(cur + [raw[0]], raw[1..])
  }

  function EventsOf(c: Codec, lines: seq<string>): seq<MemoryEvent> {
    if lines == [] then []
    else
      var line := lines[|lines| - 1];
      EventsOf(c, lines[..|lines| - 1])
      + if !Blank(line) && c.parse(line).Stored? then [c.parse(line).event] else []
  }

  function SkippedOf(c: Codec, lines: seq<string>): nat {
    if lines == [] then 0
    else
      var line := lines[|lines| - 1];
      SkippedOf(c, lines[..|lines| - 1]) + if !Blank(line) && !c.parse(line).Stored? then 1 else 0
  }

  function NonBlankOf(lines: seq<string>): nat {
    if lines == [] then 0
    else NonBlankOf(lines[..|lines| - 1]) + if Blank(lines[|lines| - 1]) then 0 else 1
  }

  datatype Queue = Queue(events: seq<MemoryEvent>, skipped: nat)

  function ReadQueue(c: Codec, raw: string): Queue {
    Queue(EventsOf(c, Lines([], raw)), SkippedOf(c, Lines([], raw)))
  }

  lemma {:induction false} EventsHaveFields(c: Codec, lines: seq<string>, e: MemoryEvent)
    requires ChecksFields(c) && e in EventsOf(c, lines)
    ensures Trim(e.id) != "" && Trim(e.receivedAt) != "" && Trim(e.source) != "" && Trim(e.kind) != ""
  {
    var init, line := lines[..|lines| - 1], lines[|lines| - 1];
    if e in EventsOf(c, init) {
      EventsHaveFields(c, init, e);
    } else {
      assert e == c.parse(line).event;
    }
  }

  /** Whatever stands in the file, every entry of its index names an event, a time, a source
      and a kind. */
  lemma IndexedEventsHaveFields(c: Codec, build: Builder, raw: string, k: nat)
    requires ChecksFields(c) && k < |Image(c, build, raw).entries|
    ensures exists e ::
      && e in ReadQueue(c, raw).events && Image(c, build, raw).entries[k] == build(e)
      && Trim(e.id) != "" && Trim(e.receivedAt) != "" && Trim(e.source) != "" && Trim(e.kind) != ""
  {
    var e := ReadQueue(c, raw).events[k];
    EventsHaveFields(c, Lines([], raw), e);
  }

  /** readMemoryEventsFromQueue, line by line; a missing file is an empty queue. */
  method ReadMemoryEvents(c: Codec, file: Option<string>) returns (q: Queue)
    ensures q == if file.None? then Queue([], 0) else ReadQueue(c, file.value)
    ensures file.Some? ==> |q.events| + q.skipped == NonBlankOf(Lines([], file.value))
  {
    if file.None? {
      return Queue([], 0);
    }
    var lines := Lines([], file.value);
    var events, skipped := [], 0;
    for k := 0 to |lines|
      invariant events == EventsOf(c, lines[..k]) && skipped == SkippedOf(c, lines[..k])
      invariant |events| + skipped == NonBlankOf(lines[..k])
    {
      assert lines[..k + 1][..k] == lines[..k];
      if Blank(lines[k]) {
        continue;
      }
      match c.parse(lines[k])
      case Stored(e) => events := events + [e];
      case _ => skipped := skipped + 1;
    }
    assert lines[..|lines|] == lines;
    return Queue(events, skipped);
  }

  // ----- appending -----

  /** appendMemoryEvent */
  function Append(c: Codec, raw: string, e: MemoryEvent): string {
    raw + c.format(e) + "\n"
  }

  predicate EndsWithNewline(raw: string) {
    raw == [] || raw[|raw| - 1] == '\n'
  }

  lemma {:induction false} LinesOfPrefix(cur: string, a: string, b: string)
    requires EndsWithNewline(a) && (a == [] ==> cur == [])
    ensures Lines(cur, a + b) == Lines(cur, a)[..|Lines(cur, a)| - 1] + Lines([], b)
    ensures Lines(cur, a) != [] && Lines(cur, a)[|Lines(cur, a)| - 1] == []
    decreases |a|
  {
    if a == [] {
      assert a + b == b;
    } else {
      assert (a + b)[1..] == a[1..] + b;
      if a[0] == '\n' {
        LinesOfPrefix([], a[1..], b);
        var l := Lines([], a[1..]);
        assert ([cur] + l)[..|l|] == [cur] + l[..|l| - 1];
      } else {
        LinesOfPrefix(cur + [a[0]], a[1..], b);
      }
    }
  }

  lemma {:induction false} LinesOfOne(cur: string, line: string)
    requires OneLine(line)
    ensures Lines(cur, line + "\n") == [cur + line, []]
    decreases |line|
  {
    var s := line + "\n";
    if line == [] {
      assert s == "\n" && s[1..] == [] && cur + line == cur;
    } else {
      assert s[1..] == line[1..] + "\n";
      LinesOfOne(cur + [line[0]], line[1..]);
      assert (cur + [line[0]]) + line[1..] == cur + line;
    }
  }

  lemma {:induction false} ReadConcat(c: Codec, a: seq<string>, b: seq<string>)
    ensures EventsOf(c, a + b) == EventsOf(c, a) + EventsOf(c, b)
    ensures SkippedOf(c, a + b) == SkippedOf(c, a) + SkippedOf(c, b)
  {
    if b == [] {
      assert a + b == a;
    } else {
      assert (a + b)[..|a + b| - 1] == a + b[..|b| - 1];
      ReadConcat(c, a, b[..|b| - 1]);
    }
  }

  lemma BlankLinesReadAsNothing(c: Codec, lines: seq<string>)
    requires |lines| == 1 && lines[0] == []
    ensures EventsOf(c, lines) == [] && SkippedOf(c, lines) == 0
  {
    assert lines[..0] == [];
    assert Blank(lines[0]);
  }

  lemma OneEventRead(c: Codec, e: MemoryEvent)
    requires IsCodec(c) && NonBlankFields(e)
    ensures EventsOf(c, [c.format(e), []]) == [e] && SkippedOf(c, [c.format(e), []]) == 0
  {
    var l := [c.format(e)];
    assert l[..0] == [];
    assert EventsOf(c, l) == [] + [e] && SkippedOf(c, l) == 0;
    BlankLinesReadAsNothing(c, [[]]);
    ReadConcat(c, l, [[]]);
    assert l + [[]] == [c.format(e), []];
  }

  lemma AppendedLines(c: Codec, raw: string, e: MemoryEvent) returns (front: seq<string>)
    requires IsCodec(c) && NonBlankFields(e) && EndsWithNewline(raw)
    ensures Lines([], raw) == front + [[]] && Lines([], Append(c, raw, e)) == front + [c.format(e), []]
  {
    var one := c.format(e) + "\n";
    assert Append(c, raw, e) == raw + one;
    LinesOfPrefix([], raw, one);
    LinesOfOne([], c.format(e));
    assert [] + c.format(e) == c.format(e);
    var l := Lines([], raw);
    front := l[..|l| - 1];
    assert l == front + [l[|l| - 1]];
  }

  /** Appending one event adds exactly that event to what a reader gets. */
  lemma AppendedIsRead(c: Codec, raw: string, e: MemoryEvent)
    requires IsCodec(c) && NonBlankFields(e) && EndsWithNewline(raw)
    ensures EndsWithNewline(Append(c, raw, e))
    ensures ReadQueue(c, Append(c, raw, e)) == Queue(ReadQueue(c, raw).events + [e], ReadQueue(c, raw).skipped)
  {
    var front := AppendedLines(c, raw, e);
    ReadConcat(c, front, [[]]);
    BlankLinesReadAsNothing(c, [[]]);
    ReadConcat(c, front, [c.format(e), []]);
    OneEventRead(c, e);
  }

  lemma EmptyLogIsEmptyQueue(c: Codec)
    ensures ReadQueue(c, "") == Queue([], 0)
  {
    assert Lines([], "") == [[]];
    BlankLinesReadAsNothing(c, [[]]);
  }

  // ----- the index built from a log -----

  /** The stored index without its clock reading and file name. */
  datatype Index = Index(eventCount: nat, skippedCount: nat, entries: seq<IndexEntry>)

  function IndexOf(build: Builder, q: Queue): Index {
    Index(|q.events|, q.skipped, EntriesOf(build, q.events))
  }

  /** The image of a log file. */
  function Image(c: Codec, build: Builder, raw: string): Index {
    IndexOf(build, ReadQueue(c, raw))
  }

  /** Rebuilding after one append extends the entries by exactly that event's entry. */
  lemma RebuildExtends(c: Codec, build: Builder, raw: string, e: MemoryEvent)
    requires IsCodec(c) && NonBlankFields(e) && EndsWithNewline(raw)
    ensures var old', new' := Image(c, build, raw), Image(c, build, Append(c, raw, e));
      new'.entries == old'.entries + [build(e)] && new'.eventCount == old'.eventCount + 1
      && new'.skippedCount == old'.skippedCount
  {
    AppendedIsRead(c, raw, e);
  }

  // ----- ingests, webhooks and racing rebuilds -----

  type JobId = nat
  type TempName = nat

  /** A rebuild holds the index it built, then waits to rename the file it wrote. */
  datatype Job = Built(index: Index) | Wrote(name: TempName)

  datatype Store = Store(raw: string, index: Option<Index>, temps: map<TempName, Index>, jobs: map<JobId, Job>)

  /** Temporary names come from the process id and the clock, so two rebuilds may
      choose the same one. */
  datatype Action =
    | AppendEvent(e: MemoryEvent)
    | ReadAndBuild(j: JobId)
    | WriteTemp(j: JobId, name: TempName)
    | Rename(j: JobId)
    | Fail(j: JobId)

  predicate Enabled(s: Store, a: Action) {
    match a
    case AppendEvent(e) => NonBlankFields(e)
    case ReadAndBuild(j) => j !in s.jobs
    case WriteTemp(j, _) => j in s.jobs && s.jobs[j].Built?
    case Rename(j) => j in s.jobs && s.jobs[j].Wrote?
    case Fail(j) => j in s.jobs
  }

  function Step(c: Codec, build: Builder, s: Store, a: Action): Store
    requires Enabled(s, a)
  {
    match a
    case AppendEvent(e) => s.(raw := Append(c, s.raw, e))
    case ReadAndBuild(j) => s.(jobs := s.jobs[j := Built(Image(c, build, s.raw))])
    case WriteTemp(j, name) => s.(temps := s.temps[name := s.jobs[j].index], jobs := s.jobs[j := Wrote(name)])
    case Rename(j) =>
      var name := s.jobs[j].name;
      if name in s.temps
      then s.(index := Some(s.temps[name]), temps := s.temps - {name}, jobs := s.jobs - {j})
      else s.(jobs := s.jobs - {j})
    case Fail(j) => s.(jobs := s.jobs - {j})
  }

  ghost predicate Legal(c: Codec, build: Builder, acts: seq<Action>, s: Store)
    decreases |acts|, 0
  {
    acts == [] || (Legal(c, build, acts[..|acts| - 1], s) &&
      Enabled(After(c, build, acts[..|acts| - 1], s), acts[|acts| - 1]))
  }

  ghost function After(c: Codec, build: Builder, acts: seq<Action>, s: Store): Store
    requires Legal(c, build, acts, s)
    decreases |acts|, 1
  {
    if acts == [] then s else Step(c, build, After(c, build, acts[..|acts| - 1], s), acts[|acts| - 1])
  }

  /** The events appended so far. */
  ghost function Appended(acts: seq<Action>): seq<MemoryEvent> {
    if acts == [] then []
    else Appended(acts[..|acts| - 1]) + if acts[|acts| - 1].AppendEvent? then [acts[|acts| - 1].e] else []
  }

  ghost function LogOf(c: Codec, raw: string, events: seq<MemoryEvent>): string {
    if events == [] then raw else Append(c, LogOf(c, raw, events[..|events| - 1]), events[|events| - 1])
  }

  /** The image of the log after the first n appends. */
  ghost predicate PrefixImage(c: Codec, build: Builder, raw: string, events: seq<MemoryEvent>, n: nat, i: Index) {
    n <= |events| && i == Image(c, build, LogOf(c, raw, events[..n]))
  }

  ghost predicate IsPrefixImage(c: Codec, build: Builder, raw: string, events: seq<MemoryEvent>, i: Index) {
    exists n: nat :: PrefixImage(c, build, raw, events, n, i)
  }

  /** A longer log has the same shorter prefixes. */
  lemma StillPrefixImages(c: Codec, build: Builder, raw: string, events: seq<MemoryEvent>, e: MemoryEvent)
    ensures forall n: nat, i: Index :: PrefixImage(c, build, raw, events, n, i) ==>
      PrefixImage(c, build, raw, events + [e], n, i)
  {
    forall n: nat, i: Index | PrefixImage(c, build, raw, events, n, i)
      ensures PrefixImage(c, build, raw, events + [e], n, i)
    {
      assert (events + [e])[..n] == events[..n];
    }
  }

  // ----- what the schedule alone says about the store -----

  datatype Progress = Seen(n: nat) | Saved(name: TempName)

  /** The number of appends that each index had seen when its events were read. */
  datatype Counts = Counts(appended: nat, index: Option<nat>, temps: map<TempName, nat>, jobs: map<JobId, Progress>)

  function CountStep(k: Counts, a: Action): Counts {
    match a
    case AppendEvent(_) => k.(appended := k.appended + 1)
    case ReadAndBuild(j) => k.(jobs := k.jobs[j := Seen(k.appended)])
    case WriteTemp(j, name) =>
      if j in k.jobs && k.jobs[j].Seen?
      then k.(temps := k.temps[name := k.jobs[j].n], jobs := k.jobs[j := Saved(name)])
      else k
    case Rename(j) =>
      if j !in k.jobs || k.jobs[j].Seen? then k
      else
        var name := k.jobs[j].name;
        if name in k.temps
        then k.(index := Some(k.temps[name]), temps := k.temps - {name}, jobs := k.jobs - {j})
        else k.(jobs := k.jobs - {j})
    case Fail(j) => k.(jobs := k.jobs - {j})
  }

  function CountsAfter(acts: seq<Action>): Counts {
    if acts == [] then Counts(0, None, map[], map[])
    else CountStep(CountsAfter(acts[..|acts| - 1]), acts[|acts| - 1])
  }

  ghost predicate JobTracks(c: Codec, build: Builder, raw: string, events: seq<MemoryEvent>, job: Job, p: Progress) {
    match job
    case Built(i) => p.Seen? && PrefixImage(c, build, raw, events, p.n, i)
    case Wrote(name) => p == Saved(name)
  }

  /** Every index in the store is the image of as many appends as were counted for it. */
  ghost predicate Tracks(c: Codec, build: Builder, raw: string, events: seq<MemoryEvent>, s: Store, k: Counts) {
    && s.raw == LogOf(c, raw, events) && k.appended == |events|
    && s.index.Some? == k.index.Some?
    && (s.index.Some? ==> PrefixImage(c, build, raw, events, k.index.value, s.index.value))
    && s.temps.Keys == k.temps.Keys
    && (forall t :: t in s.temps ==> PrefixImage(c, build, raw, events, k.temps[t], s.temps[t]))
    && s.jobs.Keys == k.jobs.Keys
    && (forall j :: j in s.jobs ==> JobTracks(c, build, raw, events, s.jobs[j], k.jobs[j]))
  }

  lemma AppendTracks(c: Codec, build: Builder, raw: string, events: seq<MemoryEvent>, s: Store, k: Counts,
        e: MemoryEvent)
    requires Tracks(c, build, raw, events, s, k)
    ensures Tracks(c, build, raw, events + [e], s.(raw := Append(c, s.raw, e)), k.(appended := k.appended + 1))
  {
    assert (events + [e])[..|events|] == events;
    StillPrefixImages(c, build, raw, events, e);
    forall j | j in s.jobs ensures JobTracks(c, build, raw, events + [e], s.jobs[j], k.jobs[j]) {
      assert JobTracks(c, build, raw, events, s.jobs[j], k.jobs[j]);
    }
  }

  lemma ReadTracks(c: Codec, build: Builder, raw: string, events: seq<MemoryEvent>, s: Store, k: Counts, j: JobId)
    requires Tracks(c, build, raw, events, s, k) && j !in s.jobs
    ensures Tracks(c, build, raw, events, Step(c, build, s, ReadAndBuild(j)), CountStep(k, ReadAndBuild(j)))
  {
    assert events[..|events|] == events;
    assert PrefixImage(c, build, raw, events, |events|, Image(c, build, s.raw));
  }

  lemma WriteTracks(c: Codec, build: Builder, raw: string, events: seq<MemoryEvent>, s: Store, k: Counts, j: JobId,
        name: TempName)
    requires Tracks(c, build, raw, events, s, k) && Enabled(s, WriteTemp(j, name))
    ensures Tracks(c, build, raw, events, Step(c, build, s, WriteTemp(j, name)), CountStep(k, WriteTemp(j, name)))
  {
    assert JobTracks(c, build, raw, events, s.jobs[j], k.jobs[j]);
  }

  lemma RenameTracks(c: Codec, build: Builder, raw: string, events: seq<MemoryEvent>, s: Store, k: Counts, j: JobId)
    requires Tracks(c, build, raw, events, s, k) && Enabled(s, Rename(j))
    ensures Tracks(c, build, raw, events, Step(c, build, s, Rename(j)), CountStep(k, Rename(j)))
  {
    assert JobTracks(c, build, raw, events, s.jobs[j], k.jobs[j]);
    assert k.jobs[j] == Saved(s.jobs[j].name);
  }

  lemma FailTracks(c: Codec, build: Builder, raw: string, events: seq<MemoryEvent>, s: Store, k: Counts, j: JobId)
    requires Tracks(c, build, raw, events, s, k) && Enabled(s, Fail(j))
    ensures Tracks(c, build, raw, events, Step(c, build, s, Fail(j)), CountStep(k, Fail(j)))
  {}

  /** A store without an index, as a run begins. */
  predicate Unindexed(s: Store) {
    s.index.None? && s.temps == map[] && s.jobs == map[]
  }

  /** However rebuilds overlap, the stored index is the image of exactly the events that
      the rebuild whose file was renamed last had read. */
  lemma {:induction false} IndexTracksRebuilds(c: Codec, build: Builder, acts: seq<Action>, s: Store)
    requires Legal(c, build, acts, s) && Unindexed(s)
    ensures Tracks(c, build, s.raw, Appended(acts), After(c, build, acts, s), CountsAfter(acts))
  {
    if acts != [] {
      var init, a := acts[..|acts| - 1], acts[|acts| - 1];
      var events, before, k := Appended(init), After(c, build, init, s), CountsAfter(init);
      IndexTracksRebuilds(c, build, init, s);
      if a.AppendEvent? {
        AppendTracks(c, build, s.raw, events, before, k, a.e);
      } else {
        assert Appended(acts) == events;
        match a
        case ReadAndBuild(j) => ReadTracks(c, build, s.raw, events, before, k, j);
        case WriteTemp(j, name) => WriteTracks(c, build, s.raw, events, before, k, j, name);
        case Rename(j) => RenameTracks(c, build, s.raw, events, before, k, j);
        case Fail(j) => FailTracks(c, build, s.raw, events, before, k, j);
      }
    }
  }

  /** Under every interleaving of ingests, webhook appends, failed rebuilds and racing
      rebuilds, the stored index is the image of a prefix of the log. */
  lemma IndexIsPrefixImage(c: Codec, build: Builder, acts: seq<Action>, s: Store)
    requires Legal(c, build, acts, s) && Unindexed(s)
    ensures After(c, build, acts, s).raw == LogOf(c, s.raw, Appended(acts))
    ensures After(c, build, acts, s).index.Some? ==>
      IsPrefixImage(c, build, s.raw, Appended(acts), After(c, build, acts, s).index.value)
  {
    IndexTracksRebuilds(c, build, acts, s);
    var now := After(c, build, acts, s);
    if now.index.Some? {
      assert PrefixImage(c, build, s.raw, Appended(acts), CountsAfter(acts).index.value, now.index.value);
    }
  }

  // ----- when the index loses events -----

  /** The temporary file about to be renamed was read at a smaller count than the index
      in place. */
  predicate Stale(k: Counts, a: Action) {
    && a.Rename? && a.j in k.jobs && k.jobs[a.j].Saved? && k.jobs[a.j].name in k.temps
    && k.index.Some? && k.temps[k.jobs[a.j].name] < k.index.value
  }

  lemma OneMoreRead(c: Codec, log: string, before: Queue, init: seq<MemoryEvent>, e: MemoryEvent)
    requires IsCodec(c) && EndsWithNewline(log) && NonBlankFields(e)
    requires ReadQueue(c, log) == Queue(before.events + init, before.skipped)
    ensures EndsWithNewline(Append(c, log, e))
    ensures ReadQueue(c, Append(c, log, e)) == Queue(before.events + (init + [e]), before.skipped)
  {
    AppendedIsRead(c, log, e);
    assert before.events + (init + [e]) == (before.events + init) + [e];
  }

  lemma {:induction false} LogReads(c: Codec, raw: string, events: seq<MemoryEvent>)
    requires IsCodec(c) && EndsWithNewline(raw) && forall e :: e in events ==> NonBlankFields(e)
    ensures EndsWithNewline(LogOf(c, raw, events))
    ensures ReadQueue(c, LogOf(c, raw, events)) == Queue(ReadQueue(c, raw).events + events, ReadQueue(c, raw).skipped)
  {
    if events == [] {
      assert ReadQueue(c, raw).events + events == ReadQueue(c, raw).events;
    } else {
      LogReads(c, raw, events[..|events| - 1]);
      LastRead(c, raw, events);
    }
  }

  lemma LastRead(c: Codec, raw: string, events: seq<MemoryEvent>)
    requires IsCodec(c) && events != [] && NonBlankFields(events[|events| - 1])
    requires var log := LogOf(c, raw, events[..|events| - 1]);
      && EndsWithNewline(log)
      && ReadQueue(c, log) == Queue(ReadQueue(c, raw).events + events[..|events| - 1], ReadQueue(c, raw).skipped)
    ensures EndsWithNewline(LogOf(c, raw, events))
    ensures ReadQueue(c, LogOf(c, raw, events)) == Queue(ReadQueue(c, raw).events + events, ReadQueue(c, raw).skipped)
  {
    var init, e := events[..|events| - 1], events[|events| - 1];
    assert events == init + [e];
    OneMoreRead(c, LogOf(c, raw, init), ReadQueue(c, raw), init, e);
  }

  lemma {:induction false} AppendedAreEvents(c: Codec, build: Builder, acts: seq<Action>, s: Store)
    requires Legal(c, build, acts, s)
    ensures forall e :: e in Appended(acts) ==> NonBlankFields(e)
  {
    if acts != [] {
      AppendedAreEvents(c, build, acts[..|acts| - 1], s);
    }
  }

  lemma LongerPrefix(c: Codec, build: Builder, raw: string, events: seq<MemoryEvent>, m: nat, a: Index, n: nat,
        b: Index)
    requires IsCodec(c) && EndsWithNewline(raw) && forall e :: e in events ==> NonBlankFields(e)
    requires PrefixImage(c, build, raw, events, m, a) && PrefixImage(c, build, raw, events, n, b) && m <= n
    ensures a.entries <= b.entries && |b.entries| - |a.entries| == n - m
  {
    LogReads(c, raw, events[..m]);
    LogReads(c, raw, events[..n]);
    assert events[..m] == events[..n][..m];
    var before := ReadQueue(c, raw).events;
    LongerEntries(build, before + events[..m], before + events[..n]);
  }

  lemma LongerEntries(build: Builder, x: seq<MemoryEvent>, y: seq<MemoryEvent>)
    requires x <= y
    ensures EntriesOf(build, x) <= EntriesOf(build, y) && |EntriesOf(build, y)| - |EntriesOf(build, x)| == |y| - |x|
  {}

  /** The new index lists everything the old one does. */
  predicate Extends(old': Option<Index>, new': Option<Index>) {
    old'.Some? ==> new'.Some? && old'.value.entries <= new'.value.entries
  }

  ghost function IndexAt(c: Codec, build: Builder, acts: seq<Action>, s: Store, i: nat): Option<Index>
    requires i <= |acts| && Legal(c, build, acts, s)
  {
    LegalPrefix(c, build, acts, s, i);
    After(c, build, acts[..i], s).index
  }

  /** Two rebuilds whose temporary files have the same name: the first to rename puts the
      index of the later writer in place, and the other finds no file and changes nothing. */
  lemma SharedTempName(c: Codec, build: Builder, s: Store, i: JobId, j: JobId, name: TempName)
    requires i != j && i in s.jobs && j in s.jobs && s.jobs[i].Built? && s.jobs[j].Built?
    ensures Enabled(s, WriteTemp(i, name))
    ensures var written := Step(c, build, s, WriteTemp(i, name));
      && Enabled(written, WriteTemp(j, name))
      && var both := Step(c, build, written, WriteTemp(j, name));
      && Enabled(both, Rename(i))
      && var renamed := Step(c, build, both, Rename(i));
      && renamed.index == Some(s.jobs[j].index) && Enabled(renamed, Rename(j))
      && Step(c, build, renamed, Rename(j)) == renamed.(jobs := renamed.jobs - {j})
  {}

  lemma {:induction false} LegalPrefix(c: Codec, build: Builder, acts: seq<Action>, s: Store, i: nat)
    requires i <= |acts| && Legal(c, build, acts, s)
    ensures Legal(c, build, acts[..i], s)
  {
    if i == |acts| {
      assert acts[..i] == acts;
    } else {
      LegalPrefix(c, build, acts[..|acts| - 1], s, i);
      assert acts[..|acts| - 1][..i] == acts[..i];
    }
  }

  lemma RenameLoses(c: Codec, build: Builder, raw: string, events: seq<MemoryEvent>, s: Store, k: Counts, j: JobId)
    requires IsCodec(c) && EndsWithNewline(raw) && forall e :: e in events ==> NonBlankFields(e)
    requires Tracks(c, build, raw, events, s, k) && Enabled(s, Rename(j))
    ensures var after := Step(c, build, s, Rename(j)).index;
      if Stale(k, Rename(j))
      then s.index.Some? && after.Some? && after.value.entries < s.index.value.entries
      else Extends(s.index, after)
  {
    assert JobTracks(c, build, raw, events, s.jobs[j], k.jobs[j]);
    var name := s.jobs[j].name;
    if name in s.temps && s.index.Some? {
      var m, n := k.index.value, k.temps[name];
      if n < m {
        LongerPrefix(c, build, raw, events, n, s.temps[name], m, s.index.value);
      } else {
        LongerPrefix(c, build, raw, events, m, s.index.value, n, s.temps[name]);
      }
    }
  }

  lemma LastActionLoses(c: Codec, build: Builder, acts: seq<Action>, s: Store)
    requires IsCodec(c) && EndsWithNewline(s.raw) && acts != [] && Legal(c, build, acts, s) && Unindexed(s)
    ensures var init := acts[..|acts| - 1];
      var before, after := After(c, build, init, s).index, After(c, build, acts, s).index;
      if Stale(CountsAfter(init), acts[|acts| - 1])
      then before.Some? && after.Some? && after.value.entries < before.value.entries
      else Extends(before, after)
  {
    var init, a := acts[..|acts| - 1], acts[|acts| - 1];
    if a.Rename? {
      IndexTracksRebuilds(c, build, init, s);
      AppendedAreEvents(c, build, init, s);
      RenameLoses(c, build, s.raw, Appended(init), After(c, build, init, s), CountsAfter(init), a.j);
    }
  }

  /** An action makes the stored index lose events if and only if it renames a file that
      was read at a smaller count than the index in place. */
  lemma IndexLosesExactly(c: Codec, build: Builder, acts: seq<Action>, s: Store, i: nat)
    requires IsCodec(c) && EndsWithNewline(s.raw) && i < |acts| && Legal(c, build, acts, s) && Unindexed(s)
    ensures Extends(IndexAt(c, build, acts, s, i), IndexAt(c, build, acts, s, i + 1)) <==>
      !Stale(CountsAfter(acts[..i]), acts[i])
    ensures Stale(CountsAfter(acts[..i]), acts[i]) ==>
      && IndexAt(c, build, acts, s, i).Some? && IndexAt(c, build, acts, s, i + 1).Some?
      && IndexAt(c, build, acts, s, i + 1).value.entries < IndexAt(c, build, acts, s, i).value.entries
  {
    LegalPrefix(c, build, acts, s, i + 1);
    assert acts[..i + 1][..i] == acts[..i];
    LastActionLoses(c, build, acts[..i + 1], s);
  }

  lemma {:induction false} IndexGrowsUnlessStale(c: Codec, build: Builder, acts: seq<Action>, s: Store, i: nat, j: nat)
    requires IsCodec(c) && EndsWithNewline(s.raw) && i <= j <= |acts| && Legal(c, build, acts, s) && Unindexed(s)
    requires forall m :: 0 <= m < |acts| ==> !Stale(CountsAfter(acts[..m]), acts[m])
    ensures Extends(IndexAt(c, build, acts, s, i), IndexAt(c, build, acts, s, j))
  {
    if i < j {
      IndexGrowsUnlessStale(c, build, acts, s, i, j - 1);
      IndexLosesExactly(c, build, acts, s, j - 1);
      ExtendsTransitive(IndexAt(c, build, acts, s, i), IndexAt(c, build, acts, s, j - 1),
                        IndexAt(c, build, acts, s, j));
    }
  }

  lemma ExtendsTransitive(x: Option<Index>, y: Option<Index>, z: Option<Index>)
    requires Extends(x, y) && Extends(y, z)
    ensures Extends(x, z)
  {}

  ghost predicate NeverRegresses(c: Codec, build: Builder, acts: seq<Action>, s: Store)
    requires Legal(c, build, acts, s)
  {
    forall i, j :: 0 <= i <= j <= |acts| ==> Extends(IndexAt(c, build, acts, s, i), IndexAt(c, build, acts, s, j))
  }

  /** Over a run with rebuilds that overlap as they like, the stored index keeps all it
      ever listed if and only if no stale file is renamed. */
  lemma IndexNeverRegressesExactly(c: Codec, build: Builder, acts: seq<Action>, s: Store)
    requires IsCodec(c) && EndsWithNewline(s.raw) && Legal(c, build, acts, s) && Unindexed(s)
    ensures NeverRegresses(c, build, acts, s) <==>
      forall m :: 0 <= m < |acts| ==> !Stale(CountsAfter(acts[..m]), acts[m])
  {
    if forall m :: 0 <= m < |acts| ==> !Stale(CountsAfter(acts[..m]), acts[m]) {
      forall i, j | 0 <= i <= j <= |acts|
        ensures Extends(IndexAt(c, build, acts, s, i), IndexAt(c, build, acts, s, j))
      {
        IndexGrowsUnlessStale(c, build, acts, s, i, j);
      }
    } else {
      var m :| 0 <= m < |acts| && Stale(CountsAfter(acts[..m]), acts[m]);
      IndexLosesExactly(c, build, acts, s, m);
    }
  }

  /** No rebuild starts while another one is under way. */
  predicate OneAtATime(acts: seq<Action>) {
    acts != [] ==>
      OneAtATime(acts[..|acts| - 1])
      && (acts[|acts| - 1].ReadAndBuild? ==> CountsAfter(acts[..|acts| - 1]).jobs == map[])
  }

  /** The one rebuild under way has seen what the index lists, and the log has all. */
  predicate InOrder(k: Counts) {
    && (k.index.Some? ==> k.index.value <= k.appended)
    && (forall j :: j in k.jobs ==> k.jobs.Keys == {j} && Recent(k, k.jobs[j]))
  }

  predicate Recent(k: Counts, p: Progress) {
    match p
    case Seen(n) => Between(k, n)
    case Saved(name) => name in k.temps ==> Between(k, k.temps[name])
  }

  predicate Between(k: Counts, n: nat) {
    n <= k.appended && (k.index.Some? ==> k.index.value <= n)
  }

  lemma StepInOrder(k: Counts, a: Action)
    requires InOrder(k) && (a.ReadAndBuild? ==> k.jobs == map[])
    ensures InOrder(CountStep(k, a))
  {
    match a
    case AppendEvent(_) => assert forall j :: j in k.jobs ==> Recent(k, k.jobs[j]);
    case ReadAndBuild(_) =>
    case _ => assert a.j in k.jobs ==> k.jobs.Keys == {a.j} && Recent(k, k.jobs[a.j]);
  }

  lemma {:induction false} OneAtATimeInOrder(acts: seq<Action>)
    requires OneAtATime(acts)
    ensures InOrder(CountsAfter(acts))
  {
    if acts != [] {
      OneAtATimeInOrder(acts[..|acts| - 1]);
      StepInOrder(CountsAfter(acts[..|acts| - 1]), acts[|acts| - 1]);
    }
  }

  lemma {:induction false} PrefixOneAtATime(acts: seq<Action>, i: nat)
    requires i <= |acts| && OneAtATime(acts)
    ensures OneAtATime(acts[..i])
  {
    if i == |acts| {
      assert acts[..i] == acts;
    } else {
      PrefixOneAtATime(acts[..|acts| - 1], i);
      assert acts[..|acts| - 1][..i] == acts[..i];
    }
  }

  /** In particular it keeps it all while rebuilds do not overlap. */
  lemma IndexNeverRegresses(c: Codec, build: Builder, acts: seq<Action>, s: Store)
    requires IsCodec(c) && EndsWithNewline(s.raw) && Legal(c, build, acts, s) && Unindexed(s) && OneAtATime(acts)
    ensures NeverRegresses(c, build, acts, s)
  {
    forall m | 0 <= m < |acts| ensures !Stale(CountsAfter(acts[..m]), acts[m]) {
      PrefixOneAtATime(acts, m);
      OneAtATimeInOrder(acts[..m]);
    }
    IndexNeverRegressesExactly(c, build, acts, s);
  }

  /** The offline script and the service build the same index from a log if and only if
      they build the same entry from each event in it. */
  lemma ScriptBuildsSameIndexExactly(c: Codec, lib: Library, index: nat -> string, raw: string)
    ensures Image(c, Service(lib, index), raw) == Image(c, Script(lib), raw) <==>
      forall e :: e in ReadQueue(c, raw).events ==> SameForBoth(lib, index, e)
  {
    var events := ReadQueue(c, raw).events;
    var service, script := EntriesOf(Service(lib, index), events), EntriesOf(Script(lib), events);
    forall k | 0 <= k < |events|
      ensures service[k] == script[k] <==> SameForBoth(lib, index, events[k])
    {
      BuildersAgreeExactly(lib, index, events[k]);
    }
  }

  lemma OneMore(c: Codec, build: Builder, acts: seq<Action>, a: Action, s: Store)
    requires Legal(c, build, acts, s) && Enabled(After(c, build, acts, s), a)
    ensures Legal(c, build, acts + [a], s) &&
      After(c, build, acts + [a], s) == Step(c, build, After(c, build, acts, s), a)
  {
    assert (acts + [a])[..|acts|] == acts;
  }

  /** Racing rebuilds may put an older prefix back: the index is a prefix image, but not
      a growing one. */
  lemma RacingRebuildsCanRegress(c: Codec, build: Builder, e: MemoryEvent)
    requires IsCodec(c) && NonBlankFields(e)
    ensures var s := Store("", None, map[], map[]);
      var acts := [ReadAndBuild(1), AppendEvent(e), ReadAndBuild(2), WriteTemp(2, 20), Rename(2)];
      var more := acts + [WriteTemp(1, 10), Rename(1)];
      && Legal(c, build, acts, s) && Legal(c, build, more, s)
      && After(c, build, acts, s).index == Some(Image(c, build, Append(c, "", e)))
      && After(c, build, more, s).index == Some(Image(c, build, ""))
      && Image(c, build, Append(c, "", e)) != Image(c, build, "")
  {
    var s := Store("", None, map[], map[]);
    var old', new' := Image(c, build, ""), Image(c, build, Append(c, "", e));
    RebuildExtends(c, build, "", e);
    var log := Append(c, "", e);
    var a0: seq<Action> := [];
    OneMore(c, build, a0, ReadAndBuild(1), s);
    var a1 := a0 + [ReadAndBuild(1)];
    assert After(c, build, a1, s) == Store("", None, map[], map[1 := Built(old')]);
    OneMore(c, build, a1, AppendEvent(e), s);
    var a2 := a1 + [AppendEvent(e)];
    assert After(c, build, a2, s) == Store(log, None, map[], map[1 := Built(old')]);
    OneMore(c, build, a2, ReadAndBuild(2), s);
    var a3 := a2 + [ReadAndBuild(2)];
    assert After(c, build, a3, s) == Store(log, None, map[], map[1 := Built(old'), 2 := Built(new')]);
    SecondHalf(c, build, a3, s, log, old', new');
    assert a3 + [WriteTemp(2, 20), Rename(2)] ==
      [ReadAndBuild(1), AppendEvent(e), ReadAndBuild(2), WriteTemp(2, 20), Rename(2)];
  }

  lemma SecondHalf(c: Codec, build: Builder, a3: seq<Action>, s: Store, log: string, old': Index, new': Index)
    requires Legal(c, build, a3, s)
    requires After(c, build, a3, s) == Store(log, None, map[], map[1 := Built(old'), 2 := Built(new')])
    ensures var a5 := a3 + [WriteTemp(2, 20), Rename(2)];
      var a7 := a5 + [WriteTemp(1, 10), Rename(1)];
      && Legal(c, build, a5, s) && Legal(c, build, a7, s)
      && After(c, build, a5, s).index == Some(new') && After(c, build, a7, s).index == Some(old')
  {
    OneMore(c, build, a3, WriteTemp(2, 20), s);
    var a4 := a3 + [WriteTemp(2, 20)];
    OneMore(c, build, a4, Rename(2), s);
    var a5 := a3 + [WriteTemp(2, 20), Rename(2)];
    assert a4 + [Rename(2)] == a5;
    OneMore(c, build, a5, WriteTemp(1, 10), s);
    var a6 := a5 + [WriteTemp(1, 10)];
    OneMore(c, build, a6, Rename(1), s);
    assert a6 + [Rename(1)] == a5 + [WriteTemp(1, 10), Rename(1)];
  }
}
