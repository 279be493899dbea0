/** What a search answers while events arrive and rebuilds race. */
module MemoryAnswers {
  import opened Basics
  import opened MemoryIndex
  import opened MemoryLog
  import opened MemorySearch

  const NO_STORE := Store("", None, map[], map[])

  /** Under every interleaving of ingests, webhook appends and racing or failing rebuilds
      a search answers as a scan of the first n events of the log would, where n counts
      the events that the rebuild renamed last had read. */
  lemma AnswerIsScanOfPrefix(
      codec: Codec, lib: Library, index: nat -> string, c: Collation, acts: seq<Action>, query: string, limit: nat)
    returns (n: nat)
    requires IsCodec(codec) && IsCollation(c) && Legal(codec, Service(lib, index), acts, NO_STORE)
    requires After(codec, Service(lib, index), acts, NO_STORE).index.Some?
    ensures n <= |Appended(acts)| && CountsAfter(acts).index == Some(n)
    ensures var stored := After(codec, Service(lib, index), acts, NO_STORE).index.value.entries;
      && IsTop(c, ScanHits(lib, index, Appended(acts)[..n], query), limit, Search(lib, c, stored, query, limit))
      && Search(lib, c, stored, query, limit) ==
           Search(lib, c, EntriesOf(Service(lib, index), Appended(acts)[..n]), query, limit)
  {
    IndexTracksRebuilds(codec, Service(lib, index), acts, NO_STORE);
    n := CountsAfter(acts).index.value;
    var events := Appended(acts)[..n];
    AppendedAreEvents(codec, Service(lib, index), acts, NO_STORE);
    EmptyLogIsEmptyQueue(codec);
    LogReads(codec, "", events);
    assert [] + events == events;
    SearchIsTopOfScan(lib, index, c, events, query, limit);
  }
}
