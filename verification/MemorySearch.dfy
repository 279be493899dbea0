/**
 Ranked search: the score read from the index equals a plain scan of the text, and the
 answer is the top of the one stable order by score and then by time received.
 */
module MemorySearch {
  import opened Basics
  import opened Text
  import opened MemoryIndex

  // ----- the query -----

  /** Array.from(new Set(ts)): first occurrences in order. */
  function Distinct(ts: seq<string>): seq<string> {
    if ts == [] then []
    else
      var d := Distinct(ts[..|ts| - 1]);
      if ts[|ts| - 1] in d then d else d + [ts[|ts| - 1]]
  }

  predicate NoDuplicates(q: seq<string>) {
    forall i, j :: 0 <= i < j < |q| ==> q[i] != q[j]
  }

  lemma {:induction false} DistinctIsSet(ts: seq<string>)
    ensures NoDuplicates(Distinct(ts)) && forall t :: t in Distinct(ts) <==> t in ts
  {
    if ts != [] {
      DistinctIsSet(ts[..|ts| - 1]);
    }
  }

  // ----- the score -----

  function CountOf(terms: Terms, t: string): nat {
    if t in terms then terms[t] else 0
  }

  function NameBonus(lib: Library, source: string, kind: string, t: string): nat {
    if lib.lower(source) == t || lib.lower(kind) == t then 2 else 0
  }

  predicate OccursAt(s: string, part: string, i: nat) {
    i + |part| <= |s| && s[i..i + |part|] == part
  }

  predicate Includes(s: string, part: string) {
    exists i :: 0 <= i <= |s| && OccursAt(s, part, i)
  }

  function PhraseBonus(lib: Library, text: string, q: seq<string>, phrase: string): nat {
    if phrase != [] && Includes(Normalize(lib.fold, text), phrase) then (if |q| > 2 then |q| else 2) else 0
  }

  function TermScore(terms: Terms, q: seq<string>): nat {
    if q == [] then 0 else TermScore(terms, q[..|q| - 1]) + CountOf(terms, q[|q| - 1])
  }

  function NameScore(lib: Library, source: string, kind: string, q: seq<string>): nat {
    if q == [] then 0 else NameScore(lib, source, kind, q[..|q| - 1]) + NameBonus(lib, source, kind, q[|q| - 1])
  }

  function Score(lib: Library, e: IndexEntry, q: seq<string>, phrase: string): nat {
    TermScore(e.terms, q) + NameScore(lib, e.source, e.kind, q) + PhraseBonus(lib, e.searchableText, q, phrase)
  }

  /** scoreEntry: one pass over the query terms, then the phrase. */
  method ScoreEntry(lib: Library, e: IndexEntry, q: seq<string>, phrase: string) returns (score: nat)
    ensures score == Score(lib, e, q, phrase)
  {
    score := 0;
    for k := 0 to |q|
      invariant score == TermScore(e.terms, q[..k]) + NameScore(lib, e.source, e.kind, q[..k])
    {
      assert q[..k + 1][..k] == q[..k];
      var term := q[k];
      score := score + if term in e.terms then e.terms[term] else 0;
      if lib.lower(e.source) == term || lib.lower(e.kind) == term {
        score := score + 2;
      }
    }
    assert q[..|q|] == q;
    if phrase != [] && Includes(Normalize(lib.fold, e.searchableText), phrase) {
      score := score + if |q| > 2 then |q| else 2;
    }
  }

  // ----- the plain scan -----

  /** The positions of a text whose token is one of the query's. */
  function Positions(tokens: seq<string>, q: seq<string>): set<nat> {
    set i: nat | i < |tokens| && tokens[i] in q
  }

  lemma PositionsAppend(init: seq<string>, last: string, q: seq<string>)
    ensures |Positions(init + [last], q)| == |Positions(init, q)| + (if last in q then 1 else 0)
  {
    assert Positions(init + [last], q) == Positions(init, q) + (if last in q then {|init|} else {});
  }

  lemma {:induction false} Occurrences(tokens: seq<string>, t: string)
    ensures |Positions(tokens, [t])| == multiset(tokens)[t]
  {
    if tokens == [] {
      assert Positions(tokens, [t]) == {};
    } else {
      var init, last := tokens[..|tokens| - 1], tokens[|tokens| - 1];
      Occurrences(init, t);
      assert tokens == init + [last];
      PositionsAppend(init, last, [t]);
    }
  }

  /** The term part of a score is the number of token positions, in the text itself,
      that hold a query term. */
  lemma {:induction false} TermScoreIsScan(tokens: seq<string>, q: seq<string>)
    requires NoDuplicates(q)
    ensures TermScore(TermCounts(tokens), q) == |Positions(tokens, q)|
  {
    if q == [] {
      assert Positions(tokens, q) == {};
    } else {
      var init, t := q[..|q| - 1], q[|q| - 1];
      TermScoreIsScan(tokens, init);
      Occurrences(tokens, t);
      assert t !in init;
      assert q == init + [t];
      assert Positions(tokens, q) == Positions(tokens, init) + Positions(tokens, [t]);
      assert Positions(tokens, init) !! Positions(tokens, [t]);
      assert CountOf(TermCounts(tokens), t) == multiset(tokens)[t];
    }
  }

  /** What a scan of the events, without any index, would score. */
  function ScanScore(lib: Library, ev: MemoryEvent, query: string): nat {
    var text := SearchableText(ev, ServiceMetadataText(lib, ev.metadata));
    var q := Distinct(Tokenize(lib.fold, query));
    |Positions(Tokenize(lib.fold, text), q)| + NameScore(lib, ev.source, ev.kind, q)
    + PhraseBonus(lib, text, q, Normalize(lib.fold, query))
  }

  lemma IndexScoreIsScanScore(lib: Library, index: nat -> string, ev: MemoryEvent, query: string)
    ensures Score(lib, ServiceEntry(lib, index, ev), Distinct(Tokenize(lib.fold, query)), Normalize(lib.fold, query))
         == ScanScore(lib, ev, query)
  {
    DistinctIsSet(Tokenize(lib.fold, query));
    TermScoreIsScan(Tokenize(lib.fold, SearchableText(ev, ServiceMetadataText(lib, ev.metadata))),
                    Distinct(Tokenize(lib.fold, query)));
  }

  // ----- the score in plain terms -----

  ghost predicate Contains(s: string, part: string) {
    exists a: string, b: string :: s == a + part + b
  }

  lemma IncludesIsContains(s: string, part: string)
    ensures Includes(s, part) <==> Contains(s, part)
  {
    if Includes(s, part) {
      var i :| 0 <= i <= |s| && OccursAt(s, part, i);
      assert s == s[..i] + part + s[i + |part|..];
    }
    if Contains(s, part) {
      var a: string, b: string :| s == a + part + b;
      assert s[|a|..|a| + |part|] == part;
      assert OccursAt(s, part, |a|);
    }
  }

  /** The terms of a query that are the name of its source or of its kind. */
  function Named(lib: Library, source: string, kind: string, terms: set<string>): set<string> {
    set t | t in terms && (t == lib.lower(source) || t == lib.lower(kind))
  }

  function Members(q: seq<string>): set<string> {
    set t | t in q
  }

  lemma MembersAppend(init: seq<string>, t: string)
    requires NoDuplicates(init + [t])
    ensures Members(init + [t]) == Members(init) + {t} && t !in Members(init)
  {
    forall k | 0 <= k < |init| ensures init[k] != t {
      assert (init + [t])[k] != (init + [t])[|init|];
    }
  }

  lemma NamedAppend(lib: Library, source: string, kind: string, terms: set<string>, t: string)
    requires t !in terms
    ensures |Named(lib, source, kind, terms + {t})| ==
      |Named(lib, source, kind, terms)| + if t == lib.lower(source) || t == lib.lower(kind) then 1 else 0
  {
    var before, after := Named(lib, source, kind, terms), Named(lib, source, kind, terms + {t});
    if t == lib.lower(source) || t == lib.lower(kind) {
      assert after == before + {t};
    } else {
      assert after == before;
    }
  }

  lemma {:induction false} NameScoreCounts(lib: Library, source: string, kind: string, q: seq<string>)
    requires NoDuplicates(q)
    ensures NameScore(lib, source, kind, q) == 2 * |Named(lib, source, kind, Members(q))|
    ensures |Members(q)| == |q|
  {
    if q == [] {
      assert Members(q) == {} && Named(lib, source, kind, {}) == {};
    } else {
      var init, t := q[..|q| - 1], q[|q| - 1];
      NameScoreCounts(lib, source, kind, init);
      assert q == init + [t];
      MembersAppend(init, t);
      NamedAppend(lib, source, kind, Members(init), t);
    }
  }

  /** The words of the text that the query asks for. */
  function Asked(tokens: seq<string>, terms: set<string>): set<nat> {
    set i: nat | i < |tokens| && tokens[i] in terms
  }

  /** What an event scores: one point for each token of its text that the query asks for,
      two for each query term that is its source or its kind, and, when the whole query
      stands in the text, one for each of its different terms but at least two. */
  lemma ScoreInPlainTerms(lib: Library, ev: MemoryEvent, query: string)
    ensures var text := SearchableText(ev, ServiceMetadataText(lib, ev.metadata));
      var terms := set t | t in Tokenize(lib.fold, query);
      var phrase := Normalize(lib.fold, query);
      ScanScore(lib, ev, query) ==
        |Asked(Tokenize(lib.fold, text), terms)| + 2 * |Named(lib, ev.source, ev.kind, terms)|
        + if phrase != "" && Contains(Normalize(lib.fold, text), phrase)
          then (if |terms| < 2 then 2 else |terms|) else 0
  {
    var text := SearchableText(ev, ServiceMetadataText(lib, ev.metadata));
    var q := Distinct(Tokenize(lib.fold, query));
    DistinctIsSet(Tokenize(lib.fold, query));
    assert Members(q) == set t | t in Tokenize(lib.fold, query);
    NameScoreCounts(lib, ev.source, ev.kind, q);
    assert Positions(Tokenize(lib.fold, text), q) == Asked(Tokenize(lib.fold, text), Members(q));
    IncludesIsContains(Normalize(lib.fold, text), Normalize(lib.fold, query));
  }

  // ----- ranking -----

  /** A positively scored entry and its place in the index. */
  datatype Hit = Hit(pos: nat, entry: IndexEntry, score: nat)

  type Collation = (string, string) -> int

  /** What the library promises of localeCompare: a total preorder. */
  ghost predicate IsCollation(c: Collation) {
    && (forall a, b :: c(a, b) > 0 <==> c(b, a) < 0)
    && (forall a, b, d :: c(a, b) <= 0 && c(b, d) <= 0 ==> c(a, d) <= 0)
  }

  /** The comparison passed to sort. */
  function Compare(c: Collation, a: Hit, b: Hit): int {
    if b.score != a.score then b.score - a.score else c(b.entry.receivedAt, a.entry.receivedAt)
  }

  /** a comes before b in a stable sort. */
  predicate Before(c: Collation, a: Hit, b: Hit) {
    Compare(c, a, b) < 0 || (Compare(c, a, b) == 0 && a.pos < b.pos)
  }

  ghost predicate Ordered(c: Collation, hits: seq<Hit>) {
    forall i, j :: 0 <= i < j < |hits| ==> Before(c, hits[i], hits[j])
  }

  predicate DistinctPlaces(hits: seq<Hit>) {
    forall i, j :: 0 <= i < j < |hits| ==> hits[i].pos != hits[j].pos
  }

  /** `out` is the stable sort of `hits`. */
  ghost predicate IsStableSort(c: Collation, hits: seq<Hit>, out: seq<Hit>) {
    multiset(out) == multiset(hits) && Ordered(c, out)
  }

  lemma CompareTransitive(c: Collation, a: Hit, b: Hit, d: Hit)
    requires IsCollation(c) && Before(c, a, b) && Before(c, b, d)
    ensures Before(c, a, d)
  {
    var x, y, z := a.entry.receivedAt, b.entry.receivedAt, d.entry.receivedAt;
    assert c(y, x) <= 0 && c(z, y) <= 0 ==> c(z, x) <= 0;
    assert c(x, z) <= 0 && c(z, y) <= 0 ==> c(x, y) <= 0;
    assert c(y, x) <= 0 && c(x, z) <= 0 ==> c(y, z) <= 0;
  }

  lemma SelfNotBefore(c: Collation, a: Hit)
    requires IsCollation(c)
    ensures !Before(c, a, a)
  {
    var x := a.entry.receivedAt;
    assert c(x, x) > 0 <==> c(x, x) < 0;
  }

  lemma BeforeTotal(c: Collation, a: Hit, b: Hit)
    requires IsCollation(c) && a.pos != b.pos
    ensures Before(c, a, b) <==> !Before(c, b, a)
  {}

  function Insert(c: Collation, h: Hit, hits: seq<Hit>): seq<Hit> {
    if hits == [] then [h]
    else if Before(c, hits[0], h) then [hits[0]] + Insert(c, h, hits[1..])
    else [h] + hits
  }

  function StableSort(c: Collation, hits: seq<Hit>): seq<Hit> {
    if hits == [] then [] else Insert(c, hits[|hits| - 1], StableSort(c, hits[..|hits| - 1]))
  }

  lemma {:induction false} InsertKeeps(c: Collation, h: Hit, hits: seq<Hit>)
    ensures multiset(Insert(c, h, hits)) == multiset(hits) + multiset{h}
  {
    if hits != [] && Before(c, hits[0], h) {
      InsertKeeps(c, h, hits[1..]);
      assert hits == [hits[0]] + hits[1..];
    }
  }

  lemma {:induction false} InsertOrders(c: Collation, h: Hit, hits: seq<Hit>)
    requires IsCollation(c) && Ordered(c, hits) && forall k :: 0 <= k < |hits| ==> hits[k].pos != h.pos
    ensures Ordered(c, Insert(c, h, hits))
  {
    if hits != [] {
      if Before(c, hits[0], h) {
        InsertOrders(c, h, hits[1..]);
        InsertKeeps(c, h, hits[1..]);
        var rest := Insert(c, h, hits[1..]);
        forall j | 0 <= j < |rest|
          ensures Before(c, hits[0], rest[j])
        {
          assert rest[j] in multiset(rest);
          assert rest[j] == h || rest[j] in hits[1..];
        }
      } else {
        BeforeTotal(c, h, hits[0]);
        forall j | 0 <= j < |hits|
          ensures Before(c, h, hits[j])
        {
          if j > 0 {
            CompareTransitive(c, h, hits[0], hits[j]);
          }
        }
      }
    }
  }

  lemma PlacesOfSort(hits: seq<Hit>, sorted: seq<Hit>)
    requires hits != [] && DistinctPlaces(hits) && multiset(sorted) == multiset(hits[..|hits| - 1])
    ensures forall k :: 0 <= k < |sorted| ==> sorted[k].pos != hits[|hits| - 1].pos
  {
    var init := hits[..|hits| - 1];
    forall k | 0 <= k < |sorted| ensures sorted[k].pos != hits[|hits| - 1].pos {
      assert sorted[k] in multiset(init);
      var j :| 0 <= j < |init| && init[j] == sorted[k];
      assert hits[j] == init[j];
    }
  }

  lemma {:induction false} StableSortSorts(c: Collation, hits: seq<Hit>)
    requires IsCollation(c) && DistinctPlaces(hits)
    ensures IsStableSort(c, hits, StableSort(c, hits))
  {
    if hits != [] {
      var init, h := hits[..|hits| - 1], hits[|hits| - 1];
      StableSortSorts(c, init);
      assert hits == init + [h];
      PlacesOfSort(hits, StableSort(c, init));
      InsertKeeps(c, h, StableSort(c, init));
      InsertOrders(c, h, StableSort(c, init));
    }
  }

  /** There is only one stable sort, so the library's is this one. */
  lemma {:induction false} StableSortUnique(c: Collation, a: seq<Hit>, b: seq<Hit>)
    requires IsCollation(c) && Ordered(c, a) && Ordered(c, b) && multiset(a) == multiset(b)
    ensures a == b
  {
    assert |a| == |multiset(a)| == |multiset(b)| == |b|;
    if a != [] {
      SameFirst(c, a, b);
      TailOfMultiset(a);
      TailOfMultiset(b);
      StableSortUnique(c, a[1..], b[1..]);
    }
  }

  lemma SameFirst(c: Collation, a: seq<Hit>, b: seq<Hit>)
    requires IsCollation(c) && Ordered(c, a) && Ordered(c, b) && multiset(a) == multiset(b) && a != [] && b != []
    ensures a[0] == b[0]
  {
    assert a[0] in multiset(b) && b[0] in multiset(a);
    var i :| 0 <= i < |b| && b[i] == a[0];
    var j :| 0 <= j < |a| && a[j] == b[0];
    if i > 0 && j > 0 {
      CompareTransitive(c, a[0], b[0], a[0]);
      SelfNotBefore(c, a[0]);
    }
  }

  lemma TailOfMultiset(a: seq<Hit>)
    requires a != []
    ensures multiset(a[1..]) == multiset(a) - multiset{a[0]} && a == [a[0]] + a[1..]
  {
    assert a == [a[0]] + a[1..];
  }

  // ----- search -----

  function Scores(lib: Library, entries: seq<IndexEntry>, q: seq<string>, phrase: string): (s: seq<nat>)
    ensures |s| == |entries| && forall p :: 0 <= p < |s| ==> s[p] == Score(lib, entries[p], q, phrase)
  {
    seq(|entries|, p requires 0 <= p < |entries| => Score(lib, entries[p], q, phrase))
  }

  /** The entries with a positive score, in index order. */
  function Positive(entries: seq<IndexEntry>, scores: seq<nat>): seq<Hit>
    requires |entries| == |scores|
  {
    if entries == [] then []
    else
      var n := |entries| - 1;
      Positive(entries[..n], scores[..n]) + if scores[n] > 0 then [Hit(n, entries[n], scores[n])] else []
  }

  predicate InOrder(hits: seq<Hit>, n: nat) {
    && (forall k :: 0 <= k < |hits| ==> hits[k].pos < n)
    && (forall i, j :: 0 <= i < j < |hits| ==> hits[i].pos < hits[j].pos)
  }

  lemma {:induction false} PositiveInOrder(entries: seq<IndexEntry>, scores: seq<nat>)
    requires |entries| == |scores|
    ensures InOrder(Positive(entries, scores), |entries|)
  {
    if entries != [] {
      var n := |entries| - 1;
      var init := Positive(entries[..n], scores[..n]);
      PositiveInOrder(entries[..n], scores[..n]);
      assert InOrder(init, n);
      if scores[n] > 0 {
        assert InOrder(init + [Hit(n, entries[n], scores[n])], n + 1);
      }
    }
  }

  /** A place is found exactly when its score is positive, with its entry and score. */
  lemma {:induction false} PositiveIsFound(entries: seq<IndexEntry>, scores: seq<nat>, h: Hit)
    requires |entries| == |scores|
    ensures h in Positive(entries, scores) <==>
      h.pos < |entries| && h.entry == entries[h.pos] && h.score == scores[h.pos] > 0
  {
    if entries != [] {
      PositiveIsFound(entries[..|entries| - 1], scores[..|entries| - 1], h);
    }
  }

  /** The positively scored entries, in index order. */
  function Hits(lib: Library, entries: seq<IndexEntry>, query: string): seq<Hit> {
    Positive(entries, Scores(lib, entries, Distinct(Tokenize(lib.fold, query)), Normalize(lib.fold, query)))
  }

  function Top(c: Collation, found: seq<Hit>, limit: nat): seq<Hit> {
    var ranked := StableSort(c, found);
    if |ranked| <= limit then ranked else ranked[..limit]
  }

  function Search(lib: Library, c: Collation, entries: seq<IndexEntry>, query: string, limit: nat): seq<Hit> {
    Top(c, Hits(lib, entries, query), limit)
  }

  /** `out` holds the best of `found`, best first, and as many as there may be. */
  ghost predicate IsTop(c: Collation, found: seq<Hit>, limit: nat, out: seq<Hit>) {
    && |out| == Min(limit, |found|)
    && Ordered(c, out)
    && (forall h :: h in out ==> h in found)
    && (forall h, r :: h in found && h !in out && r in out ==> Before(c, r, h))
    && DistinctPlaces(out)
  }

  lemma PlacesDiffer(c: Collation, a: Hit, b: Hit, found: seq<Hit>)
    requires IsCollation(c) && DistinctPlaces(found) && a in found && b in found && Before(c, a, b)
    ensures a.pos != b.pos
  {
    SelfNotBefore(c, a);
    var i :| 0 <= i < |found| && found[i] == a;
    var j :| 0 <= j < |found| && found[j] == b;
  }

  lemma PrefixIsTop(c: Collation, found: seq<Hit>, ranked: seq<Hit>, n: nat)
    requires IsCollation(c) && DistinctPlaces(found) && IsStableSort(c, found, ranked) && n <= |ranked|
    ensures |ranked| == |found| && IsTop(c, found, n, ranked[..n])
  {
    var out := ranked[..n];
    assert |ranked| == |multiset(ranked)| == |found|;
    forall h | h in ranked ensures h in found {
      assert h in multiset(ranked);
    }
    forall k | 0 <= k < n ensures ranked[k] in out {
      assert out[k] == ranked[k];
    }
    forall h, r | h in found && h !in out && r in out
      ensures Before(c, r, h)
    {
      assert h in multiset(ranked);
      var j :| 0 <= j < |ranked| && ranked[j] == h;
      var i :| 0 <= i < |out| && out[i] == r;
      assert j >= n ==> Before(c, ranked[i], ranked[j]);
    }
    forall i, j | 0 <= i < j < |out|
      ensures out[i].pos != out[j].pos
    {
      PlacesDiffer(c, out[i], out[j], found);
    }
  }

  lemma HitsDistinct(lib: Library, entries: seq<IndexEntry>, query: string)
    ensures DistinctPlaces(Hits(lib, entries, query))
  {
    PositiveInOrder(entries, Scores(lib, entries, Distinct(Tokenize(lib.fold, query)), Normalize(lib.fold, query)));
    assert InOrder(Hits(lib, entries, query), |entries|);
  }

  lemma TopIsTop(c: Collation, found: seq<Hit>, limit: nat)
    requires IsCollation(c) && DistinctPlaces(found)
    ensures IsTop(c, found, limit, Top(c, found, limit))
  {
    var ranked := StableSort(c, found);
    StableSortSorts(c, found);
    assert |ranked| == |multiset(ranked)| == |found|;
    PrefixIsTop(c, found, ranked, Min(limit, |ranked|));
    assert ranked[..|ranked|] == ranked;
  }

  // ----- the plain scan of all events -----

  function ScanScores(lib: Library, events: seq<MemoryEvent>, query: string): (s: seq<nat>)
    ensures |s| == |events| && forall p :: 0 <= p < |s| ==> s[p] == ScanScore(lib, events[p], query)
  {
    seq(|events|, p requires 0 <= p < |events| => ScanScore(lib, events[p], query))
  }

  /** The events a scan scores positively, in log order, each with its citation. */
  function ScanHits(lib: Library, index: nat -> string, events: seq<MemoryEvent>, query: string): seq<Hit> {
    Positive(EntriesOf(Service(lib, index), events), ScanScores(lib, events, query))
  }

  lemma HitsAreScanHits(lib: Library, index: nat -> string, events: seq<MemoryEvent>, query: string)
    ensures Hits(lib, EntriesOf(Service(lib, index), events), query) == ScanHits(lib, index, events, query)
  {
    var entries := EntriesOf(Service(lib, index), events);
    var scores := Scores(lib, entries, Distinct(Tokenize(lib.fold, query)), Normalize(lib.fold, query));
    forall p | 0 <= p < |events| ensures scores[p] == ScanScores(lib, events, query)[p] {
      IndexScoreIsScanScore(lib, index, events[p], query);
    }
    assert scores == ScanScores(lib, events, query);
  }

  /** The answer of searchMemoryIndex on the index of any events, for every query and
      limit, is that of a scan of the events: the best positively scored ones in the one
      stable order, min(limit, all of them) many. */
  lemma SearchIsTopOfScan(lib: Library, index: nat -> string, c: Collation, events: seq<MemoryEvent>, query: string,
        limit: nat)
    requires IsCollation(c)
    ensures IsTop(c, ScanHits(lib, index, events, query), limit,
                  Search(lib, c, EntriesOf(Service(lib, index), events), query, limit))
  {
    var entries := EntriesOf(Service(lib, index), events);
    HitsAreScanHits(lib, index, events, query);
    HitsDistinct(lib, entries, query);
    TopIsTop(c, Hits(lib, entries, query), limit);
  }

  /** Position i of an answer may stand before position j: a higher score, or the same
      score and received no earlier, or the same in both and first in the log. */
  predicate RanksBefore(c: Collation, a: Hit, b: Hit) {
    || a.score > b.score
    || (a.score == b.score && c(a.entry.receivedAt, b.entry.receivedAt) > 0)
    || (a.score == b.score && c(a.entry.receivedAt, b.entry.receivedAt) == 0 && a.pos < b.pos)
  }

  lemma BeforeRanks(c: Collation, a: Hit, b: Hit)
    requires IsCollation(c)
    ensures Before(c, a, b) <==> RanksBefore(c, a, b)
  {
    var x, y := a.entry.receivedAt, b.entry.receivedAt;
    assert c(x, y) > 0 <==> c(y, x) < 0;
    assert c(y, x) > 0 <==> c(x, y) < 0;
  }

  /** The best `limit` of `found` in plain terms.  Scores never increase along `out`; at
      equal scores what was received later comes first; at equal scores and times the order
      is that of the log.  Of what was left out nothing scores higher than anything
      returned, and at equal scores nothing was received later. */
  ghost predicate BestFirst(c: Collation, found: seq<Hit>, limit: nat, out: seq<Hit>) {
    && |out| == (if |found| <= limit then |found| else limit)
    && (forall i, j :: 0 <= i < j < |out| ==> RanksBefore(c, out[i], out[j]))
    && (forall h :: h in out ==> h in found)
    && (forall h, r :: h in found && h !in out && r in out ==>
         r.score > h.score || (r.score == h.score && c(r.entry.receivedAt, h.entry.receivedAt) >= 0))
  }

  lemma TopIsBestFirst(c: Collation, found: seq<Hit>, limit: nat, out: seq<Hit>)
    requires IsCollation(c) && IsTop(c, found, limit, out)
    ensures BestFirst(c, found, limit, out)
  {
    forall i, j | 0 <= i < j < |out| ensures RanksBefore(c, out[i], out[j]) {
      BeforeRanks(c, out[i], out[j]);
    }
    forall h, r | h in found && h !in out && r in out
      ensures r.score > h.score || (r.score == h.score && c(r.entry.receivedAt, h.entry.receivedAt) >= 0)
    {
      BeforeRanks(c, r, h);
    }
  }

  /** The answer of searchMemoryIndex, for every query and limit, is best first. */
  lemma AnswerIsBestFirst(lib: Library, index: nat -> string, c: Collation, events: seq<MemoryEvent>, query: string,
        limit: nat)
    requires IsCollation(c)
    ensures BestFirst(c, ScanHits(lib, index, events, query), limit,
                      Search(lib, c, EntriesOf(Service(lib, index), events), query, limit))
  {
    SearchIsTopOfScan(lib, index, c, events, query, limit);
    TopIsBestFirst(c, ScanHits(lib, index, events, query), limit,
                   Search(lib, c, EntriesOf(Service(lib, index), events), query, limit));
  }

  /** What the scan finds: exactly the events with a positive score. */
  lemma ScanFinds(lib: Library, index: nat -> string, events: seq<MemoryEvent>, query: string, h: Hit)
    ensures h in ScanHits(lib, index, events, query) <==>
      && h.pos < |events| && h.entry == ServiceEntry(lib, index, events[h.pos])
      && h.score == ScanScore(lib, events[h.pos], query) > 0
  {
    PositiveIsFound(EntriesOf(Service(lib, index), events), ScanScores(lib, events, query), h);
  }

  /** Whatever stable sorting library the code uses, its first entries are these. */
  lemma AnyStableSortGivesSearch(lib: Library, c: Collation, entries: seq<IndexEntry>, query: string, limit: nat,
        sorted: seq<Hit>)
    requires IsCollation(c) && IsStableSort(c, Hits(lib, entries, query), sorted)
    ensures Search(lib, c, entries, query, limit) == if |sorted| <= limit then sorted else sorted[..limit]
  {
    var found := Hits(lib, entries, query);
    HitsDistinct(lib, entries, query);
    StableSortSorts(c, found);
    StableSortUnique(c, sorted, StableSort(c, found));
  }
}
