/**
 Text normalisation and tokens for the lexical index.  `fold` is the library's lower
 casing and decomposition of one character, with combining marks removed.
 */
module Text {

  type Fold = char -> string

  predicate Alnum(c: char) {
    'a' <= c <= 'z' || '0' <= c <= '9'
  }

  predicate Space(c: char) {
    c == ' ' || '\t' <= c <= '\r' || c == '\U{00A0}' || c == '\U{1680}' || '\U{2000}' <= c <= '\U{200A}'
    || c == '\U{2028}' || c == '\U{2029}' || c == '\U{202F}' || c == '\U{205F}' || c == '\U{3000}' || c == '\U{FEFF}'
  }

  /** What the library promises about characters that need no folding. */
  ghost predicate FoldsPlainly(fold: Fold) {
    fold(' ') == " " && forall c :: Alnum(c) ==> fold(c) == [c]
  }

  function Folded(fold: Fold, s: string): string {
    if s == [] then [] else fold(s[0]) + Folded(fold, s[1..])
  }

  // ----- trim -----

  function TrimLeft(s: string): (r: string)
    ensures |r| <= |s|
  {
    if s != [] && Space(s[0]) then TrimLeft(s[1..]) else s
  }

  function TrimRight(s: string): (r: string)
    ensures |r| <= |s|
  {
    if s != [] && Space(s[|s| - 1]) then TrimRight(s[..|s| - 1]) else s
  }

  function Trim(s: string): (r: string)
    ensures |r| <= |s|
  {
    TrimRight(TrimLeft(s))
  }

  predicate Tight(s: string) {
    s != [] ==> !Space(s[0]) && !Space(s[|s| - 1])
  }

  lemma {:induction false} TrimLeftStarts(s: string)
    ensures TrimLeft(s) != [] ==> !Space(TrimLeft(s)[0])
  {
    if s != [] && Space(s[0]) {
      TrimLeftStarts(s[1..]);
    }
  }

  lemma {:induction false} TrimRightEnds(s: string)
    ensures TrimRight(s) != [] ==> !Space(TrimRight(s)[|TrimRight(s)| - 1]) && s != [] && TrimRight(s)[0] == s[0]
  {
    if s != [] && Space(s[|s| - 1]) {
      TrimRightEnds(s[..|s| - 1]);
    }
  }

  /** Trimmed text has no white space at either end, and trimming it again is idle. */
  lemma TrimIsTight(s: string)
    ensures Tight(Trim(s)) && Trim(Trim(s)) == Trim(s)
  {
    TrimLeftStarts(s);
    TrimRightEnds(TrimLeft(s));
  }

  lemma {:induction false} TrimLeftSplits(s: string) returns (lead: string)
    ensures s == lead + TrimLeft(s) && forall k :: 0 <= k < |lead| ==> Space(lead[k])
  {
    if s != [] && Space(s[0]) {
      lead := TrimLeftSplits(s[1..]);
      lead := [s[0]] + lead;
    } else {
      lead := [];
    }
  }

  lemma {:induction false} TrimRightSplits(s: string) returns (trail: string)
    ensures s == TrimRight(s) + trail && forall k :: 0 <= k < |trail| ==> Space(trail[k])
  {
    if s != [] && Space(s[|s| - 1]) {
      trail := TrimRightSplits(s[..|s| - 1]);
      trail := trail + [s[|s| - 1]];
    } else {
      trail := [];
    }
  }

  /** Trimming takes away white space only. */
  lemma TrimSplits(s: string) returns (lead: string, trail: string)
    ensures s == lead + Trim(s) + trail
    ensures forall k :: 0 <= k < |lead| ==> Space(lead[k])
    ensures forall k :: 0 <= k < |trail| ==> Space(trail[k])
  {
    lead := TrimLeftSplits(s);
    trail := TrimRightSplits(TrimLeft(s));
  }

  lemma TrimOfTight(s: string)
    requires Tight(s)
    ensures Trim(s) == s
  {}

  // ----- words -----

  function Join(parts: seq<string>, sep: string): string {
    if parts == [] then [] else if |parts| == 1 then parts[0] else parts[0] + sep + Join(parts[1..], sep)
  }

  function Closed(cur: string): seq<string> {
    if cur == [] then [] else [cur]
  }

  /** The maximal runs of letters and digits of cur + s. */
  function Words(cur: string, s: string): seq<string>
    decreases |s|
  {
    if s == [] then Closed(cur)
    else if Alnum(s[0]) then Words(cur + [s[0]], s[1..])
    else Closed(cur) + Words([], s[1..])
  }

  predicate Word(w: string) {
    w != [] && forall k :: 0 <= k < |w| ==> Alnum(w[k])
  }

  predicate AllWords(ws: seq<string>) {
    forall k :: 0 <= k < |ws| ==> Word(ws[k])
  }

  lemma {:induction false} WordsAreWords(cur: string, s: string)
    requires cur == [] || Word(cur)
    ensures AllWords(Words(cur, s))
    decreases |s|
  {
    if s != [] {
      if Alnum(s[0]) {
        WordsAreWords(cur + [s[0]], s[1..]);
      } else {
        WordsAreWords([], s[1..]);
      }
    }
  }

  /** Text after a separator starts afresh. */
  lemma {:induction false} WordsSplit(cur: string, a: string, b: string)
    ensures Words(cur, a + " " + b) == Words(cur, a) + Words([], b)
    decreases |a|
  {
    var s := a + " " + b;
    if a == [] {
      assert s == " " + b && s[1..] == b;
    } else {
      assert s[1..] == a[1..] + " " + b;
      if Alnum(a[0]) {
        WordsSplit(cur + [a[0]], a[1..], b);
      } else {
        WordsSplit([], a[1..], b);
        assert Closed(cur) + (Words([], a[1..]) + Words([], b)) == (Closed(cur) + Words([], a[1..])) + Words([], b);
      }
    }
  }

  // ----- normalizeForSearch -----

  /** Every run of other characters becomes one space. */
  function Collapse(s: string, inRun: bool): string {
    if s == [] then []
    else if Alnum(s[0]) then [s[0]] + Collapse(s[1..], false)
    else (if inRun then [] else " ") + Collapse(s[1..], true)
  }

  function Normalize(fold: Fold, value: string): string {
    Trim(Collapse(Folded(fold, value), false))
  }

  lemma {:induction false} CollapseAfterWord(cur: string, s: string) returns (t: string)
    requires Word(cur)
    ensures (t == [] || t == " ") && cur + Collapse(s, false) == Join(Words(cur, s), " ") + t
    decreases |s|, 0
  {
    if s == [] {
      t := [];
    } else if Alnum(s[0]) {
      t := CollapseAfterWord(cur + [s[0]], s[1..]);
      assert cur + ([s[0]] + Collapse(s[1..], false)) == (cur + [s[0]]) + Collapse(s[1..], false);
    } else {
      t := CollapseAfterRun(s[1..]);
      var ws := Words([], s[1..]);
      assert Words(cur, s) == [cur] + ws;
      if ws == [] {
        assert cur + (" " + t) == cur + " " + t;
        if t == [] { t := " "; }
      } else {
        assert ([cur] + ws)[1..] == ws;
        assert cur + (" " + (Join(ws, " ") + t)) == (cur + " " + Join(ws, " ")) + t;
      }
    }
  }

  lemma {:induction false} CollapseAfterRun(s: string) returns (t: string)
    ensures (t == [] || t == " ") && Collapse(s, true) == Join(Words([], s), " ") + t
    ensures Words([], s) == [] ==> t == []
    decreases |s|, 1
  {
    if s == [] {
      t := [];
    } else if Alnum(s[0]) {
      assert [] + [s[0]] == [s[0]];
      t := CollapseAfterWord([s[0]], s[1..]);
      WordsNonEmpty([s[0]], s[1..]);
    } else {
      t := CollapseAfterRun(s[1..]);
      assert [] + Words([], s[1..]) == Words([], s[1..]);
    }
  }

  lemma {:induction false} WordsNonEmpty(cur: string, s: string)
    requires cur != []
    ensures Words(cur, s) != []
    decreases |s|
  {
    if s != [] && Alnum(s[0]) {
      WordsNonEmpty(cur + [s[0]], s[1..]);
    }
  }

  lemma {:induction false} JoinOfWords(ws: seq<string>)
    requires AllWords(ws) && ws != []
    ensures Join(ws, " ") != [] && Alnum(Join(ws, " ")[0]) && Alnum(Join(ws, " ")[|Join(ws, " ")| - 1])
  {
    if |ws| > 1 {
      JoinOfWords(ws[1..]);
    }
  }

  lemma TrimAround(lead: string, s: string, trail: string)
    requires (lead == [] || lead == " ") && (trail == [] || trail == " ")
    requires s == [] || (Alnum(s[0]) && Alnum(s[|s| - 1]))
    ensures Trim(lead + s + trail) == s
  {
    var whole := lead + s + trail;
    if s == [] {
      assert whole == lead + trail;
    } else {
      assert TrimLeft(whole) == s + trail by {
        if lead == " " { assert whole[1..] == s + trail; } else { assert whole == s + trail; }
      }
      assert TrimRight(s) == s;
      if trail == " " {
        assert (s + trail)[..|s + trail| - 1] == s && Space((s + trail)[|s + trail| - 1]);
      } else {
        assert s + trail == s;
      }
    }
  }

  /** The normal form is the words of the folded text, one space apart. */
  lemma NormalizeIsWords(fold: Fold, value: string)
    ensures Normalize(fold, value) == Join(Words([], Folded(fold, value)), " ")
    ensures AllWords(Words([], Folded(fold, value)))
  {
    var s := Folded(fold, value);
    var ws := Words([], s);
    WordsAreWords([], s);
    if ws != [] { JoinOfWords(ws); }
    if s != [] {
      if Alnum(s[0]) {
        assert [] + [s[0]] == [s[0]];
        var t := CollapseAfterWord([s[0]], s[1..]);
        TrimAround([], Join(ws, " "), t);
        assert [] + Join(ws, " ") + t == Join(ws, " ") + t;
      } else {
        var t := CollapseAfterRun(s[1..]);
        assert [] + Words([], s[1..]) == Words([], s[1..]);
        TrimAround(" ", Join(ws, " "), t);
        assert " " + (Join(ws, " ") + t) == " " + Join(ws, " ") + t;
      }
    }
  }

  // ----- the normal form is a fixpoint -----

  lemma {:induction false} FoldedOfPlain(fold: Fold, s: string)
    requires FoldsPlainly(fold) && forall k :: 0 <= k < |s| ==> Alnum(s[k]) || s[k] == ' '
    ensures Folded(fold, s) == s
  {
    if s != [] {
      FoldedOfPlain(fold, s[1..]);
      assert Alnum(s[0]) || s[0] == ' ';
    }
  }

  lemma {:induction false} WordsOfWord(cur: string, w: string)
    requires forall k :: 0 <= k < |w| ==> Alnum(w[k])
    ensures Words(cur, w) == Closed(cur + w)
    decreases |w|
  {
    if w == [] {
      assert cur + w == cur;
    } else {
      WordsOfWord(cur + [w[0]], w[1..]);
      assert (cur + [w[0]]) + w[1..] == cur + w;
    }
  }

  lemma {:induction false} WordsOfJoin(ws: seq<string>)
    requires AllWords(ws)
    ensures Words([], Join(ws, " ")) == ws
    ensures forall k :: 0 <= k < |Join(ws, " ")| ==> Alnum(Join(ws, " ")[k]) || Join(ws, " ")[k] == ' '
  {
    if ws != [] {
      WordsOfWord([], ws[0]);
      assert [] + ws[0] == ws[0];
      if |ws| > 1 {
        WordsOfJoin(ws[1..]);
        WordsSplit([], ws[0], Join(ws[1..], " "));
        assert [ws[0]] + ws[1..] == ws;
      } else {
        assert ws == [ws[0]];
      }
    }
  }

  /** Normal text: letters and digits with single spaces between words only. */
  predicate Normal(s: string) {
    && (forall k :: 0 <= k < |s| ==> Alnum(s[k]) || s[k] == ' ')
    && (s != [] ==> Alnum(s[0]) && Alnum(s[|s| - 1]))
    && (forall k :: 0 < k < |s| ==> Alnum(s[k - 1]) || Alnum(s[k]))
  }

  lemma {:induction false} JoinIsNormal(ws: seq<string>)
    requires AllWords(ws)
    ensures Normal(Join(ws, " "))
  {
    if ws != [] {
      assert Word(ws[0]);
      if |ws| > 1 {
        JoinIsNormal(ws[1..]);
        JoinOfWords(ws[1..]);
        var r := Join(ws[1..], " ");
        var s := ws[0] + " " + r;
        forall k | 0 <= k < |s|
          ensures Alnum(s[k]) || s[k] == ' '
          ensures k > 0 ==> Alnum(s[k - 1]) || Alnum(s[k])
        {
          assert s[k] == if k < |ws[0]| then ws[0][k] else if k == |ws[0]| then ' ' else r[k - |ws[0]| - 1];
          assert k > 0 ==>
            s[k - 1] == if k - 1 < |ws[0]| then ws[0][k - 1] else if k - 1 == |ws[0]| then ' ' else r[k - |ws[0]| - 2];
        }
      }
    }
  }

  lemma NormalizeIdempotent(fold: Fold, value: string)
    requires FoldsPlainly(fold)
    ensures Normal(Normalize(fold, value))
    ensures Normalize(fold, Normalize(fold, value)) == Normalize(fold, value)
  {
    var ws := Words([], Folded(fold, value));
    NormalizeIsWords(fold, value);
    JoinIsNormal(ws);
    WordsOfJoin(ws);
    FoldedOfPlain(fold, Join(ws, " "));
    NormalizeIsWords(fold, Join(ws, " "));
  }

  // ----- tokenize -----

  predicate StopWord(t: string) {
    || t == "a" || t == "an" || t == "and" || t == "are" || t == "as" || t == "at" || t == "be" || t == "by"
    || t == "for" || t == "from" || t == "in" || t == "is" || t == "it" || t == "of" || t == "on" || t == "or"
    || t == "the" || t == "to" || t == "was" || t == "with"
  }

  predicate Kept(t: string) {
    |t| > 1 && !StopWord(t)
  }

  function Keep(ws: seq<string>): seq<string> {
    if ws == [] then [] else (if Kept(ws[0]) then [ws[0]] else []) + Keep(ws[1..])
  }

  /** Splitting at single spaces. */
  function SplitSpaces(cur: string, s: string): seq<string>
    decreases |s|
  {
    if s == [] then [cur]
    else if s[0] == ' ' then [cur] + SplitSpaces([], s[1..])
    else SplitSpaces(cur + [s[0]], s[1..])
  }

  function Tokenize(fold: Fold, value: string): seq<string> {
    var normalized := Normalize(fold, value);
    if normalized == [] then [] else Keep(SplitSpaces([], normalized))
  }

  lemma {:induction false} SplitOfWord(cur: string, w: string, rest: string)
    requires forall k :: 0 <= k < |w| ==> Alnum(w[k])
    ensures SplitSpaces(cur, w) == [cur + w]
    ensures SplitSpaces(cur, w + " " + rest) == [cur + w] + SplitSpaces([], rest)
    decreases |w|
  {
    var s := w + " " + rest;
    if w == [] {
      assert cur + w == cur && s == " " + rest && s[1..] == rest;
    } else {
      assert s[1..] == w[1..] + " " + rest;
      SplitOfWord(cur + [w[0]], w[1..], rest);
      assert (cur + [w[0]]) + w[1..] == cur + w;
    }
  }

  lemma {:induction false} SplitOfJoin(ws: seq<string>)
    requires AllWords(ws) && ws != []
    ensures SplitSpaces([], Join(ws, " ")) == ws
  {
    assert Word(ws[0]) && [] + ws[0] == ws[0];
    if |ws| == 1 {
      SplitOfWord([], ws[0], []);
      assert ws == [ws[0]];
    } else {
      SplitOfJoin(ws[1..]);
      SplitOfWord([], ws[0], Join(ws[1..], " "));
      assert [ws[0]] + ws[1..] == ws;
    }
  }

  /** The tokens are the kept words of the folded text. */
  lemma TokenizeIsKeptWords(fold: Fold, value: string)
    ensures Tokenize(fold, value) == Keep(Words([], Folded(fold, value)))
  {
    var ws := Words([], Folded(fold, value));
    NormalizeIsWords(fold, value);
    if ws != [] {
      JoinOfWords(ws);
      SplitOfJoin(ws);
    }
  }

  // ----- what a token is -----

  predicate Plain(s: string, k: int) {
    0 <= k < |s| && ('a' <= s[k] <= 'z' || '0' <= s[k] <= '9')
  }

  /** `w` stands at i in s and is a maximal run of letters and digits there. */
  predicate RunAt(s: string, i: nat, w: string) {
    && w != [] && i + |w| <= |s| && s[i..i + |w|] == w
    && (forall k :: i <= k < i + |w| ==> Plain(s, k))
    && !Plain(s, i - 1) && !Plain(s, i + |w|)
  }

  ghost predicate HasRun(s: string, w: string) {
    exists i: nat :: RunAt(s, i, w)
  }

  lemma RunAfterSeparator(cur: string, s: string, i: nat, w: string)
    requires (cur == [] || Word(cur)) && s != [] && !Alnum(s[0])
    ensures RunAt(cur + s, |cur| + 1 + i, w) <==> RunAt(s[1..], i, w)
  {
    var t := cur + s;
    forall k | -1 <= k ensures Plain(t, |cur| + 1 + k) <==> Plain(s[1..], k) {}
    if |cur| + 1 + i + |w| <= |t| {
      assert t[|cur| + 1 + i..|cur| + 1 + i + |w|] == s[1..][i..i + |w|];
    }
    if RunAt(s[1..], i, w) {
      forall k | |cur| + 1 + i <= k < |cur| + 1 + i + |w| ensures Plain(t, k) {
        assert Plain(s[1..], k - |cur| - 1);
      }
    }
    if RunAt(t, |cur| + 1 + i, w) {
      forall k | i <= k < i + |w| ensures Plain(s[1..], k) {
        assert Plain(t, |cur| + 1 + k);
      }
    }
  }

  lemma RunOfFirstWord(cur: string, s: string, i: nat, w: string)
    requires (cur == [] || Word(cur)) && (s == [] || !Alnum(s[0])) && i <= |cur|
    ensures RunAt(cur + s, i, w) <==> cur != [] && i == 0 && w == cur
  {
    var t := cur + s;
    assert !Plain(t, |cur|);
    forall k | 0 <= k < |cur| ensures Plain(t, k) {
      assert t[k] == cur[k];
    }
    if RunAt(t, i, w) {
      assert i + |w| > |cur| ==> !Plain(t, |cur|) && i <= |cur| < i + |w|;
      assert i > 0 ==> i == |cur| || Plain(t, i - 1);
      assert t[..|cur|] == cur;
    }
    assert t[0..|cur|] == cur;
  }

  lemma RunsAroundSeparator(cur: string, s: string, w: string)
    requires (cur == [] || Word(cur)) && s != [] && !Alnum(s[0])
    ensures HasRun(cur + s, w) <==> (cur != [] && w == cur) || HasRun(s[1..], w)
  {
    RunOfFirstWord(cur, s, 0, w);
    if HasRun(s[1..], w) {
      var i: nat :| RunAt(s[1..], i, w);
      RunAfterSeparator(cur, s, i, w);
    }
    if HasRun(cur + s, w) {
      var i: nat :| RunAt(cur + s, i, w);
      if i > |cur| {
        RunAfterSeparator(cur, s, i - |cur| - 1, w);
      } else {
        RunOfFirstWord(cur, s, i, w);
      }
    }
  }

  lemma RunsAtEnd(cur: string, w: string)
    requires cur == [] || Word(cur)
    ensures HasRun(cur, w) <==> cur != [] && w == cur
  {
    assert cur + [] == cur;
    RunOfFirstWord(cur, [], 0, w);
    if HasRun(cur, w) {
      var i: nat :| RunAt(cur, i, w);
      RunOfFirstWord(cur, [], i, w);
    }
  }

  lemma {:induction false} WordsAreRuns(cur: string, s: string, w: string)
    requires cur == [] || Word(cur)
    ensures w in Words(cur, s) <==> HasRun(cur + s, w)
    decreases |s|
  {
    if s != [] && Alnum(s[0]) {
      WordsAreRuns(cur + [s[0]], s[1..], w);
      assert (cur + [s[0]]) + s[1..] == cur + s;
    } else if s != [] {
      WordsAreRuns([], s[1..], w);
      assert [] + s[1..] == s[1..];
      RunsAroundSeparator(cur, s, w);
    } else {
      RunsAtEnd(cur, w);
      assert cur + s == cur;
    }
  }

  lemma {:induction false} KeptMembers(ws: seq<string>, t: string)
    ensures t in Keep(ws) <==> t in ws && Kept(t)
  {
    if ws != [] {
      KeptMembers(ws[1..], t);
    }
  }

  /** The tokens of a text are exactly the maximal runs of letters and digits in its
      folded form that have two characters or more and are no stop word. */
  lemma TokenIsRun(fold: Fold, value: string, t: string)
    ensures t in Tokenize(fold, value) <==>
      && HasRun(Folded(fold, value), t) && |t| >= 2
      && t !in {"a", "an", "and", "are", "as", "at", "be", "by", "for", "from", "in", "is", "it", "of", "on", "or",
                "the", "to", "was", "with"}
  {
    TokenizeIsKeptWords(fold, value);
    KeptMembers(Words([], Folded(fold, value)), t);
    WordsAreRuns([], Folded(fold, value), t);
    assert [] + Folded(fold, value) == Folded(fold, value);
  }

  lemma {:induction false} KeepConcat(a: seq<string>, b: seq<string>)
    ensures Keep(a + b) == Keep(a) + Keep(b)
  {
    if a == [] {
      assert a + b == b;
    } else {
      assert (a + b)[1..] == a[1..] + b;
      KeepConcat(a[1..], b);
    }
  }

  lemma {:induction false} FoldedConcat(fold: Fold, a: string, b: string)
    ensures Folded(fold, a + b) == Folded(fold, a) + Folded(fold, b)
  {
    if a == [] {
      assert a + b == b;
    } else {
      assert (a + b)[1..] == a[1..] + b;
      FoldedConcat(fold, a[1..], b);
    }
  }

  /** A space separates tokens: the tokens of joined texts are the joined tokens. */
  lemma TokenizeJoined(fold: Fold, a: string, b: string)
    requires FoldsPlainly(fold)
    ensures Tokenize(fold, a + " " + b) == Tokenize(fold, a) + Tokenize(fold, b)
  {
    TokenizeIsKeptWords(fold, a);
    TokenizeIsKeptWords(fold, b);
    TokenizeIsKeptWords(fold, a + " " + b);
    FoldedConcat(fold, a + " ", b);
    FoldedConcat(fold, a, " ");
    assert " "[1..] == [] && " " + Folded(fold, []) == " ";
    assert Folded(fold, a + " " + b) == Folded(fold, a) + " " + Folded(fold, b);
    WordsSplit([], Folded(fold, a), Folded(fold, b));
    KeepConcat(Words([], Folded(fold, a)), Words([], Folded(fold, b)));
  }

  /** The tokens of fields joined by spaces. */
  function TokensOfAll(fold: Fold, parts: seq<string>): seq<string> {
    if parts == [] then [] else Tokenize(fold, parts[0]) + TokensOfAll(fold, parts[1..])
  }

  lemma {:induction false} TokenizeJoin(fold: Fold, parts: seq<string>)
    requires FoldsPlainly(fold)
    ensures Tokenize(fold, Join(parts, " ")) == TokensOfAll(fold, parts)
  {
    if |parts| > 1 {
      TokenizeJoin(fold, parts[1..]);
      TokenizeJoined(fold, parts[0], Join(parts[1..], " "));
    }
  }
}
