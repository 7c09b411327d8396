/** Rendering pairs and scanning them again gives the pairs back. */
module KeyValueRoundTrip {
  import opened Prelude
  import opened KeyValueParser

  // ---- What may be rendered ----

  predicate IsKey(k: string) {
    k != "" && forall i :: 0 <= i < |k| ==> IsKeyChar(k[i])
  }

  predicate IsGap(g: string) {
    forall i :: 0 <= i < |g| ==> IsSpace(g[i])
  }

  predicate IsTrimmed(v: string) {
    v == "" || (!IsSpace(v[0]) && !IsSpace(v[|v| - 1]))
  }

  /** No key pattern after the first character; at the first one the equals sign in front hides it. */
  predicate HidesNoToken(v: string) {
    forall j :: 0 < j < |v| ==> !IsToken(v, j)
  }

  datatype Entry = Entry(key: string, value: string, gap: string)

  predicate IsEntry(e: Entry) {
    IsKey(e.key) && IsTrimmed(e.value) && HidesNoToken(e.value) && IsGap(e.gap)
  }

  /** Every value but the last is set off by whitespace. */
  predicate AreEntries(es: seq<Entry>) {
    es == [] || (IsEntry(es[0]) && (|es| > 1 ==> es[0].gap != "") && AreEntries(es[1..]))
  }

  function Text(e: Entry): string {
    e.key + ("=" + (e.value + e.gap))
  }

  function Render(es: seq<Entry>): string {
    if es == [] then "" else Text(es[0]) + Render(es[1..])
  }

  function Pairs(es: seq<Entry>): seq<Pair> {
    if es == [] then [] else [Pair(es[0].key, es[0].value)] + Pairs(es[1..])
  }

  // ---- Characters and runs ----

  lemma {:induction false} OutsideAll(n: int, ranges: seq<(int, int)>)
    requires forall k :: 0 <= k < |ranges| ==> n < ranges[k].0 || n > ranges[k].1
    ensures !IsWithin(n, ranges)
  {
    if ranges != [] {
      OutsideAll(n, ranges[1..]);
    }
  }

  lemma KeyTextIsNotSpace(c: char)
    requires IsKeyChar(c) || c == '='
    ensures !IsSpace(c)
  {
    OutsideAll(c as int, SPACES);
  }

  lemma {:induction false} KeyEndRuns(s: string, i: nat)
    requires i <= |s|
    ensures forall j :: i <= j < KeyEnd(s, i) ==> IsKeyChar(s[j])
    ensures KeyEnd(s, i) < |s| ==> !IsKeyChar(s[KeyEnd(s, i)])
    decreases |s| - i
  {
    if i < |s| && IsKeyChar(s[i]) {
      KeyEndRuns(s, i + 1);
    }
  }

  lemma {:induction false} KeyEndIs(s: string, i: nat, e: nat)
    requires i <= e <= |s| && (forall j :: i <= j < e ==> IsKeyChar(s[j])) && (e < |s| ==> !IsKeyChar(s[e]))
    ensures KeyEnd(s, i) == e
    decreases e - i
  {
    if i < e {
      KeyEndIs(s, i + 1, e);
    }
  }

  lemma {:induction false} NextTokenIs(s: string, i: nat, n: nat)
    requires i <= n <= |s| && (forall j :: i <= j < n ==> !IsToken(s, j)) && (n < |s| ==> IsToken(s, n))
    ensures NextToken(s, i) == n
    decreases n - i
  {
    if i < n {
      NextTokenIs(s, i + 1, n);
    }
  }

  // ---- Tokens of a rendered text ----

  /** The text shows `part` at position `at`. */
  ghost predicate Shows(s: string, at: nat, part: string) {
    at + |part| <= |s| && s[at..at + |part|] == part
  }

  lemma ShownChar(s: string, at: nat, part: string, j: nat)
    requires Shows(s, at, part) && j < |part|
    ensures s[at + j] == part[j]
  {
    assert s[at..at + |part|][j] == s[at + j];
  }

  /** A run that the part does not let out of itself ends at the same place in the text. */
  lemma RunStaysInside(s: string, at: nat, part: string, j: nat)
    requires Shows(s, at, part) && j < |part|
    requires at + |part| < |s| ==> !IsKeyChar(s[at + |part|])
    ensures KeyEnd(s, at + j) == at + KeyEnd(part, j)
  {
    KeyEndRuns(part, j);
    var e := at + KeyEnd(part, j);
    forall i | at + j <= i < e ensures IsKeyChar(s[i]) {
      ShownChar(s, at, part, i - at);
    }
    if KeyEnd(part, j) < |part| {
      ShownChar(s, at, part, KeyEnd(part, j));
    }
    KeyEndIs(s, at + j, e);
  }

  /** Inside a part that is followed by whitespace or the end, a token of the text is a token of the part. */
  lemma TokenStaysInside(s: string, at: nat, part: string, j: nat)
    requires Shows(s, at, part) && j < |part| && IsToken(s, at + j)
    requires at + |part| < |s| ==> IsSpace(s[at + |part|])
    requires j > 0 || at == 0 || !IsSpace(s[at - 1])
    ensures j > 0 || at == 0
    ensures IsToken(part, j)
  {
    if at + |part| < |s| {
      NotBoth(s[at + |part|]);
    }
    RunStaysInside(s, at, part, j);
    var e := KeyEnd(part, j);
    if e < |part| {
      ShownChar(s, at, part, e);
    }
    if j > 0 {
      ShownChar(s, at, part, j - 1);
    }
  }

  lemma NotBoth(c: char)
    requires IsSpace(c)
    ensures !IsKeyChar(c) && c != '='
  {
    if IsKeyChar(c) || c == '=' {
      KeyTextIsNotSpace(c);
    }
  }

  lemma SpaceIsNoToken(s: string, p: nat)
    requires p < |s| && IsSpace(s[p])
    ensures !IsToken(s, p)
  {
    NotBoth(s[p]);
    KeyEndIs(s, p, p);
  }

  /** A key and its equals sign stand where a token may start. */
  ghost predicate Announces(s: string, at: nat, k: string) {
    Shows(s, at, k) && at + |k| < |s| && s[at + |k|] == '=' && (at == 0 || IsSpace(s[at - 1]))
  }

  lemma KeyIsToken(s: string, at: nat, k: string)
    requires IsKey(k) && Announces(s, at, k)
    ensures KeyEnd(s, at) == at + |k| && IsToken(s, at)
  {
    forall i | at <= i < at + |k| ensures IsKeyChar(s[i]) {
      ShownChar(s, at, k, i - at);
    }
    KeyEndIs(s, at, at + |k|);
  }

  /** Nothing between the equals sign and the end of the gap looks like a key. */
  lemma ValueAndGapHaveNoToken(s: string, at: nat, v: string, g: string, p: nat)
    requires 0 < at <= |s| && s[at - 1] == '='
    requires Shows(s, at, v) && Shows(s, at + |v|, g) && IsGap(g) && HidesNoToken(v) && (g != "" || at + |v| == |s|)
    requires at <= p < at + |v| + |g|
    ensures !IsToken(s, p)
  {
    KeyTextIsNotSpace('=');
    if p >= at + |v| {
      ShownChar(s, at + |v|, g, p - (at + |v|));
      SpaceIsNoToken(s, p);
    } else if IsToken(s, p) {
      if g != "" {
        ShownChar(s, at + |v|, g, 0);
      }
      TokenStaysInside(s, at, v, p - at);
    }
  }

  // ---- Values come back trimmed ----

  lemma {:induction false} StripLeftGap(g: string)
    requires IsGap(g)
    ensures StripLeft(g) == ""
  {
    if g != "" {
      StripLeftGap(g[1..]);
    }
  }

  lemma {:induction false} StripRightGap(x: string, g: string)
    requires IsGap(g)
    ensures StripRight(x + g) == StripRight(x)
  {
    if g == "" {
      assert x + g == x;
    } else {
      StripRightGap(x, g[..|g| - 1]);
      assert (x + g)[..|x + g| - 1] == x + g[..|g| - 1];
    }
  }

  lemma StripDropsTheGap(v: string, g: string)
    requires IsTrimmed(v) && IsGap(g)
    ensures Strip(v + g) == v
  {
    if v == "" {
      assert v + g == g;
      StripLeftGap(g);
    } else {
      StripRightGap(v, g);
    }
  }

  // ---- Scanning a rendered text ----

  lemma TextShows(s: string, before: string, e: Entry, rest: string)
    requires s == (before + Text(e)) + rest
    ensures var at, k, v := |before|, |e.key|, |e.value|;
            && at + |Text(e)| <= |s| && |Text(e)| == k + 1 + v + |e.gap|
            && Shows(s, at, e.key) && s[at + k] == '=' && Shows(s, at + k + 1, e.value)
            && Shows(s, at + k + 1 + v, e.gap)
  {
    var at, k, v := |before|, |e.key|, |e.value|;
    assert s[at..at + k] == e.key;
    assert s[at + k + 1..at + k + 1 + v] == e.value;
    assert s[at + k + 1 + v..at + k + 1 + v + |e.gap|] == e.gap;
  }

  /** Between the equals sign of an entry and its end there is no token. */
  lemma NoTokenUntilTheEnd(s: string, before: string, e: Entry, rest: string)
    requires s == (before + Text(e)) + rest && IsEntry(e) && (e.gap != "" || rest == "")
    ensures forall p :: |before| + |e.key| < p < |before| + |Text(e)| ==> !IsToken(s, p)
  {
    TextShows(s, before, e, rest);
    var from := |before| + |e.key| + 1;
    forall p | from <= p < |before| + |Text(e)| ensures !IsToken(s, p) {
      ValueAndGapHaveNoToken(s, from, e.value, e.gap, p);
    }
  }

  lemma KeyIsAnnounced(s: string, before: string, e: Entry, rest: string)
    requires s == (before + Text(e)) + rest && (before == "" || IsSpace(before[|before| - 1]))
    ensures Announces(s, |before|, e.key)
  {
    TextShows(s, before, e, rest);
    LastBefore(s, before, Text(e), rest);
  }

  lemma EntryIsToken(s: string, before: string, e: Entry, rest: string)
    requires s == (before + Text(e)) + rest && (before == "" || IsSpace(before[|before| - 1])) && IsKey(e.key)
    ensures |before| < |s| && KeyEnd(s, |before|) == |before| + |e.key| && IsToken(s, |before|)
  {
    KeyIsAnnounced(s, before, e, rest);
    KeyIsToken(s, |before|, e.key);
  }

  lemma LastBefore(s: string, before: string, middle: string, rest: string)
    requires s == (before + middle) + rest
    ensures |before| > 0 ==> |before| <= |s| && s[|before| - 1] == before[|before| - 1]
  {
  }

  lemma Associate(a: string, b: string, c: string)
    ensures a + (b + c) == (a + b) + c
  {
  }

  lemma NextTokenHere(s: string, i: nat)
    requires i <= |s| && (i < |s| ==> IsToken(s, i))
    ensures NextToken(s, i) == i
  {
  }

  /** Where the next entry starts, or the text ends. */
  lemma BoundaryIsToken(s: string, before: string, es: seq<Entry>)
    requires s == before + Render(es) && AreEntries(es) && (es == [] || before == "" || IsSpace(before[|before| - 1]))
    ensures |before| <= |s| && NextToken(s, |before|) == |before| && (|before| < |s| ==> IsToken(s, |before|))
  {
    if es != [] {
      Associate(before, Text(es[0]), Render(es[1..]));
      EntryIsToken(s, before, es[0], Render(es[1..]));
    }
    NextTokenHere(s, |before|);
  }

  lemma GapEndsInSpace(before: string, e: Entry)
    requires IsEntry(e) && e.gap != ""
    ensures var b := before + Text(e); b != "" && IsSpace(b[|b| - 1])
  {
    assert (before + Text(e))[|before + Text(e)| - 1] == e.gap[|e.gap| - 1];
  }

  /** An entry as the scanner meets it: a key at `at`, and the next key, or the end, where the entry ends. */
  ghost predicate EntryAt(s: string, at: nat, e: Entry, next: nat) {
    Contains(s, at, at + |e.key|, e, next) && Delimited(s, at, at + |e.key|, next)
  }

  /** A key runs from `at` to the equals sign, and the scan finds nothing between there and `next`. */
  ghost predicate Delimited(s: string, at: nat, equals: nat, next: nat) {
    && at <= equals < next <= |s| && KeyEnd(s, at) == equals
    && NextToken(s, at) == at && NextToken(s, equals + 1) == next && NextToken(s, next) == next
  }

  ghost predicate Contains(s: string, at: nat, equals: nat, e: Entry, next: nat) {
    at <= equals < next <= |s| && s[at..equals] == e.key && Strip(s[equals + 1..next]) == e.value
  }

  lemma ScanToTheEnd(s: string, before: string, e: Entry, rest: string, from: nat, next: nat)
    requires s == (before + Text(e)) + rest && IsEntry(e) && (e.gap != "" || rest == "")
    requires from == |before| + |e.key| + 1 && next == |before| + |Text(e)| <= |s| && (next < |s| ==> IsToken(s, next))
    ensures from <= next && NextToken(s, from) == next
  {
    NoTokenUntilTheEnd(s, before, e, rest);
    NextTokenIs(s, from, next);
  }

  lemma EntryIsDelimited(s: string, before: string, e: Entry, rest: string, equals: nat, next: nat)
    requires s == (before + Text(e)) + rest && IsEntry(e) && (e.gap != "" || rest == "")
    requires before == "" || IsSpace(before[|before| - 1])
    requires equals == |before| + |e.key| && next == |before| + |Text(e)| <= |s|
    requires (next < |s| ==> IsToken(s, next)) && NextToken(s, next) == next
    ensures Delimited(s, |before|, equals, next)
  {
    ScanToTheEnd(s, before, e, rest, equals + 1, next);
    EntryIsToken(s, before, e, rest);
    NextTokenHere(s, |before|);
  }

  lemma EntryIsPlaced(s: string, before: string, e: Entry, rest: string, next: nat)
    requires s == (before + Text(e)) + rest && IsEntry(e) && (e.gap != "" || rest == "")
    requires before == "" || IsSpace(before[|before| - 1])
    requires next == |before| + |Text(e)| <= |s| && (next < |s| ==> IsToken(s, next)) && NextToken(s, next) == next
    ensures EntryAt(s, |before|, e, next)
  {
    EntryIsDelimited(s, before, e, rest, |before| + |e.key|, next);
    TextContent(s, before, e, rest, |before| + |e.key|, next);
  }

  lemma TextContent(s: string, before: string, e: Entry, rest: string, equals: nat, next: nat)
    requires s == (before + Text(e)) + rest && IsTrimmed(e.value) && IsGap(e.gap)
    requires equals == |before| + |e.key| && next == |before| + |Text(e)|
    ensures Contains(s, |before|, equals, e, next)
  {
    TextShows(s, before, e, rest);
    assert s[|before|..next] == Text(e);
    assert Text(e)[|e.key| + 1..] == e.value + e.gap;
    assert s[equals + 1..next] == Text(e)[|e.key| + 1..];
    StripDropsTheGap(e.value, e.gap);
  }

  /** What is left to render from a boundary on. */
  predicate RendersFrom(s: string, before: string, es: seq<Entry>) {
    s == before + Render(es) && AreEntries(es) && (es == [] || before == "" || IsSpace(before[|before| - 1]))
  }

  lemma RestIsRendered(s: string, before: string, es: seq<Entry>, after: string)
    requires RendersFrom(s, before, es) && es != [] && after == before + Text(es[0])
    ensures RendersFrom(s, after, es[1..])
  {
    Associate(before, Text(es[0]), Render(es[1..]));
    if |es| > 1 {
      GapEndsInSpace(before, es[0]);
    }
  }

  lemma FirstEntryIsPlaced(s: string, before: string, es: seq<Entry>, after: string)
    requires RendersFrom(s, before, es) && es != [] && after == before + Text(es[0])
    ensures EntryAt(s, |before|, es[0], |after|) && |before| <= |s|
  {
    Associate(before, Text(es[0]), Render(es[1..]));
    RestIsRendered(s, before, es, after);
    BoundaryIsToken(s, after, es[1..]);
    EntryIsPlaced(s, before, es[0], Render(es[1..]), |after|);
  }

  // ---- The pairs of a rendered text ----

  lemma FirstStartIsNextToken(s: string, i: nat)
    requires i <= |s|
    ensures FirstStart(|s|, MatchesFrom(s, i)) == NextToken(s, i)
  {
  }

  lemma SameNextSameMatches(s: string, i: nat, n: nat)
    requires i <= |s| && n <= |s| && NextToken(s, i) == NextToken(s, n)
    ensures MatchesFrom(s, i) == MatchesFrom(s, n)
  {
  }

  lemma EntryGivesItsSpan(s: string, at: nat, e: Entry, next: nat)
    requires EntryAt(s, at, e, next)
    ensures SpansOf(|s|, MatchesFrom(s, at)) == [Span(at, at + |e.key|, next)] + SpansOf(|s|, MatchesFrom(s, next))
  {
    var from: nat := at + |e.key| + 1;
    SameNextSameMatches(s, from, next);
    FirstStartIsNextToken(s, from);
    assert MatchesFrom(s, at) == [Match(at, at + |e.key|)] + MatchesFrom(s, from);
    ConsSpans(|s|, Match(at, at + |e.key|), MatchesFrom(s, from));
  }

  lemma ConsPairs(s: string, sp: Span, spans: seq<Span>)
    requires Within(|s|, sp) && AllWithin(|s|, spans)
    ensures AllWithin(|s|, [sp] + spans) && PairsOf(s, [sp] + spans) == [PairAt(s, sp)] + PairsOf(s, spans)
  {
  }

  lemma EntryGivesItsPair(s: string, at: nat, e: Entry, next: nat)
    requires EntryAt(s, at, e, next)
    ensures PairAt(s, Span(at, at + |e.key|, next)) == Pair(e.key, e.value)
  {
  }

  lemma PairsAfterEntry(s: string, at: nat, e: Entry, next: nat)
    requires EntryAt(s, at, e, next) && at <= |s|
    requires AllWithin(|s|, SpansOf(|s|, MatchesFrom(s, next)))
    ensures AllWithin(|s|, SpansOf(|s|, MatchesFrom(s, at)))
    ensures PairsOf(s, SpansOf(|s|, MatchesFrom(s, at)))
      == [Pair(e.key, e.value)] + PairsOf(s, SpansOf(|s|, MatchesFrom(s, next)))
  {
    EntryGivesItsSpan(s, at, e, next);
    EntryGivesItsPair(s, at, e, next);
    ConsPairs(s, Span(at, at + |e.key|, next), SpansOf(|s|, MatchesFrom(s, next)));
  }

  lemma NothingAtTheEnd(s: string)
    ensures MatchesFrom(s, |s|) == [] && SpansOf(|s|, MatchesFrom(s, |s|)) == []
  {
  }

  /** The text from a boundary on gives exactly these pairs. */
  ghost predicate Gives(s: string, at: nat, pairs: seq<Pair>)
    requires at <= |s|
  {
    && AllWithin(|s|, SpansOf(|s|, MatchesFrom(s, at)))
    && PairsOf(s, SpansOf(|s|, MatchesFrom(s, at))) == pairs
  }

  lemma FirstEntryAddsItsPair(s: string, before: string, es: seq<Entry>, after: string)
    requires RendersFrom(s, before, es) && es != [] && after == before + Text(es[0])
    requires |after| <= |s| && Gives(s, |after|, Pairs(es[1..]))
    ensures Gives(s, |before|, Pairs(es))
  {
    FirstEntryIsPlaced(s, before, es, after);
    PairsAfterEntry(s, |before|, es[0], |after|);
  }

  lemma {:induction false} RenderGivesThePairs(s: string, before: string, es: seq<Entry>)
    requires RendersFrom(s, before, es)
    ensures |before| <= |s| && Gives(s, |before|, Pairs(es))
    decreases |es|
  {
    if es == [] {
      NothingAtTheEnd(s);
    } else {
      var after := before + Text(es[0]);
      RestIsRendered(s, before, es, after);
      RenderGivesThePairs(s, after, es[1..]);
      FirstEntryAddsItsPair(s, before, es, after);
    }
  }

  // ---- Text around the pairs ----

  /** Nothing in the text before the first key looks like a key, and whitespace separates the two. */
  predicate IsPrefix(x: string) {
    (x == "" || IsSpace(x[|x| - 1])) && forall j :: 0 <= j < |x| ==> !IsToken(x, j)
  }

  lemma PrefixHasNoToken(s: string, x: string, rest: string, j: nat)
    requires s == x + rest && IsPrefix(x) && j < |x|
    ensures !IsToken(s, j)
  {
    if j == |x| - 1 {
      SpaceIsNoToken(s, j);
    } else if IsToken(s, j) {
      var front := x[..|x| - 1];
      assert Shows(s, 0, front) && s[|front|] == x[|x| - 1];
      TokenStaysInside(s, 0, front, j);
      FrontTokenIsToken(x, j);
    }
  }

  lemma FrontTokenIsToken(x: string, j: nat)
    requires x != "" && IsSpace(x[|x| - 1]) && j < |x| - 1 && IsToken(x[..|x| - 1], j)
    ensures IsToken(x, j)
  {
    NotBoth(x[|x| - 1]);
    RunStaysInside(x, 0, x[..|x| - 1], j);
  }

  lemma PrefixIsSkipped(s: string, x: string, es: seq<Entry>)
    requires s == x + Render(es) && IsPrefix(x) && AreEntries(es)
    ensures |x| <= |s| && MatchesFrom(s, 0) == MatchesFrom(s, |x|)
  {
    forall j | 0 <= j < |x| ensures !IsToken(s, j) {
      PrefixHasNoToken(s, x, Render(es), j);
    }
    BoundaryIsToken(s, x, es);
    NextTokenIs(s, 0, |x|);
    SameNextSameMatches(s, 0, |x|);
  }

  /** Text before the first key changes nothing. */
  lemma ScanGivesThePairs(x: string, es: seq<Entry>)
    requires IsPrefix(x) && AreEntries(es)
    ensures Scan(x + Render(es)) == Pairs(es)
  {
    var s := x + Render(es);
    PrefixIsSkipped(s, x, es);
    RenderGivesThePairs(s, x, es);
  }

  // ---- The whole response is stripped first ----

  lemma ShiftedToken(x: string, j: nat)
    requires x != "" && IsSpace(x[0]) && j < |x[1..]| && IsToken(x[1..], j)
    ensures IsToken(x, j + 1)
  {
    assert Shows(x, 1, x[1..]);
    RunStaysInside(x, 1, x[1..], j);
    ShownChar(x, 1, x[1..], KeyEnd(x[1..], j));
    if j > 0 {
      ShownChar(x, 1, x[1..], j - 1);
    }
  }

  lemma TailIsPrefix(x: string)
    requires IsPrefix(x) && x != "" && IsSpace(x[0])
    ensures IsPrefix(x[1..])
  {
    forall j | 0 <= j < |x[1..]| ensures !IsToken(x[1..], j) {
      if IsToken(x[1..], j) {
        ShiftedToken(x, j);
      }
    }
  }

  lemma {:induction false} StripLeftJoins(x: string, body: string)
    requires body != "" && !IsSpace(body[0])
    ensures StripLeft(x + body) == StripLeft(x) + body
  {
    if x == "" {
      assert x + body == body;
    } else if IsSpace(x[0]) {
      StripLeftJoins(x[1..], body);
      assert (x + body)[1..] == x[1..] + body;
    }
  }

  lemma {:induction false} StripLeftIsPrefix(x: string)
    requires IsPrefix(x)
    ensures IsPrefix(StripLeft(x))
  {
    if x != "" && IsSpace(x[0]) {
      TailIsPrefix(x);
      StripLeftIsPrefix(x[1..]);
    }
  }

  lemma StripLeftOfPrefix(x: string, body: string)
    requires IsPrefix(x) && body != "" && !IsSpace(body[0])
    ensures IsPrefix(StripLeft(x)) && StripLeft(x + body) == StripLeft(x) + body
  {
    StripLeftJoins(x, body);
    StripLeftIsPrefix(x);
  }

  /** The same entries without the whitespace after the last one. */
  function WithoutLastGap(es: seq<Entry>): seq<Entry> {
    if es == [] then []
    else if |es| == 1 then [es[0].(gap := "")]
    else [es[0]] + WithoutLastGap(es[1..])
  }

  lemma {:induction false} EntriesWithoutLastGap(es: seq<Entry>)
    requires AreEntries(es)
    ensures AreEntries(WithoutLastGap(es))
  {
    if |es| > 1 {
      EntriesWithoutLastGap(es[1..]);
      assert WithoutLastGap(es)[1..] == WithoutLastGap(es[1..]);
    }
  }

  lemma {:induction false} PairsWithoutLastGap(es: seq<Entry>)
    ensures Pairs(WithoutLastGap(es)) == Pairs(es)
  {
    if |es| > 1 {
      PairsWithoutLastGap(es[1..]);
      assert WithoutLastGap(es)[1..] == WithoutLastGap(es[1..]);
    }
  }

  function LastGap(es: seq<Entry>): string {
    if es == [] then "" else es[|es| - 1].gap
  }

  lemma {:induction false} RenderWithoutLastGap(es: seq<Entry>)
    ensures Render(es) == Render(WithoutLastGap(es)) + LastGap(es)
  {
    if |es| == 1 {
      assert Text(es[0]) == Text(es[0].(gap := "")) + es[0].gap;
    } else if |es| > 1 {
      RenderWithoutLastGap(es[1..]);
      assert WithoutLastGap(es)[1..] == WithoutLastGap(es[1..]);
      assert LastGap(es) == LastGap(es[1..]);
      Associate(Text(es[0]), Render(WithoutLastGap(es[1..])), LastGap(es));
    }
  }

  /** A text of pairs ends in its last value, or in an equals sign. */
  lemma {:induction false} RenderEndsVisibly(es: seq<Entry>)
    requires AreEntries(es) && es != [] && LastGap(es) == ""
    ensures Render(es) != "" && !IsSpace(Render(es)[|Render(es)| - 1])
  {
    if |es| == 1 {
      KeyTextIsNotSpace('=');
      assert Render(es) == Text(es[0]);
      VisibleText(es[0]);
    } else {
      RenderEndsVisibly(es[1..]);
    }
  }

  lemma VisibleText(e: Entry)
    requires IsTrimmed(e.value) && e.gap == ""
    ensures Text(e) != "" && !IsSpace(Text(e)[|Text(e)| - 1])
  {
    KeyTextIsNotSpace('=');
    assert e.value == "" ==> Text(e) == e.key + "=";
    assert e.value != "" ==> Text(e)[|Text(e)| - 1] == e.value[|e.value| - 1];
  }

  lemma {:induction false} LastGapIsGap(es: seq<Entry>)
    requires AreEntries(es)
    ensures IsGap(LastGap(es)) && LastGap(WithoutLastGap(es)) == ""
  {
    if |es| > 1 {
      LastGapIsGap(es[1..]);
      assert WithoutLastGap(es)[1..] == WithoutLastGap(es[1..]) && WithoutLastGap(es[1..]) != [];
      assert LastGap(es) == LastGap(es[1..]);
    }
  }

  lemma RenderStartsWithAKey(es: seq<Entry>)
    requires AreEntries(es) && es != []
    ensures Render(es) != "" && !IsSpace(Render(es)[0])
  {
    assert Render(es)[0] == es[0].key[0];
    KeyTextIsNotSpace(es[0].key[0]);
  }

  /** Stripping a response cuts the front of its prefix and the whitespace at its end, and nothing else. */
  lemma StripKeepsTheEntries(x: string, es: seq<Entry>)
    requires IsPrefix(x) && AreEntries(es) && es != []
    ensures IsPrefix(StripLeft(x)) && Strip(x + Render(es)) == StripLeft(x) + Render(WithoutLastGap(es))
  {
    var short := WithoutLastGap(es);
    RenderStartsWithAKey(es);
    StripLeftOfPrefix(x, Render(es));
    RenderWithoutLastGap(es);
    LastGapIsGap(es);
    EntriesWithoutLastGap(es);
    RenderEndsVisibly(short);
    Associate(StripLeft(x), Render(short), LastGap(es));
    StripRightGap(StripLeft(x) + Render(short), LastGap(es));
    VisibleEnd(StripLeft(x), Render(short));
  }

  lemma VisibleEnd(x: string, y: string)
    requires y != "" && !IsSpace(y[|y| - 1])
    ensures StripRight(x + y) == x + y
  {
    assert (x + y)[|x + y| - 1] == y[|y| - 1];
  }

  /** Rendering pairs and extracting them gives the pairs back, whatever the whitespace and the text in front. */
  lemma RoundTrip(x: string, es: seq<Entry>)
    requires IsPrefix(x) && AreEntries(es) && es != []
    ensures Extract(x + Render(es)) == ToMap(Pairs(es))
  {
    StripKeepsTheEntries(x, es);
    EntriesWithoutLastGap(es);
    PairsWithoutLastGap(es);
    ScanGivesThePairs(StripLeft(x), WithoutLastGap(es));
  }

  /** With distinct keys the map holds exactly the pairs. */
  lemma {:induction false} DistinctKeysAreAllKept(ps: seq<Pair>)
    requires forall i, j :: 0 <= i < j < |ps| ==> ps[i].key != ps[j].key
    ensures forall i :: 0 <= i < |ps| ==> ps[i].key in ToMap(ps) && ToMap(ps)[ps[i].key] == ps[i].value
    ensures forall k :: k in ToMap(ps) ==> exists i :: 0 <= i < |ps| && ps[i].key == k
  {
    if ps != [] {
      var n := |ps| - 1;
      DistinctKeysAreAllKept(ps[..n]);
      forall k | k in ToMap(ps) ensures exists i :: 0 <= i < |ps| && ps[i].key == k {
        if k == ps[n].key {
        } else {
          var i :| 0 <= i < n && ps[..n][i].key == k;
          assert ps[i].key == k;
        }
      }
    }
  }

  // ---- Exactly which values survive ----

  lemma {:induction false} StripLeftShowsText(s: string)
    ensures StripLeft(s) == "" || !IsSpace(StripLeft(s)[0])
    ensures |StripLeft(s)| <= |s|
  {
    if s != "" && IsSpace(s[0]) {
      StripLeftShowsText(s[1..]);
    }
  }

  lemma {:induction false} StripRightShowsText(s: string)
    ensures var r := StripRight(s);
            |r| <= |s| && (r == "" || (!IsSpace(r[|r| - 1]) && s != "" && r[0] == s[0]))
  {
    if s != "" && IsSpace(s[|s| - 1]) {
      StripRightShowsText(s[..|s| - 1]);
    }
  }

  lemma StripIsTrimmed(s: string)
    ensures IsTrimmed(Strip(s)) && |Strip(s)| <= |s|
  {
    StripLeftShowsText(s);
    StripRightShowsText(StripLeft(s));
  }

  lemma {:induction false} MapValuesComeFromPairs(ps: seq<Pair>, k: string)
    requires k in ToMap(ps)
    ensures exists i :: 0 <= i < |ps| && ps[i].value == ToMap(ps)[k]
  {
    var n := |ps| - 1;
    if k != ps[n].key {
      MapValuesComeFromPairs(ps[..n], k);
      var i :| 0 <= i < n && ps[..n][i].value == ToMap(ps)[k];
      assert ps[i].value == ToMap(ps)[k];
    } else {
      assert ps[n].value == ToMap(ps)[k];
    }
  }

  /** Every equals sign that ends a key found from `i` on lies beyond `i`. */
  lemma {:induction false} SpansStartLater(s: string, i: nat)
    requires i <= |s|
    ensures forall k :: 0 <= k < |SpansOf(|s|, MatchesFrom(s, i))| ==> i < SpansOf(|s|, MatchesFrom(s, i))[k].equals
    decreases |s| - i
  {
    var n := NextToken(s, i);
    if n < |s| {
      TokenAt(s, i);
      var m := Match(n, KeyEnd(s, n));
      SpansStartLater(s, m.equals + 1);
      ConsSpans(|s|, m, MatchesFrom(s, m.equals + 1));
    }
  }

  lemma {:induction false} TokenAt(s: string, i: nat)
    requires i <= |s| && NextToken(s, i) < |s|
    ensures IsToken(s, NextToken(s, i))
    decreases |s| - i
  {
    if !IsToken(s, i) {
      TokenAt(s, i + 1);
    }
  }

  lemma {:induction false} NextTokenIsNoLater(s: string, i: nat, j: nat)
    requires i <= j < |s| && IsToken(s, j)
    ensures NextToken(s, i) <= j
    decreases j - i
  {
    if !IsToken(s, i) {
      NextTokenIsNoLater(s, i + 1, j);
    }
  }

  lemma ValueIsShort(s: string, sp: Span, limit: nat)
    requires Within(|s|, sp) && sp.end - sp.equals <= limit
    ensures |PairAt(s, sp).value| < limit && IsTrimmed(PairAt(s, sp).value)
  {
    StripIsTrimmed(s[sp.equals + 1..sp.end]);
  }

  lemma HiddenTokenIsSeen(s: string, from: nat, v: string, j: nat)
    requires Shows(s, from, v) && from + |v| == |s| && 0 < j < |v| && IsToken(v, j)
    ensures NextToken(s, from) < |s|
  {
    RunStaysInside(s, from, v, j);
    ShownChar(s, from, v, j - 1);
    ShownChar(s, from, v, KeyEnd(v, j));
    NextTokenIsNoLater(s, from, from + j);
  }

  lemma SpansAreShort(s: string, equals: nat, from: nat)
    requires from == equals + 1 <= |s| && NextToken(s, 0) == 0 && KeyEnd(s, 0) == equals && NextToken(s, from) < |s|
    ensures AllWithin(|s|, SpansOf(|s|, MatchesFrom(s, 0)))
    ensures forall sp :: sp in SpansOf(|s|, MatchesFrom(s, 0)) ==> sp.end - sp.equals <= |s| - from
  {
    MatchesAreInOrder(s, 0);
    SpansStartLater(s, from);
    FirstStartIsNextToken(s, from);
    FirstMatch(s, equals, from);
    ConsSpans(|s|, Match(0, equals), MatchesFrom(s, from));
    OthersAreShort(|s|, Span(0, equals, NextToken(s, from)), SpansOf(|s|, MatchesFrom(s, from)), from);
  }

  lemma FirstMatch(s: string, equals: nat, from: nat)
    requires from == equals + 1 <= |s| && NextToken(s, 0) == 0 && KeyEnd(s, 0) == equals
    ensures MatchesFrom(s, 0) == [Match(0, equals)] + MatchesFrom(s, from)
  {
  }

  lemma OthersAreShort(length: nat, first: Span, others: seq<Span>, from: nat)
    requires first.equals + 1 == from && first.end < length
    requires AllWithin(length, [first] + others) && forall k :: 0 <= k < |others| ==> from < others[k].equals
    ensures forall sp :: sp in [first] + others ==> sp.end - sp.equals <= length - from
  {
    forall sp | sp in [first] + others ensures sp.end - sp.equals <= length - from {
      var i :| 0 <= i < |[first] + others| && ([first] + others)[i] == sp;
      assert Within(length, ([first] + others)[i]);
      if i > 0 {
        assert others[i - 1] == sp;
      }
    }
  }

  /** A token hidden in the value cuts every value short. */
  lemma HiddenTokenShortens(s: string, k: string, v: string, j: nat)
    requires s == k + ("=" + v) && IsKey(k) && 0 < j < |v| && IsToken(v, j)
    ensures forall p :: p in Scan(s) ==> |p.value| < |v|
  {
    var equals, from := |k|, |k| + 1;
    assert Shows(s, 0, k) && Shows(s, from, v);
    KeyIsToken(s, 0, k);
    NextTokenHere(s, 0);
    HiddenTokenIsSeen(s, from, v, j);
    SpansAreShort(s, equals, from);
    ScannedValuesAreShort(s, |v|);
  }

  /** Every scanned pair comes from a span. */
  lemma ScannedPairHasASpan(s: string, p: Pair) returns (sp: Span)
    requires p in Scan(s)
    ensures sp in SpansOf(|s|, MatchesFrom(s, 0)) && Within(|s|, sp) && p == PairAt(s, sp)
  {
    MatchesAreInOrder(s, 0);
    var spans := SpansOf(|s|, MatchesFrom(s, 0));
    var i :| 0 <= i < |spans| && PairsOf(s, spans)[i] == p;
    sp := spans[i];
  }

  lemma ScannedValuesAreShort(s: string, limit: nat)
    requires forall sp :: sp in SpansOf(|s|, MatchesFrom(s, 0)) ==> sp.end - sp.equals <= limit
    ensures forall p :: p in Scan(s) ==> |p.value| < limit
  {
    forall p | p in Scan(s) ensures |p.value| < limit {
      var sp := ScannedPairHasASpan(s, p);
      ValueIsShort(s, sp, limit);
    }
  }

  lemma ScannedValuesAreTrimmed(s: string)
    ensures forall p :: p in Scan(s) ==> IsTrimmed(p.value)
  {
    forall p | p in Scan(s) ensures IsTrimmed(p.value) {
      var sp := ScannedPairHasASpan(s, p);
      ValueIsShort(s, sp, sp.end - sp.equals);
    }
  }

  lemma ExtractedIsScanned(response: string, k: string)
    requires k in Extract(response)
    ensures exists p :: p in Scan(Strip(response)) && p.value == Extract(response)[k]
  {
    var ps := Scan(Strip(response));
    MapValuesComeFromPairs(ps, k);
    var i :| 0 <= i < |ps| && ps[i].value == ToMap(ps)[k];
    assert ps[i] in ps;
  }

  lemma StripKeepsAPair(k: string, v: string)
    requires IsKey(k) && IsTrimmed(v)
    ensures Strip(k + ("=" + v)) == k + ("=" + v)
  {
    var e := Entry(k, v, "");
    KeyTextIsNotSpace(k[0]);
    assert Text(e) == k + ("=" + v) && Text(e)[0] == k[0];
    VisibleText(e);
  }

  /** A single value survives rendering and extraction exactly when it is trimmed and hides no key pattern. */
  lemma ValueSurvivesIff(k: string, v: string)
    requires IsKey(k)
    ensures Extract(k + ("=" + v)) == map[k := v] <==> IsTrimmed(v) && HidesNoToken(v)
  {
    var s := k + ("=" + v);
    if IsTrimmed(v) && HidesNoToken(v) {
      var es := [Entry(k, v, "")];
      assert Render(es) == Text(es[0]) && Text(es[0]) == s && "" + s == s;
      RoundTrip("", es);
      assert Pairs(es) == [Pair(k, v)];
      assert ToMap([Pair(k, v)]) == map[k := v] by {
        ToMapOfOne(Pair(k, v));
      }
    } else if Extract(s) == map[k := v] {
      ExtractedIsScanned(s, k);
      var p :| p in Scan(Strip(s)) && p.value == v;
      ScannedValuesAreTrimmed(Strip(s));
      StripKeepsAPair(k, v);
      var j :| 0 < j < |v| && IsToken(v, j);
      HiddenTokenShortens(s, k, v, j);
    }
  }

  lemma ToMapOfOne(p: Pair)
    ensures ToMap([p]) == map[p.key := p.value]
  {
    assert [p][..0] == [];
  }
}
