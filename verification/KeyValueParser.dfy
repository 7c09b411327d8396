/** The KEY=VALUE scanner for model responses, and what rendering and scanning give back. */
module KeyValueParser {
  import opened Prelude

  /** Python's whitespace, for both stripping and `\s`, as ranges of code points. */
  const SPACES: seq<(int, int)> := [
    (0x09, 0x0D), (0x1C, 0x20), (0x85, 0x85), (0xA0, 0xA0), (0x1680, 0x1680),
    (0x2000, 0x200A), (0x2028, 0x2029), (0x202F, 0x202F), (0x205F, 0x205F), (0x3000, 0x3000)]

  predicate IsSpace(c: char) {
    IsWithin(c as int, SPACES)
  }

  predicate IsWithin(n: int, ranges: seq<(int, int)>) {
    ranges != [] && (ranges[0].0 <= n <= ranges[0].1 || IsWithin(n, ranges[1..]))
  }

  predicate IsKeyChar(c: char) {
    'A' <= c <= 'Z' || c == '_'
  }

  function StripLeft(s: string): string {
    if s != [] && IsSpace(s[0]) then StripLeft(s[1..]) else s
  }

  function StripRight(s: string): string {
    if s != [] && IsSpace(s[|s| - 1]) then StripRight(s[..|s| - 1]) else s
  }

  function Strip(s: string): string {
    StripRight(StripLeft(s))
  }

  // ---- Tokens ----

  /** Where the run of key characters from `i` ends. */
  function KeyEnd(s: string, i: nat): (e: nat)
    requires i <= |s|
    ensures i <= e <= |s|
    decreases |s| - i
  {
    if i < |s| && IsKeyChar(s[i]) then KeyEnd(s, i + 1) else i
  }

  /** A key and its equals sign, at the start or after whitespace. */
  predicate IsToken(s: string, i: nat) {
    && i < |s| && (i == 0 || IsSpace(s[i - 1]))
    && i < KeyEnd(s, i) < |s| && s[KeyEnd(s, i)] == '='
  }

  /** The first token at or after `i`, or the end. */
  function NextToken(s: string, i: nat): (n: nat)
    requires i <= |s|
    ensures i <= n <= |s| && (n < |s| ==> KeyEnd(s, n) < |s|)
    decreases |s| - i
  {
    if i == |s| || IsToken(s, i) then i else NextToken(s, i + 1)
  }

  /** A match of the key pattern: where the key starts, and where its equals sign is. */
  datatype Match = Match(start: nat, equals: nat)

  /** All matches from `i` on, in order. */
  function MatchesFrom(s: string, i: nat): seq<Match>
    requires i <= |s|
    decreases |s| - i
  {
    var n := NextToken(s, i);
    if n == |s| then [] else [Match(n, KeyEnd(s, n))] + MatchesFrom(s, KeyEnd(s, n) + 1)
  }

  /** A match and where its value ends: at the next match, or at the end of the text. */
  datatype Span = Span(start: nat, equals: nat, end: nat)

  function FirstStart(length: nat, ms: seq<Match>): nat {
    if ms == [] then length else ms[0].start
  }

  function SpansOf(length: nat, ms: seq<Match>): seq<Span> {
    if ms == [] then []
    else [Span(ms[0].start, ms[0].equals, FirstStart(length, ms[1..]))] + SpansOf(length, ms[1..])
  }

  predicate Within(length: nat, sp: Span) {
    sp.start <= sp.equals < sp.end <= length
  }

  predicate AllWithin(length: nat, spans: seq<Span>) {
    forall k :: 0 <= k < |spans| ==> Within(length, spans[k])
  }

  lemma ConsSpans(length: nat, m: Match, ms: seq<Match>)
    ensures SpansOf(length, [m] + ms) == [Span(m.start, m.equals, FirstStart(length, ms))] + SpansOf(length, ms)
  {
    assert ([m] + ms)[1..] == ms;
  }

  lemma ConsIsWithin(length: nat, m: Match, ms: seq<Match>)
    requires AllWithin(length, SpansOf(length, ms)) && m.start <= m.equals < FirstStart(length, ms) <= length
    ensures AllWithin(length, SpansOf(length, [m] + ms)) && FirstStart(length, [m] + ms) == m.start
  {
    ConsSpans(length, m, ms);
  }

  lemma {:induction false} MatchesAreInOrder(s: string, i: nat)
    requires i <= |s|
    ensures AllWithin(|s|, SpansOf(|s|, MatchesFrom(s, i))) && i <= FirstStart(|s|, MatchesFrom(s, i)) <= |s|
    decreases |s| - i
  {
    var n := NextToken(s, i);
    if n < |s| {
      var m := Match(n, KeyEnd(s, n));
      MatchesAreInOrder(s, m.equals + 1);
      ConsIsWithin(|s|, m, MatchesFrom(s, m.equals + 1));
    }
  }

  lemma {:induction false} SpanAt(length: nat, ms: seq<Match>, k: nat)
    requires k < |ms|
    ensures |SpansOf(length, ms)| == |ms|
    ensures SpansOf(length, ms)[k] == Span(ms[k].start, ms[k].equals, if k + 1 < |ms| then ms[k + 1].start else length)
  {
    if k > 0 {
      SpanAt(length, ms[1..], k - 1);
    } else if |ms| > 1 {
      SpanAt(length, ms[1..], 0);
    }
  }

  datatype Pair = Pair(key: string, value: string)

  function PairAt(s: string, sp: Span): Pair
    requires Within(|s|, sp)
  {
    Pair(s[sp.start..sp.equals], Strip(s[sp.equals + 1..sp.end]))
  }

  function PairsOf(s: string, spans: seq<Span>): seq<Pair>
    requires AllWithin(|s|, spans)
  {
    seq(|spans|, k requires 0 <= k < |spans| => PairAt(s, spans[k]))
  }

  /** Later values replace earlier ones. */
  function ToMap(pairs: seq<Pair>): map<string, string> {
    if pairs == [] then map[]
    else ToMap(pairs[..|pairs| - 1])[pairs[|pairs| - 1].key := pairs[|pairs| - 1].value]
  }

  function Scan(s: string): seq<Pair> {
    MatchesAreInOrder(s, 0);
    PairsOf(s, SpansOf(|s|, MatchesFrom(s, 0)))
  }

  function Extract(response: string): map<string, string> {
    ToMap(Scan(Strip(response)))
  }

  method ExtractPairs(response: string) returns (pairs: map<string, string>)
    ensures pairs == Extract(response)
  {
    var s := Strip(response);
    var matches := MatchesFrom(s, 0);
    MatchesAreInOrder(s, 0);
    pairs := Collect(s, matches);
  }

  method Collect(s: string, matches: seq<Match>) returns (pairs: map<string, string>)
    requires AllWithin(|s|, SpansOf(|s|, matches))
    ensures pairs == ToMap(PairsOf(s, SpansOf(|s|, matches)))
  {
    ghost var spans := SpansOf(|s|, matches);
    ghost var all := PairsOf(s, spans);
    pairs := map[];
    for k := 0 to |matches|
      invariant k <= |spans| && pairs == ToMap(all[..k])
    {
      SpanAt(|s|, matches, k);
      var end := if k + 1 < |matches| then matches[k + 1].start else |s|;
      var p := PairAt(s, Span(matches[k].start, matches[k].equals, end));
      assert all[..k + 1][..k] == all[..k] && all[k] == p;
      pairs := pairs[p.key := p.value];
    }
    assert |spans| == |matches| by {
      if matches != [] {
        SpanAt(|s|, matches, 0);
      }
    }
    assert all[..|matches|] == all;
  }
}
