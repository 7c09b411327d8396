/**
 * From a model response to a decision: the checks after extraction, and the contract read back from its own
 * rendering.
 */
module DecisionContract {
  import opened Prelude
  import opened KeyValueParser
  import opened KeyValueRoundTrip
  import ExecutionBridge
  import opened OrderProtocol

  datatype Decided = Decided(
    action: Action, side: Option<Side>, confidence: Option<real>, reason: string, stopDistance: Option<real>)

  datatype ContractError =
    | MissingAction | InvalidAction | MissingKeys | InvalidSide
    | InvalidConfidence | ConfidenceOutOfRange | InvalidStop | MissingStop

  datatype Parsed = Accepted(intent: Decided) | Rejected(error: ContractError)

  function ActionWord(a: Action): string {
    match a
    case NoTrade => "NO_TRADE"
    case Halt => "HALT"
    case Open => "OPEN"
    case Add => "ADD"
    case Reduce => "REDUCE"
    case Close => "CLOSE"
    case CancelPending => "CANCEL_PENDING"
  }

  function ActionOf(word: string): Option<Action> {
    if word == "NO_TRADE" then Some(NoTrade)
    else if word == "HALT" then Some(Halt)
    else if word == "OPEN" then Some(Open)
    else if word == "ADD" then Some(Add)
    else if word == "REDUCE" then Some(Reduce)
    else if word == "CLOSE" then Some(Close)
    else if word == "CANCEL_PENDING" then Some(CancelPending)
    else None
  }

  function Lower(s: string): string {
    seq(|s|, i requires 0 <= i < |s| => if 'A' <= s[i] <= 'Z' then (s[i] as int + 32) as char else s[i])
  }

  /** A missing key and an empty value are treated alike throughout. */
  function Field(m: map<string, string>, key: string): string {
    if key in m then m[key] else ""
  }

  function FirstText(a: string, b: string): string {
    if a != "" then a else b
  }

  function SideWord(side: Option<Side>): string {
    match side case None => "none" case Some(Buy) => "buy" case Some(Sell) => "sell"
  }

  /** The side that a lower-case word names; the outer option is missing for any other word. */
  function SideOf(word: string): Option<Option<Side>> {
    if word == "none" then Some(None)
    else if word == "buy" then Some(Some(Buy))
    else if word == "sell" then Some(Some(Sell))
    else None
  }

  /** A number, nothing for the words that stand for nothing, or an error (the outer `None`). */
  function Figure(raw: string, absent: bool, number: string -> Option<real>): Option<Option<real>> {
    if absent then Some(None)
    else match number(raw)
      case None => None
      case Some(x) => Some(Some(x))
  }

  function Check(m: map<string, string>, number: string -> Option<real>): Parsed {
    if Field(m, "ACTION") == "" then Rejected(MissingAction)
    else
      match ActionOf(ExecutionBridge.Upper(Strip(Field(m, "ACTION"))))
      case None => Rejected(InvalidAction)
      case Some(action) => CheckFields(
        action, Field(m, "REASON"), FirstText(Field(m, "SIDE"), Field(m, "DIRECTION")),
        Field(m, "CONFIDENCE"), Field(m, "STOP_DISTANCE_POINTS"), number)
  }

  function CheckFields(
      action: Action, reason: string, side: string, confidence: string, stop: string,
        number: string -> Option<real>): Parsed {
    var idle := !IsTrade(action);
    var sided := SideOf(Lower(FirstText(side, if idle then "none" else "")));
    var noConfidence := confidence == "" || confidence == "none";
    var figure := if idle && noConfidence then Some(Some(0.0)) else Figure(confidence, noConfidence, number);
    var distance := Figure(stop, stop == "" || stop == "none" || stop == "NONE", number);
    if reason == "" || (!idle && confidence == "") then Rejected(MissingKeys)
    else if sided.None? then Rejected(InvalidSide)
    else if figure.None? then Rejected(InvalidConfidence)
    else if figure.value.Some? && !(0.0 <= figure.value.value <= 1.0) then Rejected(ConfidenceOutOfRange)
    else if distance.None? then Rejected(InvalidStop)
    else if !idle && distance.value.None? then Rejected(MissingStop)
    else Accepted(Decided(action, sided.value, figure.value, reason, distance.value))
  }

  function ParseResponse(response: string, number: string -> Option<real>): Parsed {
    Check(Extract(response), number)
  }

  // ---- What an accepted response guarantees ----

  /** The decision contract: a reason, a confidence in range, and a stop distance for every trade. */
  predicate IsComplete(d: Decided) {
    && d.reason != ""
    && (d.confidence.Some? ==> 0.0 <= d.confidence.value <= 1.0)
    && (IsTrade(d.action) ==> d.stopDistance.Some?)
    && (!IsTrade(d.action) ==> d.confidence.Some?)
  }

  lemma AcceptedDecisionsAreComplete(response: string, number: string -> Option<real>)
    ensures var p := ParseResponse(response, number); p.Accepted? ==> IsComplete(p.intent)
  {
  }

  // ---- The contract, rendered and read back ----

  /** A token without whitespace. */
  predicate IsWord(s: string) {
    s != "" && forall c :: c in s ==> !IsSpace(c)
  }

  lemma WordIsAValue(s: string)
    requires IsWord(s)
    ensures IsTrimmed(s) && HidesNoToken(s)
  {
  }

  lemma ActionWordsAreKeys(a: Action)
    ensures IsKey(ActionWord(a)) && ActionOf(ActionWord(a)) == Some(a)
  {
  }

  lemma SideWordsAreWords(side: Option<Side>)
    ensures IsWord(SideWord(side)) && Lower(SideWord(side)) == SideWord(side) && SideOf(SideWord(side)) == Some(side)
  {
    forall c | c in SideWord(side) ensures !IsSpace(c) {
      OutsideAll(c as int, SPACES);
    }
  }

  /** The text stands for the figure, or for its absence. */
  predicate Says(text: string, figure: Option<real>, number: string -> Option<real>) {
    match figure
    case None => text == "none"
    case Some(x) => IsWord(text) && text != "none" && text != "NONE" && number(text) == Some(x)
  }

  predicate IsReason(reason: string) {
    reason != "" && IsTrimmed(reason) && HidesNoToken(reason)
  }

  /** The documented five keys, set apart by any whitespace: line by line or on one line. */
  function Contract(d: Decided, confidence: string, stop: string, gap: string): seq<Entry> {
    [Entry("ACTION", ActionWord(d.action), gap), Entry("SIDE", SideWord(d.side), gap),
     Entry("CONFIDENCE", confidence, gap), Entry("REASON", d.reason, gap), Entry("STOP_DISTANCE_POINTS", stop, "")]
  }

  lemma NoneIsAWord()
    ensures IsWord("none")
  {
    SideWordsAreWords(None);
  }

  lemma SaidIsAWord(text: string, figure: Option<real>, number: string -> Option<real>)
    requires Says(text, figure, number)
    ensures IsWord(text)
  {
    NoneIsAWord();
  }

  lemma KeysAreKeys()
    ensures IsKey("ACTION") && IsKey("SIDE") && IsKey("CONFIDENCE") && IsKey("REASON") && IsKey("STOP_DISTANCE_POINTS")
  {
  }

  lemma ConsEntries(e: Entry, es: seq<Entry>)
    requires IsEntry(e) && AreEntries(es) && (es != [] ==> e.gap != "")
    ensures AreEntries([e] + es) && Pairs([e] + es) == [Pair(e.key, e.value)] + Pairs(es)
  {
    assert ([e] + es)[1..] == es;
  }

  lemma WordIsAnEntry(key: string, value: string, gap: string)
    requires IsKey(key) && IsWord(value) && IsGap(gap)
    ensures IsEntry(Entry(key, value, gap))
  {
    WordIsAValue(value);
  }

  lemma ContractIsRenderable(d: Decided, confidence: string, stop: string, gap: string)
    requires IsWord(confidence) && IsWord(stop) && IsReason(d.reason) && IsGap(gap) && gap != ""
    ensures var es := Contract(d, confidence, stop, gap);
            && AreEntries(es)
            && Pairs(es) == [Pair("ACTION", ActionWord(d.action)), Pair("SIDE", SideWord(d.side)),
                             Pair("CONFIDENCE", confidence),
                             Pair("REASON", d.reason), Pair("STOP_DISTANCE_POINTS", stop)]
  {
    KeysAreKeys();
    ActionWordsAreKeys(d.action);
    forall c | c in ActionWord(d.action) ensures !IsSpace(c) {
      KeyTextIsNotSpace(c);
    }
    SideWordsAreWords(d.side);
    var a, b := Entry("ACTION", ActionWord(d.action), gap), Entry("SIDE", SideWord(d.side), gap);
    var c, r, s := Entry("CONFIDENCE", confidence, gap), Entry("REASON", d.reason, gap),
      Entry("STOP_DISTANCE_POINTS", stop, "");
    WordIsAnEntry("ACTION", ActionWord(d.action), gap);
    WordIsAnEntry("SIDE", SideWord(d.side), gap);
    WordIsAnEntry("CONFIDENCE", confidence, gap);
    WordIsAnEntry("STOP_DISTANCE_POINTS", stop, "");
    FiveEntries(a, b, c, r, s);
  }

  lemma FiveEntries(a: Entry, b: Entry, c: Entry, r: Entry, s: Entry)
    requires IsEntry(a) && IsEntry(b) && IsEntry(c) && IsEntry(r) && IsEntry(s)
    requires a.gap != "" && b.gap != "" && c.gap != "" && r.gap != ""
    ensures AreEntries([a, b, c, r, s])
    ensures Pairs([a, b, c, r, s]) == [Pair(a.key, a.value), Pair(b.key, b.value), Pair(c.key, c.value),
                                       Pair(r.key, r.value), Pair(s.key, s.value)]
  {
    ConsEntries(s, []);
    assert [s] + [] == [s];
    ConsEntries(r, [s]);
    assert [r] + [s] == [r, s];
    ConsEntries(c, [r, s]);
    assert [c] + [r, s] == [c, r, s];
    ConsEntries(b, [c, r, s]);
    assert [b] + [c, r, s] == [b, c, r, s];
    ConsEntries(a, [b, c, r, s]);
    assert [a] + [b, c, r, s] == [a, b, c, r, s];
  }

  lemma FiveFields(a: string, b: string, c: string, r: string, s: string)
    ensures var m := ToMap([Pair("ACTION", a), Pair("SIDE", b), Pair("CONFIDENCE", c), Pair("REASON", r),
        Pair("STOP_DISTANCE_POINTS", s)]);
            && Field(m, "ACTION") == a && Field(m, "SIDE") == b && Field(m, "CONFIDENCE") == c
            && Field(m, "REASON") == r && Field(m, "STOP_DISTANCE_POINTS") == s
  {
    var ps := [Pair("ACTION", a), Pair("SIDE", b), Pair("CONFIDENCE", c), Pair("REASON", r),
      Pair("STOP_DISTANCE_POINTS", s)];
    assert "ACTION"[0] != "REASON"[0];
    DistinctKeysAreAllKept(ps);
    assert ps[0].key == "ACTION" && ps[1].key == "SIDE" && ps[2].key == "CONFIDENCE" && ps[3].key == "REASON";
    assert ps[4].key == "STOP_DISTANCE_POINTS";
  }

  lemma StripOfAKey(k: string)
    requires IsKey(k)
    ensures Strip(k) == k && ExecutionBridge.Upper(k) == k
  {
    KeyTextIsNotSpace(k[0]);
    KeyTextIsNotSpace(k[|k| - 1]);
    assert k + "" == k;
    StripDropsTheGap(k, "");
  }

  lemma FieldsAreRead(d: Decided, confidence: string, stop: string, number: string -> Option<real>)
    requires IsComplete(d) && Says(confidence, d.confidence, number) && Says(stop, d.stopDistance, number)
    ensures CheckFields(d.action, d.reason, SideWord(d.side), confidence, stop, number) == Accepted(d)
  {
    SideWordsAreWords(d.side);
    SaidIsAWord(confidence, d.confidence, number);
    SaidIsAWord(stop, d.stopDistance, number);
  }

  /** A complete decision, rendered under the documented keys after any harmless text, is read back exactly. */
  lemma ContractRoundTrip(
      prefix: string, d: Decided, confidence: string, stop: string, gap: string, number: string -> Option<real>)
    requires IsPrefix(prefix) && IsComplete(d) && IsReason(d.reason) && IsGap(gap) && gap != ""
    requires Says(confidence, d.confidence, number) && Says(stop, d.stopDistance, number)
    ensures ParseResponse(prefix + Render(Contract(d, confidence, stop, gap)), number) == Accepted(d)
  {
    SaidIsAWord(confidence, d.confidence, number);
    SaidIsAWord(stop, d.stopDistance, number);
    ContractIsRenderable(d, confidence, stop, gap);
    RoundTrip(prefix, Contract(d, confidence, stop, gap));
    FiveFields(ActionWord(d.action), SideWord(d.side), confidence, d.reason, stop);
    ReadBack(Extract(prefix + Render(Contract(d, confidence, stop, gap))), d, confidence, stop, number);
  }

  lemma ReadBack(m: map<string, string>, d: Decided, confidence: string, stop: string, number: string -> Option<real>)
    requires IsComplete(d) && Says(confidence, d.confidence, number) && Says(stop, d.stopDistance, number)
    requires Field(m, "ACTION") == ActionWord(d.action) && Field(m, "SIDE") == SideWord(d.side)
    requires Field(m, "CONFIDENCE") == confidence && Field(m, "REASON") == d.reason
    requires Field(m, "STOP_DISTANCE_POINTS") == stop
    ensures Check(m, number) == Accepted(d)
  {
    ActionWordsAreKeys(d.action);
    StripOfAKey(ActionWord(d.action));
    SideWordsAreWords(d.side);
    FieldsAreRead(d, confidence, stop, number);
  }
}
