/**
 * The session-log parser of the Codex import engine
 * (src/codex_import.rs): one log file, read line by line, is classified as
 * parsed facts, "no usage or limits", "parse error" or "unreadable".
 *
 * JSON decoding is not modelled: each line arrives already classified as
 * the decoder would see it (a `SessionLine`).
 */
module CodexSession {
  import opened Wrappers

  /** One rate-limit window. `usedPercent` stands for the source's `f64`. */
  datatype RateLimit = RateLimit(usedPercent: real, windowMinutes: nat, resetsAt: Option<nat>)

  /** A rate-limit snapshot, tagged with the timestamp of the event it came from. */
  datatype RateLimits = RateLimits(timestamp: string, primary: Option<RateLimit>, secondary: Option<RateLimit>)

  datatype TokenUsage = TokenUsage(inputTokens: nat, outputTokens: nat)

  /** What the cache keeps for one file: its fingerprint and its facts. */
  datatype CachedSession = CachedSession(
    modified: nat,
    fileLen: nat,
    timestamp: string,
    inputTokens: nat,
    outputTokens: nat,
    hasTokenUsage: bool,
    limits: Option<RateLimits>)

  /** A cached session always carries token usage or a rate-limit snapshot. */
  predicate UsefulSession(s: CachedSession) {
    s.hasTokenUsage || s.limits.Some?
  }

  /**
   * One line of a session log as the decoder classifies it.
   *  - Blank: empty once trailing '\n' / '\r' are trimmed.
   *  - NotEnvelope: not a JSON object with a string "type" field.
   *  - SessionMeta: "type" is "session_meta"; `metaTimestamp` is the payload's
   *    timestamp, None when it is absent or the typed decode fails.
   *  - TokenCount: "type" is "event_msg" with payload type "token_count";
   *    `decoded` is false when the typed decode of the event fails (for
   *    example a total_token_usage object lacking one of its two counts).
   *  - OtherEnvelope: any other envelope.
   *  - ReadError: reading the next line failed (I/O error, invalid UTF-8).
   */
  datatype SessionLine =
    | Blank
    | NotEnvelope
    | SessionMeta(metaTimestamp: Option<string>)
    | TokenCount(
        decoded: bool,
        eventTimestamp: Option<string>,
        totalUsage: Option<TokenUsage>,
        primary: Option<RateLimit>,
        secondary: Option<RateLimit>)
    | OtherEnvelope
    | ReadError
  {
    predicate IsEnvelope() {
      SessionMeta? || TokenCount? || OtherEnvelope?
    }
  }

  datatype ParsedSessionContents =
    | Parsed(timestamp: string, inputTokens: nat, outputTokens: nat, hasTokenUsage: bool, limits: Option<RateLimits>)
    | NoUsageOrLimits
    | ParseError

  datatype ParsedSessionFile =
    | FileParsed(session: CachedSession)
    | FileNoUsageOrLimits
    | FileParseError
    | FileUnreadable

  // ---------------------------------------------------------------------
  // Specification of the read loop: a left-to-right scan over the lines
  // ---------------------------------------------------------------------

  /** The read loop's accumulators, plus whether a read has failed. */
  datatype ScanState = ScanState(
    readFailed: bool,
    jsonLines: nat,
    sessionTimestamp: Option<string>,
    eventTimestamp: Option<string>,
    inputTokens: nat,
    outputTokens: nat,
    hasTokenUsage: bool,
    limits: Option<RateLimits>)

  const InitialScan := ScanState(false, 0, None, None, 0, 0, false, None)

  /** The effect of one line on the accumulators. */
  function Step(st: ScanState, line: SessionLine): ScanState {
    if st.readFailed then st
    else match line
      case Blank => st
      case NotEnvelope => st
      case ReadError => st.(readFailed := true)
      case OtherEnvelope => st.(jsonLines := st.jsonLines + 1)
      case SessionMeta(ts) =>
        st.(jsonLines := st.jsonLines + 1,
            sessionTimestamp := if ts.Some? then ts else st.sessionTimestamp)
      case TokenCount(decoded, ts, usage, primary, secondary) =>
        var counted := st.(jsonLines := st.jsonLines + 1);
        if !decoded then counted
        else
          var stamped :=
            if ts.None? then counted
            else counted.(
              eventTimestamp := ts,
              limits := if primary.Some? || secondary.Some? then Some(RateLimits(ts.value, primary, secondary))
                        else counted.limits);
          if usage.None? then stamped
          else stamped.(inputTokens := usage.value.inputTokens,
                        outputTokens := usage.value.outputTokens,
                        hasTokenUsage := true)
  }

  function ScanFrom(st: ScanState, lines: seq<SessionLine>): ScanState
    decreases |lines|
  {
    if lines == [] then st else Step(ScanFrom(st, lines[..|lines| - 1]), lines[|lines| - 1])
  }

  function Scan(lines: seq<SessionLine>): ScanState {
    ScanFrom(InitialScan, lines)
  }

  /** The classification made once every line has been read. */
  function Classify(st: ScanState): ParsedSessionContents {
    if st.readFailed || st.jsonLines == 0 then ParseError
    else
      match st.eventTimestamp.Or(st.sessionTimestamp)
      case None => NoUsageOrLimits
      case Some(ts) =>
        if !st.hasTokenUsage && st.limits.None? then NoUsageOrLimits
        else Parsed(ts, st.inputTokens, st.outputTokens, st.hasTokenUsage, st.limits)
  }

  function ParseSession(lines: seq<SessionLine>): ParsedSessionContents {
    Classify(Scan(lines))
  }

  // ---------------------------------------------------------------------
  // The read loop
  // ---------------------------------------------------------------------

  method ParseSessionReader(lines: seq<SessionLine>) returns (r: ParsedSessionContents)
    ensures r == ParseSession(lines)
  {
    var parsedJsonLines: nat := 0;
    var sessionTimestamp: Option<string> := None;
    var latestEventTimestamp: Option<string> := None;
    var inputTokens: nat := 0;
    var outputTokens: nat := 0;
    var hasTokenUsage := false;
    var latestLimits: Option<RateLimits> := None;

    var i := 0;
    while i < |lines|
      invariant 0 <= i <= |lines|
      invariant Scan(lines[..i]) == ScanState(false, parsedJsonLines, sessionTimestamp, latestEventTimestamp,
                                              inputTokens, outputTokens, hasTokenUsage, latestLimits)
    {
      var line := lines[i];
      assert lines[..i + 1][..i] == lines[..i];
      i := i + 1;
      match line {
        case ReadError =>
          ReadFailureIsFinal(lines, i);
          return ParseError;
        case Blank =>
        case NotEnvelope =>
        case OtherEnvelope =>
          parsedJsonLines := parsedJsonLines + 1;
        case SessionMeta(ts) =>
          parsedJsonLines := parsedJsonLines + 1;
          if ts.Some? {
            sessionTimestamp := ts;
          }
        case TokenCount(decoded, ts, usage, primary, secondary) =>
          parsedJsonLines := parsedJsonLines + 1;
          if decoded {
            if ts.Some? {
              latestEventTimestamp := ts;
              if primary.Some? || secondary.Some? {
                latestLimits := Some(RateLimits(ts.value, primary, secondary));
              }
            }
            if usage.Some? {
              inputTokens := usage.value.inputTokens;
              outputTokens := usage.value.outputTokens;
              hasTokenUsage := true;
            }
          }
      }
    }
    assert lines[..i] == lines;

    if parsedJsonLines == 0 {
      return ParseError;
    }
    var timestamp := latestEventTimestamp.Or(sessionTimestamp);
    if timestamp.None? {
      return NoUsageOrLimits;
    }
    if !hasTokenUsage && latestLimits.None? {
      return NoUsageOrLimits;
    }
    return Parsed(timestamp.value, inputTokens, outputTokens, hasTokenUsage, latestLimits);
  }

  // ---------------------------------------------------------------------
  // Opening the file and attaching the fingerprint
  // ---------------------------------------------------------------------

  /**
   * Outcome of one file. `contents` is None when the file cannot be opened;
   * the fingerprint (`modified`, `fileLen`) is the one taken before reading.
   */
  function SessionFileOutcome(contents: Option<seq<SessionLine>>, modified: nat, fileLen: nat): (r: ParsedSessionFile)
    ensures r.FileUnreadable? <==> contents.None?
    ensures r.FileParseError? <==> contents.Some? && ParseSession(contents.value).ParseError?
    ensures r.FileNoUsageOrLimits? <==> contents.Some? && ParseSession(contents.value).NoUsageOrLimits?
    ensures r.FileParsed? ==>
      var p := ParseSession(contents.value);
      && p.Parsed?
      && r.session == CachedSession(modified, fileLen, p.timestamp, p.inputTokens, p.outputTokens, p.hasTokenUsage, p.limits)
      && UsefulSession(r.session)
  {
    match contents
    case None => FileUnreadable
    case Some(lines) =>
      match ParseSession(lines)
      case Parsed(timestamp, inputTokens, outputTokens, hasTokenUsage, limits) =>
        FileParsed(CachedSession(modified, fileLen, timestamp, inputTokens, outputTokens, hasTokenUsage, limits))
      case NoUsageOrLimits => FileNoUsageOrLimits
      case ParseError => FileParseError
  }

  method ParseSessionFile(contents: Option<seq<SessionLine>>, modified: nat, fileLen: nat) returns (r: ParsedSessionFile)
    ensures r == SessionFileOutcome(contents, modified, fileLen)
  {
    if contents.None? {
      return FileUnreadable;
    }
    var parsed := ParseSessionReader(contents.value);
    match parsed {
      case Parsed(timestamp, inputTokens, outputTokens, hasTokenUsage, limits) =>
        r := FileParsed(CachedSession(modified, fileLen, timestamp, inputTokens, outputTokens, hasTokenUsage, limits));
      case NoUsageOrLimits =>
        r := FileNoUsageOrLimits;
      case ParseError =>
        r := FileParseError;
    }
  }

  // ---------------------------------------------------------------------
  // Properties of the scan
  // ---------------------------------------------------------------------

  lemma {:induction false} ScanFromAppend(st: ScanState, a: seq<SessionLine>, b: seq<SessionLine>)
    ensures ScanFrom(st, a + b) == ScanFrom(ScanFrom(st, a), b)
    decreases |b|
  {
    if b == [] {
      assert a + b == a;
    } else {
      var init := b[..|b| - 1];
      assert (a + b)[..|a + b| - 1] == a + init;
      assert (a + b)[|a + b| - 1] == b[|b| - 1];
      ScanFromAppend(st, a, init);
    }
  }

  lemma {:induction false} FailedScanIsFinal(st: ScanState, lines: seq<SessionLine>)
    requires st.readFailed
    ensures ScanFrom(st, lines) == st
    decreases |lines|
  {
    if lines != [] {
      FailedScanIsFinal(st, lines[..|lines| - 1]);
    }
  }

  /** A read failure ends the read: whatever follows it, the file is a parse error. */
  lemma ReadFailureIsFinal(lines: seq<SessionLine>, n: nat)
    requires 0 < n <= |lines| && lines[n - 1].ReadError? && !Scan(lines[..n - 1]).readFailed
    ensures Scan(lines).readFailed
    ensures ParseSession(lines) == ParseError
  {
    assert lines[..n][..n - 1] == lines[..n - 1];
    assert lines == lines[..n] + lines[n..];
    ScanFromAppend(InitialScan, lines[..n], lines[n..]);
    FailedScanIsFinal(Scan(lines[..n]), lines[n..]);
  }

  predicate HasReadError(lines: seq<SessionLine>) {
    exists i :: 0 <= i < |lines| && lines[i].ReadError?
  }

  predicate HasEnvelope(lines: seq<SessionLine>) {
    exists i :: 0 <= i < |lines| && lines[i].IsEnvelope()
  }

  lemma {:induction false} ReadFailedExactly(lines: seq<SessionLine>)
    ensures Scan(lines).readFailed <==> HasReadError(lines)
    decreases |lines|
  {
    if lines != [] {
      var init := lines[..|lines| - 1];
      ReadFailedExactly(init);
      assert forall i :: 0 <= i < |init| ==> init[i] == lines[i];
      if HasReadError(lines) && !HasReadError(init) {
        assert lines[|lines| - 1].ReadError?;
      }
    }
  }

  lemma {:induction false} JsonLinesCountEnvelopes(lines: seq<SessionLine>)
    requires !HasReadError(lines)
    ensures Scan(lines).jsonLines == 0 <==> !HasEnvelope(lines)
    decreases |lines|
  {
    if lines != [] {
      var init := lines[..|lines| - 1];
      assert forall i :: 0 <= i < |init| ==> init[i] == lines[i];
      JsonLinesCountEnvelopes(init);
      ReadFailedExactly(init);
      if HasEnvelope(lines) && !HasEnvelope(init) {
        assert lines[|lines| - 1].IsEnvelope();
      }
    }
  }

  /** The four facts a session log can contribute, each last-occurrence-wins. */
  datatype FactKind = EventTimestampFact | SessionTimestampFact | UsageFact | LimitsFact

  datatype Fact = Timestamp(ts: string) | Usage(usage: TokenUsage) | Limits(limits: RateLimits)

  /** The fact of kind `k` that one line contributes, if any. */
  function LineFact(line: SessionLine, k: FactKind): Option<Fact> {
    match k
    case EventTimestampFact =>
      if line.TokenCount? && line.decoded && line.eventTimestamp.Some?
      then Some(Timestamp(line.eventTimestamp.value)) else None
    case SessionTimestampFact =>
      if line.SessionMeta? && line.metaTimestamp.Some?
      then Some(Timestamp(line.metaTimestamp.value)) else None
    case UsageFact =>
      if line.TokenCount? && line.decoded && line.totalUsage.Some?
      then Some(Usage(line.totalUsage.value)) else None
    case LimitsFact =>
      if line.TokenCount? && line.decoded && line.eventTimestamp.Some? && (line.primary.Some? || line.secondary.Some?)
      then Some(Limits(RateLimits(line.eventTimestamp.value, line.primary, line.secondary))) else None
  }

  /** The fact of kind `k` that the accumulators currently hold, if any. */
  function StateFact(st: ScanState, k: FactKind): Option<Fact> {
    match k
    case EventTimestampFact => if st.eventTimestamp.Some? then Some(Timestamp(st.eventTimestamp.value)) else None
    case SessionTimestampFact => if st.sessionTimestamp.Some? then Some(Timestamp(st.sessionTimestamp.value)) else None
    case UsageFact => if st.hasTokenUsage then Some(Usage(TokenUsage(st.inputTokens, st.outputTokens))) else None
    case LimitsFact => if st.limits.Some? then Some(Limits(st.limits.value)) else None
  }

  /** Each line overwrites exactly the facts it carries and leaves the others alone. */
  lemma StepFact(st: ScanState, line: SessionLine, k: FactKind)
    requires !st.readFailed && !line.ReadError?
    ensures StateFact(Step(st, line), k) == if LineFact(line, k).Some? then LineFact(line, k) else StateFact(st, k)
  {
  }

  predicate Absent(lines: seq<SessionLine>, k: FactKind) {
    forall j :: 0 <= j < |lines| ==> LineFact(lines[j], k).None?
  }

  /** Line `i` is the last line carrying a fact of kind `k`. */
  predicate IsLastFact(lines: seq<SessionLine>, k: FactKind, i: int) {
    && 0 <= i < |lines|
    && LineFact(lines[i], k).Some?
    && forall j :: i < j < |lines| ==> LineFact(lines[j], k).None?
  }

  lemma {:induction false} FactPresence(lines: seq<SessionLine>, k: FactKind)
    requires !HasReadError(lines)
    ensures StateFact(Scan(lines), k).None? <==> Absent(lines, k)
    decreases |lines|
  {
    if lines != [] {
      var init := lines[..|lines| - 1];
      assert forall i :: 0 <= i < |init| ==> init[i] == lines[i];
      FactPresence(init, k);
      ReadFailedExactly(init);
      StepFact(Scan(init), lines[|lines| - 1], k);
    }
  }

  /** Last occurrence wins: the scan holds the fact of the last line carrying one. */
  lemma {:induction false} LastOccurrenceWins(lines: seq<SessionLine>, k: FactKind, i: int)
    requires !HasReadError(lines)
    requires IsLastFact(lines, k, i)
    ensures StateFact(Scan(lines), k) == LineFact(lines[i], k)
    decreases |lines|
  {
    var init := lines[..|lines| - 1];
    assert forall j :: 0 <= j < |init| ==> init[j] == lines[j];
    ReadFailedExactly(init);
    StepFact(Scan(init), lines[|lines| - 1], k);
    if i < |lines| - 1 {
      LastOccurrenceWins(init, k, i);
    }
  }

  /** A token_count line whose typed decode fails counts as JSON and contributes nothing else. */
  lemma UndecodedTokenCountIsInert(prefix: seq<SessionLine>, line: SessionLine, suffix: seq<SessionLine>)
    requires line.TokenCount? && !line.decoded
    ensures ParseSession(prefix + [line] + suffix) == ParseSession(prefix + [OtherEnvelope] + suffix)
  {
    ScanFromAppend(InitialScan, prefix + [line], suffix);
    ScanFromAppend(InitialScan, prefix + [OtherEnvelope], suffix);
    assert (prefix + [line])[..|prefix|] == prefix;
    assert (prefix + [OtherEnvelope])[..|prefix|] == prefix;
  }

  // ---------------------------------------------------------------------
  // The classification, stated over the lines themselves
  // ---------------------------------------------------------------------

  lemma ParseErrorExactly(lines: seq<SessionLine>)
    ensures ParseSession(lines).ParseError? <==> HasReadError(lines) || !HasEnvelope(lines)
  {
    ReadFailedExactly(lines);
    if !HasReadError(lines) {
      JsonLinesCountEnvelopes(lines);
    }
  }

  lemma NoUsageOrLimitsExactly(lines: seq<SessionLine>)
    ensures ParseSession(lines).NoUsageOrLimits? <==>
      && !HasReadError(lines)
      && HasEnvelope(lines)
      && ((Absent(lines, EventTimestampFact) && Absent(lines, SessionTimestampFact))
          || (Absent(lines, UsageFact) && Absent(lines, LimitsFact)))
  {
    ReadFailedExactly(lines);
    if !HasReadError(lines) {
      JsonLinesCountEnvelopes(lines);
      FactPresence(lines, EventTimestampFact);
      FactPresence(lines, SessionTimestampFact);
      FactPresence(lines, UsageFact);
      FactPresence(lines, LimitsFact);
    }
  }

  /** What a parsed file's facts are, in terms of its lines. */
  lemma ParsedFacts(lines: seq<SessionLine>)
    requires ParseSession(lines).Parsed?
    ensures !HasReadError(lines) && HasEnvelope(lines)
    ensures ParseSession(lines).hasTokenUsage <==> !Absent(lines, UsageFact)
    ensures ParseSession(lines).limits.None? <==> Absent(lines, LimitsFact)
    ensures forall i :: IsLastFact(lines, UsageFact, i) ==>
      TokenUsage(ParseSession(lines).inputTokens, ParseSession(lines).outputTokens) == lines[i].totalUsage.value
    ensures forall i :: IsLastFact(lines, LimitsFact, i) ==>
      ParseSession(lines).limits == Some(RateLimits(lines[i].eventTimestamp.value, lines[i].primary, lines[i].secondary))
    ensures forall i :: IsLastFact(lines, EventTimestampFact, i) ==>
      ParseSession(lines).timestamp == lines[i].eventTimestamp.value
    ensures Absent(lines, EventTimestampFact) ==> forall i :: IsLastFact(lines, SessionTimestampFact, i) ==>
      ParseSession(lines).timestamp == lines[i].metaTimestamp.value
  {
    ParseErrorExactly(lines);
    FactPresence(lines, EventTimestampFact);
    FactPresence(lines, UsageFact);
    FactPresence(lines, LimitsFact);
    forall i | IsLastFact(lines, UsageFact, i) ensures
      TokenUsage(ParseSession(lines).inputTokens, ParseSession(lines).outputTokens) == lines[i].totalUsage.value
    {
      LastOccurrenceWins(lines, UsageFact, i);
    }
    forall i | IsLastFact(lines, LimitsFact, i) ensures
      ParseSession(lines).limits == Some(RateLimits(lines[i].eventTimestamp.value, lines[i].primary, lines[i].secondary))
    {
      LastOccurrenceWins(lines, LimitsFact, i);
    }
    forall i | IsLastFact(lines, EventTimestampFact, i) ensures
      ParseSession(lines).timestamp == lines[i].eventTimestamp.value
    {
      LastOccurrenceWins(lines, EventTimestampFact, i);
    }
    if Absent(lines, EventTimestampFact) {
      forall i | IsLastFact(lines, SessionTimestampFact, i) ensures
        ParseSession(lines).timestamp == lines[i].metaTimestamp.value
      {
        LastOccurrenceWins(lines, SessionTimestampFact, i);
      }
    }
  }

  /** A file with rate limits but no token totals is parsed, without token usage. */
  lemma LimitsOnlyFileIsParsed(lines: seq<SessionLine>)
    requires !HasReadError(lines)
    requires Absent(lines, UsageFact) && !Absent(lines, LimitsFact)
    ensures ParseSession(lines).Parsed? && !ParseSession(lines).hasTokenUsage
    ensures ParseSession(lines).limits.Some?
  {
    var i :| 0 <= i < |lines| && LineFact(lines[i], LimitsFact).Some?;
    assert LineFact(lines[i], EventTimestampFact).Some?;
    assert lines[i].IsEnvelope();
    ParseErrorExactly(lines);
    NoUsageOrLimitsExactly(lines);
    FactPresence(lines, UsageFact);
    FactPresence(lines, LimitsFact);
  }
}
