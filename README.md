# PromptPetrol core, modelled in Dafny

PromptPetrol is a terminal dashboard for the token usage and spend of LLM
providers. This project models its core and proves properties of that model:

- **Session parsing** (`CodexSession`, from `src/codex_import.rs`). A Codex
  session log is read line by line. For each fact the last line carrying it
  wins: the event timestamp, the session timestamp, the token totals and the
  rate-limit snapshot. The file is then classified as *parsed*, *no usage or
  limits*, *parse error* or *unreadable*.
- **Discovery scheduling** (`CodexDiscovery`). Discovery runs when it is due.
  Its interval backs off additively from 10 s to 120 s in steps of 10 s after
  three unchanged discovery cycles, and drops back to 10 s on any change.
- **The import cache** (`CodexImport`). One merge cycle does the following in
  order:
  - rediscovers the files when due;
  - keeps a file whose fingerprint (modification time, length) is unchanged,
    otherwise re-parses it;
  - prunes the cache to the current file list;
  - tunes the back-off and publishes diagnostics;
  - appends one ledger record per session with token usage and re-sorts the
    ledger by timestamp.

  `LatestCodexLimits` picks the rate-limit snapshot of the newest session.
- **Ledger helpers** (`Models`, from `src/models.rs`):
  - normalisation of hand-written records, including provider-specific
    token-field fallbacks and the total-tokens split;
  - pricing lookup;
  - per-provider statistics and summaries.
- **Ledger order** (`Ledger`): the stable sort by timestamp. Timestamps are
  compared with Rust's `str` order (`TextOrder`).
- **Dashboard state** (`AppState`, from `src/app.rs`): provider selection with
  wrap-around, and the help toggle.
- **Rendering helpers** (`Ui`, from `src/ui.rs`): the reset countdown, the
  freshness banding, and the percentages of the centered overlay.

How the model stands in for the environment:

- **File system.** It is an input value, `CodexImport.FileSystem`, with three
  parts:
  - the result of the directory walk;
  - each path's metadata. A missing entry means `fs::metadata` failed; a
    missing modification time means `modified()` failed;
  - each path's lines. A missing entry means `File::open` failed.
- **Session lines.** Each line is already classified by the JSON decoder
  (`CodexSession.SessionLine`). A failed `read_line` is the line `ReadError`.
- **Clock.** The clock is a parameter `now` in seconds.
- **HashMap iteration order.** Wherever the code depends on it, the order is
  an explicit sequence:
  - `MergeCodexUsage` returns it as a ghost out-parameter;
  - `LatestCodexLimits` takes it as an argument.

Where the code behaves differently from what one might read into its
design, the model follows the code:

- **Partial `total_token_usage`.** If the object lacks either count, the whole
  typed decode of that `token_count` line fails. The line then counts as a
  JSON line and contributes nothing: no timestamp, no limits and no usage
  (`UndecodedTokenCountIsInert`).
- **Dropped files are re-parsed.** A file classified as *no usage or limits*,
  *parse error* or *unreadable* is dropped from the cache, so every later cycle
  re-parses it. "A second cycle refreshes nothing" therefore holds only when
  every listed file produced a session (`SecondCycleKeepsSessions`). The cache
  contents are stable in every case.
- **`session_files.retain`.** It keeps every element, because the active set
  is built from that same list (`RetainAllIsIdentity`).
- **Rate limits.** They are recorded only from `token_count` events that carry
  a timestamp, and they take that event's timestamp.

## Model

The order predicates `TextOrder.StrLe` and `CodexImport.KeyLe`, and the band rank `Ui.Rank`, are definitions used in the contracts below. The constructor of `AppState.App` only sets up the record that the selection methods act on; loading the ledger in `App::new` is not modelled.

| member | source | states |
|---|---|---|
| TextOrder.StrLeTotal | src/codex_import.rs:342 | Rust's string order, used to break ties between snapshot timestamps, is total. |
| TextOrder.StrLeTransitive | src/codex_import.rs:342 | The string order is transitive, so the maximum over many snapshots is well defined. |
| TextOrder.StrLeAntisymmetric | src/codex_import.rs:342 | Two strings that are each at most the other are equal. |
| Models.SplitWithTotal | src/models.rs:418-438 | Without a total the counts are kept. With a total and no counts, the total is split in half and the odd token goes to output. Non-zero counts keep the input count, and output is topped up so the sum reaches the total when the total is larger. |
| Models.FirstPresentOfThree | src/models.rs:342-354 | A chain of three `Option::or` calls ending in `unwrap_or(0)` yields the first present field, or 0. |
| Models.FirstPresentOfFour | src/models.rs:402-416 | The same for the four-field chains of the generic adapter. |
| Models.AdaptOpenAiTokens | src/models.rs:342-354 | Input comes from input_tokens, then prompt_tokens, then request_tokens. Output comes from output_tokens, then completion_tokens, then response_tokens. The pair is then split against total_tokens. |
| Models.AdaptCodexTokens | src/models.rs:356-358 | The codex adapter is the OpenAI adapter. |
| Models.AdaptAnthropicTokens | src/models.rs:360-372 | Uses the same field chains and the same total_tokens as OpenAI. |
| Models.AdaptGeminiTokens | src/models.rs:374-386 | Input: input_tokens, then prompt_token_count, then prompt_tokens. Output: output_tokens, then candidates_token_count, then completion_tokens. Total: total_tokens, then total_token_count. |
| Models.AdaptOpusTokens | src/models.rs:388-400 | Input: input_tokens, then prompt_tokens, then prompt_token_count. Output: output_tokens, then completion_tokens, then candidates_token_count. Total: total_tokens, then total_token_count. |
| Models.AdaptGenericTokens | src/models.rs:402-416 | Four-field chains on each side; total_tokens, then total_token_count. |
| Models.DirectCountsTakePrecedence | src/models.rs:311-320 | For any provider, explicit input/output counts that are not both zero keep the input count. Output never shrinks. With no total field the counts are unchanged. |
| Models.TotalOnlyIsSplitInHalf | src/models.rs:311-320 | For any provider, a record with only total_tokens becomes (t/2, t − t/2). |
| Models.TotalTokenCountIsProviderSpecific | src/models.rs:311-320 | total_token_count is used by gemini, opus and the fallback adapter only; for openai, codex and anthropic such a record has no tokens. |
| Models.ToLower | src/models.rs:312 | Lower-casing keeps the length and maps each character on its own. |
| Models.ToLowerIdempotent | src/models.rs:312 | Lower-casing twice is lower-casing once. |
| Models.NormalizeEntry | src/models.rs:311-340 | The provider is lower-cased, and the tokens come from that provider's adapter. Timestamp and model are kept. A given cost_usd is used as is; otherwise the cost is the estimate for the lower-cased provider, model and adapted tokens. |
| Models.NormalizeEntryIgnoresProviderCase | src/models.rs:311-320 | Normalising a record is unaffected by the case of its provider name. |
| Models.NormalizeRawUsage | src/models.rs:298-309 | The records are mapped one by one into a new list of normalised entries; the count and order are kept. |
| Models.LookupPricing | src/models.rs:455-467 | A price is found iff the exact "provider/model" key or the "provider/*" wildcard is present. The exact key wins; otherwise the wildcard is used. |
| Models.RequestCountZero | src/models.rs:220-250 | A provider has zero requests iff it does not occur in the ledger. |
| Models.ProviderTokensOfAbsent | src/models.rs:220-250 | A provider absent from the ledger has zero tokens. |
| Models.ProviderStatsOf | src/models.rs:220-250 | An empty name gives None. Otherwise the result is None iff the provider has no entry. When present it holds that provider's summed input+output tokens and its number of entries, which is positive. |
| Models.GroupTokensByProvider | src/models.rs:193-198 | The grouping map has one key per provider in the ledger, holding that provider's token total. |
| Models.ProviderSummaries | src/models.rs:192-218 | One summary per provider in the ledger, no provider twice, each holding that provider's token total. |
| CodexSession.ParseSessionReader | src/codex_import.rs:427-543 | The read loop computes exactly `ParseSession`: the left-to-right scan of the lines, then the classification. |
| CodexSession.ScanFromAppend | src/codex_import.rs:438-521 | Scanning a + b is scanning a, then b from the resulting state. |
| CodexSession.FailedScanIsFinal | src/codex_import.rs:440-443 | Once a read has failed, further lines change nothing. |
| CodexSession.ReadFailureIsFinal | src/codex_import.rs:440-443 | A read error ends the read, and the file is a parse error whatever follows. |
| CodexSession.ReadFailedExactly | src/codex_import.rs:440-443 | The scan records a read failure iff some line is a read error. |
| CodexSession.JsonLinesCountEnvelopes | src/codex_import.rs:452-455 | With no read error, the JSON-line count is zero iff no line is an envelope. |
| CodexSession.StepFact | src/codex_import.rs:462-521 | Each line overwrites exactly the facts it carries and leaves the others unchanged. |
| CodexSession.FactPresence | src/codex_import.rs:462-521 | After the scan, a fact is missing iff no line carries it. |
| CodexSession.LastOccurrenceWins | src/codex_import.rs:462-521 | After the scan, each fact (event timestamp, session timestamp, token totals, limits) is the one carried by the last line that carries it. |
| CodexSession.UndecodedTokenCountIsInert | src/codex_import.rs:480-482 | A token_count line whose typed decode fails has the same effect as any other envelope. |
| CodexSession.ParseErrorExactly | src/codex_import.rs:523-525 | The result is a parse error iff a read failed or no line decoded as an envelope. |
| CodexSession.NoUsageOrLimitsExactly | src/codex_import.rs:527-534 | The result is "no usage or limits" iff the read succeeded and some line was an envelope, but there is no timestamp, or neither usage nor limits. |
| CodexSession.ParsedFacts | src/codex_import.rs:527-542 | A parsed file has no read error and some envelope. Usage is flagged iff a line carries totals, and limits are present iff a line carries them. Tokens, limits and timestamp are those of the last carrying lines; the event timestamp takes precedence over the session timestamp. |
| CodexSession.LimitsOnlyFileIsParsed | src/codex_import.rs:531-542 | Limits without token totals still give a parsed session, without token usage. |
| CodexSession.SessionFileOutcome | src/codex_import.rs:386-412 | An unopenable file is unreadable. Parse error and no-usage mirror the reader's result. A parsed file carries the given fingerprint and the reader's facts, and always has usage or limits. |
| CodexSession.ParseSessionFile | src/codex_import.rs:386-412 | The method computes `SessionFileOutcome`. |
| CodexDiscovery.ShouldRefreshFileDiscovery | src/codex_import.rs:305-313 | Due when there was no discovery yet or the clock went backwards. Otherwise due iff the elapsed time is at least the interval. |
| CodexDiscovery.DiscoveryStaysDue | src/codex_import.rs:305-313 | Once due, discovery stays due as the clock moves forward. |
| CodexDiscovery.TunedBackoff | src/codex_import.rs:315-330 | A change resets to (10 s, 0). Otherwise the idle count rises; on the third idle cycle it resets to 0 and the interval grows by 10 s, capped at 120 s. |
| CodexDiscovery.TuningKeepsBounds | src/codex_import.rs:315-330 | Tuning keeps the interval within [10, 120] and the idle count below 3. |
| CodexDiscovery.GrowthNeedsThreeIdleCycles | src/codex_import.rs:322-329 | The interval grows only on an idle cycle that completes three, and then by at most one step. |
| CodexDiscovery.IdleRunClosedForm | src/codex_import.rs:315-330 | n idle cycles from (interval, idle) give min(interval + 10·⌊(idle+n)/3⌋, 120), with idle count (idle+n) mod 3. |
| CodexDiscovery.ThreeIdleCyclesFromStart | src/codex_import.rs:754-785 | Three idle cycles from the start give a 20 s interval. |
| CodexDiscovery.IdleGrowthIsCapped | src/codex_import.rs:328-329 | However long the idle run, the interval never exceeds 120 s. |
| Ledger.Insert | src/codex_import.rs:302 | Insertion is a permutation of the input plus the new entry. |
| Ledger.SortByTimestamp | src/codex_import.rs:302 | The sort is a permutation of its input. |
| Ledger.InsertKeepsSorted | src/codex_import.rs:302 | Inserting into a timestamp-sorted ledger keeps it sorted. |
| Ledger.SortIsSorted | src/codex_import.rs:302 | The sort's result is ordered by timestamp. |
| Ledger.SortOfSortedIsIdentity | src/codex_import.rs:302 | An already sorted ledger is returned unchanged, so entries with equal timestamps keep their order there. |
| CodexImport.CodexImportCache.constructor | src/codex_import.rs:175-186 | A new cache is empty, has no discovery yet, a 10 s interval, zero idle cycles and default diagnostics. |
| CodexImport.TuneDiscoveryInterval | src/codex_import.rs:315-330 | Updates the interval and idle count exactly as `TunedBackoff`. |
| CodexImport.VisitSessionFile | src/codex_import.rs:214-260 | One file of the loop: its cache entry and counters change as `SweepFile` says. |
| CodexImport.SweepSessionFiles | src/codex_import.rs:208-261 | The per-file loop computes `Sweep` over the file list. The active set is the set of listed files. |
| CodexImport.ImportCachedSessions | src/codex_import.rs:278-299 | Yields a key order that enumerates the cache. The records are the Codex records of the sessions with token usage, in that order. |
| CodexImport.RefreshCache | src/codex_import.rs:197-276 | The cache becomes `MergeCycle` of its old state, and its invariant is kept. |
| CodexImport.MergeCodexUsage | src/codex_import.rs:188-303 | Disabled, it changes nothing. Enabled, the cache becomes `MergeCycle` of its old state, and the ledger becomes the timestamp sort of the old ledger followed by the imported records. |
| CodexImport.MergeKeepsValid | src/codex_import.rs:188-303 | A cycle keeps the cache invariant: interval within bounds, idle count below 3, every cached path listed and useful, and diagnostics showing the interval. |
| CodexImport.RetainAllIsIdentity | src/codex_import.rs:263-264 | Retaining the listed paths in the list keeps the whole list. |
| CodexImport.SweepKeepsUseful | src/codex_import.rs:244-260 | The sweep only ever caches sessions that have usage or limits. |
| CodexImport.EntryAfter | src/codex_import.rs:214-260 | What one visit leaves for a file. An entry is present only when the metadata was read and the entry matches the current fingerprint. It is either a useful re-parse or the untouched old entry. |
| CodexImport.SweepFileEntry | src/codex_import.rs:214-260 | One loop iteration changes only the visited file's entry, to `EntryAfter`. |
| CodexImport.EntryAfterIsIdempotent | src/codex_import.rs:232-240 | Visiting a file again, from the entry its first visit produced, gives that same entry. |
| CodexImport.SweepEntries | src/codex_import.rs:213-261 | A visited file ends with the entry its visit produces from the cache before the sweep: dropped when metadata fails, kept when the fingerprint matches, else the re-parse result. Unvisited entries are untouched, even when a path is listed twice. |
| CodexImport.MergeCycleEntries | src/codex_import.rs:200-264 | After a cycle, a path is cached iff it is in the cycle's file list and its visit produced an entry. A path no longer listed is forgotten. |
| CodexImport.DirectoryVanishes | src/codex_import.rs:200-206 | A due discovery whose walk fails empties the file list and the cache, and reports zero active files. |
| CodexImport.ActiveFilesCount | src/codex_import.rs:268-270 | With no repeated path, the active-file count is the length of the file list. |
| CodexImport.SweepCounts | src/codex_import.rs:209-261 | With no repeated path: refreshed, parse-error, no-usage and unreadable counts are the numbers of files with that event. Changes are detected iff some file failed its metadata read or was refreshed. |
| CodexImport.QuietSweep | src/codex_import.rs:232-240 | When every fingerprint matches, the sweep leaves the cache as it is and counts nothing. |
| CodexImport.ChangeEventForcesChange | src/codex_import.rs:221-244 | A single file whose metadata read fails or that is re-parsed makes the sweep report a change, even with repeated paths. |
| CodexImport.MergeCycleBackoff | src/codex_import.rs:200-267 | Without discovery the interval and idle count are kept. With discovery they reset to 10 s and 0 when the file count changed or some file failed its metadata read or was re-parsed. Over a duplicate-free list where none of that happened, they take one idle step. |
| CodexImport.UnusableFilePinsInterval | src/codex_import.rs:240-267 | A listed file that re-parses to no session stays uncached. Each discovery cycle therefore re-parses it and resets the interval to 10 s. |
| CodexImport.SecondCycleKeepsSessions | src/codex_import.rs:188-276 | After a cycle that ran discovery, a second cycle over the same file system keeps both the cache and the file list, whatever the clock. If every listed file produced a session, it refreshes nothing and detects no change. |
| CodexImport.ImportedRecordsMembers | src/codex_import.rs:278-299 | A record is imported iff it is the codex record (provider "codex", configured model, estimated cost) of a cached session with token usage. |
| CodexImport.ImportedRecordsCount | src/codex_import.rs:278-299 | One record per visited session with token usage. |
| CodexImport.KeyLeTotal | src/codex_import.rs:338-343 | Any two snapshots are comparable by (modified, timestamp). |
| CodexImport.KeyLeTransitive | src/codex_import.rs:338-343 | The (modified, timestamp) comparison is transitive. |
| CodexImport.KeyLeReflexive | src/codex_import.rs:338-343 | Every snapshot's key is at most itself. |
| CodexImport.LatestSession | src/codex_import.rs:332-344 | None iff no session has limits. Otherwise the result is a session with limits whose (modified, timestamp) key is at least every other's. |
| CodexImport.LatestSessionIsLastMaximal | src/codex_import.rs:342 | Of equal keys the last visited one is chosen, as `max_by` does: every session with limits visited after the chosen one has a strictly smaller key. |
| CodexImport.LatestCodexLimits | src/codex_import.rs:332-344 | None iff no cached session has limits. Otherwise the result is the limits of a session whose key is maximal among those with limits. |
| CodexImport.LatestKeyIsOrderIndependent | src/codex_import.rs:332-344 | The selected snapshot's modification time and timestamp do not depend on the hash map's iteration order. |
| CodexImport.IdleCyclesBackOffAndChangeResets | src/codex_import.rs:754-785 | From a default cache over an empty root, three forced idle discoveries give 20 s. A fourth that finds a file gives 10 s. |
| AppState.Position | src/app.rs:111-114 | `position` returns the first index holding the name, or None iff the name is absent. |
| AppState.CurrentIndex | src/app.rs:111-115 | The cursor starts at the selection's index, or at 0 for a missing or unknown selection. |
| AppState.SyncedSelection | src/app.rs:89-102 | An empty list gives None, and a listed selection is kept. Otherwise the first provider is selected. |
| AppState.NextMovesRight | src/app.rs:104-118 | "Next" moves a listed selection one card right, wrapping from the last card to the first. |
| AppState.PrevMovesLeft | src/app.rs:120-138 | "Previous" moves a listed selection one card left, wrapping from the first card to the last. |
| AppState.NextFromUnknown | src/app.rs:111-137 | A missing or unknown selection counts as index 0: next gives index 1 mod len, and previous gives the last card. |
| AppState.NextSelection | src/app.rs:104-118 | None iff the list is empty; otherwise a listed provider. |
| AppState.PrevSelection | src/app.rs:120-138 | None iff the list is empty; otherwise a listed provider. |
| AppState.PrevUndoesNext | src/app.rs:104-138 | With distinct names, previous after next restores a listed selection, and so does next after previous. |
| AppState.App.SyncSelectedProvider | src/app.rs:89-102 | Sets the selection to `SyncedSelection` of the old one. |
| AppState.App.SelectNextProvider | src/app.rs:104-118 | Sets the selection to `NextSelection` of the old one. |
| AppState.App.SelectPrevProvider | src/app.rs:120-138 | Sets the selection to `PrevSelection` of the old one. |
| AppState.App.ToggleHelp | src/app.rs:140-147 | Negates the help flag; the status reads "Help opened" or "Help closed" to match. |
| AppState.ToggleHelpTwice | src/app.rs:140-147 | Toggling twice restores the help flag. |
| Ui.ResetTimingOf | src/ui.rs:420-437 | No target gives unknown, and a target at or before now gives now. Otherwise hours and minutes split the remaining seconds: minutes < 60 and 3600h + 60m ≤ remaining < 3600h + 60(m+1). |
| Ui.ResetTimingIsUnique | src/ui.rs:433-436 | Those bounds determine the hours and minutes uniquely. |
| Ui.Decimal | src/ui.rs:436 | `{}` formatting of a number gives a non-empty string of decimal digits. |
| Ui.DecimalRoundTrip | src/ui.rs:436 | Reading the decimal text back gives the number. |
| Ui.ResetTimingText | src/ui.rs:420-437 | The texts are "unknown", "now", or "in " followed by the decimal hours, "h ", the decimal minutes and "m", each field at its own position in the string. |
| Ui.FormatResetTiming | src/ui.rs:420-437 | No target gives "unknown", and a past or present target gives "now". Otherwise the text is "in {h}h {m}m" for the hours and minutes `ResetTimingOf` computes. |
| Ui.FormatResetTimingNamesTheWait | src/ui.rs:433-436 | For a future reset, the text names exactly the whole hours and remaining whole minutes left: any h and m < 60 with 3600h + 60m ≤ remaining < 3600h + 60(m+1) are the ones printed. |
| Ui.FreshnessOf | src/ui.rs:335-355 | No age gives UNKNOWN, at most 30 s gives LIVE, 31..120 s gives STALE, and above 120 s gives OLD. Each holds in both directions. |
| Ui.FreshnessIsMonotone | src/ui.rs:349-355 | An older import is never in a fresher band. |
| Ui.PadRight | src/ui.rs:360 | `{:<7}` formatting: the text left-aligned, then spaces up to the width; nothing is cut. |
| Ui.FreshnessLabel | src/ui.rs:336-360 | The badge reads "UNKNOWN", "LIVE   ", "STALE  " or "OLD    ": seven characters each. |
| Ui.CenteredPercentages | src/ui.rs:461-478 | The middle is the requested percentage and the two margins are equal. The total is 99 or 100, and 100 exactly when the percentage is even. |
| Ui.CenteredRectConstraints | src/ui.rs:461-478 | The vertical split uses percent_y and the horizontal split percent_x, each with equal margins. |

## Left out

- **File system and parsing libraries.** The following are represented by the `FileSystem` and `SessionLine` inputs:
  - the directory walk (`collect_codex_session_files`, `collect_jsonl_files_recursive`);
  - `File::open`, `BufReader` and `read_line`;
  - serde decoding.
- `codex_sessions_dir`: resolving the sessions root from the configuration and `$HOME` is path I/O; the model takes the walk's outcome directly.
- **Config and data files.** Not modelled: configuration and data-file loading, bootstrapping and default paths (`load_or_bootstrap_*`, `default_*_file`, `App::new`, `App::reload`, `bootstrap_app`, `main`).
- **Terminal and rendering.** Not modelled: the terminal, the event loop `run` with its key bindings and status texts, and all rendering besides the helpers listed above. This includes the `centered_rect` layout split itself, gauges, alert thresholds and colours.
- `build_status_line`: it reads a diagnostics field that does not exist, so it does not compile as written.
- `parse_codex_rate_limit` / `CodexRateLimitPercent::as_f64`: the integer-or-float percent arrives as a `real`; floating-point conversion is not modelled.
- `estimate_cost_usd`: floating-point arithmetic is out of scope. An estimated cost is kept as the symbolic value `Estimated(provider, model, input, output)`, and only `lookup_pricing` is modelled.
- Models.ProviderStatsOf: the summed `total_cost_usd` is not modelled (floating point).
- Models.ProviderSummaries: the summed cost is not modelled, and neither is the final sort (cost descending, then tokens descending, then name). The summaries come in the grouping map's iteration order, because the leading sort key is a float sum.
- Ledger.SortByTimestamp: stability in general is not stated. The sort is a stable insertion sort, but only the sorted and permutation properties and the identity on sorted input are proved.
- Models.SplitWithTotal: the counts are unbounded. The source's second `known == 0` test can differ from the first only when `input + output` wraps around in u64, which is not modelled. Other u64/usize overflows (token sums, counters) are not modelled either.
- Models.ToLower: lower-cases ASCII letters only; Rust's `to_lowercase` also maps non-ASCII letters.
- **Clock.** One `now` (whole seconds) stands for each of the three clock reads of a cycle. `SystemTime` sub-second precision is dropped. A clock before the Unix epoch (read as 0 in `format_reset_timing`) is covered by passing `now`.
- **Helpers.** `parse_codex_session_contents`, `parse_codex_session_contents_with_status` and the getter `codex_import_diagnostics` are thin wrappers without logic of their own; the diagnostics are the cache's `diagnostics` field.
- Ui.CenteredPercentages: requires a percentage of at most 100, because `100 - p` on u16 underflows otherwise.
- `provider_names`: the provider list is an input to the selection methods. Distinct names (which `provider_summaries` guarantees) are a hypothesis of the movement lemmas.
