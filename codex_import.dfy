/**
 * The Codex import engine (src/codex_import.rs): the session cache, one
 * merge cycle (scheduled discovery, per-file change detection, re-parsing,
 * pruning, back-off tuning, diagnostics, ledger merge) and the query for the
 * most recent rate-limit snapshot.
 *
 * The file system is an input: the outcome of the directory walk, each
 * file's metadata and each file's lines. The clock is the parameter `now`.
 */
module CodexImport {
  import opened Wrappers
  import opened TextOrder
  import opened Models
  import opened CodexSession
  import opened CodexDiscovery
  import opened Ledger

  type Path = string

  /** `fs::metadata` of a file that exists; `modified` is None when `modified()` fails. */
  datatype Metadata = Metadata(modified: Option<nat>, len: nat)

  /**
   * What one cycle sees of the file system.
   *  - discovery: the `.jsonl` files under the sessions root, or None when the
   *    root is missing or the walk failed;
   *  - metadata: a path without an entry is one whose `fs::metadata` fails;
   *  - contents: a path without an entry is one that cannot be opened.
   */
  datatype FileSystem = FileSystem(
    discovery: Option<seq<Path>>,
    metadata: map<Path, Metadata>,
    contents: map<Path, seq<SessionLine>>)

  /** A failed discovery yields an empty file list (`unwrap_or_default`). */
  function DiscoveredFiles(fs: FileSystem): (files: seq<Path>)
    ensures fs.discovery.None? ==> files == []
    ensures fs.discovery.Some? ==> files == fs.discovery.value
  {
    fs.discovery.GetOr([])
  }

  function ContentsOf(fs: FileSystem, file: Path): Option<seq<SessionLine>> {
    if file in fs.contents then Some(fs.contents[file]) else None
  }

  datatype CodexImportConfig = CodexImportConfig(enabled: bool, sessionsDir: Option<string>, model: string)

  datatype Diagnostics = Diagnostics(
    activeFiles: nat,
    refreshedFiles: nat,
    parseErrorFiles: nat,
    noUsageOrLimitsFiles: nat,
    unreadableFiles: nat,
    lastImportAt: Option<nat>,
    discoveryInterval: nat)

  const DefaultDiagnostics := Diagnostics(0, 0, 0, 0, 0, None, MinDiscoveryInterval)

  /** The abstract value of a cache object. */
  datatype CacheState = CacheState(
    sessions: map<Path, CachedSession>,
    sessionFiles: seq<Path>,
    lastDiscoveryAt: Option<nat>,
    discoveryInterval: nat,
    idleDiscoveryCycles: nat,
    diagnostics: Diagnostics)

  const DefaultCacheState := CacheState(map[], [], None, MinDiscoveryInterval, 0, DefaultDiagnostics)

  function Elements(s: seq<Path>): set<Path> {
    set p | p in s
  }

  predicate Distinct(s: seq<Path>) {
    forall i, j :: 0 <= i < j < |s| ==> s[i] != s[j]
  }

  /**
   * What holds between cycles: the interval within its bounds, the idle
   * count below three, every cached path among the known files, every cached
   * session carrying usage or limits, the diagnostics showing the interval.
   */
  predicate ValidState(st: CacheState) {
    && ValidBackoff(Backoff(st.discoveryInterval, st.idleDiscoveryCycles))
    && (forall p :: p in st.sessions ==> p in st.sessionFiles && UsefulSession(st.sessions[p]))
    && st.diagnostics.discoveryInterval == st.discoveryInterval
  }

  // ---------------------------------------------------------------------
  // Specification of one cycle
  // ---------------------------------------------------------------------

  /** The per-file sweep's running state: the cache, the counters, whether anything changed. */
  datatype SweepResult = SweepResult(
    sessions: map<Path, CachedSession>,
    refreshed: nat,
    parseErrors: nat,
    noUsageOrLimits: nat,
    unreadable: nat,
    changed: bool)

  /** The fingerprint check and, where needed, the re-parse of one file. */
  function SweepFile(acc: SweepResult, file: Path, fs: FileSystem): SweepResult {
    if file !in fs.metadata then
      acc.(sessions := acc.sessions - {file}, unreadable := acc.unreadable + 1, changed := true)
    else
      var md := fs.metadata[file];
      if md.modified.None? then
        acc.(sessions := acc.sessions - {file}, unreadable := acc.unreadable + 1)
      else if file in acc.sessions && acc.sessions[file].modified == md.modified.value
              && acc.sessions[file].fileLen == md.len then
        acc
      else
        var touched := acc.(refreshed := acc.refreshed + 1, changed := true);
        match SessionFileOutcome(ContentsOf(fs, file), md.modified.value, md.len)
        case FileParsed(session) => touched.(sessions := touched.sessions[file := session])
        case FileNoUsageOrLimits =>
          touched.(sessions := touched.sessions - {file}, noUsageOrLimits := touched.noUsageOrLimits + 1)
        case FileParseError =>
          touched.(sessions := touched.sessions - {file}, parseErrors := touched.parseErrors + 1)
        case FileUnreadable =>
          touched.(sessions := touched.sessions - {file}, unreadable := touched.unreadable + 1)
  }

  function Sweep(sessions: map<Path, CachedSession>, files: seq<Path>, fs: FileSystem): SweepResult
    decreases |files|
  {
    if files == [] then SweepResult(sessions, 0, 0, 0, 0, false)
    else SweepFile(Sweep(sessions, files[..|files| - 1], fs), files[|files| - 1], fs)
  }

  function Restrict(m: map<Path, CachedSession>, keep: set<Path>): (r: map<Path, CachedSession>)
    ensures r.Keys == m.Keys * keep
    ensures forall p :: p in r ==> r[p] == m[p]
  {
    map p | p in m && p in keep :: m[p]
  }

  /** One enabled merge cycle, as a function of the cache before it, the file system and the clock. */
  function MergeCycle(st: CacheState, fs: FileSystem, now: nat): CacheState {
    var due := ShouldRefreshFileDiscovery(st.lastDiscoveryAt, st.discoveryInterval, now);
    var files := if due then DiscoveredFiles(fs) else st.sessionFiles;
    var countChanged := due && |files| != |st.sessionFiles|;
    var sweep := Sweep(st.sessions, files, fs);
    var active := Elements(files);
    var backoff :=
      if due then TunedBackoff(Backoff(st.discoveryInterval, st.idleDiscoveryCycles), countChanged || sweep.changed)
      else Backoff(st.discoveryInterval, st.idleDiscoveryCycles);
    CacheState(
      Restrict(sweep.sessions, active),
      files,
      if due then Some(now) else st.lastDiscoveryAt,
      backoff.interval,
      backoff.idleCycles,
      Diagnostics(|active|, sweep.refreshed, sweep.parseErrors, sweep.noUsageOrLimits, sweep.unreadable,
                  Some(now), backoff.interval))
  }

  /** The ledger record of one cached session. */
  function CodexRecord(session: CachedSession, model: string): UsageEntry {
    UsageEntry(session.timestamp, "codex", model, session.inputTokens, session.outputTokens,
               Estimated("codex", model, session.inputTokens, session.outputTokens))
  }

  /** `order` lists every key of `keys` exactly once: one iteration order of a hash map. */
  predicate Enumerates(order: seq<Path>, keys: set<Path>) {
    Distinct(order) && Elements(order) == keys
  }

  /** The records imported from the cache, visiting the sessions in `order`. */
  function ImportedRecords(sessions: map<Path, CachedSession>, order: seq<Path>, model: string): seq<UsageEntry>
    requires forall i :: 0 <= i < |order| ==> order[i] in sessions
  {
    if order == [] then []
    else
      var last := sessions[order[|order| - 1]];
      ImportedRecords(sessions, order[..|order| - 1], model)
      + (if last.hasTokenUsage then [CodexRecord(last, model)] else [])
  }

  // ---------------------------------------------------------------------
  // The cache object and the merge
  // ---------------------------------------------------------------------

  /** The ledger owned by the caller; the engine only appends and re-sorts `entries`. */
  class UsageData {
    var budgetUsd: Option<real>
    var entries: seq<UsageEntry>

    constructor (budgetUsd: Option<real>, entries: seq<UsageEntry>)
      ensures this.budgetUsd == budgetUsd && this.entries == entries
    {
      this.budgetUsd := budgetUsd;
      this.entries := entries;
    }
  }

  class CodexImportCache {
    var sessions: map<Path, CachedSession>
    var sessionFiles: seq<Path>
    var lastDiscoveryAt: Option<nat>
    var sessionDiscoveryInterval: nat
    var idleDiscoveryCycles: nat
    var diagnostics: Diagnostics

    ghost function State(): CacheState
      reads this
    {
      CacheState(sessions, sessionFiles, lastDiscoveryAt, sessionDiscoveryInterval, idleDiscoveryCycles, diagnostics)
    }

    ghost predicate Valid()
      reads this
    {
      ValidState(State())
    }

    constructor ()
      ensures State() == DefaultCacheState
      ensures Valid()
    {
      sessions := map[];
      sessionFiles := [];
      lastDiscoveryAt := None;
      sessionDiscoveryInterval := MinDiscoveryInterval;
      idleDiscoveryCycles := 0;
      diagnostics := DefaultDiagnostics;
    }
  }

  method TuneDiscoveryInterval(cache: CodexImportCache, changesDetected: bool)
    modifies cache`sessionDiscoveryInterval, cache`idleDiscoveryCycles
    ensures Backoff(cache.sessionDiscoveryInterval, cache.idleDiscoveryCycles)
            == TunedBackoff(Backoff(old(cache.sessionDiscoveryInterval), old(cache.idleDiscoveryCycles)), changesDetected)
  {
    if changesDetected {
      cache.sessionDiscoveryInterval := MinDiscoveryInterval;
      cache.idleDiscoveryCycles := 0;
      return;
    }
    cache.idleDiscoveryCycles := cache.idleDiscoveryCycles + 1;
    if cache.idleDiscoveryCycles < 3 {
      return;
    }
    cache.idleDiscoveryCycles := 0;
    var next := cache.sessionDiscoveryInterval + DiscoveryBackoffStep;
    cache.sessionDiscoveryInterval := if next < MaxDiscoveryInterval then next else MaxDiscoveryInterval;
  }

  /** `Vec::retain`: the elements of `s` that are in `keep`, in order. */
  function RetainIn(s: seq<Path>, keep: set<Path>): seq<Path> {
    if s == [] then []
    else RetainIn(s[..|s| - 1], keep) + (if s[|s| - 1] in keep then [s[|s| - 1]] else [])
  }

  /** One file of the per-file loop: the fingerprint check and, when it changed, the re-parse. */
  method VisitSessionFile(cache: CodexImportCache, file: Path, fs: FileSystem, acc: SweepResult)
    returns (r: SweepResult)
    requires acc.sessions == cache.sessions
    modifies cache`sessions
    ensures r == SweepFile(acc, file, fs)
    ensures cache.sessions == r.sessions
  {
    r := acc;
    if file !in fs.metadata {
      cache.sessions := cache.sessions - {file};
      r := r.(sessions := cache.sessions, unreadable := r.unreadable + 1, changed := true);
      return;
    }
    if fs.metadata[file].modified.None? {
      cache.sessions := cache.sessions - {file};
      r := r.(sessions := cache.sessions, unreadable := r.unreadable + 1);
      return;
    }
    var modified := fs.metadata[file].modified.value;
    var fileLen := fs.metadata[file].len;
    var needsRefresh :=
      if file in cache.sessions then cache.sessions[file].modified != modified || cache.sessions[file].fileLen != fileLen
      else true;
    if !needsRefresh {
      return;
    }
    r := r.(refreshed := r.refreshed + 1, changed := true);
    var outcome := ParseSessionFile(ContentsOf(fs, file), modified, fileLen);
    match outcome {
      case FileParsed(parsed) =>
        cache.sessions := cache.sessions[file := parsed];
      case FileNoUsageOrLimits =>
        cache.sessions := cache.sessions - {file};
        r := r.(noUsageOrLimits := r.noUsageOrLimits + 1);
      case FileParseError =>
        cache.sessions := cache.sessions - {file};
        r := r.(parseErrors := r.parseErrors + 1);
      case FileUnreadable =>
        cache.sessions := cache.sessions - {file};
        r := r.(unreadable := r.unreadable + 1);
    }
    r := r.(sessions := cache.sessions);
  }

  /**
   * The per-file loop of a cycle: for each known file, the fingerprint check
   * and, when the fingerprint changed, the re-parse, with the counters. The
   * result is that of `Sweep`; its `changed` covers this loop only.
   */
  method SweepSessionFiles(cache: CodexImportCache, files: seq<Path>, fs: FileSystem)
    returns (active: set<Path>, r: SweepResult)
    modifies cache`sessions
    ensures active == Elements(files)
    ensures r == Sweep(old(cache.sessions), files, fs)
    ensures cache.sessions == r.sessions
  {
    ghost var sessions0 := cache.sessions;
    active := {};
    r := SweepResult(cache.sessions, 0, 0, 0, 0, false);
    var i := 0;
    while i < |files|
      invariant 0 <= i <= |files|
      invariant active == Elements(files[..i])
      invariant r == Sweep(sessions0, files[..i], fs)
      invariant cache.sessions == r.sessions
    {
      var file := files[i];
      assert files[..i + 1][..i] == files[..i];
      assert files[..i + 1] == files[..i] + [file];
      assert Elements(files[..i + 1]) == Elements(files[..i]) + {file};
      active := active + {file};
      r := VisitSessionFile(cache, file, fs, r);
      i := i + 1;
    }
    assert files[..i] == files;
  }

  /**
   * The ledger records of the cached sessions that carry token usage, in the
   * hash map's iteration order, returned as the ghost `order`.
   */
  method ImportCachedSessions(sessions: map<Path, CachedSession>, model: string)
    returns (imported: seq<UsageEntry>, ghost order: seq<Path>)
    ensures Enumerates(order, sessions.Keys)
    ensures imported == ImportedRecords(sessions, order, model)
  {
    imported, order := [], [];
    var remaining := sessions.Keys;
    while remaining != {}
      invariant Elements(order) !! remaining && Elements(order) + remaining == sessions.Keys
      invariant Distinct(order)
      invariant imported == ImportedRecords(sessions, order, model)
      decreases remaining
    {
      var path :| path in remaining;
      var session := sessions[path];
      assert (order + [path])[..|order|] == order;
      assert Elements(order + [path]) == Elements(order) + {path};
      if session.hasTokenUsage {
        imported := imported + [CodexRecord(session, model)];
      }
      order := order + [path];
      remaining := remaining - {path};
    }
  }

  /**
   * The cache half of a cycle, from the discovery check to the new
   * diagnostics.
   */
  method RefreshCache(cache: CodexImportCache, fs: FileSystem, now: nat)
    requires cache.Valid()
    modifies cache
    ensures cache.State() == MergeCycle(old(cache.State()), fs, now)
    ensures cache.Valid()
  {
    ghost var st0 := cache.State();
    MergeKeepsValid(st0, fs, now);
    ghost var due := ShouldRefreshFileDiscovery(st0.lastDiscoveryAt, st0.discoveryInterval, now);

    var changesDetected := false;
    var discoveryRan := false;
    if ShouldRefreshFileDiscovery(cache.lastDiscoveryAt, cache.sessionDiscoveryInterval, now) {
      discoveryRan := true;
      var previousCount := |cache.sessionFiles|;
      cache.sessionFiles := fs.discovery.GetOr([]);
      cache.lastDiscoveryAt := Some(now);
      changesDetected := changesDetected || |cache.sessionFiles| != previousCount;
    }
    ghost var files := cache.sessionFiles;
    assert discoveryRan == due;
    assert files == if due then DiscoveredFiles(fs) else st0.sessionFiles;
    assert changesDetected == (due && |files| != |st0.sessionFiles|);

    var active, sweep := SweepSessionFiles(cache, cache.sessionFiles, fs);
    changesDetected := changesDetected || sweep.changed;

    cache.sessions := map p | p in cache.sessions && p in active :: cache.sessions[p];
    assert cache.sessions == Restrict(sweep.sessions, Elements(files));
    RetainAllIsIdentity(cache.sessionFiles, active);
    cache.sessionFiles := RetainIn(cache.sessionFiles, active);
    if discoveryRan {
      TuneDiscoveryInterval(cache, changesDetected);
    }
    cache.diagnostics := Diagnostics(|active|, sweep.refreshed, sweep.parseErrors, sweep.noUsageOrLimits,
                                     sweep.unreadable, Some(now), cache.sessionDiscoveryInterval);
  }

  /**
   * One merge cycle. The returned ghost `order` is the order in which the
   * cache's hash map yielded its sessions.
   */
  method MergeCodexUsage(data: UsageData, config: CodexImportConfig, cache: CodexImportCache, fs: FileSystem, now: nat)
    returns (ghost order: seq<Path>)
    requires cache.Valid()
    modifies data`entries, cache
    ensures cache.Valid()
    ensures !config.enabled ==> cache.State() == old(cache.State()) && data.entries == old(data.entries)
    ensures config.enabled ==> cache.State() == MergeCycle(old(cache.State()), fs, now)
    ensures config.enabled ==> Enumerates(order, cache.sessions.Keys)
    ensures config.enabled ==>
      data.entries == SortByTimestamp(old(data.entries) + ImportedRecords(cache.sessions, order, config.model))
  {
    order := [];
    if !config.enabled {
      return;
    }
    RefreshCache(cache, fs, now);
    var imported;
    imported, order := ImportCachedSessions(cache.sessions, config.model);
    data.entries := data.entries + imported;
    data.entries := SortByTimestamp(data.entries);
  }

  // ---------------------------------------------------------------------
  // Properties of a cycle
  // ---------------------------------------------------------------------

  lemma {:induction false} RetainAllIsIdentity(s: seq<Path>, keep: set<Path>)
    requires forall p :: p in s ==> p in keep
    ensures RetainIn(s, keep) == s
    decreases |s|
  {
    if s != [] {
      RetainAllIsIdentity(s[..|s| - 1], keep);
      assert s == s[..|s| - 1] + [s[|s| - 1]];
    }
  }

  lemma {:induction false} SweepKeepsUseful(sessions: map<Path, CachedSession>, files: seq<Path>, fs: FileSystem)
    requires forall p :: p in sessions ==> UsefulSession(sessions[p])
    ensures forall p :: p in Sweep(sessions, files, fs).sessions ==> UsefulSession(Sweep(sessions, files, fs).sessions[p])
    decreases |files|
  {
    if files != [] {
      SweepKeepsUseful(sessions, files[..|files| - 1], fs);
    }
  }

  /** A cycle keeps the cache's invariant. */
  lemma MergeKeepsValid(st: CacheState, fs: FileSystem, now: nat)
    requires ValidState(st)
    ensures ValidState(MergeCycle(st, fs, now))
  {
    var due := ShouldRefreshFileDiscovery(st.lastDiscoveryAt, st.discoveryInterval, now);
    var files := if due then DiscoveredFiles(fs) else st.sessionFiles;
    var countChanged := due && |files| != |st.sessionFiles|;
    SweepKeepsUseful(st.sessions, files, fs);
    TuningKeepsBounds(Backoff(st.discoveryInterval, st.idleDiscoveryCycles),
                      countChanged || Sweep(st.sessions, files, fs).changed);
  }

  // ---------------------------------------------------------------------
  // What a cycle does to each file
  // ---------------------------------------------------------------------

  function Lookup(m: map<Path, CachedSession>, p: Path): Option<CachedSession> {
    if p in m then Some(m[p]) else None
  }

  /** The cached fingerprint equals the file's current metadata. */
  predicate FingerprintMatches(m: map<Path, CachedSession>, file: Path, md: Metadata) {
    md.modified.Some? && file in m && m[file].modified == md.modified.value && m[file].fileLen == md.len
  }

  /**
   * The cache entry of `file` after it is visited, given the cache `m` before:
   * gone when the metadata cannot be read, kept when the fingerprint is
   * unchanged, otherwise whatever re-parsing the file yields.
   */
  function EntryAfter(m: map<Path, CachedSession>, file: Path, fs: FileSystem): (r: Option<CachedSession>)
    ensures r.Some? ==> file in fs.metadata && FingerprintMatches(map[file := r.value], file, fs.metadata[file])
    ensures r.Some? ==> UsefulSession(r.value) || (file in m && r == Some(m[file]))
  {
    if file !in fs.metadata || fs.metadata[file].modified.None? then None
    else if FingerprintMatches(m, file, fs.metadata[file]) then Some(m[file])
    else
      var md := fs.metadata[file];
      match SessionFileOutcome(ContentsOf(fs, file), md.modified.value, md.len)
      case FileParsed(session) => Some(session)
      case _ => None
  }

  /** Visiting a file a second time leaves its entry as the first visit set it. */
  lemma EntryAfterIsIdempotent(m: map<Path, CachedSession>, m': map<Path, CachedSession>, file: Path, fs: FileSystem)
    requires Lookup(m', file) == EntryAfter(m, file, fs)
    ensures EntryAfter(m', file, fs) == EntryAfter(m, file, fs)
  {
  }

  lemma SweepFileEntry(acc: SweepResult, file: Path, fs: FileSystem)
    ensures Lookup(SweepFile(acc, file, fs).sessions, file) == EntryAfter(acc.sessions, file, fs)
    ensures forall p :: p != file ==> Lookup(SweepFile(acc, file, fs).sessions, p) == Lookup(acc.sessions, p)
  {
  }

  /**
   * After the sweep, a visited file holds the entry its visit produced from
   * the cache before the sweep; every other entry is untouched. This holds
   * even when a path is listed twice.
   */
  lemma {:induction false} SweepEntries(sessions: map<Path, CachedSession>, files: seq<Path>, fs: FileSystem, p: Path)
    ensures Lookup(Sweep(sessions, files, fs).sessions, p)
            == if p in files then EntryAfter(sessions, p, fs) else Lookup(sessions, p)
    decreases |files|
  {
    if files != [] {
      var prefix := files[..|files| - 1];
      var last := files[|files| - 1];
      assert files == prefix + [last];
      SweepEntries(sessions, prefix, fs, p);
      SweepFileEntry(Sweep(sessions, prefix, fs), last, fs);
      if p == last {
        SweepEntries(sessions, prefix, fs, last);
        if last in prefix {
          EntryAfterIsIdempotent(sessions, Sweep(sessions, prefix, fs).sessions, last, fs);
        }
      }
    }
  }

  /**
   * The cache after a cycle: exactly the files of the cycle's list whose
   * visit produced an entry, each with that entry. A file that disappeared
   * from the list is forgotten.
   */
  lemma MergeCycleEntries(st: CacheState, fs: FileSystem, now: nat, p: Path)
    ensures var st' := MergeCycle(st, fs, now);
      Lookup(st'.sessions, p) == if p in st'.sessionFiles then EntryAfter(st.sessions, p, fs) else None
  {
    var due := ShouldRefreshFileDiscovery(st.lastDiscoveryAt, st.discoveryInterval, now);
    var files := if due then DiscoveredFiles(fs) else st.sessionFiles;
    SweepEntries(st.sessions, files, fs, p);
  }

  /** The walk failing (the sessions root removed) empties the cache on the next discovery. */
  lemma DirectoryVanishes(st: CacheState, fs: FileSystem, now: nat)
    requires ShouldRefreshFileDiscovery(st.lastDiscoveryAt, st.discoveryInterval, now)
    requires fs.discovery.None?
    ensures var st' := MergeCycle(st, fs, now);
      st'.sessions == map[] && st'.sessionFiles == [] && st'.diagnostics.activeFiles == 0
  {
    var st' := MergeCycle(st, fs, now);
    forall p | p in st'.sessions
      ensures false
    {
      MergeCycleEntries(st, fs, now, p);
    }
  }

  lemma {:induction false} DistinctElementsCount(s: seq<Path>)
    requires Distinct(s)
    ensures |Elements(s)| == |s|
    decreases |s|
  {
    if s != [] {
      var prefix := s[..|s| - 1];
      assert s == prefix + [s[|s| - 1]];
      assert Elements(s) == Elements(prefix) + {s[|s| - 1]};
      DistinctElementsCount(prefix);
    }
  }

  /** Without duplicate paths, the active-file count is the length of the file list. */
  lemma ActiveFilesCount(st: CacheState, fs: FileSystem, now: nat)
    requires Distinct(MergeCycle(st, fs, now).sessionFiles)
    ensures MergeCycle(st, fs, now).diagnostics.activeFiles == |MergeCycle(st, fs, now).sessionFiles|
  {
    DistinctElementsCount(MergeCycle(st, fs, now).sessionFiles);
  }

  // ---------------------------------------------------------------------
  // Diagnostics counters
  // ---------------------------------------------------------------------

  /** What the sweep does with one file, judged against the cache before the sweep. */
  datatype FileEvent = StatFailed | ModifiedFailed | Unchanged | Refreshed(outcome: ParsedSessionFile)

  function EventFor(m: map<Path, CachedSession>, file: Path, fs: FileSystem): FileEvent {
    if file !in fs.metadata then StatFailed
    else if fs.metadata[file].modified.None? then ModifiedFailed
    else if FingerprintMatches(m, file, fs.metadata[file]) then Unchanged
    else
      var md := fs.metadata[file];
      Refreshed(SessionFileOutcome(ContentsOf(fs, file), md.modified.value, md.len))
  }

  predicate CountsAsUnreadable(e: FileEvent) {
    e.StatFailed? || e.ModifiedFailed? || (e.Refreshed? && e.outcome.FileUnreadable?)
  }

  /** The number of files in `files` whose event satisfies the selected test. */
  function CountEvents(m: map<Path, CachedSession>, files: seq<Path>, fs: FileSystem, kind: nat): nat
    decreases |files|
  {
    if files == [] then 0
    else
      var e := EventFor(m, files[|files| - 1], fs);
      var hit := match kind
        case 0 => e.Refreshed?
        case 1 => e.Refreshed? && e.outcome.FileParseError?
        case 2 => e.Refreshed? && e.outcome.FileNoUsageOrLimits?
        case _ => CountsAsUnreadable(e);
      CountEvents(m, files[..|files| - 1], fs, kind) + (if hit then 1 else 0)
  }

  const RefreshedKind := 0
  const ParseErrorKind := 1
  const NoUsageKind := 2
  const UnreadableKind := 3

  /**
   * Over a list without duplicates, each counter is the number of files with
   * the matching event, and `changed` says some file failed its metadata
   * read or was refreshed.
   */
  lemma {:induction false} SweepCounts(sessions: map<Path, CachedSession>, files: seq<Path>, fs: FileSystem)
    requires Distinct(files)
    ensures var r := Sweep(sessions, files, fs);
      && r.refreshed == CountEvents(sessions, files, fs, RefreshedKind)
      && r.parseErrors == CountEvents(sessions, files, fs, ParseErrorKind)
      && r.noUsageOrLimits == CountEvents(sessions, files, fs, NoUsageKind)
      && r.unreadable == CountEvents(sessions, files, fs, UnreadableKind)
      && (r.changed <==> exists p :: p in files && (EventFor(sessions, p, fs).StatFailed? || EventFor(sessions, p, fs).Refreshed?))
    decreases |files|
  {
    if files != [] {
      var prefix := files[..|files| - 1];
      var last := files[|files| - 1];
      assert files == prefix + [last];
      assert Distinct(prefix);
      assert last !in prefix;
      SweepCounts(sessions, prefix, fs);
      SweepEntries(sessions, prefix, fs, last);
      assert Lookup(Sweep(sessions, prefix, fs).sessions, last) == Lookup(sessions, last);
      assert EventFor(Sweep(sessions, prefix, fs).sessions, last, fs) == EventFor(sessions, last, fs);
    }
  }

  // ---------------------------------------------------------------------
  // A second cycle over unchanged files
  // ---------------------------------------------------------------------

  /** A sweep over files whose fingerprints all match changes nothing and counts nothing. */
  lemma {:induction false} QuietSweep(sessions: map<Path, CachedSession>, files: seq<Path>, fs: FileSystem)
    requires forall p :: p in files ==> p in fs.metadata && FingerprintMatches(sessions, p, fs.metadata[p])
    ensures Sweep(sessions, files, fs) == SweepResult(sessions, 0, 0, 0, 0, false)
    decreases |files|
  {
    if files != [] {
      QuietSweep(sessions, files[..|files| - 1], fs);
    }
  }

  /**
   * Once a cycle has run discovery, a later cycle over the same file system
   * leaves the cache as it is, whatever the clock says. When every listed
   * file produced an entry, that later cycle also refreshes nothing and
   * reports no change.
   */
  lemma SecondCycleKeepsSessions(st: CacheState, fs: FileSystem, now: nat, later: nat)
    requires ShouldRefreshFileDiscovery(st.lastDiscoveryAt, st.discoveryInterval, now)
    ensures var st1 := MergeCycle(st, fs, now);
      MergeCycle(st1, fs, later).sessions == st1.sessions
      && MergeCycle(st1, fs, later).sessionFiles == st1.sessionFiles
    ensures var st1 := MergeCycle(st, fs, now);
      (forall p :: p in st1.sessionFiles ==> p in st1.sessions) ==>
        Sweep(st1.sessions, st1.sessionFiles, fs) == SweepResult(st1.sessions, 0, 0, 0, 0, false)
        && MergeCycle(st1, fs, later).diagnostics.refreshedFiles == 0
  {
    var st1 := MergeCycle(st, fs, now);
    var st2 := MergeCycle(st1, fs, later);
    var files := DiscoveredFiles(fs);
    assert st1.sessionFiles == files;
    assert st2.sessionFiles == files;
    forall p
      ensures Lookup(st2.sessions, p) == Lookup(st1.sessions, p)
    {
      MergeCycleEntries(st, fs, now, p);
      MergeCycleEntries(st1, fs, later, p);
      if p in files {
        EntryAfterIsIdempotent(st.sessions, st1.sessions, p, fs);
      }
    }
    assert st2.sessions == st1.sessions by {
      forall p | p in st2.sessions ensures p in st1.sessions && st2.sessions[p] == st1.sessions[p] {
        assert Lookup(st2.sessions, p) == Lookup(st1.sessions, p);
      }
      forall p | p in st1.sessions ensures p in st2.sessions {
        assert Lookup(st2.sessions, p) == Lookup(st1.sessions, p);
      }
    }
    if forall p :: p in st1.sessionFiles ==> p in st1.sessions {
      forall p | p in files
        ensures p in fs.metadata && FingerprintMatches(st1.sessions, p, fs.metadata[p])
      {
        MergeCycleEntries(st, fs, now, p);
      }
      QuietSweep(st1.sessions, files, fs);
    }
  }

  // ---------------------------------------------------------------------
  // Back-off of a cycle
  // ---------------------------------------------------------------------

  /** What the loop counts as a change: a failed `fs::metadata` or a re-parse. */
  predicate ChangeEvent(e: FileEvent) {
    e.StatFailed? || e.Refreshed?
  }

  /** One file with a change event anywhere in the list makes the sweep report a change. */
  lemma {:induction false} ChangeEventForcesChange(sessions: map<Path, CachedSession>, files: seq<Path>, fs: FileSystem, p: Path)
    requires p in files && ChangeEvent(EventFor(sessions, p, fs))
    ensures Sweep(sessions, files, fs).changed
    decreases |files|
  {
    var prefix := files[..|files| - 1];
    var last := files[|files| - 1];
    assert files == prefix + [last];
    if p in prefix {
      ChangeEventForcesChange(sessions, prefix, fs, p);
    } else {
      SweepEntries(sessions, prefix, fs, p);
      assert EventFor(Sweep(sessions, prefix, fs).sessions, p, fs) == EventFor(sessions, p, fs);
    }
  }

  /**
   * The back-off rule of a cycle. Without discovery the interval and idle
   * count stay. With discovery they reset to the minimum when the file count
   * changed or some file failed its metadata read or was re-parsed; over a
   * list without duplicates, when none of that happened, they advance one
   * idle step.
   */
  lemma MergeCycleBackoff(st: CacheState, fs: FileSystem, now: nat)
    ensures var st' := MergeCycle(st, fs, now);
      !ShouldRefreshFileDiscovery(st.lastDiscoveryAt, st.discoveryInterval, now) ==>
        st'.discoveryInterval == st.discoveryInterval && st'.idleDiscoveryCycles == st.idleDiscoveryCycles
    ensures var st' := MergeCycle(st, fs, now);
      var files := DiscoveredFiles(fs);
      ShouldRefreshFileDiscovery(st.lastDiscoveryAt, st.discoveryInterval, now) &&
      (|files| != |st.sessionFiles| || exists p :: p in files && ChangeEvent(EventFor(st.sessions, p, fs))) ==>
        st'.discoveryInterval == MinDiscoveryInterval && st'.idleDiscoveryCycles == 0
    ensures var st' := MergeCycle(st, fs, now);
      var files := DiscoveredFiles(fs);
      ShouldRefreshFileDiscovery(st.lastDiscoveryAt, st.discoveryInterval, now) && Distinct(files) &&
      |files| == |st.sessionFiles| && (forall p :: p in files ==> !ChangeEvent(EventFor(st.sessions, p, fs))) ==>
        Backoff(st'.discoveryInterval, st'.idleDiscoveryCycles)
          == TunedBackoff(Backoff(st.discoveryInterval, st.idleDiscoveryCycles), false)
  {
    var files := DiscoveredFiles(fs);
    if exists p :: p in files && ChangeEvent(EventFor(st.sessions, p, fs)) {
      var p :| p in files && ChangeEvent(EventFor(st.sessions, p, fs));
      ChangeEventForcesChange(st.sessions, files, fs, p);
    }
    if Distinct(files) {
      SweepCounts(st.sessions, files, fs);
    }
  }

  /**
   * A listed file that re-parses to no session stays out of the cache, and
   * since it is re-parsed on every visit, every discovery cycle resets the
   * back-off: such a file pins the interval at its minimum.
   */
  lemma UnusableFilePinsInterval(st: CacheState, fs: FileSystem, now: nat, p: Path)
    requires ShouldRefreshFileDiscovery(st.lastDiscoveryAt, st.discoveryInterval, now)
    requires p in DiscoveredFiles(fs) && p in fs.metadata && fs.metadata[p].modified.Some?
    requires !SessionFileOutcome(ContentsOf(fs, p), fs.metadata[p].modified.value, fs.metadata[p].len).FileParsed?
    requires p !in st.sessions
    ensures var st' := MergeCycle(st, fs, now);
      && st'.discoveryInterval == MinDiscoveryInterval && st'.idleDiscoveryCycles == 0
      && p !in st'.sessions
  {
    assert ChangeEvent(EventFor(st.sessions, p, fs));
    MergeCycleBackoff(st, fs, now);
    MergeCycleEntries(st, fs, now, p);
  }

  // ---------------------------------------------------------------------
  // Ledger import
  // ---------------------------------------------------------------------

  /** The imported records are exactly the Codex records of the cached sessions with token usage. */
  lemma {:induction false} ImportedRecordsMembers(sessions: map<Path, CachedSession>, order: seq<Path>, model: string, e: UsageEntry)
    requires forall i :: 0 <= i < |order| ==> order[i] in sessions
    ensures e in ImportedRecords(sessions, order, model) <==>
      exists p :: p in order && sessions[p].hasTokenUsage && e == CodexRecord(sessions[p], model)
    decreases |order|
  {
    if order != [] {
      var prefix := order[..|order| - 1];
      var last := order[|order| - 1];
      assert order == prefix + [last];
      ImportedRecordsMembers(sessions, prefix, model, e);
    }
  }

  /** Without duplicates in the visiting order, one record per session with token usage. */
  lemma {:induction false} ImportedRecordsCount(sessions: map<Path, CachedSession>, order: seq<Path>, model: string)
    requires forall i :: 0 <= i < |order| ==> order[i] in sessions
    ensures |ImportedRecords(sessions, order, model)| == |set i | 0 <= i < |order| && sessions[order[i]].hasTokenUsage|
    decreases |order|
  {
    if order != [] {
      var n := |order| - 1;
      var prefix := order[..n];
      ImportedRecordsCount(sessions, prefix, model);
      var before := set i | 0 <= i < n && sessions[prefix[i]].hasTokenUsage;
      var after := set i | 0 <= i < |order| && sessions[order[i]].hasTokenUsage;
      if sessions[order[n]].hasTokenUsage {
        assert after == before + {n};
      } else {
        assert after == before;
      }
    }
  }

  // ---------------------------------------------------------------------
  // The most recent rate limits
  // ---------------------------------------------------------------------

  /** The ordering key of a session with limits: its modification time, then the snapshot's timestamp. */
  predicate KeyLe(a: CachedSession, b: CachedSession)
    requires a.limits.Some? && b.limits.Some?
  {
    a.modified < b.modified || (a.modified == b.modified && StrLe(a.limits.value.timestamp, b.limits.value.timestamp))
  }

  lemma KeyLeTotal(a: CachedSession, b: CachedSession)
    requires a.limits.Some? && b.limits.Some?
    ensures KeyLe(a, b) || KeyLe(b, a)
  {
    StrLeTotal(a.limits.value.timestamp, b.limits.value.timestamp);
  }

  lemma KeyLeTransitive(a: CachedSession, b: CachedSession, c: CachedSession)
    requires a.limits.Some? && b.limits.Some? && c.limits.Some?
    requires KeyLe(a, b) && KeyLe(b, c)
    ensures KeyLe(a, c)
  {
    if a.modified == b.modified == c.modified {
      StrLeTransitive(a.limits.value.timestamp, b.limits.value.timestamp, c.limits.value.timestamp);
    }
  }

  /**
   * The session `max_by` selects when the sessions are visited in `order`:
   * among those with limits, the greatest key, and of equal keys the last one
   * visited.
   */
  function LatestSession(sessions: map<Path, CachedSession>, order: seq<Path>): (r: Option<Path>)
    requires forall i :: 0 <= i < |order| ==> order[i] in sessions
    ensures r.None? <==> forall p :: p in order ==> sessions[p].limits.None?
    ensures r.Some? ==> r.value in order && sessions[r.value].limits.Some?
    ensures r.Some? ==> forall p :: p in order && sessions[p].limits.Some? ==> KeyLe(sessions[p], sessions[r.value])
    decreases |order|
  {
    if order == [] then None
    else
      var prefix := order[..|order| - 1];
      var last := order[|order| - 1];
      assert order == prefix + [last];
      var best := LatestSession(sessions, prefix);
      if sessions[last].limits.None? then best
      else if best.None? then
        KeyLeReflexive(sessions[last]);
        Some(last)
      else if KeyLe(sessions[best.value], sessions[last]) then
        assert forall p :: p in prefix && sessions[p].limits.Some? ==> KeyLe(sessions[p], sessions[last]) by {
          forall p | p in prefix && sessions[p].limits.Some? ensures KeyLe(sessions[p], sessions[last]) {
            KeyLeTransitive(sessions[p], sessions[best.value], sessions[last]);
          }
        }
        KeyLeReflexive(sessions[last]);
        Some(last)
      else
        KeyLeTotal(sessions[best.value], sessions[last]);
        best
  }

  lemma KeyLeReflexive(a: CachedSession)
    requires a.limits.Some?
    ensures KeyLe(a, a)
  {
    StrLeReflexive(a.limits.value.timestamp);
  }

  /**
   * `max_by` keeps the last of equally great elements: the chosen session
   * sits at a position after which every session with limits has a strictly
   * smaller key.
   */
  lemma {:induction false} LatestSessionIsLastMaximal(sessions: map<Path, CachedSession>, order: seq<Path>)
    requires forall i :: 0 <= i < |order| ==> order[i] in sessions
    ensures var r := LatestSession(sessions, order);
      r.Some? ==> exists k :: (0 <= k < |order| && order[k] == r.value &&
        forall j :: k < j < |order| && sessions[order[j]].limits.Some? ==> !KeyLe(sessions[r.value], sessions[order[j]]))
    decreases |order|
  {
    if order != [] {
      var prefix := order[..|order| - 1];
      var last := order[|order| - 1];
      assert order == prefix + [last];
      var best := LatestSession(sessions, prefix);
      var r := LatestSession(sessions, order);
      if r == Some(last) {
        assert order[|order| - 1] == r.value;
      } else if r.Some? {
        LatestSessionIsLastMaximal(sessions, prefix);
        assert r == best && best.Some?;
        var k :| 0 <= k < |prefix| && prefix[k] == best.value &&
          forall j :: k < j < |prefix| && sessions[prefix[j]].limits.Some? ==> !KeyLe(sessions[best.value], sessions[prefix[j]]);
        assert order[k] == r.value;
        assert sessions[last].limits.Some? ==> !KeyLe(sessions[best.value], sessions[last]);
      }
    }
  }

  /** `latest_codex_limits` over the cache's sessions visited in `order`. */
  function LatestCodexLimits(sessions: map<Path, CachedSession>, order: seq<Path>): (r: Option<RateLimits>)
    requires forall i :: 0 <= i < |order| ==> order[i] in sessions
    ensures r.None? <==> forall p :: p in order ==> sessions[p].limits.None?
    ensures r.Some? ==>
      exists p :: (p in order && sessions[p].limits == Some(r.value)
                   && forall q :: q in order && sessions[q].limits.Some? ==> KeyLe(sessions[q], sessions[p]))
  {
    var best := LatestSession(sessions, order);
    if best.None? then None else sessions[best.value].limits
  }

  /**
   * Visiting order matters only between sessions whose keys tie: the
   * selected snapshot's modification time and timestamp are the same for
   * any two orders that visit the same sessions.
   */
  lemma LatestKeyIsOrderIndependent(sessions: map<Path, CachedSession>, order1: seq<Path>, order2: seq<Path>)
    requires forall i :: 0 <= i < |order1| ==> order1[i] in sessions
    requires Elements(order1) == Elements(order2)
    ensures forall i :: 0 <= i < |order2| ==> order2[i] in sessions
    ensures LatestSession(sessions, order1).Some? <==> LatestSession(sessions, order2).Some?
    ensures LatestSession(sessions, order1).Some? ==>
      var a := sessions[LatestSession(sessions, order1).value];
      var b := sessions[LatestSession(sessions, order2).value];
      a.modified == b.modified && a.limits.value.timestamp == b.limits.value.timestamp
  {
    assert forall i :: 0 <= i < |order2| ==> order2[i] in Elements(order1);
    var r1 := LatestSession(sessions, order1);
    var r2 := LatestSession(sessions, order2);
    if r1.Some? {
      assert r1.value in Elements(order2);
      assert r2.Some?;
      assert r2.value in Elements(order1);
      var a := sessions[r1.value];
      var b := sessions[r2.value];
      assert KeyLe(a, b) && KeyLe(b, a);
      if a.modified == b.modified {
        StrLeAntisymmetric(a.limits.value.timestamp, b.limits.value.timestamp);
      }
    } else {
      assert forall p :: p in order2 ==> p in order1;
    }
  }

  // ---------------------------------------------------------------------
  // The back-off scenario of the module's own test
  // ---------------------------------------------------------------------

  /** A cycle started with the last discovery an hour in the past. */
  function CycleAfterAnHour(st: CacheState, fs: FileSystem, now: nat): CacheState
    requires now >= 3600
  {
    MergeCycle(st.(lastDiscoveryAt := Some(now - 3600)), fs, now)
  }

  /**
   * From the default cache over an empty sessions root, three forced
   * discoveries that find nothing raise the interval by one step; a fourth
   * that finds a new file puts it back to the minimum.
   */
  lemma IdleCyclesBackOffAndChangeResets(now: nat, file: Path, withFile: FileSystem)
    requires now >= 3600
    requires withFile.discovery == Some([file])
    ensures var empty := FileSystem(Some([]), map[], map[]);
      var st3 := CycleAfterAnHour(CycleAfterAnHour(CycleAfterAnHour(DefaultCacheState, empty, now), empty, now), empty, now);
      && st3.discoveryInterval == MinDiscoveryInterval + DiscoveryBackoffStep
      && CycleAfterAnHour(st3, withFile, now).discoveryInterval == MinDiscoveryInterval
  {
    var empty := FileSystem(Some([]), map[], map[]);
    var st1 := CycleAfterAnHour(DefaultCacheState, empty, now);
    assert st1.discoveryInterval == 10 && st1.idleDiscoveryCycles == 1 && st1.sessionFiles == [];
    var st2 := CycleAfterAnHour(st1, empty, now);
    assert st2.discoveryInterval == 10 && st2.idleDiscoveryCycles == 2 && st2.sessionFiles == [];
    var st3 := CycleAfterAnHour(st2, empty, now);
    assert st3.discoveryInterval == 20 && st3.idleDiscoveryCycles == 0 && st3.sessionFiles == [];
  }
}
