/**
 * The usage ledger's records and the small pure routines around them:
 * token-field adaptation of manually supplied records, pricing-key lookup
 * and per-provider aggregation (src/models.rs).
 */
module Models {
  import opened Wrappers

  /**
   * How a record's cost in US dollars is known. The source stores an `f64`;
   * here a cost is either the value given in the record or the estimate the
   * pricing table yields for these arguments (the floating-point estimate
   * itself is not modelled).
   */
  datatype Cost =
    | Given(usd: real)
    | Estimated(provider: string, model: string, inputTokens: nat, outputTokens: nat)

  /** One record of the usage ledger. */
  datatype UsageEntry = UsageEntry(
    timestamp: string,
    provider: string,
    model: string,
    inputTokens: nat,
    outputTokens: nat,
    cost: Cost)

  /** A manually supplied record, before its token fields are adapted. */
  datatype RawUsageEntry = RawUsageEntry(
    timestamp: string,
    provider: string,
    model: string,
    inputTokens: Option<nat>,
    outputTokens: Option<nat>,
    promptTokens: Option<nat>,
    completionTokens: Option<nat>,
    requestTokens: Option<nat>,
    responseTokens: Option<nat>,
    promptTokenCount: Option<nat>,
    candidatesTokenCount: Option<nat>,
    totalTokens: Option<nat>,
    totalTokenCount: Option<nat>,
    costUsd: Option<real>)

  datatype ModelPricing = ModelPricing(inputPerMillionUsd: real, outputPerMillionUsd: real)

  /** Per-provider token total (the cost total is not modelled). */
  datatype ProviderSummary = ProviderSummary(provider: string, totalTokens: nat)

  datatype ProviderStats = ProviderStats(provider: string, totalTokens: nat, requests: nat)

  function Max(a: nat, b: nat): nat { if a < b then b else a }

  // ---------------------------------------------------------------------
  // Token-field adaptation
  // ---------------------------------------------------------------------

  /** Reference meaning of a fallback chain: the first present field, else 0. */
  function FirstPresent(chain: seq<Option<nat>>): nat {
    if chain == [] then 0
    else if chain[0].Some? then chain[0].value
    else FirstPresent(chain[1..])
  }

  lemma FirstPresentOfThree(a: Option<nat>, b: Option<nat>, c: Option<nat>)
    ensures FirstPresent([a, b, c]) == a.Or(b).Or(c).GetOr(0)
  {
    assert [a, b, c][1..] == [b, c];
    assert [b, c][1..] == [c];
    assert [c][1..] == [];
    assert FirstPresent([c]) == c.GetOr(0);
    assert FirstPresent([b, c]) == b.Or(c).GetOr(0);
  }

  lemma FirstPresentOfFour(a: Option<nat>, b: Option<nat>, c: Option<nat>, d: Option<nat>)
    ensures FirstPresent([a, b, c, d]) == a.Or(b).Or(c).Or(d).GetOr(0)
  {
    assert [a, b, c, d][1..] == [b, c, d];
    FirstPresentOfThree(b, c, d);
  }

  /**
   * Reconciles an (input, output) pair with an optional reported total:
   * a total alone is split in half (the odd token going to output), a total
   * above the known sum raises output to match, anything else is kept.
   */
  function SplitWithTotal(input: nat, output: nat, total: Option<nat>): (r: (nat, nat))
    ensures total.None? ==> r == (input, output)
    ensures input == 0 && output == 0 && total.Some? ==>
      r.0 == total.value / 2 && r.0 + r.1 == total.value && r.0 <= r.1 <= r.0 + 1
    ensures (input != 0 || output != 0) ==> r.0 == input && r.1 >= output
    ensures total.Some? ==> r.0 + r.1 == Max(input + output, total.value)
    ensures total.Some? && input + output < total.value ==> r.0 + r.1 == total.value
    ensures total.Some? && input + output >= total.value && (input != 0 || output != 0) ==> r == (input, output)
  {
    // The source tests `input == 0 && output == 0` and then, again,
    // `input + output == 0`; on unbounded counts the two tests coincide (the
    // second differs only through u64 wrap-around), so one branch covers both.
    if total.Some? && input + output == 0 then
      var inputGuess := total.value / 2;
      (inputGuess, total.value - inputGuess)
    else if total.Some? && input + output < total.value then
      (input, output + (total.value - (input + output)))
    else
      (input, output)
  }

  function AdaptOpenAiTokens(raw: RawUsageEntry): (r: (nat, nat))
    ensures r == SplitWithTotal(
      FirstPresent([raw.inputTokens, raw.promptTokens, raw.requestTokens]),
      FirstPresent([raw.outputTokens, raw.completionTokens, raw.responseTokens]),
      raw.totalTokens)
  {
    FirstPresentOfThree(raw.inputTokens, raw.promptTokens, raw.requestTokens);
    FirstPresentOfThree(raw.outputTokens, raw.completionTokens, raw.responseTokens);
    var input := raw.inputTokens.Or(raw.promptTokens).Or(raw.requestTokens).GetOr(0);
    var output := raw.outputTokens.Or(raw.completionTokens).Or(raw.responseTokens).GetOr(0);
    SplitWithTotal(input, output, raw.totalTokens)
  }

  function AdaptCodexTokens(raw: RawUsageEntry): (r: (nat, nat))
    ensures r == AdaptOpenAiTokens(raw)
  {
    AdaptOpenAiTokens(raw)
  }

  function AdaptAnthropicTokens(raw: RawUsageEntry): (r: (nat, nat))
    ensures r == SplitWithTotal(
      FirstPresent([raw.inputTokens, raw.promptTokens, raw.requestTokens]),
      FirstPresent([raw.outputTokens, raw.completionTokens, raw.responseTokens]),
      raw.totalTokens)
  {
    FirstPresentOfThree(raw.inputTokens, raw.promptTokens, raw.requestTokens);
    FirstPresentOfThree(raw.outputTokens, raw.completionTokens, raw.responseTokens);
    var input := raw.inputTokens.Or(raw.promptTokens).Or(raw.requestTokens).GetOr(0);
    var output := raw.outputTokens.Or(raw.completionTokens).Or(raw.responseTokens).GetOr(0);
    SplitWithTotal(input, output, raw.totalTokens)
  }

  function AdaptGeminiTokens(raw: RawUsageEntry): (r: (nat, nat))
    ensures r == SplitWithTotal(
      FirstPresent([raw.inputTokens, raw.promptTokenCount, raw.promptTokens]),
      FirstPresent([raw.outputTokens, raw.candidatesTokenCount, raw.completionTokens]),
      raw.totalTokens.Or(raw.totalTokenCount))
  {
    FirstPresentOfThree(raw.inputTokens, raw.promptTokenCount, raw.promptTokens);
    FirstPresentOfThree(raw.outputTokens, raw.candidatesTokenCount, raw.completionTokens);
    var input := raw.inputTokens.Or(raw.promptTokenCount).Or(raw.promptTokens).GetOr(0);
    var output := raw.outputTokens.Or(raw.candidatesTokenCount).Or(raw.completionTokens).GetOr(0);
    SplitWithTotal(input, output, raw.totalTokens.Or(raw.totalTokenCount))
  }

  function AdaptOpusTokens(raw: RawUsageEntry): (r: (nat, nat))
    ensures r == SplitWithTotal(
      FirstPresent([raw.inputTokens, raw.promptTokens, raw.promptTokenCount]),
      FirstPresent([raw.outputTokens, raw.completionTokens, raw.candidatesTokenCount]),
      raw.totalTokens.Or(raw.totalTokenCount))
  {
    FirstPresentOfThree(raw.inputTokens, raw.promptTokens, raw.promptTokenCount);
    FirstPresentOfThree(raw.outputTokens, raw.completionTokens, raw.candidatesTokenCount);
    var input := raw.inputTokens.Or(raw.promptTokens).Or(raw.promptTokenCount).GetOr(0);
    var output := raw.outputTokens.Or(raw.completionTokens).Or(raw.candidatesTokenCount).GetOr(0);
    SplitWithTotal(input, output, raw.totalTokens.Or(raw.totalTokenCount))
  }

  function AdaptGenericTokens(raw: RawUsageEntry): (r: (nat, nat))
    ensures r == SplitWithTotal(
      FirstPresent([raw.inputTokens, raw.promptTokens, raw.requestTokens, raw.promptTokenCount]),
      FirstPresent([raw.outputTokens, raw.completionTokens, raw.responseTokens, raw.candidatesTokenCount]),
      raw.totalTokens.Or(raw.totalTokenCount))
  {
    FirstPresentOfFour(raw.inputTokens, raw.promptTokens, raw.requestTokens, raw.promptTokenCount);
    FirstPresentOfFour(raw.outputTokens, raw.completionTokens, raw.responseTokens, raw.candidatesTokenCount);
    var input := raw.inputTokens.Or(raw.promptTokens).Or(raw.requestTokens).Or(raw.promptTokenCount).GetOr(0);
    var output :=
      raw.outputTokens.Or(raw.completionTokens).Or(raw.responseTokens).Or(raw.candidatesTokenCount).GetOr(0);
    SplitWithTotal(input, output, raw.totalTokens.Or(raw.totalTokenCount))
  }

  // ---------------------------------------------------------------------
  // Normalisation of a manually supplied record
  // ---------------------------------------------------------------------

  /** Lower-cases ASCII letters; every other character is kept. */
  function LowerChar(c: char): char {
    if 'A' <= c <= 'Z' then (c as int - 'A' as int + 'a' as int) as char else c
  }

  function ToLower(s: string): (r: string)
    ensures |r| == |s|
    ensures forall i :: 0 <= i < |s| ==> r[i] == LowerChar(s[i])
  {
    if s == [] then [] else [LowerChar(s[0])] + ToLower(s[1..])
  }

  lemma ToLowerIdempotent(s: string)
    ensures ToLower(ToLower(s)) == ToLower(s)
  {
    var once := ToLower(s);
    var twice := ToLower(once);
    assert forall i :: 0 <= i < |s| ==> twice[i] == once[i];
  }

  /** The per-provider dispatch of `normalize_entry`, on an already lower-cased name. */
  function AdaptTokens(provider: string, raw: RawUsageEntry): (nat, nat) {
    if provider == "openai" then AdaptOpenAiTokens(raw)
    else if provider == "codex" then AdaptCodexTokens(raw)
    else if provider == "anthropic" then AdaptAnthropicTokens(raw)
    else if provider == "gemini" then AdaptGeminiTokens(raw)
    else if provider == "opus" then AdaptOpusTokens(raw)
    else AdaptGenericTokens(raw)
  }

  /** No raw count field is present. */
  predicate NoCountFields(raw: RawUsageEntry) {
    && raw.inputTokens.None? && raw.outputTokens.None?
    && raw.promptTokens.None? && raw.completionTokens.None?
    && raw.requestTokens.None? && raw.responseTokens.None?
    && raw.promptTokenCount.None? && raw.candidatesTokenCount.None?
  }

  /**
   * Whatever the provider, explicit `input_tokens` / `output_tokens` that are
   * not both zero are kept as the input count, and the output count is only
   * ever topped up to a larger total.
   */
  lemma DirectCountsTakePrecedence(provider: string, raw: RawUsageEntry, a: nat, b: nat)
    requires raw.inputTokens == Some(a) && raw.outputTokens == Some(b) && a + b != 0
    ensures AdaptTokens(provider, raw).0 == a && AdaptTokens(provider, raw).1 >= b
    ensures raw.totalTokens.None? && raw.totalTokenCount.None? ==> AdaptTokens(provider, raw) == (a, b)
  {
  }

  /** A record carrying only `total_tokens` is split in half, the odd token going to output. */
  lemma TotalOnlyIsSplitInHalf(provider: string, raw: RawUsageEntry, t: nat)
    requires NoCountFields(raw) && raw.totalTokens == Some(t)
    ensures AdaptTokens(provider, raw) == (t / 2, t - t / 2)
  {
  }

  /**
   * `total_token_count` is consulted by the gemini, opus and generic adapters
   * only: for openai, codex and anthropic a record carrying nothing else has
   * no tokens at all.
   */
  lemma TotalTokenCountIsProviderSpecific(provider: string, raw: RawUsageEntry, t: nat)
    requires NoCountFields(raw) && raw.totalTokens.None? && raw.totalTokenCount == Some(t)
    ensures provider in {"openai", "codex", "anthropic"} ==> AdaptTokens(provider, raw) == (0, 0)
    ensures provider !in {"openai", "codex", "anthropic"} ==> AdaptTokens(provider, raw) == (t / 2, t - t / 2)
  {
  }

  function NormalizeEntry(raw: RawUsageEntry): (e: UsageEntry)
    ensures e.timestamp == raw.timestamp && e.model == raw.model
    ensures e.provider == ToLower(raw.provider)
    ensures (e.inputTokens, e.outputTokens) == AdaptTokens(ToLower(raw.provider), raw)
    ensures raw.costUsd.Some? ==> e.cost == Given(raw.costUsd.value)
    ensures raw.costUsd.None? ==>
      e.cost == Estimated(ToLower(raw.provider), raw.model, e.inputTokens, e.outputTokens)
  {
    var provider := ToLower(raw.provider);
    var (inputTokens, outputTokens) := AdaptTokens(provider, raw);
    var cost := if raw.costUsd.Some? then Given(raw.costUsd.value)
                else Estimated(provider, raw.model, inputTokens, outputTokens);
    UsageEntry(raw.timestamp, provider, raw.model, inputTokens, outputTokens, cost)
  }

  /** Dispatch sees only the lower-cased name: the provider's case never matters. */
  lemma NormalizeEntryIgnoresProviderCase(raw: RawUsageEntry)
    ensures NormalizeEntry(raw) == NormalizeEntry(raw.(provider := ToLower(raw.provider)))
  {
    ToLowerIdempotent(raw.provider);
  }

  function NormalizeRawUsage(entries: seq<RawUsageEntry>): (r: seq<UsageEntry>)
    ensures |r| == |entries|
    ensures forall i :: 0 <= i < |entries| ==> r[i] == NormalizeEntry(entries[i])
  {
    if entries == [] then [] else [NormalizeEntry(entries[0])] + NormalizeRawUsage(entries[1..])
  }

  // ---------------------------------------------------------------------
  // Pricing lookup
  // ---------------------------------------------------------------------

  function PricingKey(provider: string, model: string): string { provider + "/" + model }

  function WildcardKey(provider: string): string { provider + "/*" }

  // The exact "provider/model" entry first, then the wildcard entry of the provider.
  function LookupPricing(pricing: map<string, ModelPricing>, provider: string, model: string): (r: Option<ModelPricing>)
    ensures r.Some? <==> PricingKey(provider, model) in pricing || WildcardKey(provider) in pricing
    ensures PricingKey(provider, model) in pricing ==> r == Some(pricing[PricingKey(provider, model)])
    ensures PricingKey(provider, model) !in pricing && WildcardKey(provider) in pricing ==>
      r == Some(pricing[WildcardKey(provider)])
  {
    var exact := provider + "/" + model;
    if exact in pricing then Some(pricing[exact])
    else
      var wildcard := provider + "/*";
      if wildcard in pricing then Some(pricing[wildcard]) else None
  }

  // ---------------------------------------------------------------------
  // Per-provider aggregation
  // ---------------------------------------------------------------------

  /** Number of ledger records of `provider`. */
  function RequestCount(entries: seq<UsageEntry>, provider: string): nat {
    if entries == [] then 0
    else RequestCount(entries[..|entries| - 1], provider)
         + (if entries[|entries| - 1].provider == provider then 1 else 0)
  }

  /** Sum of input + output tokens over the records of `provider`. */
  function ProviderTokens(entries: seq<UsageEntry>, provider: string): nat {
    if entries == [] then 0
    else
      var last := entries[|entries| - 1];
      ProviderTokens(entries[..|entries| - 1], provider)
      + (if last.provider == provider then last.inputTokens + last.outputTokens else 0)
  }

  function ProviderSet(entries: seq<UsageEntry>): set<string> {
    set e | e in entries :: e.provider
  }

  lemma {:induction false} RequestCountZero(entries: seq<UsageEntry>, provider: string)
    ensures RequestCount(entries, provider) == 0 <==> provider !in ProviderSet(entries)
  {
    if entries != [] {
      var init := entries[..|entries| - 1];
      RequestCountZero(init, provider);
      assert entries == init + [entries[|entries| - 1]];
      assert ProviderSet(entries) == ProviderSet(init) + {entries[|entries| - 1].provider};
    }
  }

  lemma {:induction false} ProviderTokensOfAbsent(entries: seq<UsageEntry>, provider: string)
    requires provider !in ProviderSet(entries)
    ensures ProviderTokens(entries, provider) == 0
  {
    if entries != [] {
      var init := entries[..|entries| - 1];
      assert entries == init + [entries[|entries| - 1]];
      assert ProviderSet(init) <= ProviderSet(entries);
      ProviderTokensOfAbsent(init, provider);
    }
  }

  method ProviderStatsOf(entries: seq<UsageEntry>, provider: string) returns (r: Option<ProviderStats>)
    ensures provider == "" ==> r.None?
    ensures provider != "" ==> (r.None? <==> provider !in ProviderSet(entries))
    ensures r.Some? ==>
      r.value == ProviderStats(provider, ProviderTokens(entries, provider), RequestCount(entries, provider))
      && r.value.requests > 0
  {
    if provider == "" {
      return None;
    }
    var totalInputTokens: nat := 0;
    var totalOutputTokens: nat := 0;
    var requests: nat := 0;
    var i := 0;
    while i < |entries|
      invariant 0 <= i <= |entries|
      invariant totalInputTokens + totalOutputTokens == ProviderTokens(entries[..i], provider)
      invariant requests == RequestCount(entries[..i], provider)
    {
      assert entries[..i + 1][..i] == entries[..i];
      var entry := entries[i];
      if entry.provider == provider {
        totalInputTokens := totalInputTokens + entry.inputTokens;
        totalOutputTokens := totalOutputTokens + entry.outputTokens;
        requests := requests + 1;
      }
      i := i + 1;
    }
    assert entries[..i] == entries;
    RequestCountZero(entries, provider);
    if requests == 0 {
      return None;
    }
    return Some(ProviderStats(provider, totalInputTokens + totalOutputTokens, requests));
  }

  /** The grouping pass: each provider's token total, keyed by provider. */
  method GroupTokensByProvider(entries: seq<UsageEntry>) returns (grouped: map<string, nat>)
    ensures grouped.Keys == ProviderSet(entries)
    ensures forall p :: p in grouped ==> grouped[p] == ProviderTokens(entries, p)
  {
    grouped := map[];
    var i := 0;
    while i < |entries|
      invariant 0 <= i <= |entries|
      invariant grouped.Keys == ProviderSet(entries[..i])
      invariant forall p :: p in grouped ==> grouped[p] == ProviderTokens(entries[..i], p)
    {
      var entry := entries[i];
      assert entries[..i + 1] == entries[..i] + [entry];
      assert entries[..i + 1][..i] == entries[..i];
      assert ProviderSet(entries[..i + 1]) == ProviderSet(entries[..i]) + {entry.provider};
      if entry.provider !in grouped {
        ProviderTokensOfAbsent(entries[..i], entry.provider);
      }
      var current := if entry.provider in grouped then grouped[entry.provider] else 0;
      grouped := grouped[entry.provider := current + entry.inputTokens + entry.outputTokens];
      i := i + 1;
    }
    assert entries[..i] == entries;
  }

  method ProviderSummaries(entries: seq<UsageEntry>) returns (r: seq<ProviderSummary>)
    ensures (set s | s in r :: s.provider) == ProviderSet(entries)
    ensures forall i, j :: 0 <= i < j < |r| ==> r[i].provider != r[j].provider
    ensures forall i :: 0 <= i < |r| ==> r[i].totalTokens == ProviderTokens(entries, r[i].provider)
  {
    var grouped := GroupTokensByProvider(entries);
    r := [];
    var remaining := grouped.Keys;
    while remaining != {}
      invariant remaining <= grouped.Keys
      invariant (set s | s in r :: s.provider) + remaining == grouped.Keys
      invariant forall s :: s in r ==> s.provider !in remaining && s.provider in grouped && s.totalTokens == grouped[s.provider]
      invariant forall a, b :: 0 <= a < b < |r| ==> r[a].provider != r[b].provider
      decreases remaining
    {
      var provider :| provider in remaining;
      r := r + [ProviderSummary(provider, grouped[provider])];
      remaining := remaining - {provider};
    }
  }
}
