# Mini METARs: VATSIM datafeed cache and ATIS letter resolver, in Dafny

This project models the core of the Mini METARs desktop app's `get_atis` command. The
command answers "what is the current ATIS information letter at airport X, and what do
its broadcasts say?". It has two parts:

- **The datafeed cache** (`DatafeedCache`). `AppState` has one slot,
  `latestVatsimData: Option<VatsimDataFetch>`. A `VatsimDataFetch` is a fetch timestamp
  plus the fetch outcome, `Result<V3ResponseData, FetchError>`.
  - `DatafeedIsStale` reports the slot stale when it is empty, or when strictly more than
    30 s have passed since the fetch.
  - `GetAtis` refreshes a stale slot by replacing it wholesale, success or error. It then
    answers from whatever the slot holds. A cached error is served as
    `"Could not retrieve datafeed"` until the window expires.
- **The resolver** (`AtisResolver`, over the text primitives in `AtisText`). These are pure
  functions over the snapshot's list of ATIS broadcasts.
  - `FoundAtis` selects the broadcasts whose callsign starts with the ICAO id.
  - `Letter` derives `-`, the single broadcast's letter, or `arrival/departure` from the
    first `_A_` and `_D_` streams.
  - `Texts` collects the broadcast texts, each joined with single spaces.
  - `ParseAtisCode` reconciles the structured `atis_code` with the letter
    `ParseCodeFromText` scans from the text. `INFO X` comes first, then `INFORMATION X`.
    The text letter wins only when it is exactly one letter ahead.

Modelling decisions:

- Time is an `int` number of nanoseconds of a monotonic clock. `Duration::from_secs(30)`
  is `StaleAfter = 30_000_000_000`. `Instant::elapsed` saturates at zero.
- `get_atis` reads the clock twice when it refreshes. The staleness check reads it first
  (`now`). Then `VatsimDataFetch::new` reads it after the request has been awaited
  (`fetchedTime`). When the slot is fresh, only the staleness check reads it. Both
  readings are parameters of `GetAtis`.
- The request's outcome is a parameter too (`fetched`). The ghost field `fetchCount`
  counts how often the feed client was asked, so "no fetch happens while fresh" can be
  stated.
- The two regular expressions `INFO ([A-Z])` and `INFORMATION ([A-Z])` are literal
  patterns followed by one character in `A`..`Z`, searched leftmost-first.
- The `u32` subtraction at `main.rs:217` is modelled as a release build runs it: modulo
  2^32. `WrappingDeltaIsSuccessor` proves that this difference is 1 exactly when the text
  letter is the successor of the code's first character. A debug build panics instead; see
  "## Findings".
- With exactly one matching broadcast that has no text, `texts` is empty, not a
  one-element sequence: `filter_map` skips broadcasts without text (`ResolveSingle`).
- The code treats `atis_code` as a string, possibly empty or longer than one character.
  Only its first character takes part in the comparison. An empty code is returned
  verbatim, even when the text has a letter (`CodeVerbatim`).
- The `else` branch of `get_atis` that reports an empty slot after a refresh is kept in
  `GetAtis`. It cannot be reached: the slot is always filled at that point, as `GetAtis`'s
  postcondition shows.
- The rollover from `Z` to `A` is not treated as "one ahead", so code `Z` with text
  `INFO A` yields `Z` (`NoRolloverFromZToA`). This is kept as the code has it.

## Model

| member | source | states |
|---|---|---|
| `AtisText.Join` | src-tauri/src/main.rs:194 | the joined text starts with the first line; with `JoinLength` and `JoinLayout` below, it is fully determined |
| `AtisText.JoinLength` | src-tauri/src/main.rs:238 | joining no lines gives the empty text; otherwise the joined text ends exactly where the last line ends, after every earlier line and one space each |
| `AtisText.JoinLayout` | src-tauri/src/main.rs:194 | every line appears verbatim at its offset in the joined text, followed by exactly one space unless it is the last line |
| `AtisText.FirstMatch` | src-tauri/src/main.rs:234-236 | the result is the first position at or after `from` where the pattern is followed by an uppercase letter; none means there is no such position |
| `AtisText.Capture` | src-tauri/src/main.rs:239-245 | the captured character is uppercase; there is one iff the pattern matches somewhere; it is the character after the leftmost match |
| `AtisText.ParseCodeFromText` | src-tauri/src/main.rs:233-247 | over the lines joined with spaces: the letter after the leftmost `INFO ` + `A`..`Z`; only if there is none, the letter after the leftmost `INFORMATION ` + `A`..`Z`; none iff neither pattern matches; any letter is in `A`..`Z` |
| `AtisText.LineMatchIsJoinedMatch` | src-tauri/src/main.rs:238-239 | a pattern match inside one line is a match of the joined text, at that line's offset |
| `AtisText.MentionInLineYieldsLetter` | src-tauri/src/main.rs:238-247 | an `INFO X` or `INFORMATION X` mention inside any single line means a letter is found |
| `AtisText.MentionAcrossLinesIsFound` | src-tauri/src/main.rs:238-239 | a mention split across two lines (`"ATIS INFO"`, `"B 1200Z"`) is found, because the search runs over the joined text |
| `AtisText.InfoTakesPrecedence` | src-tauri/src/main.rs:239-246 | `INFO D` wins over an earlier `INFORMATION C` |
| `AtisResolver.WrappingSubU32` | src-tauri/src/main.rs:217 | release-build `u32` subtraction: the plain difference when it is non-negative, otherwise the difference plus 2^32 |
| `AtisResolver.CheckedSubU32` | src-tauri/src/main.rs:217 | debug-build `u32` subtraction: fails (panics) iff the subtrahend is larger, and otherwise gives the difference |
| `AtisResolver.WrappingDeltaIsSuccessor` | src-tauri/src/main.rs:217-220 | for characters, the wrapped difference is 1 iff the text letter's code point is the code letter's plus one; a negative difference never wraps to 1 |
| `AtisResolver.ParseAtisCode` | src-tauri/src/main.rs:211-231 | without a code, the result is `-` or one uppercase letter; with a code, it is the code verbatim, or the code's first character, or the uppercase letter one past it; with a non-empty code whose first character is `c` and a text letter `t`, it is `t` when `t` is `c + 1` and `c` otherwise |
| `AtisResolver.CodeVerbatim` | src-tauri/src/main.rs:221-225 | an empty code, no text, or a text without a letter gives the code verbatim |
| `AtisResolver.TextOnly` | src-tauri/src/main.rs:226-229 | without a code, the result is the text's letter, or `-` when it has none or there is no text |
| `AtisResolver.NoRolloverFromZToA` | src-tauri/src/main.rs:217-220 | code `Z` with text `INFO A` gives `Z`: there is no wrap-around |
| `AtisResolver.ParseAtisCodeDebug` | src-tauri/src/main.rs:211-231 | as a build with overflow checks runs it: it panics iff there are a code and a text letter and the letter precedes the code's first character; otherwise it gives the same letter as `ParseAtisCode` |
| `AtisResolver.DebugBuildPanicsOnRollover` | src-tauri/src/main.rs:215-217 | for code `Z` and text `INFO A`, the text letter is found and the checked subtraction `'A' - 'Z'` fails, so the debug-build `ParseAtisCodeDebug` panics |
| `AtisResolver.FindContaining` | src-tauri/src/main.rs:205-207 | none iff no callsign contains the pattern; otherwise the first broadcast whose callsign contains it |
| `AtisResolver.FilterCallsignAndParse` | src-tauri/src/main.rs:204-209 | `-` when no callsign contains the pattern; otherwise the letter of the first broadcast whose callsign contains it |
| `AtisResolver.FoundAtis` | src-tauri/src/main.rs:174-178 | a broadcast is selected iff it is in the feed and its callsign starts with the ICAO id (case-sensitive); never more than the feed holds |
| `AtisResolver.FoundAtisAppend` | src-tauri/src/main.rs:174-178 | selection preserves feed order: it distributes over concatenation |
| `AtisResolver.Texts` | src-tauri/src/main.rs:192-195 | at most one text per broadcast; each text is the joined lines of some broadcast that has text; when all have text, one per broadcast in order; when none has text, no texts |
| `AtisResolver.TextsAppend` | src-tauri/src/main.rs:192-195 | the texts preserve order: they distribute over concatenation |
| `AtisResolver.Letter` | src-tauri/src/main.rs:180-188 | no broadcast gives `-`; one gives its own letter; several give the letter of the first `_A_` broadcast, `/`, the letter of the first `_D_` broadcast, starting with `-/` when no `_A_` broadcast exists and ending with `/-` when no `_D_` broadcast exists |
| `AtisResolver.ResolveAtis` | src-tauri/src/main.rs:173-197 | at most one text per feed broadcast, each the joined lines of a broadcast of that airport; the letter is given by `ResolveNoMatch`, `ResolveSingle` and `ResolveSplit`, and the texts of every feed by `ResolveTextsSingle` and `ResolveTextsAppend` |
| `AtisResolver.FirstStream` | src-tauri/src/main.rs:183-187 | reference over the whole feed: the first broadcast for the ICAO id whose callsign contains the tag, none iff there is no such broadcast |
| `AtisResolver.FindStreamInFound` | src-tauri/src/main.rs:204-209 | searching the selected broadcasts for a tag finds exactly the feed's first broadcast for that airport with that tag |
| `AtisResolver.NothingFound` | src-tauri/src/main.rs:174-178 | when no callsign starts with the ICAO id, nothing is selected |
| `AtisResolver.OnlyMatchIsFound` | src-tauri/src/main.rs:174-178 | when exactly one callsign starts with the ICAO id, the selection is exactly that broadcast |
| `AtisResolver.ResolveNoMatch` | src-tauri/src/main.rs:180-181 | no broadcast for the airport: letter `-` and no texts |
| `AtisResolver.ResolveSingle` | src-tauri/src/main.rs:182 | exactly one broadcast for the airport: its own letter; its joined text if it has one, else no texts |
| `AtisResolver.ResolveSplit` | src-tauri/src/main.rs:183-187 | two or more broadcasts: the letter is the first `_A_` stream's letter, `/`, the first `_D_` stream's letter, using `-` for a missing stream |
| `AtisResolver.ResolveTextsAppend` | src-tauri/src/main.rs:192-195 | the texts of a feed are the texts of its two parts, in feed order |
| `AtisResolver.ResolveTextsSingle` | src-tauri/src/main.rs:192-195 | a single broadcast contributes its joined lines exactly when its callsign starts with the ICAO id and it has text; otherwise nothing |
| `DatafeedCache.Elapsed` | src-tauri/src/main.rs:257 | elapsed time is never negative: zero when the clock has not moved past the fetch, otherwise the exact difference |
| `DatafeedCache.IsStale` | src-tauri/src/main.rs:254-258 | an empty slot is stale; a filled one is stale iff the clock is strictly more than 30 s past its fetch time, whether the fetch succeeded or failed |
| `DatafeedCache.StaleBoundary` | src-tauri/src/main.rs:249-259 | an entry is stale iff the clock is strictly more than 30 s past its fetch: fresh at exactly 30 s, stale one nanosecond later |
| `DatafeedCache.StaleIsMonotone` | src-tauri/src/main.rs:249-259 | once stale, the slot stays stale as the clock advances |
| `DatafeedCache.Serve` | src-tauri/src/main.rs:170-198 | a cached error, and only a cached error, gives `"Could not retrieve datafeed"`; a cached snapshot gives its resolution for the airport |
| `DatafeedCache.AppState.constructor` | src-tauri/src/main.rs:49-56 | the slot starts empty and the feed has not been asked |
| `DatafeedCache.AppState.DatafeedIsStale` | src-tauri/src/main.rs:249-259 | true iff the slot is empty or its fetch is more than 30 s old |
| `DatafeedCache.AppState.GetAtis` | src-tauri/src/main.rs:160-202 | when stale, the slot becomes exactly the new fetch (completion time and outcome, success or error) and the feed is asked once; when fresh, the slot is unchanged and the feed is not asked; after the call, the slot is filled and the answer is served from it |
| `DatafeedCache.FailedRefreshIsCached` | src-tauri/src/main.rs:165-172 | after a failed refresh, a second request within 30 s also gets the error, without a second fetch |
| `DatafeedCache.RefreshAfterWindow` | src-tauri/src/main.rs:165-168 | a request after the 30 s window fetches again, and is answered from the new outcome |
| `AtisExamples.SingleMatchAgreeing` | src-tauri/src/main.rs:182 | one broadcast with code `B` and text `INFO B 1200Z` resolves to `B` with its text |
| `AtisExamples.OneAheadOverride` | src-tauri/src/main.rs:217-218 | code `B` with text `INFO C` gives `C` |
| `AtisExamples.GapOfTwoKeepsCode` | src-tauri/src/main.rs:217-219 | code `B` with text `INFO D` gives `B` |
| `AtisExamples.UnknownAirport` | src-tauri/src/main.rs:174-181 | an ICAO id matching no callsign gives `-` and no texts |
| `AtisExamples.ArrivalDepartureSplit` | src-tauri/src/main.rs:183-196 | `KXYZ_A_ATIS` with `A` and `KXYZ_D_ATIS` with `C` give `A/C`, and both texts in feed order |
| `AtisExamples.MissingDeparture` | src-tauri/src/main.rs:183-187 | an arrival stream and a plain broadcast, with no `_D_` stream, give `A/-` |

## Left out

- Locking and concurrency are not modelled: the `Mutex` around the slot, and concurrent
  stale requests that each fetch and overwrite the slot (last writer wins). Each `GetAtis`
  call here runs to completion before the next one starts.
- The real clock (`Instant::now`, `elapsed`) is left out. Clock readings are parameters.
- The network request is left out: `fetch_vatsim_data`, and `get_v3_data` of the external
  `vatsim_utils` client. Its outcome is a parameter. The datafeed is reduced to its ATIS
  list, and each ATIS record to `callsign`, `atis_code` and `text_atis`.
- The lazy one-shot client creation (`get_vatsim_client`, `get_awc_client`, `OnceCell`) is
  a foreign library call. A client that failed to initialise shows up only as the fetch
  outcome `Failure(ClientNotInitialized)`.
- The regex engine is not modelled. The two patterns are literal search plus an uppercase
  check.
- `fetch_metar`, `lookup_station` and `main` are left out. They wrap the unseen weather
  client and the app builder, and use floating point.
- Profiles, settings, window handling and update checking are file I/O, dialogs,
  window-manager and network calls. `state.rs` repeats the `AppState` shape without
  further logic.

## Findings

| source | as written | input that shows it | evidently intended | confidence | as-written member | corrected member |
|---|---|---|---|---|---|---|
| src-tauri/src/main.rs:217 | `(text_c as u32) - (c as u32)` is unchecked `u32` subtraction. Debug builds check arithmetic overflow, so this panics whenever the text letter comes before the code's first character. The panic happens while the cache lock is held, so the mutex is poisoned and every later `get_atis` panics at `lock().unwrap()`. | a broadcast with `atis_code` `"Z"` and `text_atis` `["INFO A"]` (rollover), or `"C"` with `["INFO B"]` (text lagging) | a difference other than +1 keeps the code, with no panic, as release builds behave | not executed | `AtisResolver.ParseAtisCodeDebug` (with `AtisResolver.CheckedSubU32` and `AtisResolver.DebugBuildPanicsOnRollover`) | `AtisResolver.ParseAtisCode` (which uses `AtisResolver.WrappingSubU32`; its contract states the one-ahead rule) |
