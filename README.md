# cbc-sl in Dafny

A model of the string and selection logic of `cbc-sl`, a command-line tool
that turns a CBC media id or watch-page URL into a playable stream URL and
lists live, upcoming and replayed clips of CBC's player pages.

What is modelled:

- **Identifier validation and parsing** (`Cli`): the digit-string test, the
  watch-page URL pattern (`https://www.cbc.ca/player/play/` followed by one or
  more ASCII digits, unanchored, leftmost match, digits taken greedily), the
  command-line validator, and the parser of the media id as a `u64`. The
  parser is total: its `unwrap()` on a missing pattern match is an explicit
  `Panicked` outcome. That is how the model proves that input the validator
  accepts never panics, and that input it rejects always would.
- **Substring helpers** (`Cli`): they cut the page's state JSON from the first
  `{` through the last `}`.
- **Proxy URL**: the proxy specification with `socks5h://` in front.
- **Stream resolution** (`Cli.Resolve`): the order request for the media id,
  the choice of the first `PlatformLoader` descriptor of the first order item
  (two distinct errors), and the `src` of the SMIL document's first video.
  The HTTP requests and the document parsing are function parameters.
- **Listing lines**, both generations. `Item::to_human` is the old player-page
  listing; `Node::to_human` is the content-API listing. A shared `Timeline`
  module holds the local-day test that picks `%H:%M` or `%b %d %H:%M`, the
  three states and their notes. The clock and the time zone are parameters:
  `Timeline.Zone` holds the UTC offset in force at each instant and an
  abstract `strftime`.
- **Content-API nodes** (`Api`): the id shown for a node (the last `/`-piece of
  its URL), its `published_at` read as `i64` milliseconds, the inclusive
  airing window, and `Video::get_stream_urls`. That function is a loop method
  proved against `LastKeyOfType`.
- Rust's `str::parse` for `u64`/`i64` and integer `Display` (`Numbers`).
  Parsing keeps Rust's error kinds and the order in which they are detected.

Behaviour a reader might not expect:

- The URL pattern is not anchored. Any text that contains a watch-page URL is accepted.
- A numeric id is parsed to a `u64`; it is not passed through as text (`007` becomes 7).
- `proxy_url` does not rewrite an existing scheme. It always prefixes
  `socks5h://` (`Cli.ProxyUrlKeepsGivenScheme`).
- `proper_id` cuts only at the last `/`, never at a `-`. A slug such as
  `event-name-30045` is shown whole (`Api.ProperIdKeepsSlug`).
- A live programme whose airing window has already ended is listed as
  UPCOMING (`Api.FinishedLiveIsUpcoming`).
- No HLS variant selection exists in the code, so none is modelled.

## Model

| member | source | states |
|---|---|---|
| Text.AllDigits | src/main.rs:178 | true exactly when every character is an ASCII digit |
| Text.FindFirst | src/main.rs:193 | `find`: the index of an occurrence with none before it; none when absent |
| Text.FindLast | src/main.rs:184 | `rfind`: the start of an occurrence with none after it; none when absent |
| Numbers.Accumulate | src/main.rs:169 | the digit loop succeeds exactly when all characters are digits and the decimal value stays within the limit, and then returns that value; a non-digit is reported only when there is one |
| `Numbers.ParseU64` | src/main.rs:169 | `u64` parsing: empty input is `Empty`; a lone sign is `InvalidDigit`; digits (after an optional `+`) give their value, or `PosOverflow` beyond 2^64-1; anything else is `InvalidDigit` or `PosOverflow` |
| `Numbers.ParseI64` | src/api.rs:91 | `i64` parsing: the same cases with an optional `-`, `NegOverflow` below -2^63, `PosOverflow` above 2^63-1, results always in range |
| Numbers.NatString | src/main.rs:70 | integer `Display`: a non-empty digit string without leading zero whose decimal value is the number |
| Numbers.NatStringRoundTrip | src/main.rs:70 | every `u64` printed in decimal parses back to itself |
| Numbers.IntString | src/main.rs:163 | `Display` of an `i64`: a leading `-` exactly for negative numbers, then the non-empty decimal digits of the magnitude |
| Numbers.IntStringRoundTrip | src/main.rs:163 | every `i64` printed in decimal parses back to itself |
| Numbers.TruncDiv | src/main.rs:152 | signed division rounds toward zero (also for negative air dates) |
| Cli.IsNumeric | src/main.rs:177-179 | numeric exactly when non-empty and all ASCII digits |
| Cli.SubstringFrom | src/main.rs:189-197 | unchanged when either string is empty or the pattern is absent; otherwise a suffix of `s` that starts with the pattern, with no earlier occurrence in the part cut off |
| Cli.SubstringToLast | src/main.rs:180-188 | unchanged in the same three cases; otherwise the prefix of `s` ending one character into the last occurrence, with no occurrence starting later |
| Cli.SubstringThroughLast | src/main.rs:180-188 | corrected helper: the prefix of `s` ending with the last whole occurrence of the pattern, with no later occurrence |
| Cli.SubstringToLastOneChar | src/main.rs:180-188 | for a one-character pattern the as-written and corrected helpers agree |
| Cli.SubstringToLastCutsLongPattern | src/main.rs:186 | with the pattern `ab`, `xaby` is cut to `xa` as written and to `xab` by the corrected helper |
| Cli.OccursAtOneChar | src/main.rs:124-125 | a one-character pattern occurs exactly where that character stands |
| Cli.StateScript | src/main.rs:118-126 | the state JSON, cut with the helpers as written, is a contiguous piece of the script text that starts with `{` whenever the text has one |
| Cli.FromFirstBrace | src/main.rs:124 | cutting from the first `{` keeps the text from that brace on |
| Cli.ThroughLastBrace | src/main.rs:125 | the corrected cut through the last `}` keeps the text up to and including that brace |
| Cli.StateScriptSlice | src/main.rs:118-126 | when a `}` follows the first `{`, the extracted state JSON is exactly the text from the first `{` through the last `}` |
| Cli.ProxyUrl | src/main.rs:200-205 | the URL starts with `socks5h://` and the rest is the specification |
| Cli.ProxySpecRoundTrip | src/main.rs:200-205 | the specification is recovered from the URL; distinct specifications give distinct URLs |
| Cli.ProxyUrlKeepsGivenScheme | src/main.rs:202-204 | an existing `socks5://` scheme is not rewritten but prefixed |
| Cli.MatchFrom | src/main.rs:20-21 | the leftmost index at which the URL pattern matches, or none when it matches nowhere |
| Cli.DigitRun | src/main.rs:21 | the length of the maximal run of ASCII digits at a position |
| Cli.IdCapture | src/main.rs:171 | a capture exists exactly when the pattern matches somewhere, and it is a non-empty digit string |
| Cli.IdCaptureLeftmostGreedy | src/main.rs:20-21 | the capture is the whole digit run after the prefix at the leftmost match |
| Cli.ProbablyCbc | src/main.rs:207-214 | accepts exactly numeric strings and strings with a pattern match; otherwise fails with `invalid url` |
| Cli.ParseCbcId | src/main.rs:167-173 | numeric input gives its decimal value, or `PosOverflow` beyond `u64`; it panics exactly on non-numeric input without a match; the only parse error possible is `PosOverflow` |
| Cli.ValidatedIdNeverPanics | src/main.rs:171 | the validator accepts an input exactly when parsing it does not reach the panicking `unwrap()` |
| Cli.ParseCbcIdOfUrl | src/main.rs:171 | for a URL, the id is the value of the whole digit run after the leftmost match, or `PosOverflow` |
| Cli.FindPlatformLoader | src/main.rs:76-78 | the index of the first descriptor whose loader is `PlatformLoader`, or none when no loader is |
| Cli.SelectDescriptor | src/main.rs:72-79 | `missing item` exactly when there are no items; `couldn't find PlatformLoader` exactly when no descriptor of the first item has that loader; otherwise the first such descriptor |
| Cli.SelectDescriptorFirstItemOnly | src/main.rs:72-75 | items after the first never affect the choice |
| Cli.OrderUrl | src/main.rs:70 | the order request URL is the fixed prefix, the decimal digits of the id without leading zero, then `&limit=10&sort=dateAired` |
| Cli.OrderUrlRoundTrip | src/main.rs:70 | the media id parses back out of the order request URL |
| Cli.Resolve | src/main.rs:69-85 | fails with `invalid url` exactly when the validator rejects the input; a printed URL is the SMIL `src` for the descriptor chosen from the order fetched for the parsed id |
| Cli.ResolvePrintsSmilSource | src/main.rs:69-85 | end to end: a numeric id whose order has a platform descriptor whose SMIL video has a source prints that source |
| Cli.ResolveNamesMissingLoader | src/main.rs:72-79 | an order without a platform descriptor fails with the error naming `PlatformLoader` |
| Cli.ItemToHuman | src/main.rs:151-164 | the line is the decimal id, ` - `, the note of the state with the local air time of `air_date / 1000` seconds (rounded toward zero), then the title. So it opens with the id and ` - (` and ends with the title |
| Cli.NoMatchAmongDigits | src/main.rs:20-21 | text made only of signs and digits never contains a watch-page URL |
| Cli.ListedIdResolves | src/main.rs:163 | the decimal id that opens a listing line is accepted by the validator exactly when it is not negative, and then resolves to the same media id |
| Timeline.TimeFormat | src/main.rs:156-157 | `%H:%M` exactly when the instant and now share a local calendar date, `%b %d %H:%M` otherwise |
| Timeline.AirTimeText | src/main.rs:156-157 | the air instant is formatted with `%H:%M` when it shares the local date of now, with `%b %d %H:%M` otherwise |
| Timeline.Note | src/main.rs:158-162 | the note is parenthesised, ends with `) ` right after the time, and opens with the STARTED or UPCOMING label for those states |
| Timeline.ParseNoteRoundTrip | src/main.rs:158-162 | a note can be read back into its state and time when a replay's time text does not look like a label |
| Timeline.MidnightStraddle | src/main.rs:152-157 | at 00:10 local time, a programme aired at 23:50 the evening before shares the UTC date but not the local date, so it gets the long format |
| Api.ProperId | src/api.rs:57-59 | the shown id has no `/`, ends the URL, and is preceded by a `/` when it is not the whole URL |
| Api.ProperIdOfPath | src/api.rs:57-59 | the shown id is exactly the last path segment |
| Api.ProperIdWithoutSlash | src/api.rs:58 | a URL without `/` is shown whole |
| Api.ProperIdKeepsSlug | src/api.rs:58 | under any directory, `event-name-30045` is shown whole, not cut at a `-` |
| Api.Timestamp | src/api.rs:90-92 | `published_at` parses as `i64` milliseconds; empty or non-integer text is an error, not a panic |
| Api.TimestampOfMillis | src/api.rs:90-92 | a decimal count of milliseconds is read back exactly |
| Api.IsLive | src/api.rs:98-105 | fails exactly when the timestamp does; otherwise true exactly when start <= now <= start + duration |
| Api.AiringWindowInclusive | src/api.rs:104 | both window ends are live; the nanosecond before the start and after the end are not |
| Api.NodeState | src/api.rs:68-85 | replay exactly for `Video` nodes; STARTED exactly for `Live` nodes inside their window |
| Api.ListingPrefix | src/api.rs:86 | the watch-page base exactly with full URLs, empty otherwise |
| Api.NodeTimeText | src/api.rs:62-66 | the node's milliseconds and the nanosecond clock are taken to seconds, and the time is formatted with `%H:%M` when they share a local date, with `%b %d %H:%M` otherwise |
| Api.ToHuman | src/api.rs:61-88 | fails exactly when the timestamp does; otherwise prefix, shown id, ` - `, the state's note with the local time of the node, then the title |
| Api.VideoIsAlwaysReplay | src/api.rs:83-85 | a `Video` node gets the replay note whatever the clock says |
| Api.FinishedLiveIsUpcoming | src/api.rs:70-82 | a `Live` node whose window has ended is labelled UPCOMING |
| Api.ListingLineOpensWithLink | src/api.rs:86-87 | with full URLs the line opens with the watch-page base; in both modes the prefix, the id and ` - ` are followed by the note's `(` |
| Api.LastIndexOfType | src/api.rs:210-217 | the index of the last asset of the given type, or none exactly when there is no such asset |
| Api.LastKeyOfType | src/api.rs:214-216 | the key kept is that of the last asset of the given type, and there is none exactly when no asset has that type |
| Api.GetStreamUrls | src/api.rs:207-220 | `dai` is always none; `medianet` is the key of the last `medianet` asset |
| Api.OfType | src/api.rs:210-217 | the assets of one type: every kept asset has that type and comes from the list, and every asset of that type is kept; a one-asset list is kept or dropped whole |
| Api.OfTypeConcat | src/api.rs:210-217 | filtering distributes over concatenation, so the kept assets keep their order |
| Api.OtherAssetsIgnored | src/api.rs:211-216 | dropping every asset of another type, `platform-dai` among them, leaves the key unchanged |

## Left out

- HTTP via `reqwest` (client building, proxy installation, requests, status checks): network I/O. `Cli.Resolve` takes the decoded order response and the parsed SMIL video as function parameters.
- HTML and SMIL parsing with `scraper` (`seq > video`, `script#initialStateDom`): a foreign library. Its results are inputs: a `Cli.SmilVideo`, and the script text given to `Cli.StateScript`.
- JSON decoding with `serde`: a foreign library. Only the decoded records are modelled, with the fields the code reads; `Flag`'s deserialisation, `GqlResponse`, `InitialState`, `Stream` and `Param` are not.
- Running `streamlink` and handling its exit status (the `--run` branch): process I/O. `Cli.Resolve` returns the URL the tool prints or hands over.
- The `clap` argument definitions: only the validator of the URL argument is modelled.
- The printing loops of `list` and the unspecified iteration order of `clips_by_category`: console I/O. Only the extraction of the state JSON is modelled.
- Local time zones and `strftime`: `Timeline.Zone` supplies the offset and the formatter.
- Cli.ItemToHuman: does not model the panic of `NaiveDateTime::from_timestamp` for an air date outside chrono's range.
- Api.Timestamp: does not model the range check of `Timestamp::from_millisecond`, which rejects instants outside jiff's supported years.
- Api.IsLive: takes the duration as whole seconds (the `f64` and its rounding are floating point). It does not model the `Span` bounds or the overflow error of `checked_add`.
- Api.ToHuman: reads a single `now`, where the source reads the clock separately for the date and inside `is_live`.
- Cli.SubstringToLast: works on character indices. The source slices by bytes and would panic when the first character of the pattern is not ASCII. The call in the source passes `}`.
- Colour output (`colored`, `owo_colors`): presentation only. The labels are modelled without escape codes.
- `src/wincolors.rs`: Windows console FFI.

## Findings

| source | as written | input that shows it | evidently intended | confidence | as-written member | corrected member |
|---|---|---|---|---|---|---|
| src/main.rs:180-188 | the prefix ends one character past the start of the last match, so a longer pattern is cut after its first character | `"xaby".substring_to_last("ab")` gives `"xa"` | the prefix through the whole last match, `"xab"` | low: the only call passes `}`, where both agree; not executed | Cli.SubstringToLastCutsLongPattern | Cli.SubstringThroughLast |
