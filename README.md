# TCRBot result-to-report model

TCRBot is a Discord bot. It looks up recently finished iRacing TCR races and posts a report for each one. This project models the deterministic core of that pipeline in Dafny and proves properties about it:

- **Discovery list logic.** From the series search chunks, keep the ids of `"Race"` entries in chunk order. Merge the ids of both TCR series, remove duplicates and sort them strictly descending (`index.js`, `searchForRecentSubsessions` and `findTcrSeriesSubsessions`).
- **Result parser** (`utils/parseDetailedResult.js`). A loosely typed result document becomes a race summary:
  - fixed defaults for missing fields;
  - the first race session (`simsession_type` 6);
  - strength of field by null-coalescing precedence;
  - the sky glyph from the rounded average sky;
  - a podium sorted by finishing position, with tick values turned into seconds.
- **Report formatter** (`index.js`, `truncateNameToInitialLast` and `buildTcrRaceMessage`). The report has:
  - a title with its glyph cluster;
  - the split, series, start and track lines;
  - an info line;
  - a fenced fixed-width table with position, gap, driver and points columns, including flag-token detection on driver names.
- **Text utilities.** `padEndManual` (`utils/stringHelpers.js`) and `countryCodeToFlagEmoji` (`utils/flagEmoji.js`).

Strings are sequences of UTF-16 code units (`Text.Str`), because the source's `padEnd`, `slice`, `charAt` and its surrogate regular expression all work on code units. The JavaScript built-ins the core relies on are defined once, in module `Text`. There, `trim`, `split(/\s+/)`, ASCII `toUpperCase`, `padEnd`, `slice(0, n)`, `String(n)` and code-point iteration are given contracts, and `join` is described by lemmas (`JoinEnds`, `JoinSnoc`, `JoinOuter`, `SplitJoin`).

The source's imperative parts are imperative here:
- `padEndManual`'s `while` loop;
- the `+=` building of the title and the table in `buildTcrRaceMessage`;
- the nested `push` loops of `searchForRecentSubsessions`;
- the in-place descending sort in `findTcrSeriesSubsessions`.

Each method is proved equal to a specification function, or to the properties the source promises. The properties are then proved about those functions.

Files:
- `text.dfy` holds module `Text`.
- `parse_detailed_result.dfy` holds `ParseDetailedResult`.
- `string_helpers.dfy` holds `StringHelpers`.
- `flag_emoji.dfy` holds `FlagEmoji`.
- `race_message.dfy` holds `RaceMessage`.
- `discovery.dfy` holds `Discovery`.

## Model

| member | source | states |
|---|---|---|
| ParseDetailedResult.TimeToSeconds | iracing-discord-bot/utils/parseDetailedResult.js:3-7 | An absent, zero or negative raw time gives 0. A positive one gives the seconds whose product with 10000 is the tick count. The result is never negative. |
| ParseDetailedResult.Round | iracing-discord-bot/utils/parseDetailedResult.js:15 | `Math.round`: the result is the integer within half a unit of the input, rounding halves up. |
| ParseDetailedResult.SkyOf | iracing-discord-bot/utils/parseDetailedResult.js:17-24 | Sky 1, 2 and 3 are partly cloudy, mostly cloudy and overcast, each if and only if. Every other value, 0 included, is clear. |
| ParseDetailedResult.SkyGlyph | iracing-discord-bot/utils/parseDetailedResult.js:17-24 | Every sky glyph is at least two units long and ends in the variation selector. None starts with fire's first unit 0xD83D, and none contains the rain glyph's unit 0xDF27 or the trophy's unit 0xDFC6, so the title's glyph cluster can be decoded. |
| ParseDetailedResult.ParseSessionWeather | iracing-discord-bot/utils/parseDetailedResult.js:9-30 | The result is null exactly when the session or its `weather_result` is missing. Otherwise `avgSkies` is the rounded average sky, with a missing sky counting as 0, and the glyph is that sky's. |
| ParseDetailedResult.FindRaceSession | iracing-discord-bot/utils/parseDetailedResult.js:48 | The result is none exactly when no session has type 6. Otherwise it is a type-6 session before which no session has type 6, which makes it the first one. |
| ParseDetailedResult.Insert | iracing-discord-bot/utils/parseDetailedResult.js:76-78 | Inserting a driver into a list sorted by finish position keeps it sorted, and the result is a permutation of the list plus that driver. |
| ParseDetailedResult.SortByFinish | iracing-discord-bot/utils/parseDetailedResult.js:76-78 | The copy is sorted ascending by `finish_position` and is a permutation of the results. |
| ParseDetailedResult.ToPodiumEntry | iracing-discord-bot/utils/parseDetailedResult.js:81-98 | `position` is `finish_position + 1`, or 0 when that is 0 or absent. `marginRaw` is positive exactly when `interval > 0`, and then equals `interval / 10000`. `bestLap` comes from `iRacingTimeToSeconds`. Laps and points default to 0. The name is `display_name` when non-empty, otherwise `"???"`. |
| ParseDetailedResult.ToPodium | iracing-discord-bot/utils/parseDetailedResult.js:81-99 | The podium has one entry per driver, and entry i is driver i's mapping. |
| ParseDetailedResult.RaceSessionOf | iracing-discord-bot/utils/parseDetailedResult.js:48 | There is a race session exactly when `session_results` is present and holds a session of type 6. The one found is the first session of type 6 in the list, as `find` returns it. |
| ParseDetailedResult.StrengthOfField | iracing-discord-bot/utils/parseDetailedResult.js:49 | The race session's `strength_of_field` when present, a present 0 included. Otherwise `event_strength_of_field`, otherwise 0. |
| ParseDetailedResult.WeatherCondition | iracing-discord-bot/utils/parseDetailedResult.js:52-58 | Sun when the race is wet or the race session has no weather data. Otherwise the session's sky. |
| ParseDetailedResult.ParseDetailed | iracing-discord-bot/utils/parseDetailedResult.js:32-112 | The result is null exactly when the document is absent. It states each field of the summary: `startTime` null when missing or empty; `trackName` "Unknown Track" when missing or empty; `raceWeek` is `race_week_num + 1` or 1; laps and grid default to 0; `isWet` holds exactly when `track_water > 0`. It also ties `sof`, the sky and the podium to their functions. |
| ParseDetailedResult.NoRaceSessionNoPodium | iracing-discord-bot/utils/parseDetailedResult.js:61-74 | With no race session, or one without `results`, a summary is still returned and its podium is empty. |
| ParseDetailedResult.PodiumIsSortedResults | iracing-discord-bot/utils/parseDetailedResult.js:76-99 | `PodiumOf`: the podium is the mapping of a sorted permutation of the race session's results, and has the same length as those results. |
| ParseDetailedResult.PodiumPositions | iracing-discord-bot/utils/parseDetailedResult.js:76-99 | When all finish positions are present and non-negative, every podium position is at least 1 and positions never decrease down the podium. They are the results' one-based positions, as a multiset. |
| ParseDetailedResult.SortedPodiumPositions | iracing-discord-bot/utils/parseDetailedResult.js:76-99 | The same facts as `PodiumPositions`, stated for any list of results. |
| ParseDetailedResult.OneBasedPositionsPermute | iracing-discord-bot/utils/parseDetailedResult.js:92 | Permuting drivers permutes their one-based positions. |
| ParseDetailedResult.MarginBelowOneSecond | iracing-discord-bot/utils/parseDetailedResult.js:83-86 | `marginRaw < 1` holds exactly when the interval is absent, not positive, or below 10000 ticks. |
| ParseDetailedResult.MarginExamples | iracing-discord-bot/utils/parseDetailedResult.js:83-86 | An interval of 15000 ticks is a margin of 1.5 s. An absent or zero interval is a margin of 0. |
| StringHelpers.PadEndManual | iracing-discord-bot/utils/stringHelpers.js:10-16 | The loop returns `PadEnd(value, len)`. The length is the larger of `value.length` and `len`, the result begins with `value`, every appended unit is a space, and a value of length at least `len` comes back unchanged. |
| StringHelpers.PadEndIdempotent | iracing-discord-bot/utils/stringHelpers.js:10-16 | Padding twice to the same length is padding once. |
| FlagEmoji.RegionalIndicator | iracing-discord-bot/utils/flagEmoji.js:10 | `0x1F1E6 + (c - 65)` is a valid non-surrogate code point for every code unit. Letters A–Z land in 0x1F1E6..0x1F1FF in alphabet order. |
| FlagEmoji.FlagCodePoints | iracing-discord-bot/utils/flagEmoji.js:9-11 | One scalar value per code point of the input. |
| FlagEmoji.CountryCodeToFlagEmoji | iracing-discord-bot/utils/flagEmoji.js:2-13 | An empty or absent code gives "". Otherwise the result decodes to the regional indicators of the code points of the first two code units (`slice(0, 2)`) of the upper-cased code. |
| FlagEmoji.FlagOfPlainCode | iracing-discord-bot/utils/flagEmoji.js:6-12 | For a code without surrogates, the flag has `min(2, length)` code points, and each is `0x1F1E6` plus the offset of the upper-cased unit from 'A'. |
| FlagEmoji.FlagOfLetters | iracing-discord-bot/utils/flagEmoji.js:6-12 | Two letters give two regional indicators in input order, four code units in all. |
| FlagEmoji.FlagIgnoresCase | iracing-discord-bot/utils/flagEmoji.js:6 | Codes that agree after upper-casing give the same flag, so a lower-case code and its upper-case form match. |
| Text.CodePointsOfEncoding | iracing-discord-bot/utils/flagEmoji.js:9-12 | Decoding the UTF-16 encoding of scalar values (`String.fromCodePoint` then `join`) gives them back. |
| Text.EncodeCodePoint | iracing-discord-bot/utils/flagEmoji.js:11 | `String.fromCodePoint`: a BMP value is one unit. Any other value is a high and low surrogate pair that encodes it. |
| Text.CodePoints | iracing-discord-bot/utils/flagEmoji.js:9-10 | Spreading a string into characters gives valid code points, never more of them than the string has units. |
| Text.LeadUnits | iracing-discord-bot/utils/flagEmoji.js:9-10 | `char.charCodeAt(0)` of each spread character: one unit per code point. |
| Text.ToUpper | iracing-discord-bot/utils/flagEmoji.js:6 | `toUpperCase` keeps the length and maps a–z to A–Z unit by unit, leaving every other unit alone. |
| Text.Prefix | iracing-discord-bot/index.js:212 | `slice(0, n)` is the first `min(n, length)` units. |
| Text.PadEnd | iracing-discord-bot/index.js:210-212 | `padEnd(n)`: the length is `max(length, n)`, the input is kept as a prefix and followed by spaces, and it is unchanged when already long enough. |
| Text.Trim | iracing-discord-bot/index.js:103 | The result is the slice of the input between a run of leading whitespace and a run of trailing whitespace, and a non-empty result neither starts nor ends with whitespace; so exactly the leading and trailing whitespace is removed. A string that already has neither comes back unchanged. |
| Text.SplitWs | iracing-discord-bot/index.js:103 | `split(/\s+/)` gives at least one piece, and no piece contains whitespace. The first piece runs up to the first whitespace unit, and there is exactly one piece when the string has no whitespace. |
| Text.SplitWsLast | iracing-discord-bot/index.js:106 | The last piece of the split is the whitespace-free tail of the string. |
| Text.LastPiece | iracing-discord-bot/index.js:106 | The last piece is a whitespace-free suffix preceded by whitespace or by nothing. It is non-empty when the string does not end in whitespace. |
| Text.JoinEnds | iracing-discord-bot/index.js:204 | Words joined by single spaces start with the first word and end with the last word's last unit. |
| Text.JoinSnoc | iracing-discord-bot/index.js:204 | Joining two or more parts is joining all but the last, then the separator, then the last part. |
| Text.JoinOuter | iracing-discord-bot/index.js:220-228 | Joining three or more parts is the first part, the separator, the join of the middle parts, the separator and the last part. |
| Text.SplitJoin | iracing-discord-bot/index.js:200-205 | Splitting words joined by single spaces gives the words back. |
| Text.SplitWsWords | iracing-discord-bot/index.js:103 | A trimmed non-empty string splits into non-empty words. |
| Text.NatToStrRoundTrip | iracing-discord-bot/index.js:213 | `String(n)` gives decimal digits without a leading zero, and reading them back gives `n`. |
| Text.IntToStr | iracing-discord-bot/index.js:213 | `String(n)` of a negative number is a minus sign followed by the digits of its magnitude. |
| RaceMessage.TruncateNameToInitialLast | iracing-discord-bot/index.js:101-108 | "" gives "". A name that has a single token after trimming comes back unchanged. Otherwise the result is the upper-cased first unit, ". " and the last token. |
| RaceMessage.FirstAndLastToken | iracing-discord-bot/index.js:103-106 | For a trimmed name with whitespace, the split has at least two tokens. The first token's upper-cased first unit and the last token are the ones the result uses. |
| RaceMessage.TruncateWords | iracing-discord-bot/index.js:101-108 | Two or more words joined by spaces give the first word's upper-cased initial, ". " and the last word. |
| RaceMessage.TruncateWord | iracing-discord-bot/index.js:104 | A single word comes back unchanged. |
| RaceMessage.TruncateIdempotent | iracing-discord-bot/index.js:101-108 | Abbreviating an abbreviated name changes nothing more. |
| RaceMessage.AbbreviationOfAbbreviation | iracing-discord-bot/index.js:101-108 | An already abbreviated `X. Last` only has its initial upper-cased. |
| RaceMessage.DriverDisplayName | iracing-discord-bot/index.js:199-208 | A name without a unit in U+D83C..U+DFFF (the source's flag test) is shown as `truncateNameToInitialLast(name)`. |
| RaceMessage.FlaggedName | iracing-discord-bot/index.js:199-205 | When the first token contains a unit in U+D83C..U+DFFF and more words follow, the name is shown as that token, a space, and the abbreviation of the remaining words joined by spaces. |
| RaceMessage.FlaggedIdempotent | iracing-discord-bot/index.js:198-208 | Showing a shown flagged name (a flag token followed by words) again changes nothing: the flag stays in front and the abbreviation is kept. |
| RaceMessage.FlagTokenFromName | iracing-discord-bot/index.js:201 | A unit in U+D83C..U+DFFF in the first token is one in the name. |
| RaceMessage.DriverColumn | iracing-discord-bot/index.js:212 | The driver column is exactly 19 units. A long name is cut to its first 19 units, and a short one is padded with spaces. |
| RaceMessage.SecondPlaceGap | iracing-discord-bot/index.js:139-147 | The second-place gap is below 1 exactly when there are at least two entries on the leader's lap and the second margin is below 1. |
| RaceMessage.Emojis | iracing-discord-bot/index.js:149-162 | The glyph cluster is fire (when the second-place gap is below 1 s), then the weather glyph (rain when wet, otherwise the sky glyph), then the trophy (when SoF exceeds 4000), in that order. It is never empty, starts with fire exactly when the finish was close, ends with the trophy exactly when SoF exceeds 4000, and contains the rain glyph's unit exactly when the race is wet. |
| RaceMessage.TitleLine | iracing-discord-bot/index.js:136-165 | The title is `# Week {raceWeek} Race Result`, then one space and the glyph cluster. The `if (emojis)` branch is always taken. |
| RaceMessage.ToFixed1 | iracing-discord-bot/index.js:194 | The rendering is digits, a dot and one digit, with no leading zero. Its value in tenths is within half a tenth of the input. |
| RaceMessage.GapDisplay | iracing-discord-bot/index.js:185-196 | The gap is empty exactly for index 0. A driver laps down gets exactly `-` then the decimal lap count without leading zeros then `L`, whose digits read back as the lap count. Otherwise the gap is the margin, clamped at 0, rendered to one decimal. |
| RaceMessage.Rows | iracing-discord-bot/index.js:184-216 | The table has one row per podium entry. |
| RaceMessage.RowLayout | iracing-discord-bot/index.js:210-215 | The layout of `TableRow`, one `forEach` step's row. With a one- or two-digit position and a gap of at most six units, a row is: the padded `P{position}` in units 0–2; the padded gap in units 4–9; the 19-unit driver column in units 11–29; the points from unit 31; a final newline; and single spaces between the fields. |
| RaceMessage.TableEnds | iracing-discord-bot/index.js:179-181 | `Table` opens with the fence, the header and the dash line, and closes with the fence. |
| RaceMessage.SplitLine | iracing-discord-bot/index.js:168 | The split line is `Split #` followed by `String(splitNumber)`. |
| RaceMessage.StartLine | iracing-discord-bot/index.js:170 | The start line is `formatFriendlyDateTime(startTime)` when the start time is present and non-empty, otherwise `???`. |
| RaceMessage.InfoLine | iracing-discord-bot/index.js:175-176 | The info line is `SoF: {sof}`, `Grid: {gridSize}`, `Laps: {lapCount}` and `Wet: Yes` or `Wet: No`, in that order, separated by a vertical bar with a space on each side, each number written as `String(n)`. It starts with `SoF: ` and the SoF's digits, and ends with `Yes` exactly when the race is wet, otherwise with `No`. |
| RaceMessage.MessageParts | iracing-discord-bot/index.js:220-228 | `Message`, the report, is the title line, then the split, series, start, track and info lines joined by newlines, then the fenced table. |
| RaceMessage.BuildTitle | iracing-discord-bot/index.js:136-165 | The imperative title building returns `TitleLine`. |
| RaceMessage.BuildGap | iracing-discord-bot/index.js:185-196 | The gap branches return `GapDisplay`. |
| RaceMessage.BuildDriverName | iracing-discord-bot/index.js:198-208 | The `shift`/`join` flag handling returns `DriverDisplayName`. |
| RaceMessage.BuildRow | iracing-discord-bot/index.js:185-215 | One `forEach` step builds `TableRow`. |
| RaceMessage.AppendRow | iracing-discord-bot/index.js:215 | Appending row `idx` to the rows so far gives the rows up to `idx + 1`. |
| RaceMessage.BuildTable | iracing-discord-bot/index.js:179-217 | The `+=` loop over the podium builds `Table`: the head, the rows in podium order, and the fence. |
| RaceMessage.BuildTcrRaceMessage | iracing-discord-bot/index.js:122-229 | `buildTcrRaceMessage` returns `Message`, the seven parts joined by newlines. |
| Discovery.RaceIds | iracing-discord-bot/index.js:64-68 | Race ids never outnumber the entries. |
| Discovery.RaceIdsMember | iracing-discord-bot/index.js:64-68 | An id is collected exactly when some entry with that id is a `"Race"`. |
| Discovery.CollectRaceIds | iracing-discord-bot/index.js:64-68 | The inner loop appends the race ids of one chunk, in chunk order. |
| Discovery.SearchForRecentSubsessions | iracing-discord-bot/index.js:34-70 | The result is the concatenation of the race ids of every chunk in order. No chunk info or no chunk files gives `[]`. Missing and non-array chunks are skipped. |
| Discovery.FilesIdsMember | iracing-discord-bot/index.js:47-69 | An id is in the result exactly when it is in the ids of some chunk file. |
| Discovery.NoChunksNoIds | iracing-discord-bot/index.js:34-45 | `SearchResult`, the ids a search answer yields: missing chunk info, or an empty list of chunk files, gives no ids. |
| Discovery.CombinedMember | iracing-discord-bot/index.js:84-88 | An id is in `Combined`, the concatenated results of the series searches, exactly when one of the series' searches found it. |
| Discovery.Dedup | iracing-discord-bot/index.js:90 | `new Set` yields distinct elements, keeps exactly the same elements, and is never longer than its input. |
| Discovery.FindTcrSeriesSubsessions | iracing-discord-bot/index.js:78-95 | The result is strictly descending and holds exactly the ids collected from both TCR series. |
| Discovery.SortDescending | iracing-discord-bot/index.js:92 | The in-place sort leaves the array descending and a permutation of its old contents. |
| Discovery.DescendingDistinct | iracing-discord-bot/index.js:90-92 | A descending permutation of distinct ids is strictly descending and has the same elements. |
| Discovery.StrictlyDescendingUnique | iracing-discord-bot/index.js:90-92 | Two strictly descending lists with the same elements are equal, so the result does not depend on how duplicates were removed or how the sort proceeds. |

## Left out

- **HTTP, authentication, Discord, the scheduler and logging are not part of this model.** This covers `iracingClient.js`, `getDetailedResult.js`, `tcrSearch.js`, `iracingAuth.js` (SHA-256 and Base64), `checkSeries.js`, `testLogin.js`, and `checkTcrRaces` with the client setup in `index.js`. This also means the split numbering in `checkTcrRaces` is not modelled.
- **The discovery functions receive their remote data as parameters.** The series search becomes a function from series id to optional chunk info. A chunk download becomes a function from URL to chunk data.
- **The time window of the search is left out.** The source uses the last 60 × 60 × 1100 ms, not an hour, and ISO date rendering is also left out.
- **Discovery.SearchForRecentSubsessions:** a missing `base_download_url` is not modelled (JavaScript would prepend "undefined" to each file name), and every entry's `subsession_id` is an integer. A `null` entry inside a chunk array, which would make the source throw, is not modelled.
- **Discovery.FindTcrSeriesSubsessions:** the JavaScript sort is modelled as an in-place insertion sort. Because the ids are distinct, any correct sort gives the same result (`StrictlyDescendingUnique`).
- **`formatFriendlyDateTime` (`formatDate.js`, date-fns and the time zone) is an uninterpreted function parameter.**
- **Floating point is replaced by exact rationals.**
  - Tick values become exact `real` seconds (`ticks / 10000`), not IEEE doubles.
  - `Math.round` is `floor(x + 0.5)`.
- **RaceMessage.ToFixed1:** `toFixed(1)` is round-half-up on the exact rational value: the contract pins the tenths to the unique integer within half a tenth of the value, a tie going up. The IEEE double representation of the margin, and the tie cases where the double's rounding differs, are not modelled.
- **Text.ToUpper:** `toUpperCase` is modelled for ASCII letters only. Other letters are left unchanged.
- **`\s` covers a fixed set of whitespace code units.**
  - The set is the ASCII whitespace units, U+00A0, U+1680, U+2000–U+200A, U+2028, U+2029, U+202F, U+205F, U+3000 and U+FEFF.
  - Surrogate pairs are never whitespace, which matches JavaScript.
- **A missing and a `null` finish position are merged.** Both are one case (`None`): the sort treats it as 0, the way `null` behaves, and its podium position is 0, the way `undefined + 1 || 0` behaves. The source's position 1 for an explicit `null` is not modelled, and neither is the implementation-defined order a `NaN` comparison gives.
- **The JavaScript sort's tie order is modelled as a stable insertion sort.** Drivers with equal finish positions keep their input order. The properties proved (sorted, a permutation) hold for any correct sort.
- **A `null` element is not modelled.** A `null` element of `session_results` or of a race session's `results` makes the source throw (`utils/parseDetailedResult.js:48`, `:77` and `:84`). The model's sessions and drivers are always records, so `ParseDetailed` never fails there.
- **StringHelpers.PadEndManual:** only string values are modelled. The source's `String(value)` conversion of a number or other value is not.
- **Non-numeric field values are not modelled.** A `race_week_num` that is a number but not an integer is out of scope, and so are string or boolean values in numeric fields. Each field is present with its type or absent.
- **The sky glyphs are a `Sky` enumeration.** The summary carries the enumeration, and `SkyGlyph` gives the glyph's code units when the title is rendered.
- **The source comment above `buildTcrRaceMessage` calls the driver column "20 wide".** The code pads and cuts to 19 units, and the model follows the code.
- **`buildTcrRaceMessage`'s row step is split into the methods `BuildGap`, `BuildDriverName` and `BuildRow`.** The split keeps each proof small. The statements are the source's, in its order.
- **RaceMessage.RowLayout:** the fixed column offsets are stated for one- and two-digit positions and gaps of at most six units. Longer values push the later columns right, exactly as `padEnd` does.
- **RaceMessage.DriverDisplayName:** its contract covers names without a unit in U+D83C..U+DFFF. The flagged case is stated by `FlaggedName` for names that are a flag token followed by words.
- **RaceMessage.Rows:** its contract states only the number of rows. Row `k` is `TableRow` of entry `k` by definition, and `BuildTable` proves the loop builds exactly that table.
