# GitHub activity CLI: rendering and response classification

A model of the logic in `index.js` of a small command-line tool. The tool
fetches a GitHub user's public events (`GET /users/<name>/events`) and prints
one line per event. The model covers three pieces:

- **Rendering a feed** (`displayActivity`, `capitalize`). Each event is
  dispatched on its `type` tag to one line template:
  - `PushEvent` prints `Pushed N commit(s) to R`.
  - `IssuesEvent` prints `<Action> an issue in R`.
  - `WatchEvent` prints `Starred R`.
  - `ForkEvent` prints `Forked R`.
  - Any other tag prints nothing.
  - An empty feed prints `No recent public activity found.`

  The feed is well formed: an `Other` event never carries one of the four
  tags the switch matches, as no event the source receives could.
  `Activity.DisplayActivity` is the `forEach` loop. It appends to an output
  sequence where the source calls `console.log`, and it is proved equal to the
  specification function `Activity.DisplayLines`.
- **Classifying a finished response** (the `end` handler of
  `fetchGitHubActivity`). Status 404 rejects with "User not found". Any other
  status except 200 rejects with a "Failed to fetch activity" error that
  carries the status. A 200 response is parsed: it resolves with the parsed
  value, or rejects with "Failed to parse response". `Response.Classify` models
  this, with `JSON.parse` passed in as a function `string -> Option<T>`.
- **Decimal numerals**, which the templates use to print the commit
  count and the status code (`Decimal.NatToDecimal`). JavaScript prints
  numbers from 10^21 on in exponent form; array lengths and status codes stay
  far below that.

To pin the line templates down, `LineFormat.ParseLine` reads a printed line
back into what it shows: the kind of event, the repository, the commit count
or the capitalised action. The round-trip lemmas prove that this reader
recovers exactly those fields from every template. They assume that
repository names and issue actions contain no spaces. GitHub's `owner/name`
repository names and its issue actions (`opened`, `closed`, ...) satisfy this.

Modules: `Wrappers` (Option), `Decimal`, `Activity`, `LineFormat`, `Response`.

## Model

| member | source | states |
|---|---|---|
| `Decimal.NatToDecimal` | index.js:80 | the number printed by `${commitCount}` is a canonical numeral: non-empty, digits only, no leading zero |
| `Decimal.DecimalRoundTrip` | index.js:80 | reading the printed numeral back gives the number |
| `Decimal.CanonicalRoundTrip` | index.js:80 | every canonical numeral is the printing of the number it denotes (the reverse round trip) |
| `Decimal.NatToDecimalInjective` | index.js:80 | distinct counts print as distinct numerals |
| `Activity.ToUpperAscii` | index.js:99 | upper-casing maps a–z to A–Z (code point minus 32) and leaves every other character unchanged |
| `Activity.Capitalize` | index.js:98-100 | length is preserved, every character after the first is unchanged, "" maps to "", and the first character ends up not lower-case: it is either unchanged or its upper-case form |
| `Activity.CapitalizeIdempotent` | index.js:98-100 | capitalising an already capitalised string changes nothing |
| `Activity.Render` | index.js:77-94 | an event prints a line exactly when it is a Push, Issues, Watch or Fork event; the `default` arm prints nothing |
| `Activity.RenderIffKnownTag` | index.js:75-93 | in terms of the `type` string: a line is printed exactly when the tag is one of PushEvent, IssuesEvent, WatchEvent, ForkEvent |
| `Activity.LinesOf` | index.js:73-95 | each event contributes at most one line |
| `Activity.RenderEventsConcat` | index.js:73 | the lines of a concatenated feed are the lines of the first part followed by the lines of the second |
| `Activity.RenderEventsLength` | index.js:73-95 | a feed prints at most one line per event; it prints exactly one per event iff every event is recognised, and none iff no event is recognised |
| `Activity.LineAtRank` | index.js:73-95 | a recognised event's line appears in the output at the position given by the number of lines printed before it |
| `Activity.RankIncreasing` | index.js:73 | a recognised event's line comes before the line of every later event, so output order is input order |
| `Activity.EveryLineHasSource` | index.js:73-95 | every output line is at the position of some recognised event of the feed; nothing else is printed |
| `Activity.MessageIsNoEventLine` | index.js:69-91 | no event's line equals the no-activity message |
| `Activity.RenderEvents` | index.js:73-95 | the `forEach` prints at most one line per event and never the no-activity message |
| `Activity.DisplayLines` | index.js:67-96 | `displayActivity` prints the no-activity message iff the feed is empty (so not for a non-empty feed of unrecognised events), and at most one line per event otherwise |
| `Activity.DisplayNonEmpty` | index.js:68-95 | a non-empty feed prints at most one line per event, and prints nothing iff none of its events is recognised |
| `Activity.DisplayActivity` | index.js:67-96 | the loop's output is exactly `DisplayLines(events)`: one line, the no-activity message, for an empty feed; otherwise at most one line per event and never that message |
| `LineFormat.CapitalizeSpaceFree` | index.js:98-100 | capitalising a space-free action keeps it space-free |
| `LineFormat.PushRoundTrip` | index.js:78-80 | reading back a push line gives the commit count and the repository name |
| `LineFormat.IssueRoundTrip` | index.js:82-84 | reading back an issues line gives `Capitalize(action)` as its first word, and the repository name |
| `LineFormat.WatchRoundTrip` | index.js:86-87 | reading back a watch line gives a star of the repository |
| `LineFormat.ForkRoundTrip` | index.js:89-90 | reading back a fork line gives a fork of the repository |
| `LineFormat.RenderRoundTrip` | index.js:77-94 | for every event, reading back its line gives what the event's template shows: kind, repository, commit count or capitalised action |
| `LineFormat.FeedRoundTrip` | index.js:73-95 | reading back the feed's lines, one by one, gives the views of its recognised events in feed order |
| `Response.Classify` | index.js:44-58 | 404 rejects NotFound (and only 404 does); any other non-200 status rejects with UpstreamError carrying that status; a 200 resolves iff the body parses, and then to exactly the parsed value, otherwise it rejects with ParseError |
| `Response.BodyIgnoredUnlessOk` | index.js:45-51 | for a non-200 status neither the body nor the parser affects the outcome |
| `Response.ErrorMessage` | index.js:45-57 | "User not found" is the message of NotFound and of nothing else, "Failed to parse response" that of ParseError and of nothing else, and the upstream message is "Failed to fetch activity (Status: N)" where N is a canonical numeral that reads back as the status |
| `Response.ErrorMessageInjective` | index.js:45-57 | the three rejection messages tell the errors apart, and the upstream message tells statuses apart |

## Left out

- There is no caching: `index.js` requests the events afresh on every run.
- Building the HTTPS request, accumulating body chunks, and the socket `error` path (index.js:28-43, 62-63). These are network I/O. The model receives the status and the whole body.
- Reading `process.argv`, the readline prompt, and the `async main` that prints "Fetching activity for ...", awaits the fetch and reports a rejection with `console.error` (index.js:4-26, 103-114). These are I/O and promise plumbing.
- `JSON.parse` is not modelled. It is a parameter of `Response.Classify`.
- Turning parsed JSON into events is not modelled. Events are a typed datatype, so events missing `repo`, `payload` or `commits` cannot occur. In the source such events would throw a TypeError.
- `Response.Classify`: the status is a natural number. A status code that is missing or not an integer is not modelled.
- `Activity.ToUpperAscii`: upper-cases only ASCII a–z. JavaScript's `toUpperCase` maps all of Unicode and can lengthen a string ("ß" becomes "SS"). The length-preserving contract of `Activity.Capitalize` does not cover that case.
- `Activity.Capitalize`: JavaScript strings are UTF-16 code units, and the model's `string` is a sequence of Dafny characters. `charAt(0)` on a surrogate pair is not modelled.
- `LineFormat.RenderRoundTrip`: this holds only for repository names and issue actions without spaces. With spaces the templates can be ambiguous: an action of "starred x" gives a line that also reads as a watch line.
