# iss_spotter in Dafny

A model of `iss.js` from iss_spotter, a small Node.js program that tells a
user when the International Space Station will pass over them. It makes
three HTTP requests in a chain:

1. it asks an IP echo service for the user's public address;
2. it asks a geolocation service where that address is;
3. it asks Open Notify for the next pass times at those coordinates.

It then formats each pass as `<UTC date> for <m> minutes <s> seconds` and
puts a fixed header above the passes. `fetchCoordsByIP` and `fetchISSTimes`
first check their input and refuse bad input before any request: an address
that fails the address check with a message that names it, and coordinates
that are NaN as numbers with a fixed message. Once a request is made, each wrapper reports a failure in one of
two ways: a transport error gives a fixed "Internet issues" message, and a
status other than 200 gives a message that carries the status code and the
response body. `returnISSTimes` puts a
stage-specific text in front of the first failing stage's message and stops
there.

Modules:

- `Results`: `Option` and `Result`.
- `Text`: decimal rendering of numbers, splitting and joining at a separator,
  and newline-terminated lines. It also holds the round-trip lemmas for these.
- `Js`: the JavaScript semantics the code relies on:
  - template-literal rendering;
  - truthiness;
  - `isNaN(Number(v))`;
  - integer `%` and `Math.floor(a / b)`.

  `Runtime` keeps the host-dependent parts abstract:
  - whether `Number(s)` of a string is a number;
  - `Date.prototype.toUTCString`;
  - the text of the TypeError that `.map` raises on a non-array.
- `Ipv4`: the address regular expression `^\d{1,3}\.\d{1,3}\.\d{1,3}\.\d{1,3}$`,
  written as a greedy matcher. It is proved equal to "four dot-separated
  fields of one to three digits".
- `Query`: `key=value` pairs joined by `&`, and the decoding that inverts that.
- `Fetch`: `fetchMyIP`, `fetchCoordsByIP` and `fetchISSTimes`.
  - Each returns the URLs it requested beside what it passes to its callback.
  - The network is a `Network` value: the response each service gives to a URL.
- `Passes`: `processISSTimes`, an imperative loop proved against the function
  `FormatPasses`.
- `Pipeline`: `returnISSTimes`, a method proved equal to the function
  `Run`, with one lemma per way it can end.

Two places where the code does something other than what its documentation
suggests. The model follows the code in both:

- The pass count defaults to 5 (`numToRetrieve`), but the URL is built from
  the raw `num`, so a missing count is sent as `n=undefined`
  (`Fetch.CountDefaultIgnored`).
- The address check accepts any one to three digits per group, so
  `999.999.999.999` passes (`Ipv4.RangeNotChecked`).

## Model

| member | source | states |
|---|---|---|
| `Ipv4.ValidIPv4Fields` | iss.js:32-33 | An address passes the regular expression exactly when splitting it at `.` gives four fields, each of one to three decimal digits. |
| `Ipv4.OctetsAccepted` | iss.js:32-33 | Any four groups of one to three digits joined by dots pass the check and split back into those four groups. |
| `Ipv4.RangeNotChecked` | iss.js:32 | `999.999.999.999` passes: the value of a group is not bounded by 255. |
| `Ipv4.ThreeGroupsRejected` | iss.js:32 | `999.1.2`, with only three groups, is rejected. |
| `Ipv4.LongGroupRejected` | iss.js:32 | A group of four digits is rejected. |
| `Ipv4.LettersRejected` | iss.js:32 | A group holding letters is rejected. |
| `Ipv4.TrailingNewlineRejected` | iss.js:32 | An address followed by a newline is rejected, since `$` has no multiline flag. |
| `Query.DecodeEncode` | iss.js:63 | For pairs whose keys and values hold no `&` and whose keys hold no `=`, decoding the `&`-joined query gives back the same pairs in order. |
| `Text.NatToStringRoundTrip` | iss.js:21 | The decimal text of a status code has no leading zero, and reading it back gives the same code. |
| `Fetch.Classify` | iss.js:16-24 | A transport error yields the fixed Internet-issues message, whatever the status. Success happens exactly when there is no transport error and the status is 200, and it passes on the field read from the body. |
| `Fetch.ClassifyMessages` | iss.js:16-24 | From an error message alone a caller can tell the two kinds of failure apart. A status error message gives back the exact status code and the whole body. |
| `Fetch.StatusPrefixesStartWithError` | iss.js:21-71 | The status error messages of all three wrappers start with `Error: `. |
| `Fetch.FetchMyIP` | iss.js:11-27 | Exactly one request, to the ipify URL. Its response goes through the shared rule with this wrapper's status message, so the address is the body's `ip` field, delivered exactly when that request succeeds with status 200. |
| `Fetch.FetchCoordsByIP` | iss.js:29-51 | An address that fails the check yields `<ip> is not a valid IPv4 address.` with no request. A valid one requests exactly `https://ipvigilante.com/<ip>`, and its response goes through the shared rule with a status message that names the address. A location is only ever returned for a valid address. |
| `Fetch.NumToRetrieve` | iss.js:57 | The count is the given one when it is truthy, and 5 otherwise. It is always truthy. |
| `Fetch.FetchISSTimes` | iss.js:53-77 | Coordinates whose latitude or longitude is NaN as a number yield the fixed invalid-coordinates message with no request. Otherwise exactly one request is made, to the pass-times URL, and its response goes through the shared rule: on success the `response` array exactly as sent. |
| `Fetch.PassTimesQuery` | iss.js:62-63 | Read back as a query, the pass-times URL holds `lat`, then `lon`, then `alt` exactly when the altitude is truthy, and last `n` with the count as given. |
| `Fetch.CountDefaultIgnored` | iss.js:57-63 | The default count is 5, yet with no count the URL differs from the one for a count of 5: the raw count is sent. |
| `Fetch.NullCoordinatesAccepted` | iss.js:58-61 | Null latitude and longitude pass the NaN check, and the request is sent with `null` in the URL. |
| `Passes.DurationSplit` | iss.js:82-83 | For a duration that is not negative, minutes times 60 plus seconds is the duration, and the seconds lie in 0..59. |
| `Passes.DurationSplitNegative` | iss.js:82-83 | For a negative duration the seconds lie in -59..0, and the two parts add up to the duration, or to one minute less when the seconds are not 0. |
| `Passes.PassLineDecodes` | iss.js:81-86 | A pass line splits back into the date for `risetime * 1000` and minutes and seconds that recombine to the duration, with seconds below 60. |
| `Passes.PassLineExample` | iss.js:82-85 | A pass of 125 seconds reads `2 minutes 5 seconds`. |
| `Passes.FormatPassesDecodes` | iss.js:81-90 | Split at newlines, the formatted text has one line per pass and then an empty field. Each line reads back as its own pass, in order: the date of the rise time, and minutes and seconds that recombine to the duration. |
| `Passes.FormatPassesLines` | iss.js:87-90 | Split at newlines, the formatted text is the pass lines in order followed by one empty field. No passes give the empty text. |
| `Passes.ProcessISSTimes` | iss.js:79-96 | A missing `response` array produces the `.map` TypeError as the error. An array produces the newline-terminated pass lines, built by the accumulating loop. |
| `Pipeline.StageOfTaggedMessage` | iss.js:99-113 | The stage prefixes are distinct enough that the stage can be read back from any tagged message, whatever follows the prefix. |
| `Pipeline.AssembleReport` | iss.js:115-120 | The successive appends produce the report: the header lines, each newline-terminated, followed by the pass text. |
| `Pipeline.ReportLines` | iss.js:115-121 | Split at newlines, the report is the five header lines, then one line per pass in order, then one empty field. |
| `Pipeline.ReturnISSTimes` | iss.js:98-130 | The callback chain makes the same requests and delivers the same result as the function `Run`. |
| `Pipeline.IpStageFailure` | iss.js:99-101 | If the address lookup fails, only the ipify request is made. The message is tagged with the address stage, which can be read back. Later services and the runtime make no difference. |
| `Pipeline.LocationStageFailure` | iss.js:103-105 | If the location lookup fails, no pass-times request is made, and no location request either when the address failed the check. The message is tagged with the location stage. The pass-times service and the runtime make no difference. |
| `Pipeline.PassTimesStageFailure` | iss.js:107-109 | If the pass-times lookup fails, the message is tagged with the pass-times stage. Neither the date formatting nor the TypeError text makes a difference. |
| `Pipeline.FormattingStageFailure` | iss.js:111-113 | If the pass-times body has no `response` array, all three requests are made and the TypeError is reported with the formatting-stage prefix. |
| `Pipeline.IpStatusReported` | iss.js:20-101 | An error status from the ipify service reaches the caller after that one request. The message carries the address stage's text, and the status code and the body can be read back from the rest. |
| `Pipeline.LocationStatusReported` | iss.js:43-105 | An error status from the geolocation service, such as a 503 outage, reaches the caller after the two requests. The message carries the location stage's text, and the status code and the body can be read back from the rest. |
| `Pipeline.PassTimesStatusReported` | iss.js:70-109 | An error status from the pass-times service reaches the caller after all three requests. The message carries the pass-times stage's text, and the status code and the body can be read back from the rest. |
| `Pipeline.ReportListsEveryPass` | iss.js:81-121 | When the pass-times service sends passes, the report delivered is, split at newlines, the header lines, then one line per pass in the order sent, then an empty field. |
| `Pipeline.ShapelessLocationRefused` | iss.js:46-109 | A location whose fields are all `undefined`, as a non-object `data` reads, is refused by the pass-times stage with the invalid-coordinates message, after only the two requests. |
| `Pipeline.PipelineDelivers` | iss.js:98-122 | When the address, the location and the pass times are all fetched, exactly the three URLs are requested in order and the report built from the three results is delivered. |
| `Pipeline.PipelineSuccess` | iss.js:98-122 | A report is delivered only if every stage succeeded: the address is valid, the coordinates are not NaN, and exactly the three URLs were requested in order. The report is built from the three results. |

## Left out

- The HTTP requests: each service is a function from URL to response, and timing, retries and concurrency are not modelled.
- `JSON.parse`: a response is given already parsed. A body that does not parse makes `JSON.parse` throw inside the `request` callback (iss.js:23, 46, 73). That error never reaches `cb`, and the model does not capture it.
- `console.log` of the formatted passes (iss.js:91): output only, with no effect on the result.
- `Js.IsNaNNumber`: whether `Number(s)` of a string is a number is left to the host (`Runtime.isNumericString`), as is `toUTCString`. Floating-point values appear only as their printed text.
- `Passes.PassLine`: durations and rise times are integers. A fractional duration, which JavaScript would print with a fraction, is not modelled.
- `Fetch.FetchCoordsByIP`: a non-string address (where `match` would throw a TypeError) is not modelled, because the address comes from the ipify string field.
- `null` or missing `data` from the geolocation service is not modelled. Reading its fields (iss.js:55-56) would throw inside the geolocation `request` callback, and that error never reaches `cb`. A `data` that is a string, number, boolean or array is modelled: it reads as a location whose fields are all `undefined` (`Pipeline.ShapelessLocationRefused`).
- `Passes.ProcessISSTimes`: a callback that throws is not modelled. `cb(null, ...)` (iss.js:92) runs inside the `try`. So if the caller's callback throws on the success path (iss.js:121), the `catch` calls `cb` a second time, and the caller then gets a formatting-stage error after the report. The model delivers exactly one result.
- `Fetch.Pass`: a `null` entry of `response` is not modelled. Reading `obj.duration` would throw, and the error would end in the formatting stage; in the model only a missing array reaches that stage.
- `Fetch.Pass`: an entry that is a number, string or boolean, or an object without an integer `duration` and `risetime`, is not modelled. Such an entry is formatted with `NaN` and `Invalid Date` and delivered through `cb(null, ...)`. Every modelled entry has an integer `duration` and `risetime`.
- `Fetch.Pass`: durations and rise times are unbounded integers, and `IntToString` writes all their digits. JavaScript numbers lose precision beyond 2^53 and print in exponent form from 1e21 (including `risetime * 1000`); neither is modelled.
- `Js.Value` has no object or array cases, because the fields the code prints are scalars.
- `Runtime.mapTypeError`: the text of the host's TypeError is a parameter.
- `index.js` is not part of this model. It calls `returnISSTimes` and duplicates the formatting.
