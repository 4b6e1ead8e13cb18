# Weather lookup client: input normalisation, temperature display, search state

A Dafny model of the logic in the single React component of a weather lookup
page (`frontend/src/App.js`). A form takes a city name or a ZIP code, sends one
request to a weather endpoint per submission, and shows the result or an error.
The model covers three parts of that component:

- **City-name normaliser** (`capitalizeWords`, module `Capitalize`). It is built
  from the JavaScript string built-ins it calls (`split(' ')`, `charAt`, `slice`,
  `toUpperCase`, `toLowerCase`, `join(' ')`, module `JsString`). Its result is
  proved equal to a per-character reference: a character that starts a
  space-separated segment is upper-cased, every other one is lower-cased. From
  that reference the model proves that the normaliser:
  - preserves length;
  - keeps every space at its index;
  - changes letter case and nothing else;
  - is idempotent;
  - produces the same segments, each in capitalized form, with empty segments
    staying empty.
- **Temperature display** (`Math.round`, `celsiusToFahrenheit`,
  `formatTemperature`, module `Temperature`). It works over exact reals. `Math.round`
  is floor(x + 0.5): the nearest integer, with ties going up. The displayed text
  is a JavaScript integer numeral followed by `°C` or `°F`. The numeral reads back
  as the integer within half a degree of the exact temperature in the chosen
  unit, so rounding happens after the whole conversion.
- **Component state and handlers** (module `App`, class `WeatherApp`). The class
  has the six `useState` fields: `location`, `searchType`, `weather`, `loading`,
  `error` and `isCelsius`. The input handler stores the capitalized text in city
  mode and the raw text in ZIP mode. There are two toggles. The submit handler is
  split at its `await`:
  - `BeginSearch` applies the `trim` guard, sets `loading` and clears `error`, and
    returns the request it issues: the location and the `type` text of the mode.
  - `CompleteSearch` takes the request's outcome as an input:
    `Ok(report) | NotOk(errorField) | Threw`. It stores the report, or the error
    message, and always clears `loading`. On failure it keeps the previous
    `weather`.
  - `Search` runs both steps.

Three facts about the code shape the model:

- The ZIP mode is sent as `type=zip` (`frontend/src/App.js:44`, `:104`).
- `Math.round` sends ties toward +infinity, so `-2.5` rounds to `-2`
  (`RoundTiesUp`).
- `loading`, `error` and `weather` are three independent fields. A failure
  sets `error` and keeps whatever `weather` held, so after a success and then a
  failure both are set.

## Model

| member | source | states |
|---|---|---|
| JsString.UpperChar | frontend/src/App.js:21 | `toUpperCase` on a character maps 'a'..'z' to 'A'..'Z' and leaves every other character alone; the result is never a lower-case letter |
| JsString.LowerChar | frontend/src/App.js:21 | `toLowerCase` on a character maps 'A'..'Z' to 'a'..'z' and leaves every other character alone; the result is never an upper-case letter |
| JsString.CharAtThenSlice | frontend/src/App.js:21 | `charAt(i)` followed by `slice(i + 1)` is `slice(i)`; in particular `w.charAt(0) + w.slice(1)` gives back w for every w, "" included, so the per-word rewrite loses and adds no character |
| JsString.FirstSpace | frontend/src/App.js:20 | the separator search of `split(' ')`: the index of the first space, or the length when there is none |
| JsString.Split | frontend/src/App.js:20 | `split(' ')` returns at least one segment, and no segment contains a space |
| JsString.JoinSplit | frontend/src/App.js:20-22 | joining the segments of s with ' ' gives back s |
| JsString.SplitJoin | frontend/src/App.js:20-22 | splitting the ' '-join of one or more space-free segments gives back those segments |
| JsString.Join | frontend/src/App.js:22 | `join(' ')` starts with the first segment; JoinSplit and SplitJoin fix its value as the inverse of `split(' ')` |
| JsString.SplitCount | frontend/src/App.js:20 | s splits into exactly one more segment than it has spaces (leading, trailing and doubled spaces give empty segments) |
| JsString.TrimStart | frontend/src/App.js:37 | the result is a suffix of s, everything dropped is white space, and the result does not start with white space |
| JsString.TrimEnd | frontend/src/App.js:37 | the result is a prefix of s, everything dropped is white space, and the result does not end with white space |
| JsString.Trim | frontend/src/App.js:37 | `s.trim()` is no longer than s, neither starts nor ends with white space, and is empty exactly when every character of s is ECMAScript white space or a line terminator (both directions); TrimStart and TrimEnd fix which piece of s it is |
| Capitalize.CapitalizeWord | frontend/src/App.js:21 | a segment keeps its length; its first character is upper-cased and every later one lower-cased, so the result is in normal form; a space-free segment stays space-free; "" stays "" |
| Capitalize.CapitalizeAll | frontend/src/App.js:21 | the `.map` step gives one segment per input segment, each as long as its input, in normal form (upper-case first character, lower-case rest), and space-free when its input was |
| Capitalize.CapitalizeWords | frontend/src/App.js:18-23 | `capitalizeWords` output splits back into exactly the capitalized input segments: same count, same lengths (empty segments from leading, trailing or doubled spaces stay empty), each in normal form; CapitalizeWordsPointwise fixes every character |
| Capitalize.CapitalizeWordsPointwise | frontend/src/App.js:18-23 | the split/map/join normaliser keeps the length, and each output character equals the input character upper-cased at the start of a segment (index 0 or after a space) and lower-cased elsewhere |
| Capitalize.CapitalizeWordsOnlyChangesCase | frontend/src/App.js:18-23 | the normaliser keeps the length, puts a space exactly where the input has one, and each character equals the input's up to letter case |
| Capitalize.CapitalizeWordsIdempotent | frontend/src/App.js:18-23 | normalising an already normalised string returns it unchanged |
| Capitalize.CapitalizeWordsEmpty | frontend/src/App.js:18-23 | the empty string normalises to the empty string |
| Capitalize.CapitalizeWordsNewYork | frontend/src/App.js:18-23 | "new york" normalises to "New York" |
| Capitalize.CapitalizeWordsBoundarySpaces | frontend/src/App.js:18-23 | "  pARIS  " normalises to "  Paris  ": boundary spaces stay and the word is capitalized |
| Temperature.Round | frontend/src/App.js:15 | `Math.round(x)` is the integer n with n - 0.5 <= x < n + 0.5 |
| Temperature.RoundIsNearest | frontend/src/App.js:15 | no integer is closer to x than `Math.round(x)` |
| Temperature.RoundUnique | frontend/src/App.js:15 | the integer m with m - 0.5 <= x < m + 0.5 is `Math.round(x)`, so the rounded value is unique |
| Temperature.RoundTiesUp | frontend/src/App.js:15 | a halfway value n + 0.5 rounds up to n + 1, also for negative n |
| Temperature.CelsiusToFahrenheit | frontend/src/App.js:12 | the result is the whole number of degrees Fahrenheit within half a degree of c * 9 / 5 + 32 |
| Temperature.NatToString | frontend/src/App.js:15 | the decimal text of a natural number is a non-empty digit string without leading zero whose value is that number |
| Temperature.IntToString | frontend/src/App.js:15 | the text `${n}` of an integer is a numeral that reads back as n, with a '-' exactly when n is negative |
| Temperature.FormatTemperature | frontend/src/App.js:14-16 | the text is a numeral followed by °C (isCelsius) or °F; the numeral's value is within half a degree of the exact temperature in that unit, and it carries a '-' exactly when that value is negative (a value rounding to zero shows "0", as `${-0}` does) |
| Temperature.FormatTemperatureShowsRounded | frontend/src/App.js:12-15 | the displayed number is `Math.round` of the Celsius value, or of the full Fahrenheit conversion |
| Temperature.FormatCelsiusExample | frontend/src/App.js:15 | 20.4 is shown as "20°C" |
| Temperature.FormatFahrenheitExample | frontend/src/App.js:12-15 | 20.6 °C (69.08 °F) is shown as "69°F" |
| App.SearchType.Param | frontend/src/App.js:44 | the mode is sent as `type=city` for City and `type=zip` for Zip, and the two values differ; BeginSearch and Search put this text in the request they issue |
| App.ErrorText | frontend/src/App.js:51 | the `data.error` fallback expression is the error field when that is a non-empty string and the fallback otherwise; it is never empty |
| App.CapitalizeWordsKeepsBlankness | frontend/src/App.js:29-37 | normalising a city name never changes whether `trim` empties it, so it never changes whether a submission is sent |
| App.WeatherApp.constructor | frontend/src/App.js:5-10 | initial state: empty location, city mode, no weather, not loading, no error, Celsius |
| App.WeatherApp.InputChange | frontend/src/App.js:25-33 | in city mode the stored location is the capitalized input, in ZIP mode the input itself; its length is the input's; no other field changes |
| App.WeatherApp.ToggleUnit | frontend/src/App.js:73 | the unit toggle flips `isCelsius` and changes nothing else |
| App.WeatherApp.SelectSearchType | frontend/src/App.js:91-104 | the mode buttons set `searchType` and change nothing else; the stored location is not re-normalised |
| App.WeatherApp.BeginSearch | frontend/src/App.js:35-41 | an all-white-space location issues no request and changes nothing; otherwise the request carries the location and the mode's `type` text, `loading` is true, `error` is cleared, and `weather` is left as it was |
| App.WeatherApp.CompleteSearch | frontend/src/App.js:42-57 | `loading` ends false; Ok stores the report and leaves `error`; NotOk sets ErrorText of the error field; Threw sets the connection message; on both failures `weather` keeps its previous value |
| App.WeatherApp.Search | frontend/src/App.js:35-58 | a whole submission: an all-white-space location changes nothing and issues no request; otherwise one request for the location and the mode's `type` text, `loading` false afterwards, and the outcome's effect on `weather` and `error` as in CompleteSearch, with `error` cleared on success |

## Left out

- Unicode case mapping: only 'a'..'z' and 'A'..'Z' change case. JavaScript also maps other letters, and some of those mappings change the length (`ß` becomes `SS`), so the length and position properties hold only for the ASCII mapping modelled here.
- IEEE-754 arithmetic: temperatures are exact reals. The model leaves out what doubles do instead: binary rounding of `c * 9/5 + 32`, `-0`, `NaN` (a missing field would show `NaN°C`) and infinities. A rounded `-0` prints as "0" in JavaScript, and the integer model gives "0" as well.
- IntToString: numbers of 1e21 or more, which JavaScript prints in exponent notation, are printed in full here.
- The network: `fetch`, the URL with `encodeURIComponent`, and `response.json()` are not modelled. Only their outcome enters the model, as the `Outcome` input. The request is represented by its two parameters.
- ErrorText: `data.error` is modelled as an optional string. A truthy non-string value (a number, an object), which JavaScript would store as is, is not modelled.
- Overlapping submissions and out-of-order responses: the only guard is the submit button being disabled while `loading`. That is a concurrency concern. `BeginSearch` and `CompleteSearch` are sequential steps, and other handlers may run between them.
- React itself: batching of state updates, re-rendering, and the JSX markup. This includes the icon URL, the CSS classes, and where formatted temperatures and the error banner are shown.
- The Flask backend (`backend/app.py`, `backend/routes.py`): framework wiring and one route that returns a constant object.
