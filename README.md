# Weather prediction board — verified model of the card pipeline

The weather board loads a list of forecast records from `data.json` and turns
them into cards on the page. This project models, in Dafny, the part of
`script.js` that decides what the page shows:

- **Date normalizer** (`normalizeDate`): split a date string on `-`; with exactly
  three pieces keep the year and left-pad month and day with `0` to width 2;
  anything else passes through verbatim.
- **Icon selection**: a case-sensitive substring test of the record's condition
  against Sunny, Cloudy, Rainy, Stormy, Snowy, Windy, in that order; the first
  word found wins, none found gives the "unknown" icon. Icons are a seven-way
  datatype.
- **Card date label**: the abbreviated English month of the normalized date,
  a space and the unpadded day (`Feb 14`, `Jan 1`); with a truthy `toDate`, the
  text becomes `from - to`, both ends formatted alike.
- **`displayPredictions`**: a `Page` class holds the list container's children
  and the header element's text. `Render` does nothing without a list container.
  Otherwise it clears the container and updates a present header. It then puts
  the empty-state note `No official forecasts yet.` into the container for an
  empty list, or appends one card per record in input order, in a loop.
- **`loadPredictions`**: a pure function of how the fetch ended; every failure
  gives the empty list.

Modules: `Wrappers` (Option, JavaScript truthiness of optional strings),
`Strings` (the JavaScript `split`, `join`, `padStart` and number-to-text
built-ins on `seq<char>`), `Dates`, `Icons` and `Board`.

The icon words are tested in a fixed order, not by where they appear in the
condition: a condition containing both "Rainy" and "Sunny" gets the sunny icon,
because `Sunny` is tested first (`script.js:59-61`, proved as
`Icons.FirstMatchWinsExample`).

## Model

| member | source | states |
|---|---|---|
| `Strings.PadStart` | script.js:32-33 | `padStart(2, '0')` never cuts: the result is as long as the input or as the width, whichever is larger, and an input already that long comes back unchanged |
| `Strings.PadStartShape` | script.js:32-33 | `padStart(2, '0')` gives a string of length max(width, input length) that ends with the input unchanged and has only fill characters in front, so nothing is ever cut |
| `Strings.Split` | script.js:29 | `split('-')` always yields at least one piece |
| `Strings.SplitPieces` | script.js:29 | no piece of a split contains the separator |
| `Strings.JoinOfSplit` | script.js:29 | joining the pieces of a split with the separator gives back the original string |
| `Strings.SplitOfJoin` | script.js:29-34 | splitting a join of separator-free pieces gives back exactly those pieces |
| `Strings.NatToString` | script.js:74-75 | the text printed for a day number is a non-empty string of decimal digits |
| `Strings.NatToStringRoundTrip` | script.js:74-75 | the decimal text printed for a day number parses back to that number and starts with `0` only for zero |
| `Dates.NormalizeDate` | script.js:28-37 | input that does not split on `-` into exactly three pieces is returned verbatim; a three-piece input gives a result of at least six characters (two dashes and two padded fields) |
| `Dates.NormalizeNeverShortens` | script.js:31-34 | the normalized string is never shorter than the input |
| `Dates.NormalizeShape` | script.js:29-34 | for three pieces the result splits into the unchanged year and month and day padded to width max(2, length); pieces of 2 or more characters are untouched |
| `Dates.NormalizeOfPieces` | script.js:29-34 | a date written as three dash-free pieces normalizes to the year, a dash, the padded month, a dash and the padded day |
| `Dates.NormalizeIdempotent` | script.js:28-37 | normalizing a normalized date changes nothing |
| `Dates.NormalizePadsExample` | script.js:28-37 | `2026-1-1` becomes `2026-01-01` |
| `Dates.NormalizeKeepsExample` | script.js:28-37 | `2026-01-01` stays as it is |
| `Dates.NormalizeTwoPiecesExample` | script.js:30-36 | `2026-01` is returned verbatim |
| `Dates.NormalizeFourPiecesExample` | script.js:30-36 | `a-b-c-d` is returned verbatim |
| `Dates.NormalizeEmptyExample` | script.js:30-36 | the empty string is returned verbatim |
| `Dates.MonthName` | script.js:71-73 | every month 1 to 12 has a three-letter abbreviated name |
| `Dates.MonthDay` | script.js:71-75 | the label of a valid date is five or six characters long, with the space after the three-letter month name |
| `Dates.CardDate` | script.js:67-75 | the label of a stored date whose normalized form is a valid date is five or six characters long |
| `Dates.MonthDayText` | script.js:71-75 | for a valid `YYYY-MM-DD` date the label is the month name of MM, a space, and the two day digits with a leading `0` dropped |
| `Dates.MonthDayReadBack` | script.js:71-75 | the label reads back: the three-letter name of month MM, a space, then digits that parse to the day and never start with `0` |
| `Dates.CardDateIgnoresPadding` | script.js:67-75 | the label of a stored date equals the label of its normalized form |
| `Dates.ValentinesExample` | script.js:71-75 | `2026-02-14` is a valid date labelled `Feb 14` |
| `Dates.NewYearExample` | script.js:71-75 | `2026-01-01` is a valid date labelled `Jan 1`, day unpadded |
| `Dates.CardDateExample` | script.js:67-75 | the stored dates `2026-02-14` and `2026-1-1` are labelled `Feb 14` and `Jan 1` |
| `Dates.DateRange` | script.js:77-85 | the date text starts with the `from` label and is longer than it exactly when `toDate` is truthy |
| `Dates.SplitAroundDash` | script.js:84 | two dash-free labels joined by ` - ` split back into their two sides |
| `Dates.DateRangeReadBack` | script.js:77-85 | the date text splits on `-` into the `from` label alone when `toDate` is falsy, and into the `from` and `to` labels around ` - ` when it is truthy |
| `Icons.Contains` | script.js:59-64 | `includes`: a word that occurs is no longer than the text, and the empty word occurs in every text |
| `Icons.SelectIcon` | script.js:57-64 | the chosen icon's word occurs in the condition, no word tried earlier occurs, and no word at all gives the unknown icon |
| `Icons.SelectIconCharacterized` | script.js:57-64 | an icon is chosen if and only if its word occurs and no earlier word does |
| `Icons.SelectIconIsFirstMatch` | script.js:57-64 | the if-chain equals the first match over the ordered word/icon table |
| `Icons.SunnyWordExample` | script.js:59 | the condition `Sunny` selects the sunny icon |
| `Icons.CaseSensitiveExample` | script.js:59 | a lower-case `sunny` selects the unknown icon |
| `Icons.FirstMatchWinsExample` | script.js:59-61 | `Rainy, then Sunny` selects the sunny icon: the order of testing wins, not the order in the text |
| `Board.LoadPredictions` | script.js:2-16 | a successful, readable response yields its records; a network error, a non-success status or an unreadable body yield the empty list |
| `Board.MakeCard` | script.js:55-94 | a card has a date text exactly when both dates are valid once normalized, a temperature text two characters (`°C`) longer than the record's, and a notes paragraph exactly when the notes are truthy; the contents themselves (the selected icon, the `°C` suffix, the note text) are pinned by `Board.CardShows` |
| `Board.CardShows` | script.js:54-94 | a card shows the selected icon, the condition, the date range, the temperature followed by `°C`, and a notes paragraph if and only if the notes are non-empty |
| `Board.ValentinesDateText` | script.js:67-85 | a record dated `2026-02-14` without an end date gets the date text `Feb 14` |
| `Board.SunnyCardExample` | script.js:54-94 | the record 2026-02-14 / Sunny / 21 / no notes becomes a sunny card labelled `Feb 14` showing `21°C` with no notes paragraph |
| `Board.CardChildren` | script.js:54-96 | the loop makes as many children as there are records, and every one of them is a card |
| `Board.CardChildrenAt` | script.js:54-96 | exactly one card per record, the i-th card made from the i-th record |
| `Board.CardChildrenSnoc` | script.js:95 | handling one more record appends exactly its card |
| `Board.Rendered` | script.js:49-96 | the container never ends empty, and its first child is the empty-state note exactly when the list is empty |
| `Board.HeaderAfter` | script.js:40-47 | a header is present after rendering exactly when it was before, and then shows `Waiting for update...` for an empty list and otherwise the long form of the first record's normalized date |
| `Board.RenderedContents` | script.js:49-96 | an empty list leaves only the empty-state note; a non-empty list leaves one card per record in input order and no note |
| `Board.Page.Render` | script.js:19-96 | without a list container nothing changes; otherwise the container ends holding exactly the rendered children of the list, whatever it held before, and a present header shows the first record's date or `Waiting for update...` |
| `Board.LoadAndDisplay` | script.js:109-112 | one polling tick shows what the load returned; a failed load shows the empty state |
| `Board.RenderTwice` | script.js:19-96 | rendering the same list twice leaves the page exactly as rendering it once |

## Left out

- `Board.CardShows`: a card's date text is stated only where both dates are valid `YYYY-MM-DD` calendar dates once normalized. For other dates the browser's `Date` rolls over out-of-range days or prints `undefined NaN`, depending on the engine; the model leaves that text open (`None`).
- The long-date header text (`toLocaleDateString`, weekday and full month) depends on locale and time zone. The header is modelled as "the long form of the first record's normalized date" (`Header.LongDate`). The source parses that date without the local-midnight suffix, so it is read as UTC and can show the previous day west of UTC; that shift is not modelled.
- The inline "today" display, the `DOMContentLoaded` start-up and the 60-second `setInterval` polling are event-loop and clock plumbing. One tick is modelled as `Board.LoadAndDisplay`.
- The network request, cache-busting query and console logging of `loadPredictions` are I/O. The outcome of the request is a parameter of `Board.LoadPredictions`.
- HTML templating and escaping: notes and condition go into `innerHTML` unescaped. Cards are modelled as records of fields, not markup.
- The icon glyphs themselves: the source file holds them as mis-encoded UTF-8 text. Icons are a datatype.
- The temperature suffix is mis-encoded in the same way: script.js:91 holds the bytes of `¬∞C` (UTF-8 `°` read as Mac Roman), so the browser prints `¬∞C`, three characters. The model uses the intended `°C` (`Board.Celsius`), so its temperature text is two characters longer than the record's where the page's is three longer.
- Temperatures are modelled as the text the template prints for them; the number-to-text conversion of a JSON number is not modelled.
- A record without a `condition` string makes `includes` throw in the source; records here always carry one.
- A JSON body that parses but is not an array of records is not modelled: `Fetched.json` is None only for a body that is not valid JSON. In the source, `{}` with status 200 reaches `forEach` and throws after the container was cleared and the header set to `Waiting for update...`, with no empty-state note; `null` throws at the first `predictions.length`: at script.js:40 when the page has a header element, before the header is touched, and at script.js:49 otherwise. Likewise a record whose `date`, or truthy `toDate`, is not a string makes `split` throw (script.js:29); here both are always strings.
- Strings are sequences of Unicode scalar values, while JavaScript's `length` and `padStart` count UTF-16 code units. For text with characters above U+FFFF the two differ: `normalizeDate("2026-😀-1")` gives `2026-😀-01` in JavaScript (the emoji is two code units, so no padding) but `2026-0😀-01` in this model.
- The admin password gate, adding and deleting records, and the GitHub, local-storage and real-time backends are not in `script.js`. They are not part of this model.
