# CosmoDaily "On This Day" — a Dafny model

This project models the logical core of the CosmoDaily "On This Day" page and
of the NASA APOD (Astronomy Picture of the Day) client it calls:

- **The date list.** Given today's year, month and day, the page builds one
  `YYYY-MM-DD` string per past year, from last year down to 1996, with month
  and day padded to two digits.
- **The fetch loop.** It requests each date in turn. Records are kept in fetch
  order and errors are counted.
- **The sort.** The kept records are sorted in place, newest first.
- **The render choice.** A failure banner appears when something failed. Then
  comes either a grid of cards or a "No Pictures Found" notice.
- **The client.** `fetchApod` maps one HTTP exchange to a validated record or an
  error value `{code, msg}`, through a fixed ladder: transport exception, non-ok
  status, invalid JSON, schema mismatch. `isApodError` tells the two outcomes
  apart by the presence of a `code` key.

Files:

- `wrappers.dfy`: module `Wrappers` holds an `Option` type that supports `:-`.
- `text.dfy`: module `Text` models JavaScript's `String(n)` for non-negative
  integers and `padStart`. It also reads digit strings back into numbers.
- `nasa_apod.dfy`: module `NasaApod` models `src/lib/nasa-apod.ts`. It has a
  small JSON datatype, the schema as a predicate, `safeParse` as a function,
  the `fetchApod` ladder, and `isApodError`.
- `on_this_day.dfy`: module `OnThisDay` models `src/app/on-this-day/page.tsx`.
  It has the date-list loop, the fetch-and-split loop, an in-place sort on an
  array, the render choice, and the whole page pipeline.

The environment is passed in as inputs:

- The clock is replaced by the parameters `currentYear`, `month` (1-based) and `day`.
- The HTTP exchange for a date is the function `transport: string -> Transport`.
  Its result is either `Threw(...)` (an `Error` object with its message, or some
  other thrown value) or `Responded(status, text)`.
- `response.ok` is a status in 200-299, as the Fetch standard defines it.
- `JSON.parse` is the function `parse: string -> Option<Json>`. `None` means
  the parser threw.

Dates are compared lexicographically as strings. For well-formed `YYYY-MM-DD`
strings this is the same order as comparing `new Date(...).getTime()`.

Two behaviours of the date list follow from the code as written:

- The guard on page.tsx:21 would skip 1995 before June 20. It never fires,
  because `startYear` on page.tsx:18 is `max(1996, 1995) = 1996`, so the loop
  never reaches 1995. `StartYear`, `SkipsYear` and `DateListEntry` prove this.
- No date arithmetic is done. On February 29 the page requests `YYYY-02-29` for
  every past year, leap year or not. The page's own empty-state text
  (page.tsx:75) mentions leap days as a reason for missing pictures.
  `LeapDayNotRolled` and `LeapDayExample` prove this.

## Model

| member | source | states |
|---|---|---|
| `Text.NatToString` | src/app/on-this-day/page.tsx:22 | `String(n)` gives one or more decimal digits; the first is never '0' unless n is 0, and then the string is exactly one character |
| `Text.NatToStringRoundTrip` | src/app/on-this-day/page.tsx:22 | reading back the digits `String(n)` writes gives n |
| `Text.NatToStringFourDigits` | src/app/on-this-day/page.tsx:22 | a year from 1000 to 9999 is written with four characters |
| `Text.PadStart` | src/app/on-this-day/page.tsx:22 | `padStart(width, fill)` keeps the string as its suffix, fills only the front, and reaches exactly `max(len, width)` characters |
| `Text.Pad2` | src/app/on-this-day/page.tsx:22 | `String(n).padStart(2, '0')`, the form month and day take in a date |
| `Text.Pad2Length` | src/app/on-this-day/page.tsx:22 | below 100, the padded form has exactly two characters |
| `Text.Pad2RoundTrip` | src/app/on-this-day/page.tsx:22 | a month or day below 100 becomes two digits that read back as the same number |
| `NasaApod.ConformsToSchema` | src/lib/nasa-apod.ts:3-12 | `ApodSchema`: an object whose `date`, `explanation`, `service_version`, `title` and `url` are strings, whose `copyright` and `hdurl` are absent or strings, and whose `media_type` is "image" or "video" |
| `NasaApod.SafeParse` | src/lib/nasa-apod.ts:3-12 | `safeParse` succeeds exactly when the value conforms to `ApodSchema`; on success the record holds exactly the input's schema fields, with unknown keys stripped |
| `NasaApod.SafeParseOfRecord` | src/lib/nasa-apod.ts:3-14 | validating a record's own object gives that record back |
| `NasaApod.IsOk` | src/lib/nasa-apod.ts:25 | `response.ok`: the status is in 200-299 |
| `NasaApod.StatusMessage` | src/lib/nasa-apod.ts:29 | the non-ok message ends with the response body, verbatim |
| `NasaApod.ParseBody` | src/lib/nasa-apod.ts:35 | an empty body is null without consulting the parser; any other body is what the parser makes of it |
| `NasaApod.ThrownMessage` | src/lib/nasa-apod.ts:58 | the message of a thrown Error, or "Unknown error occurred." for anything else |
| `NasaApod.FetchApod` | src/lib/nasa-apod.ts:17-61 | the result is a record exactly when the status is ok, the body is non-empty, parses, and conforms; it is then the stripped body; a non-ok status gives exactly `{status, StatusMessage(status, text)}`; every other error has code 500 |
| `NasaApod.NonOkStatusIsError` | src/lib/nasa-apod.ts:24-31 | a non-ok status gives the error `{status, "API request failed with status <status>: <text>"}` whatever the body holds |
| `NasaApod.InvalidJsonIsError` | src/lib/nasa-apod.ts:33-42 | an ok response whose body fails to parse gives `{500, "NASA API returned invalid JSON."}` |
| `NasaApod.EmptyBodyIsSchemaError` | src/lib/nasa-apod.ts:35-50 | an ok response with an empty body becomes null and gives `{500, "Failed to parse API response."}` |
| `NasaApod.NonConformingIsSchemaError` | src/lib/nasa-apod.ts:44-51 | an ok response whose parsed body fails the schema gives `{500, "Failed to parse API response."}` |
| `NasaApod.RecordBodyIsFound` | src/lib/nasa-apod.ts:44-53 | an ok response whose body is a record's object returns that record |
| `NasaApod.ThrownIsError` | src/lib/nasa-apod.ts:54-60 | anything thrown becomes an error with code 500; a thrown Error's message becomes `msg`; a thrown non-Error value gets "Unknown error occurred." |
| `NasaApod.IsApodError` | src/lib/nasa-apod.ts:63-65 | having a `code` key holds exactly for error values; a record never has one |
| `OnThisDay.DateList` | src/app/on-this-day/page.tsx:17-23 | the list has one entry per year from currentYear - 1 down to the start year |
| `OnThisDay.Max` | src/app/on-this-day/page.tsx:18 | `Math.max`: at least both arguments, and equal to one of them |
| `OnThisDay.StartYear` | src/app/on-this-day/page.tsx:18 | `startYear` is the floor year 1996, past the inception year 1995 |
| `OnThisDay.SkipsYear` | src/app/on-this-day/page.tsx:21 | the skip guard can only hold of 1995, a year before the start year |
| `OnThisDay.FormatDate` | src/app/on-this-day/page.tsx:22 | a date string is the year, '-', the padded month, '-', the padded day |
| `OnThisDay.DatesToFetch` | src/app/on-this-day/page.tsx:17-23 | the loop that pushes onto `datesToFetch` produces exactly the date list |
| `OnThisDay.DateListLength` | src/app/on-this-day/page.tsx:18-20 | the start year is 1996; the list has currentYear - 1996 entries, or none when currentYear - 1 is below 1996 |
| `OnThisDay.DateListEntry` | src/app/on-this-day/page.tsx:18-22 | entry i is the date in year currentYear - 1 - i, so the years strictly decrease; that year is at least 1996, so the 1995 skip never applies |
| `OnThisDay.FormatDateShape` | src/app/on-this-day/page.tsx:14-22 | for a four-digit year and a real month and day, an entry is ten characters `YYYY-MM-DD` whose parts read back as the year, month and day |
| `OnThisDay.SameMonthDay` | src/app/on-this-day/page.tsx:22 | every entry ends in the same `-MM-DD` |
| `OnThisDay.FormatDateSuffix` | src/app/on-this-day/page.tsx:22 | with month and day below 100, a date ends in `-MM-DD` |
| `OnThisDay.LeapDayNotRolled` | src/app/on-this-day/page.tsx:22 | on February 29 every entry is `<year>-02-29`, leap year or not |
| `OnThisDay.LeapDayExample` | src/app/on-this-day/page.tsx:22 | on 2024-02-29 the first entry is `2023-02-29`, and 2023 is not a leap year |
| `OnThisDay.Fetched` | src/app/on-this-day/page.tsx:28-29 | one response per date |
| `OnThisDay.Client` | src/app/on-this-day/page.tsx:29 | the page's call `fetchApod(date)`: the date's transport outcome through the classification ladder |
| `OnThisDay.SuccessesPlusFailures` | src/app/on-this-day/page.tsx:25-36 | every response is either kept or counted: records plus failures equal responses |
| `OnThisDay.SuccessesAreTheRecords` | src/app/on-this-day/page.tsx:30-31 | a record is kept exactly when some response is that record |
| `OnThisDay.FailureCountPositive` | src/app/on-this-day/page.tsx:32-33 | the failure count is positive exactly when some response is an error |
| `OnThisDay.CollectResults` | src/app/on-this-day/page.tsx:25-36 | for any fetch function, the loop leaves `apodResults` equal to the records among the responses, in fetch order, and `failedCount` equal to the number of errors; together they number the dates |
| `OnThisDay.Before` | src/app/on-this-day/page.tsx:39 | the comparator's order: lexicographic on the date strings, which is chronological for `YYYY-MM-DD` |
| `OnThisDay.BeforeIrreflexive` | src/app/on-this-day/page.tsx:38-40 | no date is before itself |
| `OnThisDay.BeforeAsymmetric` | src/app/on-this-day/page.tsx:38-40 | two dates are never each before the other |
| `OnThisDay.BeforeTotal` | src/app/on-this-day/page.tsx:38-40 | of two different dates, one is before the other |
| `OnThisDay.BeforeTransitive` | src/app/on-this-day/page.tsx:38-40 | the date order is transitive |
| `OnThisDay.NotBeforeTransitive` | src/app/on-this-day/page.tsx:38-40 | "not older than" is transitive |
| `OnThisDay.SwapDown` | src/app/on-this-day/page.tsx:38-40 | exchanging two neighbours changes only them and keeps the multiset |
| `OnThisDay.InsertDown` | src/app/on-this-day/page.tsx:38-40 | inserting the next record leaves the prefix up to it newest first and a permutation of what it held; entries after it are left as they were |
| `OnThisDay.SortNewestFirst` | src/app/on-this-day/page.tsx:38-40 | the in-place sort leaves the array newest first and a permutation of what it held |
| `OnThisDay.NewestFirstExample` | src/app/on-this-day/page.tsx:38-40 | records dated 2021-06-20, 2019-06-20 and 2023-06-20 can only end up as 2023, 2021, 2019 |
| `OnThisDay.BannerTwoOfFive` | src/app/on-this-day/page.tsx:59 | two failures out of five dates read "2 of 5 APOD entries could not be retrieved." |
| `OnThisDay.BannerText` | src/app/on-this-day/page.tsx:59 | the banner's sentence: `<failed> of <total> APOD entries could not be retrieved.` |
| `OnThisDay.Render` | src/app/on-this-day/page.tsx:54-78 | the banner appears exactly when `failedCount > 0` and reports failedCount of the total; the grid holds the sorted records when there are any; otherwise the empty-state notice is shown |
| `OnThisDay.OnThisDayPage` | src/app/on-this-day/page.tsx:11-82 | the banner appears exactly when some date's response is an error, and its count is the number of error responses out of all dates; failures plus records equal the number of dates; the grid appears exactly when some response is a record; it then shows exactly the fetched records, newest first; if every date fails, the empty-state notice is shown |

## Left out

- The HTTP request, the URL and the API key from the environment (src/lib/nasa-apod.ts:18-22). These are I/O; the model takes the outcome of each exchange as the input `transport`.
- How `JSON.parse` and the zod library work inside. Parsing is the input `parse`, and the schema is stated directly as a predicate. A JSON number is kept as a real; the schema never looks at one.
- `console.error` logging, the `revalidate` cache hints, and the 300 ms delay between requests. They are logging and timing, with no effect on any result.
- `new Date()`. The current year, month and day are parameters.
- `async`/`await`. The model runs the requests one after another, as the page does.
- The JSX markup, the `format(today, 'MMMM do')` header text, and the `OnThisDayCard` component. The card component is not part of this model.
- Comparing malformed date strings. `new Date(...)` gives NaN for them, so the comparator's order is undefined; the model compares the strings lexicographically.
- `OnThisDay.SortNewestFirst`: does not state that records with equal dates keep their fetch order. ECMAScript's sort is stable, but each date is requested once, so two records do not share a date in practice.
