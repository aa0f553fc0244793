# Portfolio site: contribution calendar, navigation and project modal

A Dafny model of the logic in a personal portfolio site (React and
TypeScript). There are four pieces, one module each:

- **Contributions** is the fetcher for the GitHub contribution calendar. From
  an optional year it builds the `from`/`to` request window and the GraphQL
  variables. It then classifies the response in a fixed order: transport
  status first, then reported GraphQL errors, then the
  `data.user.contributionsCollection.contributionCalendar` path. The network
  round trip is a function parameter, `send`, from request variables to an
  abstract response.
- **ContributionGraph** is the calendar widget:
  - the colour step of a day cell;
  - the month-label row above the grid, a loop proved against a labelling
    rule that is shown to determine the row uniquely;
  - the three-year window;
  - the `Widget` class, with one method per event: mount, load start, load
    completion, year button, hover and leave. The state is selected year,
    year-indexed record, loading flag, error and hovered day;
  - the three-way render choice (skeleton, notice, grid with tooltip).
- **Navigation** is the navigation bar:
  - the scroll handler, a first-match scan over the seven sections, proved
    against a recursive `FirstHit`;
  - the menu's open/closed flag, the menu toggle and scroll-to-section.
- **ProjectModal** holds the highlight heading
  `key.replace(/([A-Z])/g, ' $1').trim()`, as recursive string functions with
  lemmas, and the conditions for the Features and Highlights blocks.

`Wrappers` holds `Option` (JavaScript `undefined`/`null`) and `Result` (a
thrown error is `Err`).

JavaScript details kept in the model:
- A year of `0` is falsy, so it gives no window, like an absent year.
- `res.ok` means a status from 200 to 299.
- An empty `errors` array is still truthy. Reading `message` from its missing
  first entry throws a TypeError rather than producing a GraphQL error.
- An `errors` entry without a `message` is written as `undefined`.
- Reading a property of a missing `data`, `user` or `contributionsCollection`
  throws.
- A missing final `contributionCalendar` is returned as `undefined` without
  throwing. That is how the widget can reach "No data available".
- `getColor` puts a negative count in the first green step, because the
  source only tests `count === 0` and then `count <= 3`.

The month-label row is computed by `MonthLabels` from the selected year's
calendar (`ActiveCalendar()`) and drawn above the grid (lines 97-99 and 216 of
`GithubContributionGraph.tsx`). The cell colours come from `GetColor`. The
`Grid` view does not carry these two; they are separate members.

Two behaviours one might expect are not in the code, so they are not in the
model:
- Switching the year does not clear the hovered day (line 190 of
  `GithubContributionGraph.tsx` only sets the selection).
- The load effect has no guard against completing after the widget is torn
  down.

## Model

| member | source | states |
|---|---|---|
| Contributions.IntToString | src/lib/useGithubContributions.ts:23-24 | the text `${n}` of an integer: a minus sign exactly for a negative number, then canonical digits (at least one, no leading zero, never `-0`) |
| Contributions.IntToStringRoundTrip | src/lib/useGithubContributions.ts:23-24 | the decimal text `${year}` written into the window reads back as the same integer, negative years included |
| Contributions.CanonicalDigitsUnique | src/lib/useGithubContributions.ts:23-24 | canonical digit text is the only text of its value |
| Contributions.ParseIntOnlyCanonical | src/lib/useGithubContributions.ts:23-24 | the only string that reads back as an integer is the text `${n}` writes for it; zero-padded or `-0` text reads back as nothing |
| Contributions.RequestWindow | src/lib/useGithubContributions.ts:23-24 | `from` and `to` are present exactly when the year is given and non-zero (truthy); each ends in `-01-01T00:00:00Z` or `-12-31T23:59:59Z` and the text before the suffix reads back as the year, which by `BoundYearFixesText` makes it exactly `${year}` |
| Contributions.BoundYearFixesText | src/lib/useGithubContributions.ts:23-24 | a bound that names a year is exactly that year's text `${year}` followed by the suffix |
| Contributions.WindowsDistinguishYears | src/lib/useGithubContributions.ts:23-24 | two non-zero years get the same window exactly when they are equal, and a window's two bounds always differ |
| Contributions.RequestVariables | src/lib/useGithubContributions.ts:53-56 | the variables carry exactly the username and the window's two bounds |
| Contributions.StatusOk | src/lib/useGithubContributions.ts:59 | `res.ok` holds exactly for a 2xx status |
| Contributions.FirstErrorMessage | src/lib/useGithubContributions.ts:66 | the first entry's message, or `undefined` when that entry has none |
| Contributions.ErrorMessage | src/lib/useGithubContributions.ts:59-67 | a status failure's message is `GitHub API error: ` followed by text that parses back to the status; a GraphQL failure's message is `GraphQL error: ` followed by the first error's message |
| Contributions.Classify | src/lib/useGithubContributions.ts:59-69 | a non-ok status fails with that status whatever the body; an ok status with a non-empty `errors` array fails with the first message; an empty array throws a TypeError; with no `errors`, a missing step of the data path throws a TypeError; success happens exactly when the status is ok, there is no `errors` and the path reaches `contributionCalendar`, whose value is returned unchanged |
| Contributions.StatusCheckedBeforeBody | src/lib/useGithubContributions.ts:59-61 | with a failing status the body has no influence on the outcome |
| Contributions.ErrorsCheckedBeforeData | src/lib/useGithubContributions.ts:65-67 | when `errors` is present the data path has no influence on the outcome |
| Contributions.FetchContributions | src/lib/useGithubContributions.ts:18-70 | for the response to the request built from the username and the year: a non-ok status fails with that status; an ok status with a non-empty `errors` array fails with the first message; an empty array throws a TypeError; with no `errors`, a missing step of the data path throws a TypeError; the call succeeds exactly when the status is ok, there is no `errors` and the path reaches `contributionCalendar`, and then returns that calendar unchanged |
| ContributionGraph.StepRanges | src/components/ui/GithubContributionGraph.tsx:12-18 | counts below 1, 1 to 3, 4 to 6, 7 to 9 and 10 or more fall in steps 0 to 4 |
| ContributionGraph.GetColor | src/components/ui/GithubContributionGraph.tsx:12-18 | a non-negative count gets the legend colour of its step (legend order at line 266); a negative count gets the first green; the neutral colour is given exactly for a count of 0 |
| ContributionGraph.StepMonotone | src/components/ui/GithubContributionGraph.tsx:12-18 | for non-negative counts, a larger count never gets a lower step |
| ContributionGraph.TopStepUnbounded | src/components/ui/GithubContributionGraph.tsx:17 | every count of 10 or more gets the last legend colour |
| ContributionGraph.WeekMonths | src/components/ui/GithubContributionGraph.tsx:104-106 | one month per week, taken from the week's first day |
| ContributionGraph.LabelStep | src/components/ui/GithubContributionGraph.tsx:107-110 | a week after week 0 whose month differs from the last labelled month gets the label `MONTHS[month]` at its index, and its month becomes the last labelled one |
| ContributionGraph.SkipStep | src/components/ui/GithubContributionGraph.tsx:104-110 | week 0, and a week whose month equals the last labelled one, add no label and leave the last labelled month as it was |
| ContributionGraph.MonthLabels | src/components/ui/GithubContributionGraph.tsx:99-113 | no calendar gives no labels; otherwise the result follows the labelling rule: each label is on a week from 1 to the last, names that week's month, and there is one at week 1 when there are two or more weeks. Offsets strictly increase and consecutive labels name different months. Every unlabelled week after week 0 has the month of the label before it |
| ContributionGraph.GapMonth | src/components/ui/GithubContributionGraph.tsx:104-110 | the weeks between two labels, and after the last label, have the earlier label's month |
| ContributionGraph.NextLabelDiffers | src/components/ui/GithubContributionGraph.tsx:107-109 | consecutive labels are at increasing offsets inside the row and name different months |
| ContributionGraph.LabellingAgreesAt | src/components/ui/GithubContributionGraph.tsx:99-113 | two rows that both follow the labelling rule agree at every position they share |
| ContributionGraph.LabellingUnique | src/components/ui/GithubContributionGraph.tsx:99-113 | the labelling rule determines the row: only one label row follows it for a given sequence of week months |
| ContributionGraph.LabelsInsideRow | src/components/ui/GithubContributionGraph.tsx:215-220 | each label's left edge `offset * 15` is at least one column in and lies inside the row width `weeks.length * 15` |
| ContributionGraph.YearWindow | src/components/ui/GithubContributionGraph.tsx:61 | three consecutive, strictly increasing years ending in the current year |
| ContributionGraph.ContributionNoun | src/components/ui/GithubContributionGraph.tsx:295 | the noun is singular exactly when the count is 1 |
| ContributionGraph.FetchedValues | src/components/ui/GithubContributionGraph.tsx:76-78 | when all fetches succeed, the joined values are the per-year results in order |
| ContributionGraph.MapByYear | src/components/ui/GithubContributionGraph.tsx:80-83 | the record's keys are exactly the years, and each year is bound to the value at its position (the last position for a repeated year) |
| ContributionGraph.Widget.constructor | src/components/ui/GithubContributionGraph.tsx:60-67 | the years are the current year and the two before it; the current year is selected; the record is empty; loading is on; there is no error and no hovered day |
| ContributionGraph.Widget.ActiveCalendar | src/components/ui/GithubContributionGraph.tsx:97 | the selected year's entry of the record, and `undefined` when the record has no such year |
| ContributionGraph.Widget.BeginLoad | src/components/ui/GithubContributionGraph.tsx:72-73 | a load starts with loading on and the error cleared, the record kept |
| ContributionGraph.Widget.CompleteLoad | src/components/ui/GithubContributionGraph.tsx:75-91 | if all fetches succeed, the record holds exactly the three years, each bound to its own result, and the error is kept; if any fails, the error is `Failed to load GitHub activity`, the record is unchanged and the widget shows that message; loading ends in both cases |
| ContributionGraph.Widget.SelectYear | src/components/ui/GithubContributionGraph.tsx:187-190 | a year button sets the selection to that year and changes nothing else, starting no load |
| ContributionGraph.Widget.Hover | src/components/ui/GithubContributionGraph.tsx:115-124 | without a container nothing changes; otherwise the hovered day holds the cell's date, its count and the pointer position relative to the container's top-left corner |
| ContributionGraph.Widget.Leave | src/components/ui/GithubContributionGraph.tsx:126 | leaving a cell clears the hovered day |
| ContributionGraph.Widget.Render | src/components/ui/GithubContributionGraph.tsx:128-157 | the skeleton shows exactly while loading; otherwise an error or a missing calendar shows the error text or `No data available`; otherwise the grid shows the provider's own total, the selected year, the weeks and a row width of 15 per week. A tooltip is shown exactly when a day is hovered, placed at the hovered position, with the hovered date and the count followed by the noun (lines 181, 215, 276-296) |
| ContributionGraph.Widget.LoadedShowsGrid | src/components/ui/GithubContributionGraph.tsx:97-155 | after a successful load the grid shows exactly when the selected year's calendar is defined, and `No data available` comes only from an undefined calendar |
| Navigation.Hit | src/components/Navigation.tsx:26-28 | a section is hit exactly when its element exists and its rectangle has top at most 100 and bottom at least 100 |
| Navigation.FirstHit | src/components/Navigation.tsx:25-33 | returns the position of a section whose element exists and straddles the line at 100 with no such section before it, and nothing exactly when no section qualifies |
| Navigation.FirstHitIgnoresLaterSections | src/components/Navigation.tsx:25-31 | sections after the first match are never looked at: a page that agrees up to the match gives the same answer |
| Navigation.Navigation.constructor | src/components/Navigation.tsx:15-16 | the home section is active and the menu is closed |
| Navigation.Navigation.HandleScroll | src/components/Navigation.tsx:19-34 | the first section in list order whose element exists and straddles the line becomes active; with no match the active section is unchanged; the active section is always one of the seven ids |
| Navigation.Navigation.ScrollToSection | src/components/Navigation.tsx:40-46 | the menu closes only when the target element exists, otherwise it keeps its state |
| Navigation.Navigation.ToggleMenu | src/components/Navigation.tsx:89 | the menu button flips the open flag |
| ProjectModal.SpaceBeforeCapitals | src/components/ui/ProjectModal.tsx:123 | one character is added per capital A to Z, and every capital in the result follows a space |
| ProjectModal.SpacingRoundTrip | src/components/ui/ProjectModal.tsx:123 | removing the space in front of every capital gives the key back, so nothing but those spaces is inserted and no other character is touched |
| ProjectModal.TrimStart | src/components/ui/ProjectModal.tsx:123 | the result is a suffix of the input, starts with a visible character or is empty, and only white space was dropped |
| ProjectModal.TrimEnd | src/components/ui/ProjectModal.tsx:123 | the result is a prefix of the input, ends with a visible character or is empty, and only white space was dropped |
| ProjectModal.Trim | src/components/ui/ProjectModal.tsx:123 | `trim` leaves no white space at either end and removes no visible character |
| ProjectModal.FormatHeading | src/components/ui/ProjectModal.tsx:123 | the heading has no white space at either end, and its visible characters are exactly the key's, in the same order |
| ProjectModal.TrimMiddle | src/components/ui/ProjectModal.tsx:123 | `trim` keeps a contiguous slice of the input and drops only white space before and after it, so it removes nothing from the middle |
| ProjectModal.HeadingLength | src/components/ui/ProjectModal.tsx:123 | the heading is a slice of the spaced key with only white space before and after it, and its length is the key's length plus its number of capitals minus the white space trimmed at the two ends |
| ProjectModal.SpacingKeepsVisible | src/components/ui/ProjectModal.tsx:123 | inserting the spaces adds no visible character |
| ProjectModal.HeadingSeparatesWords | src/components/ui/ProjectModal.tsx:123 | every capital in the heading, except one at the very start, is preceded by a space |
| ProjectModal.HeadingStartsWithLeadingCapital | src/components/ui/ProjectModal.tsx:123 | a key that starts with a capital gains no leading space: the heading starts with that capital |
| ProjectModal.NoCapitalsNoSpacing | src/components/ui/ProjectModal.tsx:123 | a key without capitals is not changed by the replacement |
| ProjectModal.HeadingKeepsPlainKey | src/components/ui/ProjectModal.tsx:123 | a key with no capitals and no white space at either end is shown as it is |
| ProjectModal.FeaturesBlock | src/components/ui/ProjectModal.tsx:102-113 | the Key Features block appears exactly when the list is defined and non-empty, and shows the features as given |
| ProjectModal.HighlightsBlock | src/components/ui/ProjectModal.tsx:116-127 | the Technical Highlights block appears exactly when there is at least one entry, with one formatted heading and its text per entry, in entry order |

## Left out

- Network transport is not modelled: `fetch`, the bearer token, the query text and JSON decoding. A body that fails to decode, or decodes to `null`, is outside the `Response` datatype.
- Asynchrony is not modelled: `Promise.all`, effect scheduling and the order in which the fetches settle. `CompleteLoad` takes the joined outcome as one sequence of per-year results.
- ContributionGraph.Widget.BeginLoad: models the load effect only as it starts at mount. The username, the current year and the year window are fixed when the widget is built, so the model has no re-fetch when the username changes, and no re-fetch when the clock passes New Year and moves the window. It also does not capture what follows that move: a selected year that leaves the window has no calendar, and the widget shows "No data available". `selectedYear in years` in the widget invariant holds only because the clock is fixed.
- Error logging (`console.error`) is not modelled.
- ContributionGraph.WeekMonths: `new Date(firstDay).getMonth()` depends on the local time zone, so it is the parameter `monthOf`, which always returns a month from 0 to 11. An invalid date, whose month is NaN, is not modelled.
- `toLocaleString` for the total and `toLocaleDateString` for the tooltip date are not modelled. The total is kept as a number and the date as the provider's string.
- Bounding-rectangle coordinates are floating point in the browser; here they are integers.
- Years, counts and statuses are integers; non-integer numbers are not modelled.
- `scrollIntoView`, the window scroll listener and its removal, and the body `overflow` toggling in the project modal are effects and are not modelled.
- ProjectModal.TrimStart, ProjectModal.TrimEnd: `trim` removes every Unicode white-space and line-terminator character. The model uses a fixed set: ASCII white space, line feed, carriage return, no-break space, line and paragraph separators, and the byte-order mark. Other Unicode space separators are not in it.
- The `capitalize` style on the heading only changes how the text looks. The model works on the text itself.
- Contributions.ErrorMessage: the message of a thrown TypeError is defined by the JavaScript engine, so it is not modelled; the function covers only the two errors the fetcher throws itself.
- Contributions.IntToString: writes every integer in plain decimal. JavaScript writes a number of magnitude 10^21 or more in exponent form (`1e+21`), and integers beyond 2^53 are not exact. So for such a year or status, the text `${n}` differs from this model. Years from `getFullYear` and HTTP statuses stay far below both limits.
- The heading's entries come from `Object.entries`, which lists integer-like keys first. The model takes the entries as an already ordered sequence.
- Toast timers, animation, styling and the purely presentational sections and components are not modelled.
