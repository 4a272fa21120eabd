# my-gh-comments in Dafny

`my-gh-comments.ts` collects the pull-request comments written by the current
user on a code-hosting service. It gathers three kinds: issue comments, formal
reviews and inline review comments. It prints them grouped by pull request, in
time order. This project models the pure core of that script and proves its
properties. The core has three parts.

- **Normalisation** (`Comments`, comments.dfy). The three raw record shapes
  become one `GenericComment`. The order is issue comments, then reviews, then
  inline comments. A review's body is rewritten to `[STATE] body`.
- **Aggregation** (`Aggregate`, aggregate.dfy, with the generic `Flatten` and
  `Filter` of `Sequences`, sequences.dfy). The per-pull-request lists are
  flattened in search order. Only records whose username equals the login are
  kept. The result is sorted by time with the stable `toSorted`.
- **Report** (`Report`, report.dfy). This is the print loop. A pull-request
  header is printed whenever a comment's pull request differs from the previous
  comment's. Each comment is printed as a four-line block. `Scenario`
  (scenario.dfy) states the whole pipeline's output, in general and on one
  worked case.

Modelling choices:

- A pull request's identity is its position in the search result (`PrRef`).
  Every record built for one search result shares one object in the source, and
  the report compares those objects by reference. Two search results are
  therefore two groups even if they describe the same pull request.
- Timestamps are integers in milliseconds. Parsing the ISO-8601 strings
  (`new Date(s)`) is a parameter `parse: string -> int`. Formatting
  (`toLocaleString`) is a parameter `fmt: int -> string`.
- The report is the sequence of strings passed to `console.log`, one per call.
  `console.log()` contributes the empty string.
- The results of the per-pull-request queries are an input: `fetched[i]` holds
  what the two queries returned for search result `i`.
- `toSorted` returns a new array, and Dafny sequences are values, so the input
  list cannot change.
- Each comment is compared only with the comment just before it, so pull
  requests A, A, B, A print three headers (`Report.GroupingExample`).
- Groups are found by object identity, not by URL, so the model compares
  `PrRef.index`.

## Model

| member | source | states |
|---|---|---|
| `Comments.ReviewBody` | my-gh-comments.ts:84 | the review body is `[`, the state, `] `, then the original body, at exactly those positions |
| `Comments.ReviewBodyInjective` | my-gh-comments.ts:84 | for a state of known length, the rewritten body gives back both the state and the original body |
| `Comments.EmptyReviewBody` | my-gh-comments.ts:84 | an empty review body is still rewritten, to `[STATE] ` |
| `Comments.ApprovedReviewBody` | my-gh-comments.ts:84 | state APPROVED and body "looks good" give "[APPROVED] looks good" |
| `Comments.Normalize` | my-gh-comments.ts:74-93 | exactly \|comments\| + \|reviews\| + \|inline\| records, in three groups in source order; every record carries the `pr` argument; username, body and timestamp come from `author.login`/`createdAt`, `author.login`/`[state] body`/`submittedAt` and `user.login`/`created_at` respectively |
| `Sequences.Flatten` | my-gh-comments.ts:117 | `.flat()` concatenates the per-pull-request lists in order; the result is as long as all of them together |
| `Sequences.FlattenAppend` | my-gh-comments.ts:115-117 | flattening distributes over concatenation of the outer list |
| `Sequences.FlattenAt` | my-gh-comments.ts:115-117 | element j of list i sits at offset (lengths of lists 0..i-1) + j: outer and inner order are kept |
| `Sequences.FlattenMember` | my-gh-comments.ts:115-117 | a value is in the flattened list exactly when it is in one of the inner lists |
| `Sequences.Filter` | my-gh-comments.ts:120 | `.filter` keeps elements in order; every kept element comes from the input and passes the test, and the result is no longer than the input |
| `Sequences.FilterAppend` | my-gh-comments.ts:120 | filtering distributes over concatenation, so kept elements keep their relative order |
| `Sequences.FilterCount` | my-gh-comments.ts:120 | each value passing the test is kept as often as it occurs; no other value is kept |
| `Sequences.FilterMember` | my-gh-comments.ts:120 | membership in the result is membership in the input plus the test |
| `Sequences.FilterIdempotent` | my-gh-comments.ts:120 | filtering again by the same test changes nothing |
| `Sequences.FilterFlatten` | my-gh-comments.ts:115-120 | filtering the flattened list equals flattening the per-pull-request filtered lists |
| `Aggregate.PerPullRequest` | my-gh-comments.ts:116 | `commentedPrs.map(getComments)`: one list per search result, list i holding that pull request's record count, every record tagged with search result i |
| `Aggregate.Gather` | my-gh-comments.ts:115-117 | the flattened list holds the total record count of all pull requests; every record belongs to the search result at its index |
| `Aggregate.GatherOrder` | my-gh-comments.ts:115-117 | record j of pull request i comes right after the records of the pull requests found before it |
| `Aggregate.Mine` | my-gh-comments.ts:119-120 | every kept record comes from the input and has username equal to the login |
| `Aggregate.MineCount` | my-gh-comments.ts:120 | each record with the user's login is kept as often as it occurs; every other record is dropped |
| `Aggregate.MineIsCaseSensitive` | my-gh-comments.ts:120 | a record by "Alice" is dropped for login "alice" |
| `Aggregate.SortByTime` | my-gh-comments.ts:121 | the result has non-decreasing timestamps and is a permutation (same multiset) of the input |
| `Aggregate.InsertSorted` | my-gh-comments.ts:121 | inserting one record into a time-sorted list keeps it sorted |
| `Aggregate.SortStable` | my-gh-comments.ts:121 | for every timestamp, the records with that timestamp appear in the sorted list in their input order |
| `Aggregate.SortUnique` | my-gh-comments.ts:121 | two sorted lists that agree on the order of the records of every timestamp are equal |
| `Aggregate.SortCharacterized` | my-gh-comments.ts:121 | any sorted arrangement that keeps the order of equal-time records is the result of `SortByTime` |
| `Aggregate.SortSorted` | my-gh-comments.ts:121 | sorting an already sorted list returns it unchanged |
| `Aggregate.SortExample` | my-gh-comments.ts:121 | records with times 3, 1, 2 come out as 1, 2, 3 |
| `Aggregate.MyComments` | my-gh-comments.ts:115-121 | the list to print is sorted by time, holds only the user's records, each from a search result, and is a permutation of the filtered list |
| `Report.PrintReport` | my-gh-comments.ts:123-138 | the loop with the `previousPr` variable prints exactly `Lines`: before comment i a header (separator, title, url, blank) iff i = 0 or its pull request differs from comment i-1's, then the four-line block |
| `Report.Lines` | my-gh-comments.ts:123-138 | the printed report (header when a comment starts a group, then its block, as `PrintReport` is proved to print) has 4 lines per comment plus 4 per header, so no comments print nothing |
| `Report.HeaderCountBounds` | my-gh-comments.ts:123-133 | a non-empty report has at least one header, and there is at most one header per comment |
| `Report.EmptyReport` | my-gh-comments.ts:123-124 | no comments print nothing |
| `Report.LinesPrefix` | my-gh-comments.ts:124-137 | the report for the first i comments, followed by comment i's entry, is a prefix of the whole report |
| `Report.UnderOwnHeader` | my-gh-comments.ts:123-133 | every comment is printed under a header for its own pull request, with no other header in between |
| `Report.EveryPullRequestHasHeader` | my-gh-comments.ts:125-133 | there are at least as many headers as distinct pull requests |
| `Report.ContiguousOneHeaderEach` | my-gh-comments.ts:125-133 | when each pull request's comments are adjacent, there is exactly one header per pull request |
| `Report.GroupingExample` | my-gh-comments.ts:123-137 | pull requests A, A, B, A print the exact lines with three headers, the last one for A again |
| `Scenario.RunReport` | my-gh-comments.ts:115-138 | the whole pipeline's report has one four-line block per record of the user plus four lines per header, and is empty exactly when the user wrote none of the fetched records |
| `Scenario.NoneMine` | my-gh-comments.ts:120 | the filter keeps nothing exactly when no record has the user's login |
| `Scenario.OnePullRequest` | my-gh-comments.ts:74-137 | one pull request with the user's issue comment, another user's review and the user's later inline comment prints one header and the user's two blocks in time order |
| `Scenario.OnePullRequestExample` | my-gh-comments.ts:74-137 | alice's "fixed" and "lgtm" under the single header "Fix bug"; bob's review is dropped |

## Left out

- `runCommandAndParseAsJson` (my-gh-comments.ts:98-109) is left out: it spawns the `gh` client, decodes its output, parses JSON and logs the command line. Its results are model inputs.
- `getUsername` and `getCommentedPrs` (my-gh-comments.ts:41-54) are left out: they are thin wrappers over the client. The login and the search result are parameters.
- The query sequencing inside `getComments` (my-gh-comments.ts:61-72) is left out. What the two queries return is the `Fetched` input.
- The `Promise.all` fan-out (my-gh-comments.ts:116) is left out, with its fail-fast error propagation: one failing query aborts the run. The model takes one already-collected result per search result.
- Date parsing with `new Date(...)` is left out, including the `NaN` time of an unparsable string and how `toSorted` behaves on it. Timestamps are the integers `parse` returns.
- `toLocaleString` is left out. It is the uninterpreted `fmt`.
- The top-level `await` sequencing (my-gh-comments.ts:111-113) is left out.
- A comment body containing line breaks is still one `console.log` call and one entry of the report. The model does not split it into terminal lines.
