# linear-cli issue listing, modelled in Dafny

This project models the two pieces of logic in the `linear-cli` command-line client for the Linear
issue tracker that decide what a user sees when listing issues:

- **`Client::req`** (`src/client.rs`): after one GraphQL round trip, the decoded response envelope
  `{data?, errors?}` is classified. A non-empty `errors` list wins, even over present data: every
  error is logged in list order and the *last* one's message is reported as `graphql error: <msg>`.
  An absent or empty list falls through. Missing `data` is the error `no data`. Present data is
  returned unchanged. A failure to send the request or to decode the body propagates first.
- **`list_issues::request`** (`src/requests/list_issues.rs`): the pagination loop. Every page
  request asks for `PER_PAGE = 100` issues in the chosen order (`createdAt` or `updatedAt`) after
  the previous page's end cursor. The first request has no cursor. Each page's issues pass through
  two client-side filters: an assignee display-name match and a state-type match against the
  lower-case tags of the requested `IssueState`s. They are then appended in server order. The loop
  stops on a page without a next page, then (only if more pages exist) once a limit `n` is
  reached. It never truncates to `n`. Any request error ends the whole call with that error.

Modules:

- `Wrappers` (`wrappers.dfy`) holds `Option`.
- `Iterators` (`iterators.dfy`) holds `Filter`, Rust's `Iterator::filter` over sequences, with the
  facts that it keeps order, distributes over concatenation and that two filters compose into
  their conjunction.
- `Client` (`client.dfy`) models the envelope handling. The HTTP round trip is represented by its
  outcome, a `Reply`: send failure, undecodable body, or decoded envelope.
- `ListIssues` (`list_issues.dfy`) models the enums and their mappings, the filters, the loop as a
  function (`Drive`/`Paginate`), a loop-free characterisation of every run (`Explains`) proved
  equivalent to it, and the imperative method `Request` with its loop. `Request` is proved equal to
  the function and to send exactly the request trace described by `IsRequestTrace`.

The service is an oracle: a finite sequence of replies, where `server[i]` is what request `i`
(counting from zero) received. When the loop wants a reply beyond the end of that sequence, the run
ends as `Unanswered` with the unanswered request counted. The real program would wait for the
service at that point.

Behaviours the code does not have, and which the model therefore does not have either:

- page-size shrinking: the page size is always 100, however few issues remain to reach the limit;
- a zero-limit short-circuit: `n = Some(0)` still issues one request (`ZeroLimitSendsOneRequest`);
- a page-count ceiling;
- excluded-state lists turned into their complement: the code only has inclusion lists.

## Model

| member | source | states |
|---|---|---|
| `Iterators.Filter` | src/requests/list_issues.rs:74-94 | a filter never yields more items than it is given |
| `Iterators.FilterMembers` | src/requests/list_issues.rs:74-94 | an item is in the filtered sequence iff it is in the input and passes the predicate |
| `Iterators.FilterIsSubsequence` | src/requests/list_issues.rs:69-95 | filtering neither reorders nor duplicates: the result is a subsequence of the input |
| `Iterators.FilterAppend` | src/requests/list_issues.rs:69-95 | filtering page after page equals filtering the concatenated pages |
| `Iterators.FilterChain` | src/requests/list_issues.rs:74-94 | the two chained `.filter` calls keep exactly what their conjunction keeps |
| `Client.Classify` | src/client.rs:35-46 | a service error is reported iff the error list is non-empty, with the last error's message; `no data` iff no errors and no data; otherwise success carrying the envelope's data unchanged |
| `Client.Req` | src/client.rs:23-46 | a send or body-decoding failure is a transport error raised before any classification; a decoded envelope is classified |
| `Client.ReqLog` | src/client.rs:37-39 | nothing is logged unless an envelope was decoded |
| `Client.LastErrorWins` | src/client.rs:35-42 | with a non-empty error list, the reported message is the last error's, whatever precedes it and whether or not data is present |
| `Client.EmptyErrorsIgnored` | src/client.rs:35-44 | an empty error list behaves exactly like an absent one and logs nothing |
| `Client.ReportOneLogAll` | src/client.rs:35-42 | a service error is reported iff something is logged; then every error of the list is logged in list order and the reported one is the last logged |
| `Client.DataPassesThrough` | src/client.rs:43-46 | with no errors, absent data is `no data` and present data is returned unchanged; nothing is logged |
| `Client.TwoErrorsReportTheLast` | src/client.rs:35-42 | errors `A` then `B` report `graphql error: B` and log both, in order |
| `ListIssues.SortOrders` | src/requests/list_issues.rs:47-50 | creation time sorts by `createdAt`, update time by `updatedAt`, and the two orders differ |
| `ListIssues.TagsAreABijection` | src/requests/list_issues.rs:84-90 | the state-to-tag mapping is injective and onto exactly `started`, `unstarted`, `backlog`, `completed`, `canceled` |
| `ListIssues.AnyStateMatches` | src/requests/list_issues.rs:84-90 | `any` over the listed states holds iff some listed state's tag equals the issue's state type |
| `ListIssues.StateFilterMembership` | src/requests/list_issues.rs:81-93 | a state list keeps an issue iff the issue's state type is the tag of a state in the list |
| `ListIssues.FilterEdgeCases` | src/requests/list_issues.rs:74-93 | unset filters keep everything; an assignee filter rejects unassigned issues; `Some([])` rejects every issue; a state list rejects unknown state types |
| `ListIssues.PassingNodesIsConjunction` | src/requests/list_issues.rs:69-95 | what a page contributes is its nodes filtered by the conjunction of both filters, as a subsequence of the page |
| `ListIssues.DriveExplained` | src/requests/list_issues.rs:52-109 | from any point reached by the loop, the remaining run ends as the loop-free description says |
| `ListIssues.PaginateExplained` | src/requests/list_issues.rs:34-110 | every call issues at least one request and ends as the loop-free description says: success after a page that stops the loop, the error of the first failed request, or every reply used up with no stop |
| `ListIssues.ExplanationIsUnique` | src/requests/list_issues.rs:52-109 | the loop-free description allows exactly one outcome and request count for a given server |
| `ListIssues.PaginateIffExplains` | src/requests/list_issues.rs:34-110 | a run is the loop's run iff it fits the loop-free description |
| `ListIssues.CollectedIsFilteredNodes` | src/requests/list_issues.rs:69-95 | the accumulated issues after k pages are all nodes of those pages filtered, in fetch order |
| `ListIssues.ResultIsFilteredFetchOrder` | src/requests/list_issues.rs:69-98 | a successful result is exactly the passing subsequence of all fetched issues, in fetch order |
| `ListIssues.FinalPageEndsCall` | src/requests/list_issues.rs:97-99 | a page without a next page ends the call with everything accumulated, whatever the limit and however few issues passed |
| `ListIssues.LimitStop` | src/requests/list_issues.rs:97-105 | the result is the earlier pages' issues plus the last page's passing issues; stopping while pages remain means a limit is set and met; with a positive limit the earlier pages held fewer than the limit, so the overrun is at most one page |
| `ListIssues.ZeroLimitSendsOneRequest` | src/requests/list_issues.rs:101-105 | with `n = Some(0)` exactly one request is issued, even when no reply is modelled, and a successful first page is returned whole after filtering |
| `ListIssues.FirstPageMeetsLimit` | src/requests/list_issues.rs:101-105 | a first page whose passing issues already reach the limit ends the call with all of them, untruncated |
| `ListIssues.ErrorEndsCall` | src/requests/list_issues.rs:64-67 | a failed call returns the error of its last request, all earlier requests having succeeded; no partial result is returned |
| `ListIssues.SecondRequestFails` | src/requests/list_issues.rs:64-67 | a transport failure on the second request ends the call with that error after two requests |
| `ListIssues.FinalPageBoundsRequests` | src/requests/list_issues.rs:97-99 | if reply k is a final page, the call returns after at most k + 1 requests |
| `ListIssues.RequestsDifferOnlyInCursor` | src/requests/list_issues.rs:42-62 | every request asks for 100 issues in the same order with no `before`, `last` or `includeArchived`; the first has no cursor and each later one carries the previous page's end cursor |
| `ListIssues.Request` | src/requests/list_issues.rs:34-110 | the loop ends exactly as `Paginate` does after as many requests as it sent, and the requests it sent form the trace described above |

## Left out

- The HTTP request itself (`reqwest`, the endpoint URL, the `Authorization` and `Content-Type` headers, the JSON body) is represented only by its outcome, a `Reply`.
- The `trace!`, `debug!` and `error!` calls write to a logging backend. Only the sequence of GraphQL errors logged is modelled (`ErrorLog`/`ReqLog`), not their JSON rendering.
- The GraphQL error's `locations`, `path` and `extensions` are not modelled; only its message reaches the caller.
- Issue fields used only for printing (url, dates, priority, parent, project, labels) are not modelled, nor are `print` and `fmt_date`.
- A server that keeps answering with further pages forever cannot be a finite reply sequence. Such a run ends as `Unanswered` once the modelled replies are used up.
- The other requests (`me`, `team list`, `issue show`, `issue update`, workflow states) are one-call wrappers over `Client::req` and are not part of this model. The same holds for command-line parsing and `src/shared.rs`, whose enums duplicate those modelled here.
- `usize` is modelled by `nat`. A limit or a result length near the machine word size is not considered.
