# backlog-tui: a Dafny model of the issue browser's core

backlog-tui is a terminal dashboard that lists the issues of a Backlog
project and lets the user browse them with the keyboard. This project models
the part of it that has invariants:

- **the cursor over the issue list** (`StatefulList`): `next` and `previous`
  move a selection that clamps at both ends, and `unselect` clears it
  (module `Selection`, `selection.dfy`);
- **the data it shows** (`Issue`, `Comment`, `User`, `Status`), with an
  issue's comments as a lazily filled cache that is absent after decoding
  (module `Entities`, `entities.dfy`);
- **the API client** (`BacklogClient`): how the request URL and the query
  list are assembled, with the API key first, the fixed issue-list
  parameters, one `statusId[]` per comma-separated piece of the configured
  status list, the comment endpoint, and the filter that keeps only comments
  with content (module `Client`, `client.dfy`);
- **the application state** (`App`): start-up, the selected issue, and
  `on_down`, which moves down and fetches the newly selected issue's comments
  only if they are not cached yet, swallowing a failed fetch so that a later
  visit retries (module `Application`, `application.dfy`);
- **the key dispatch** of the input loop `run_app`: `q` quits, Left
  unselects, `j`/`k` move (module `Events`, `events.dfy`).

`Option`/`Result` live in `wrappers.dfy`.

Everything is pure: states are immutable datatypes and every operation is a
function from the old state to the new one. Sending an HTTP request and
decoding its JSON body are not modelled; each fetch receives their outcome
as a parameter (`Result<seq<…>, Error>`), so a run of the program is a
function of the sequence of outcomes the network would have produced.
Environment variables are `Option<string>` parameters. In place of a per-issue
counter of fetches, a run of `on_down` calls (`DownRun`) returns the log of
fetches it made (`Fetch`: which issue, the request, whether it succeeded), and
`Fetches`/`Successes` count them per issue.

The model follows the code:

- the cursor clamps at the first and last item; it does not wrap around;
- on an empty list, `next` and `previous` from no selection select index 0,
  which does not exist (they are not no-ops); the next draw then indexes past
  the end, and a second `next` computes `len() - 1` on an unsigned zero;
- comments are fetched only by `App::on_down`; the dispatch in `run_app`
  calls the list's `next`/`previous` directly and never fetches;
- the comment filter drops only comments whose content is absent; a comment
  with empty text is kept;
- the page size is the fixed string `"100"` for both endpoints.

`Next` requires `CanAdvance` (nothing selected, or a non-empty list): with a
selection on an empty list, `items.len() - 1` underflows, which panics in a
debug build. Indexing the list (`get_selected_issue`, `on_down`, the
detail pane of the draw) requires the cursor to be in bounds; `RunApp`
models the draw's indexing as a `Panicked` outcome.

## Model

| member | source | states |
|---|---|---|
| Entities.FromRecord | src/app.rs:53-65 | a decoded issue keeps every received field and starts with its comment cache absent |
| Entities.UnloadedIsDecoded | src/app.rs:63-64 | an issue whose comments are not loaded is exactly the decoding of its own fields (the inverse of taking the fields) |
| Entities.FromRecords | src/client.rs:47 | decoding a response keeps length and order; no issue starts with comments loaded |
| Selection.WithItems | src/app.rs:13-18 | a fresh list holds the given items and selects nothing, so its cursor is in bounds |
| Selection.Next | src/app.rs:20-32 | from nothing selects 0; from an in-bounds `i` selects `min(i+1, len-1)`; an out-of-bounds cursor stays; items unchanged; in bounds is preserved on a non-empty list; on an empty list the result is out of bounds and cannot advance again |
| Selection.Previous | src/app.rs:34-46 | from nothing selects 0; from `i` selects `max(i-1, 0)`; items unchanged; in bounds is preserved on a non-empty list; on an empty list the result is out of bounds |
| Selection.Unselect | src/app.rs:48-50 | the cursor is cleared and the items are unchanged |
| Selection.Selected | src/app.rs:112-117 | the selected item is present exactly when the cursor is set, and is the item at the cursor |
| Selection.UnselectSelectsNothing | src/app.rs:48-50 | after `unselect` nothing is selected, whatever the prior cursor |
| Selection.PreviousUndoesNext | src/app.rs:20-46 | away from the last item, `previous` after `next` restores the list |
| Selection.NextUndoesPrevious | src/app.rs:20-46 | away from the first item, `next` after `previous` restores the list |
| Selection.ClampAtEnds | src/app.rs:23-24 | `next` at the last item and `previous` at the first leave the list unchanged: no wrap-around |
| Selection.EmptyListLeavesBounds | src/app.rs:21-31 | on an empty list with nothing selected, `next` and `previous` select the missing index 0, after which `next` would underflow |
| Selection.NextN | src/app.rs:20-32 | repeated `next` on a non-empty list keeps the items and keeps the cursor in bounds |
| Selection.NextNFromNothing | src/app.rs:20-32 | from no selection, `n` presses of `next` select `min(n-1, len-1)` |
| Selection.PreviousN | src/app.rs:34-46 | repeated `previous` keeps the items and, on a non-empty list, the cursor in bounds |
| Selection.PreviousNFrom | src/app.rs:34-46 | from `i`, `n` presses of `previous` select `max(i-n, 0)` |
| Client.Get | src/client.rs:22-28 | the URL is the space's API root followed by the path; the query is the API key followed by the caller's pairs in their order |
| Client.ParseGet | src/client.rs:22-28 | a built request reads back as exactly the path and caller's query it was built from |
| Client.GetParse | src/client.rs:22-28 | every request under the API root that carries the key first is the one `get` builds from its read-back path and query |
| Client.Split | src/client.rs:39 | splitting on `,` gives one piece more than there are commas (empty pieces kept), no piece holds a comma, and joining the pieces with commas gives the input back |
| Client.SplitJoin | src/client.rs:39 | splitting the comma-join of comma-free pieces gives the pieces back |
| Client.StatusPairs | src/client.rs:39-41 | one `statusId[]` pair per status id, in order |
| Client.IssueQuery | src/client.rs:34-41 | the issue query is `projectId[]`, `count=100`, `sort=status`, then comma-free `statusId[]` pairs, commas-plus-one of them |
| Client.IssueQueryKeepsStatusList | src/client.rs:39-41 | the `statusId[]` values, joined with commas, are the configured status list |
| Client.StatusIdCount | src/client.rs:39-41 | the query holds exactly commas-plus-one `statusId[]` pairs (one for the empty list) |
| Client.IssuesRequest | src/client.rs:31-43 | a missing project id, then a missing status list, fails before a request exists; otherwise the request is `/issues` with the issue query |
| Client.FetchIssues | src/client.rs:31-50 | configuration errors come first, then the send/decode failure is passed on; on success every record becomes an issue with its fields and no comments, in order |
| Client.CommentsRequestParses | src/client.rs:52-55 | the comment request is `/issues/<key>/comments` under the API root (the key reads back from the path) with `order=asc`, `count=100` |
| Client.WithContent | src/client.rs:57-61 | the filter keeps an order-preserving subsequence of the comments, all with content, as many as the input has with content |
| Client.WithContentUnique | src/client.rs:57-61 | that contract determines the filter: any subsequence with content throughout and of that length is the filter's result |
| Client.WithContentMembers | src/client.rs:59 | a comment is kept exactly when it is in the input and has content |
| Client.WithContentIdempotent | src/client.rs:57-61 | filtering an already filtered list changes nothing |
| Client.EmptyContentKept | src/client.rs:59 | a comment whose content is the empty text is kept |
| Client.FetchComments | src/client.rs:52-63 | a failed send or decode is passed on; a decoded list is returned filtered |
| Application.Init | src/app.rs:96-110 | a missing space id, then a missing API key, fails first; otherwise start-up fails exactly when the issue fetch fails, and succeeds with nothing selected, no comments loaded, the decoded issues in order, and a base URL under which the client's API root lies |
| Application.GetSelectedIssue | src/app.rs:112-117 | the selected issue is present exactly when the cursor is set, and is the issue at the cursor |
| Application.OnDown | src/app.rs:135-153 | the cursor moves as `next`; a fetch is made exactly when the newly selected issue has no comments, for that issue's comment request; success caches the filtered comments, failure leaves the cache absent; no other issue and no other field changes |
| Application.FailedFetchIsRetried | src/app.rs:145-149 | after a failed fetch of the last issue, the next `on_down` fetches it again |
| Application.DownRun | src/app.rs:135-153 | over any run of `on_down`, the cursor stays in bounds, only comment caches change (issue fields, client, base URL and layout flag are kept), and a loaded cache never changes |
| Application.DownRunCursor | src/app.rs:137 | `n` presses of down move the cursor `n` places from where it was (from before the first issue when nothing is selected), stopping at the last issue, whatever the fetches do |
| Application.DownRunRequests | src/app.rs:146 | every fetch of a run is the comment request, to the starting client, for the issue it names |
| Application.AtMostOneSuccessfulFetch | src/app.rs:144-151 | over any run, each issue is fetched successfully at most once, a loaded issue is never fetched, and an issue ends loaded exactly when it started loaded or one fetch of it succeeded |
| Application.TraversalFetchesEachIssueOnce | src/app.rs:135-153 | from no selection with nothing loaded and every fetch succeeding, `n` downs fetch issues `0 … n-1` once each in order, load them all and end on issue `n-1` |
| Events.Dispatch | src/main.rs:61-67 | `q` and only `q` quits; Left unselects; `j` is `next`; `k` is `previous`; other events leave the list alone; the items never change, so no comments are loaded; in bounds is kept on a non-empty list |
| Events.RunApp | src/main.rs:56-70 | a run quits only on a `q`, and a run still waiting read no `q`; never changes the items, ends in bounds, and never panics on a non-empty list whose cursor starts in bounds |
| Events.FirstQuitQuits | src/main.rs:62 | the first `q` read with the cursor in bounds ends the loop, with the list as it was at that point |
| Events.QuitEndsTheLoop | src/main.rs:62 | events after the first `q` are never read |
| Events.IgnoredEventIsSkipped | src/main.rs:60-66 | a non-key event or an unbound key is skipped |
| Events.EmptyListMoveCrashes | src/main.rs:64-65 | on an empty list a single `j` or `k` makes the next draw index a missing item |
| Events.NoMoveNoPanic | src/main.rs:56-70 | a run without `j` and `k` never panics, even on an empty list |

## Left out

- Sending HTTP requests and decoding JSON bodies (`reqwest`, `serde`): each fetch takes their outcome as a parameter; a decoded id that does not fit `u32` is part of that outcome.
- The HTTP status code, which the client never inspects: only "decoded or not" is modelled.
- Environment lookups (`BACKLOG_SPACE_ID`, `BACKLOG_API_KEY`, `BACKLOG_PROJECT_ID`, `BACKLOG_STATUS_ID_LIST`): `Option<string>` parameters; `App::init` reads the space id twice and the model assumes both reads agree.
- `App::open_browser`: it runs a shell command.
- Terminal set-up and tear-down in `main`, and all layout and styling in the drawing: only the draw's indexing of the selected item is kept.
- Async execution: the model is sequential and each fetch is one atomic step of `on_down`.
- `ListState`'s scroll offset: the cursor is just `Option<nat>`.
- Release builds, where `len() - 1` on an empty list wraps instead of panicking: `Next` requires that it does not underflow.
- `main` calls `App::with_items` and `app::fetch_issues`, which the application module does not define; only the loop's key dispatch is modelled, over the list.
- `App::is_vertical`: carried unchanged; nothing in the core reads or writes it.
- Events.RunApp: a failed draw (`terminal.draw(..)?`) or a failed read (`event::read()?`) returns an I/O error from the loop; the model has no such exit, because both failures come from the terminal, which is outside the model.
- Events.RunApp: the real loop reads events forever; the model runs it over a finite prefix of events and reports `Waiting` when the prefix is exhausted.
- Application.DownRun: each call receives one fetch outcome, which is ignored when no fetch is made.
