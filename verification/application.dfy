/** `App` (src/app.rs:88-154): the issue list with its cursor, and the lazy,
    cached loading of each issue's comments when the cursor moves down. The
    comment fetch itself is outside the model: every `OnDown` receives the
    outcome that sending the request and decoding the body would have. */
module Application {
  import opened Wrappers
  import opened Entities
  import opened Selection
  import opened Client

  datatype App = App(items: StatefulList<Issue>, baseUrl: string, client: BacklogClient, isVertical: bool)

  const SpaceIdVar: string := "BACKLOG_SPACE_ID"
  const ApiKeyVar: string := "BACKLOG_API_KEY"

  /** `App::init`: read the space and the API key, fetch the issue list, and
      start with nothing selected and no comments loaded. The second read of
      the space id sees the value of the first. */
  function Init(spaceId: Option<string>, apiKey: Option<string>, projectId: Option<string>,
                statusIdList: Option<string>, response: Result<seq<IssueRecord>, Error>): (r: Result<App, Error>)
    ensures spaceId.None? ==> r == Err(MissingEnv(SpaceIdVar))
    ensures spaceId.Some? && apiKey.None? ==> r == Err(MissingEnv(ApiKeyVar))
    ensures spaceId.Some? && apiKey.Some? ==>
              var fetched := FetchIssues(BacklogClient(spaceId.value, apiKey.value), projectId, statusIdList, response);
              (r.Ok? <==> fetched.Ok?) && (fetched.Err? ==> r == Err(fetched.error))
    ensures r.Ok? ==> r.value.items.selected.None? && r.value.items.InBounds() && !r.value.isVertical
    ensures r.Ok? ==> |r.value.items.items| == |response.value|
    ensures r.Ok? ==> forall k :: 0 <= k < |r.value.items.items| ==>
                        !r.value.items.items[k].Loaded() && ToRecord(r.value.items.items[k]) == response.value[k]
    ensures r.Ok? ==> r.value.client == BacklogClient(spaceId.value, apiKey.value)
    ensures r.Ok? ==> ApiRoot(r.value.client) == r.value.baseUrl + "/api/v2"
  {
    match spaceId
    case None => Err(MissingEnv(SpaceIdVar))
    case Some(space) =>
      match apiKey
      case None => Err(MissingEnv(ApiKeyVar))
      case Some(key) =>
        var client := BacklogClient(space, key);
        match FetchIssues(client, projectId, statusIdList, response)
        case Err(e) => Err(e)
        case Ok(issues) =>
          Ok(App(WithItems(issues), "https://" + space + ".backlog.com", client, false))
  }

  /** `get_selected_issue`: the issue under the cursor, if any. Indexing
      requires the cursor to be in bounds. */
  function GetSelectedIssue(app: App): (r: Option<Issue>)
    requires app.items.InBounds()
    ensures r.None? <==> app.items.selected.None?
    ensures r.Some? ==> r.value == app.items.items[app.items.selected.value]
  {
    Selected(app.items)
  }

  /** One call of `fetch_comments` made by `on_down`: which issue, the request
      sent, and whether it produced comments. */
  datatype Fetch = Fetch(index: nat, request: Request, succeeded: bool)

  /** What `on_down` did: the new state, and the fetch it made, if any. */
  datatype Down = Down(app: App, fetch: Option<Fetch>)

  /** `on_down` neither underflows in `next` nor indexes past the end. */
  predicate CanMoveDown(app: App) {
    |app.items.items| > 0 && app.items.InBounds()
  }

  /** `on_down`: move the cursor down, then fetch the newly selected issue's
      comments unless they are already loaded. A successful fetch fills the
      cache with the comments that have content; a failed one is swallowed
      and leaves the cache empty, so the next visit tries again. The call
      itself always succeeds. */
  function OnDown(app: App, response: Result<seq<Comment>, Error>): (d: Down)
    requires CanMoveDown(app)
    ensures d.app.items.selected == Next(app.items).selected
    ensures CanMoveDown(d.app) && |d.app.items.items| == |app.items.items|
    ensures d.app.baseUrl == app.baseUrl && d.app.client == app.client && d.app.isVertical == app.isVertical
    ensures var i := d.app.items.selected.value; var before := app.items.items[i];
            && (d.fetch.Some? <==> !before.Loaded())
            && (d.fetch.Some? ==> d.fetch.value == Fetch(i, CommentsRequest(app.client, before), response.Ok?))
            && (d.fetch.Some? && response.Ok? ==>
                  d.app.items.items[i] == before.(comments := Some(WithContent(response.value))))
            && (d.fetch.None? || response.Err? ==> d.app.items.items[i] == before)
    ensures var i := d.app.items.selected.value;
            d.app.items.items == app.items.items[i := d.app.items.items[i]]
  {
    var moved := Next(app.items);
    var i := moved.selected.value;
    var issue := moved.items[i];
    if issue.comments.None? then
      var request := CommentsRequest(app.client, issue);
      match FetchComments(response)
      case Ok(cs) =>
        var loaded := moved.(items := moved.items[i := issue.(comments := Some(cs))]);
        Down(app.(items := loaded), Some(Fetch(i, request, true)))
      case Err(_) =>
        Down(app.(items := moved), Some(Fetch(i, request, false)))
    else
      Down(app.(items := moved), None)
  }

  /** A failed fetch leaves the issue eligible: staying on the last issue,
      the next `on_down` fetches it again. */
  lemma FailedFetchIsRetried(app: App, e: Error, response: Result<seq<Comment>, Error>)
    requires CanMoveDown(app)
    requires app.items.selected == Some(|app.items.items| - 1)
    requires !app.items.items[|app.items.items| - 1].Loaded()
    ensures var last := |app.items.items| - 1;
            var first := OnDown(app, Err(e));
            && first.fetch.Some? && first.fetch.value.index == last && !first.fetch.value.succeeded
            && OnDown(first.app, response).fetch.Some?
            && OnDown(first.app, response).fetch.value.index == last
  {
  }

  /** The cursor as a number: -1 before the first item when nothing is
      selected. */
  function Position(selected: Option<nat>): int {
    match selected
    case None => -1
    case Some(i) => i
  }

  /** A run of `on_down` calls, one per response, and the fetches they made
      in order. */
  datatype Trace = Trace(app: App, fetches: seq<Fetch>)

  function DownRun(app: App, responses: seq<Result<seq<Comment>, Error>>): (t: Trace)
    requires CanMoveDown(app)
    ensures CanMoveDown(t.app) && |t.app.items.items| == |app.items.items|
    ensures |t.fetches| <= |responses|
    ensures forall k :: 0 <= k < |t.fetches| ==> t.fetches[k].index < |app.items.items|
    ensures forall j :: 0 <= j < |app.items.items| ==>
              ToRecord(t.app.items.items[j]) == ToRecord(app.items.items[j])
    ensures forall j :: 0 <= j < |app.items.items| && app.items.items[j].Loaded() ==>
              t.app.items.items[j] == app.items.items[j]
    ensures t.app.baseUrl == app.baseUrl && t.app.client == app.client && t.app.isVertical == app.isVertical
    decreases |responses|
  {
    if responses == [] then Trace(app, [])
    else
      var d := OnDown(app, responses[0]);
      var rest := DownRun(d.app, responses[1..]);
      Trace(rest.app, (if d.fetch.Some? then [d.fetch.value] else []) + rest.fetches)
  }

  /** `n` presses of down move the cursor `n` places, stopping at the last
      issue, whatever the fetches do. */
  lemma {:induction false} DownRunCursor(app: App, responses: seq<Result<seq<Comment>, Error>>)
    requires CanMoveDown(app) && |responses| > 0
    ensures DownRun(app, responses).app.items.selected
              == Some(Min(Position(app.items.selected) + |responses|, |app.items.items| - 1))
    decreases |responses|
  {
    var d := OnDown(app, responses[0]);
    OnDownCursor(app, responses[0]);
    DownRunStep(app, responses);
    var n := |app.items.items|;
    var p := Position(app.items.selected);
    assert Position(d.app.items.selected) == Min(p + 1, n - 1);
    var after := DownRun(d.app, responses[1..]).app;
    assert DownRun(app, responses).app == after;
    if |responses| == 1 {
      assert after == d.app by {
        assert responses[1..] == [];
      }
    } else {
      DownRunCursor(d.app, responses[1..]);
      var m := |responses| - 1;
      assert |responses[1..]| == m && |d.app.items.items| == n;
      assert after.items.selected == Some(Min(Min(p + 1, n - 1) + m, n - 1));
      MinShift(p, n, m);
    }
  }

  /** Moving one place and then `m` more, clamped at `n - 1`, is moving
      `m + 1` places. */
  lemma MinShift(p: int, n: int, m: nat)
    ensures Min(Min(p + 1, n - 1) + m, n - 1) == Min(p + 1 + m, n - 1)
  {
  }

  /** A run of `on_down` calls is the first call followed by the rest. */
  lemma DownRunStep(app: App, responses: seq<Result<seq<Comment>, Error>>)
    requires CanMoveDown(app) && responses != []
    ensures DownRun(app, responses).app == DownRun(OnDown(app, responses[0]).app, responses[1..]).app
  {
  }

  /** One press of down moves the cursor one place, stopping at the last
      issue. */
  lemma OnDownCursor(app: App, response: Result<seq<Comment>, Error>)
    requires CanMoveDown(app)
    ensures var d := OnDown(app, response);
            && CanMoveDown(d.app) && |d.app.items.items| == |app.items.items|
            && d.app.items.selected == Some(Min(Position(app.items.selected) + 1, |app.items.items| - 1))
  {
  }

  /** The comment request depends on the issue only through its key. */
  lemma CommentsRequestByKey(c: BacklogClient, a: Issue, b: Issue)
    requires a.issueKey == b.issueKey
    ensures CommentsRequest(c, a) == CommentsRequest(c, b)
  {
  }

  /** Every fetch of a run asks the starting client for the comments of the
      issue it names. */
  lemma {:induction false} DownRunRequests(app: App, responses: seq<Result<seq<Comment>, Error>>)
    requires CanMoveDown(app)
    ensures forall k :: 0 <= k < |DownRun(app, responses).fetches| ==>
              var f := DownRun(app, responses).fetches[k];
              f.request == CommentsRequest(app.client, app.items.items[f.index])
    decreases |responses|
  {
    if responses != [] {
      var d := OnDown(app, responses[0]);
      var rest := DownRun(d.app, responses[1..]);
      DownRunRequests(d.app, responses[1..]);
      var head := if d.fetch.Some? then [d.fetch.value] else [];
      var t := DownRun(app, responses);
      assert t.fetches == head + rest.fetches;
      forall k | 0 <= k < |t.fetches|
        ensures t.fetches[k].request == CommentsRequest(app.client, app.items.items[t.fetches[k].index])
      {
        if k < |head| {
          assert t.fetches[k] == d.fetch.value;
          assert d.fetch.value.request == CommentsRequest(app.client, app.items.items[d.fetch.value.index]);
        } else {
          var f := rest.fetches[k - |head|];
          assert t.fetches[k] == f;
          assert f.index < |app.items.items|;
          assert f.request == CommentsRequest(d.app.client, d.app.items.items[f.index]);
          assert d.app.client == app.client;
          assert ToRecord(d.app.items.items[f.index]) == ToRecord(app.items.items[f.index]);
          CommentsRequestByKey(app.client, d.app.items.items[f.index], app.items.items[f.index]);
        }
      }
    }
  }

  /** Number of fetches of issue `i`. */
  function Fetches(log: seq<Fetch>, i: nat): nat {
    if log == [] then 0 else (if log[0].index == i then 1 else 0) + Fetches(log[1..], i)
  }

  /** Number of successful fetches of issue `i`. */
  function Successes(log: seq<Fetch>, i: nat): (n: nat)
    ensures n <= Fetches(log, i)
  {
    if log == [] then 0 else (if log[0].index == i && log[0].succeeded then 1 else 0) + Successes(log[1..], i)
  }

  /** The comment cache over any run of `on_down`: an issue whose comments
      are loaded is never fetched again, so each issue is fetched
      successfully at most once, and it ends up loaded exactly when it
      started loaded or one of the fetches succeeded. */
  lemma {:induction false} AtMostOneSuccessfulFetch(app: App, responses: seq<Result<seq<Comment>, Error>>, i: nat)
    requires CanMoveDown(app) && i < |app.items.items|
    ensures var t := DownRun(app, responses);
            && Successes(t.fetches, i) <= 1
            && (app.items.items[i].Loaded() ==> Fetches(t.fetches, i) == 0)
            && (t.app.items.items[i].Loaded() <==> app.items.items[i].Loaded() || Successes(t.fetches, i) == 1)
    decreases |responses|
  {
    if responses != [] {
      var d := OnDown(app, responses[0]);
      var rest := DownRun(d.app, responses[1..]);
      AtMostOneSuccessfulFetch(d.app, responses[1..], i);
      var t := DownRun(app, responses);
      if d.fetch.Some? {
        var f := d.fetch.value;
        assert t.fetches == [f] + rest.fetches;
        assert ([f] + rest.fetches)[1..] == rest.fetches;
        if f.index == i {
          assert !app.items.items[i].Loaded();
        } else {
          assert d.app.items.items[i] == app.items.items[i];
        }
      } else {
        assert t.fetches == rest.fetches;
        assert d.app.items.items[i] == app.items.items[i];
      }
    }
  }

  /** Starting from no selection with nothing loaded, `n` presses of down
      over a list of at least `n` issues, every fetch succeeding, fetch
      issues 0, 1, ..., n-1 once each, in order, and load them all. */
  lemma TraversalFetchesEachIssueOnce(app: App, responses: seq<Result<seq<Comment>, Error>>)
    requires CanMoveDown(app) && app.items.selected.None?
    requires forall j :: 0 <= j < |app.items.items| ==> !app.items.items[j].Loaded()
    requires 0 < |responses| <= |app.items.items|
    requires forall k :: 0 <= k < |responses| ==> responses[k].Ok?
    ensures var t := DownRun(app, responses);
            && |t.fetches| == |responses|
            && (forall k :: 0 <= k < |responses| ==> t.fetches[k].index == k && t.fetches[k].succeeded)
            && (forall k :: 0 <= k < |responses| ==> t.app.items.items[k].Loaded())
            && t.app.items.selected == Some(|responses| - 1)
  {
    TraverseFetches(app, responses, 0);
    TraverseLoads(app, responses, 0);
    DownRunCursor(app, responses);
  }

  /** One step of a traversal: from issue `start - 1` (or nothing), down
      selects issue `start` and loads it with one successful fetch, leaving
      the issues after it untouched. */
  lemma TraverseStep(app: App, response: Result<seq<Comment>, Error>, start: nat)
    requires CanMoveDown(app)
    requires app.items.selected == (if start == 0 then None else Some(start - 1))
    requires start < |app.items.items| && !app.items.items[start].Loaded()
    requires response.Ok?
    ensures var d := OnDown(app, response);
            && d.app.items.selected == Some(start)
            && d.fetch.Some? && d.fetch.value.index == start && d.fetch.value.succeeded
            && d.app.items.items[start].Loaded()
            && forall j :: start < j < |app.items.items| ==> d.app.items.items[j] == app.items.items[j]
  {
  }

  /** The fetches of a traversal continued from issue `start`. */
  lemma {:induction false} TraverseFetches(app: App, responses: seq<Result<seq<Comment>, Error>>, start: nat)
    requires CanMoveDown(app)
    requires app.items.selected == (if start == 0 then None else Some(start - 1))
    requires forall j :: start <= j < |app.items.items| ==> !app.items.items[j].Loaded()
    requires start + |responses| <= |app.items.items|
    requires forall k :: 0 <= k < |responses| ==> responses[k].Ok?
    ensures var t := DownRun(app, responses);
            && |t.fetches| == |responses|
            && (forall k :: 0 <= k < |responses| ==> t.fetches[k].index == start + k && t.fetches[k].succeeded)
    decreases |responses|
  {
    if responses != [] {
      TraverseStep(app, responses[0], start);
      var d := OnDown(app, responses[0]);
      TraverseFetches(d.app, responses[1..], start + 1);
      var rest := DownRun(d.app, responses[1..]);
      var t := DownRun(app, responses);
      assert t.fetches == [d.fetch.value] + rest.fetches;
      forall k | 0 <= k < |responses|
        ensures t.fetches[k].index == start + k && t.fetches[k].succeeded
      {
        if k > 0 {
          assert t.fetches[k] == rest.fetches[k - 1];
        }
      }
    }
  }

  /** The issues a traversal continued from issue `start` leaves loaded. */
  lemma {:induction false} TraverseLoads(app: App, responses: seq<Result<seq<Comment>, Error>>, start: nat)
    requires CanMoveDown(app)
    requires app.items.selected == (if start == 0 then None else Some(start - 1))
    requires forall j :: start <= j < |app.items.items| ==> !app.items.items[j].Loaded()
    requires start + |responses| <= |app.items.items|
    requires forall k :: 0 <= k < |responses| ==> responses[k].Ok?
    ensures forall k :: start <= k < start + |responses| ==> DownRun(app, responses).app.items.items[k].Loaded()
    decreases |responses|
  {
    if responses != [] {
      TraverseStep(app, responses[0], start);
      var d := OnDown(app, responses[0]);
      TraverseLoads(d.app, responses[1..], start + 1);
      var rest := DownRun(d.app, responses[1..]);
      assert DownRun(app, responses).app == rest.app;
      assert rest.app.items.items[start] == d.app.items.items[start];
    }
  }
}
