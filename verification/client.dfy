/** `BacklogClient` (src/client.rs): how requests to the Backlog REST API are
    assembled, and what is kept of the responses. Sending a request and
    decoding its JSON body happen outside the model: each fetch receives that
    outcome as a parameter. */
module Client {
  import opened Wrappers
  import opened Entities

  /** The client's credentials: the space (the tenant's sub-domain) and the
      API key. */
  datatype BacklogClient = BacklogClient(spaceId: string, apiKey: string)

  /** A GET request: the URL and the query pairs, in the order they are sent. */
  datatype Request = Request(url: string, query: seq<(string, string)>)

  /** Why a fetch failed: a missing environment variable, a failed send, or a
      body that does not decode. */
  datatype Error = MissingEnv(name: string) | Transport | Decode

  const ProjectIdVar: string := "BACKLOG_PROJECT_ID"
  const StatusIdListVar: string := "BACKLOG_STATUS_ID_LIST"

  /** Every endpoint lives under this prefix of the space's host. */
  function ApiRoot(c: BacklogClient): string {
    "https://" + c.spaceId + ".backlog.com/api/v2"
  }

  // ---------------------------------------------------------------------------
  // get

  /** `get`: the endpoint `path` under the space's API root, queried with the
      API key followed by the caller's pairs. */
  function Get(c: BacklogClient, path: string, query: seq<(string, string)>): (r: Request)
    ensures |r.url| == |ApiRoot(c)| + |path|
    ensures r.url[..|ApiRoot(c)|] == ApiRoot(c) && r.url[|ApiRoot(c)|..] == path
    ensures |r.query| == |query| + 1
    ensures r.query[0] == ("apiKey", c.apiKey)
    ensures forall k :: 0 <= k < |query| ==> r.query[k + 1] == query[k]
  {
    var q := [("apiKey", c.apiKey)] + query;
    Request(ApiRoot(c) + path, q)
  }

  /** Reads a request back: the path under the API root and the caller's query
      pairs, provided the URL is under the root and the key comes first. */
  function Parse(c: BacklogClient, r: Request): (p: Option<(string, seq<(string, string)>)>)
  {
    var root := ApiRoot(c);
    if |root| <= |r.url| && r.url[..|root|] == root && |r.query| > 0 && r.query[0] == ("apiKey", c.apiKey)
    then Some((r.url[|root|..], r.query[1..]))
    else None
  }

  /** Every request `get` builds reads back as its path and query. */
  lemma ParseGet(c: BacklogClient, path: string, query: seq<(string, string)>)
    ensures Parse(c, Get(c, path, query)) == Some((path, query))
  {
    var r := Get(c, path, query);
    assert r.query[1..] == query;
  }

  /** ... and every request that reads back was built by `get`. */
  lemma GetParse(c: BacklogClient, r: Request)
    requires Parse(c, r).Some?
    ensures Get(c, Parse(c, r).value.0, Parse(c, r).value.1) == r
  {
    var root := ApiRoot(c);
    assert root + r.url[|root|..] == r.url;
    assert [r.query[0]] + r.query[1..] == r.query;
  }

  // ---------------------------------------------------------------------------
  // Splitting the status list

  /** Occurrences of `x` in `s`. */
  function Count(s: string, x: char): nat {
    if s == [] then 0 else (if s[0] == x then 1 else 0) + Count(s[1..], x)
  }

  /** The parts joined back with `sep` between consecutive ones. */
  function Join(parts: seq<string>, sep: char): string
    requires |parts| > 0
  {
    if |parts| == 1 then parts[0] else parts[0] + [sep] + Join(parts[1..], sep)
  }

  /** `str::split` on a single character: the pieces between separators,
      empty pieces included, so there is always one more piece than there are
      separators and `""` splits into `[""]`. */
  function Split(s: string, sep: char): (parts: seq<string>)
    ensures |parts| == Count(s, sep) + 1
    ensures forall k :: 0 <= k < |parts| ==> sep !in parts[k]
    ensures Join(parts, sep) == s
  {
    if s == [] then [""]
    else if s[0] == sep then [""] + Split(s[1..], sep)
    else
      var rest := Split(s[1..], sep);
      [[s[0]] + rest[0]] + rest[1..]
  }

  /** Splitting a piece without separators, followed by a separator, peels off
      that piece. */
  lemma {:induction false} SplitPeel(a: string, sep: char, s: string)
    requires sep !in a
    ensures Split(a + [sep] + s, sep) == [a] + Split(s, sep)
  {
    if a == [] {
      assert a + [sep] + s == [sep] + s;
      assert ([sep] + s)[1..] == s;
    } else {
      assert (a + [sep] + s)[1..] == a[1..] + [sep] + s;
      SplitPeel(a[1..], sep, s);
      assert [a[0]] + a[1..] == a;
    }
  }

  /** A piece without separators splits into itself. */
  lemma {:induction false} SplitPlain(a: string, sep: char)
    requires sep !in a
    ensures Split(a, sep) == [a]
  {
    if a != [] {
      SplitPlain(a[1..], sep);
      assert [a[0]] + a[1..] == a;
    }
  }

  /** Joining separator-free pieces and splitting again gives the pieces back. */
  lemma {:induction false} SplitJoin(parts: seq<string>, sep: char)
    requires |parts| > 0
    requires forall k :: 0 <= k < |parts| ==> sep !in parts[k]
    ensures Split(Join(parts, sep), sep) == parts
  {
    if |parts| == 1 {
      SplitPlain(parts[0], sep);
    } else {
      SplitJoin(parts[1..], sep);
      SplitPeel(parts[0], sep, Join(parts[1..], sep));
      assert [parts[0]] + parts[1..] == parts;
    }
  }

  // ---------------------------------------------------------------------------
  // fetch_issues

  /** One `statusId[]` pair per status id, in order. */
  function StatusPairs(ids: seq<string>): (q: seq<(string, string)>)
    ensures |q| == |ids|
    ensures forall k :: 0 <= k < |q| ==> q[k] == ("statusId[]", ids[k])
  {
    seq(|ids|, k requires 0 <= k < |ids| => ("statusId[]", ids[k]))
  }

  /** The values of a list of query pairs. */
  function Values(q: seq<(string, string)>): (vs: seq<string>)
    ensures |vs| == |q|
    ensures forall k :: 0 <= k < |q| ==> vs[k] == q[k].1
  {
    seq(|q|, k requires 0 <= k < |q| => q[k].1)
  }

  /** Number of pairs in `q` whose key is `key`. */
  function KeyCount(q: seq<(string, string)>, key: string): nat {
    if q == [] then 0 else (if q[0].0 == key then 1 else 0) + KeyCount(q[1..], key)
  }

  /** The issue-list parameters before the status filter. */
  function IssueListParams(projectId: string): seq<(string, string)> {
    [("projectId[]", projectId), ("count", "100"), ("sort", "status")]
  }

  /** The caller's part of the issue-list query: the project, a page of 100
      issues sorted by status, then one `statusId[]` per comma-separated
      piece of the status list. */
  function IssueQuery(projectId: string, statusIdList: string): (q: seq<(string, string)>)
    ensures |q| == 3 + Count(statusIdList, ',') + 1
    ensures q[..3] == IssueListParams(projectId)
    ensures forall k :: 3 <= k < |q| ==> q[k].0 == "statusId[]" && ',' !in q[k].1
  {
    IssueListParams(projectId) + StatusPairs(Split(statusIdList, ','))
  }

  /** The status ids sent, joined with commas, are the configured list: no
      piece is lost, reordered or altered, including empty ones. */
  lemma IssueQueryKeepsStatusList(projectId: string, statusIdList: string)
    ensures Join(Values(IssueQuery(projectId, statusIdList)[3..]), ',') == statusIdList
  {
    var parts := Split(statusIdList, ',');
    assert Values(IssueQuery(projectId, statusIdList)[3..]) == parts;
  }

  /** Number of `statusId[]` pairs in the pairs of a status list. */
  lemma {:induction false} StatusPairsKeyCount(ids: seq<string>)
    ensures KeyCount(StatusPairs(ids), "statusId[]") == |ids|
  {
    if ids != [] {
      StatusPairsKeyCount(ids[1..]);
      assert StatusPairs(ids)[1..] == StatusPairs(ids[1..]);
    }
  }

  /** Counting keys over a concatenation. */
  lemma {:induction false} KeyCountAppend(a: seq<(string, string)>, b: seq<(string, string)>, key: string)
    ensures KeyCount(a + b, key) == KeyCount(a, key) + KeyCount(b, key)
  {
    if a == [] {
      assert a + b == b;
    } else {
      KeyCountAppend(a[1..], b, key);
      assert (a + b)[1..] == a[1..] + b;
    }
  }

  /** The query holds exactly one more `statusId[]` than the status list has
      commas. */
  lemma StatusIdCount(projectId: string, statusIdList: string)
    ensures KeyCount(IssueQuery(projectId, statusIdList), "statusId[]") == Count(statusIdList, ',') + 1
  {
    var head := IssueListParams(projectId);
    var parts := Split(statusIdList, ',');
    KeyCountAppend(head, StatusPairs(parts), "statusId[]");
    StatusPairsKeyCount(parts);
    assert "projectId[]" != "statusId[]" && "count" != "statusId[]" && "sort" != "statusId[]" by {
      assert "projectId[]"[0] != "statusId[]"[0];
      assert |"count"| != |"statusId[]"|;
      assert |"sort"| != |"statusId[]"|;
    }
    assert head[1..] == [("count", "100"), ("sort", "status")];
    assert head[1..][1..] == [("sort", "status")];
    assert head[1..][1..][1..] == [];
    assert KeyCount(head[1..][1..], "statusId[]") == 0;
    assert KeyCount(head[1..], "statusId[]") == 0;
    assert KeyCount(head, "statusId[]") == 0;
  }

  /** The request `fetch_issues` sends, or the missing variable that stops it
      first: the project id is read before the status list. */
  function IssuesRequest(c: BacklogClient, projectId: Option<string>, statusIdList: Option<string>): (r: Result<Request, Error>)
    ensures projectId.None? ==> r == Err(MissingEnv(ProjectIdVar))
    ensures projectId.Some? && statusIdList.None? ==> r == Err(MissingEnv(StatusIdListVar))
    ensures r.Ok? <==> projectId.Some? && statusIdList.Some?
    ensures r.Ok? ==> Parse(c, r.value) == Some(("/issues", IssueQuery(projectId.value, statusIdList.value)))
  {
    match projectId
    case None => Err(MissingEnv(ProjectIdVar))
    case Some(pid) =>
      match statusIdList
      case None => Err(MissingEnv(StatusIdListVar))
      case Some(list) =>
        ParseGet(c, "/issues", IssueQuery(pid, list));
        Ok(Get(c, "/issues", IssueQuery(pid, list)))
  }

  /** `fetch_issues`: `response` is what sending the request and decoding the
      body yields. A missing variable fails before any request exists, so the
      response is not consulted; otherwise its failure is passed on and its
      records become issues with no comments loaded. */
  function FetchIssues(c: BacklogClient, projectId: Option<string>, statusIdList: Option<string>,
                       response: Result<seq<IssueRecord>, Error>): (r: Result<seq<Issue>, Error>)
    ensures IssuesRequest(c, projectId, statusIdList).Err? ==> r == Err(IssuesRequest(c, projectId, statusIdList).error)
    ensures IssuesRequest(c, projectId, statusIdList).Ok? && response.Err? ==> r == Err(response.error)
    ensures r.Ok? <==> IssuesRequest(c, projectId, statusIdList).Ok? && response.Ok?
    ensures r.Ok? ==> |r.value| == |response.value|
    ensures r.Ok? ==> forall k :: 0 <= k < |r.value| ==>
                        !r.value[k].Loaded() && ToRecord(r.value[k]) == response.value[k]
  {
    match IssuesRequest(c, projectId, statusIdList)
    case Err(e) => Err(e)
    case Ok(_) =>
      match response
      case Err(e) => Err(e)
      case Ok(recs) => Ok(FromRecords(recs))
  }

  // ---------------------------------------------------------------------------
  // fetch_comments

  const CommentsPrefix: string := "/issues/"
  const CommentsSuffix: string := "/comments"

  /** The comment endpoint of an issue. */
  function CommentsPath(issueKey: string): string {
    CommentsPrefix + issueKey + CommentsSuffix
  }

  /** The issue key named by a comment endpoint path, if it is one. */
  function CommentsKey(path: string): Option<string> {
    var n := |CommentsPrefix| + |CommentsSuffix|;
    if n <= |path| && path[..|CommentsPrefix|] == CommentsPrefix && path[|path| - |CommentsSuffix|..] == CommentsSuffix
    then Some(path[|CommentsPrefix|..|path| - |CommentsSuffix|])
    else None
  }

  /** Oldest first, a page of 100. */
  const CommentsQuery: seq<(string, string)> := [("order", "asc"), ("count", "100")]

  /** The request `fetch_comments` sends for an issue. */
  function CommentsRequest(c: BacklogClient, issue: Issue): Request {
    Get(c, CommentsPath(issue.issueKey), CommentsQuery)
  }

  /** The comment request is under the API root, names the issue's key in
      its path, and asks for the oldest comments first, 100 at a time. */
  lemma CommentsRequestParses(c: BacklogClient, issue: Issue)
    ensures Parse(c, CommentsRequest(c, issue)).Some?
    ensures CommentsKey(Parse(c, CommentsRequest(c, issue)).value.0) == Some(issue.issueKey)
    ensures Parse(c, CommentsRequest(c, issue)).value.1 == CommentsQuery
  {
    var path := CommentsPath(issue.issueKey);
    ParseGet(c, path, CommentsQuery);
    assert path[..|CommentsPrefix|] == CommentsPrefix;
    assert path[|path| - |CommentsSuffix|..] == CommentsSuffix;
    assert path[|CommentsPrefix|..|path| - |CommentsSuffix|] == issue.issueKey;
  }

  /** Number of comments in `cs` that carry content. */
  function CountWithContent(cs: seq<Comment>): nat {
    if cs == [] then 0 else (if cs[0].content.Some? then 1 else 0) + CountWithContent(cs[1..])
  }

  /** `a` is `b` with some elements dropped, order preserved (greedy matching
      decides it). */
  predicate IsSubsequence<T(==)>(a: seq<T>, b: seq<T>) {
    if a == [] then true
    else if b == [] then false
    else if a[0] == b[0] then IsSubsequence(a[1..], b[1..])
    else IsSubsequence(a, b[1..])
  }

  /** The filter in `fetch_comments`: drop the comments without content. */
  function WithContent(cs: seq<Comment>): (r: seq<Comment>)
    ensures forall k :: 0 <= k < |r| ==> r[k].content.Some?
    ensures |r| == CountWithContent(cs) <= |cs|
    ensures IsSubsequence(r, cs)
  {
    if cs == [] then []
    else if cs[0].content.Some? then [cs[0]] + WithContent(cs[1..])
    else WithContent(cs[1..])
  }

  /** A subsequence made of comments with content is no longer than the
      number of such comments. */
  lemma {:induction false} SubsequenceBound(a: seq<Comment>, b: seq<Comment>)
    requires IsSubsequence(a, b)
    requires forall k :: 0 <= k < |a| ==> a[k].content.Some?
    ensures |a| <= CountWithContent(b)
  {
    if a != [] {
      if a[0] == b[0] {
        SubsequenceBound(a[1..], b[1..]);
      } else {
        SubsequenceBound(a, b[1..]);
      }
    }
  }

  /** The contract of `WithContent` determines it: the only subsequence of
      `cs` that has content throughout and keeps every comment with content
      is `WithContent(cs)`. */
  lemma {:induction false} WithContentUnique(a: seq<Comment>, cs: seq<Comment>)
    requires IsSubsequence(a, cs)
    requires forall k :: 0 <= k < |a| ==> a[k].content.Some?
    requires |a| == CountWithContent(cs)
    ensures a == WithContent(cs)
  {
    if cs == [] {
    } else if a == [] {
    } else if a[0] == cs[0] {
      WithContentUnique(a[1..], cs[1..]);
      assert [a[0]] + a[1..] == a;
    } else if cs[0].content.Some? {
      SubsequenceBound(a, cs[1..]);
      assert false;
    } else {
      WithContentUnique(a, cs[1..]);
    }
  }

  /** A comment survives the filter exactly when it has content. */
  lemma {:induction false} WithContentMembers(cs: seq<Comment>, c: Comment)
    ensures c in WithContent(cs) <==> c in cs && c.content.Some?
  {
    if cs != [] {
      WithContentMembers(cs[1..], c);
      assert cs == [cs[0]] + cs[1..];
    }
  }

  /** Filtering twice is filtering once. */
  lemma {:induction false} WithContentIdempotent(cs: seq<Comment>)
    ensures WithContent(WithContent(cs)) == WithContent(cs)
  {
    if cs != [] {
      WithContentIdempotent(cs[1..]);
      if cs[0].content.Some? {
        assert ([cs[0]] + WithContent(cs[1..]))[1..] == WithContent(cs[1..]);
      }
    }
  }

  /** Only absent content is dropped: an empty text is kept. */
  lemma EmptyContentKept(u: User, created: string, updated: string)
    ensures var c := Comment(Some(""), u, created, updated); WithContent([c]) == [c]
  {
  }

  /** `fetch_comments`: `response` is what sending the comment request and
      decoding the body yields; a failure is passed on, a decoded list is
      filtered. */
  function FetchComments(response: Result<seq<Comment>, Error>): (r: Result<seq<Comment>, Error>)
    ensures r.Ok? <==> response.Ok?
    ensures r.Err? ==> r.error == response.error
    ensures r.Ok? ==> r.value == WithContent(response.value)
  {
    match response
    case Err(e) => Err(e)
    case Ok(cs) => Ok(WithContent(cs))
  }
}
