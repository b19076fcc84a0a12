/** The records the issue tracker returns: issues, their comments, users and
    statuses (src/app.rs). */
module Entities {
  import opened Wrappers

  /** Rust's `u32`, the width of `Issue::id` and `Status::id`. */
  type U32 = x: nat | x < 0x1_0000_0000

  datatype User = User(name: string)

  datatype Status = Status(id: U32, name: string, color: string)

  /** A comment of an issue's discussion; its `content` may be absent. */
  datatype Comment = Comment(content: Option<string>, createdUser: User, created: string, updated: string)

  /** An issue. `comments` is the lazily loaded discussion: `None` means not
      loaded yet, `Some` holds the comments that carry content. */
  datatype Issue = Issue(
    id: U32,
    issueKey: string,
    summary: string,
    description: string,
    assignee: Option<User>,
    updated: string,
    status: Status,
    comments: Option<seq<Comment>>)
  {
    /** The comments of this issue have been loaded. */
    predicate Loaded() { comments.Some? }
  }

  /** The fields of an issue that the server sends; the comment cache is not
      among them (it is skipped when deserializing). */
  datatype IssueRecord = IssueRecord(
    id: U32,
    issueKey: string,
    summary: string,
    description: string,
    assignee: Option<User>,
    updated: string,
    status: Status)

  /** The server-side part of an issue: everything but the comment cache. */
  function ToRecord(i: Issue): IssueRecord {
    IssueRecord(i.id, i.issueKey, i.summary, i.description, i.assignee, i.updated, i.status)
  }

  /** Deserializing an issue: the received fields are kept and the comment
      cache starts out absent. */
  function FromRecord(rec: IssueRecord): (i: Issue)
    ensures !i.Loaded()
    ensures ToRecord(i) == rec
  {
    Issue(rec.id, rec.issueKey, rec.summary, rec.description, rec.assignee, rec.updated, rec.status, None)
  }

  /** An issue whose comments are not loaded is exactly what was decoded from
      its record. */
  lemma UnloadedIsDecoded(i: Issue)
    requires !i.Loaded()
    ensures FromRecord(ToRecord(i)) == i
  {
  }

  /** Decoding a whole response keeps its length and order. */
  function FromRecords(recs: seq<IssueRecord>): (issues: seq<Issue>)
    ensures |issues| == |recs|
    ensures forall k :: 0 <= k < |issues| ==> !issues[k].Loaded() && ToRecord(issues[k]) == recs[k]
  {
    seq(|recs|, k requires 0 <= k < |recs| => FromRecord(recs[k]))
  }
}
