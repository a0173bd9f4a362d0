/** The GitLab webhook payloads the handler reads (gitlab.go:104-210), as the
    records JSON decoding leaves them. Only the fields the handler declares
    are kept; fields it declares but never reads are kept too, so that each
    record matches its Go struct. */
module Payloads {

  /** Go's int64. */
  newtype Int64 = x: int | -0x8000_0000_0000_0000 <= x < 0x8000_0000_0000_0000

  datatype Author = Author(name: string, email: string)

  datatype Commit = Commit(id: string, message: string, timestamp: string, url: string, author: Author)

  datatype Repository = Repository(name: string, homepage: string, gitSshUrl: string)

  datatype Project = Project(name: string, webUrl: string, gitSshUrl: string)

  datatype IssueUser = IssueUser(name: string, userName: string)

  /** "Push Hook" */
  datatype PushBody = PushBody(
    objectKind: string,
    ref: string,
    commits: seq<Commit>,
    repository: Repository,
    after: string,
    userName: string)

  /** "Tag Push Hook" */
  datatype TagPushBody = TagPushBody(userName: string, ref: string, repository: Repository)

  datatype IssueObject = IssueObject(id: Int64, title: string, url: string, action: string)

  /** "Issue Hook" */
  datatype IssuePushBody = IssuePushBody(user: IssueUser, repository: Repository, objectAttributes: IssueObject)

  datatype CommentObject = CommentObject(id: Int64, note: string, updatedAt: string, url: string)

  /** "Note Hook" */
  datatype CommentPushBody = CommentPushBody(user: IssueUser, repository: Repository, objectAttributes: CommentObject)

  datatype MRObjects = MRObjects(
    id: Int64,
    targetBranch: string,
    sourceBranch: string,
    updatedAt: string,
    url: string,
    action: string)

  /** "Merge Request Hook" */
  datatype MRPushBody = MRPushBody(user: IssueUser, repository: Repository, objectAttributes: MRObjects)

  datatype PipelineObject = PipelineObject(
    id: Int64,
    ref: string,
    status: string,
    createdAt: string,
    finishedAt: string,
    duration: Int64,
    tag: bool)

  /** "Pipeline Hook" */
  datatype PipelineBody = PipelineBody(objectAttributes: PipelineObject, user: IssueUser, project: Project)
}
