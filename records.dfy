/** The two kinds of stored record, as the GitHub CLI returns them: each key
    of the JSON object is a field that is either present (`Some`) or absent
    (`None`). The accessors give the defaults the scripts pass to `dict.get`. */
module Records {
  import opened Common

  /** The nested `repository` object of a pull request. */
  datatype RepoRef = RepoRef(name: Option<string>, nameWithOwner: Option<string>)

  /** A pull request; its identity key is `url`. */
  datatype PullRequest = PullRequest(
    title: Option<string>,
    url: Option<string>,
    repository: Option<RepoRef>,
    createdAt: Option<string>,
    state: Option<string>)

  /** A repository owned by the user; its identity key is `name`. */
  datatype Repository = Repository(
    name: Option<string>,
    description: Option<string>,
    url: Option<string>,
    isPrivate: Option<bool>,
    isFork: Option<bool>,
    createdAt: Option<string>,
    stargazerCount: Option<int>)

  /** `pr.get('repository', {}).get('nameWithOwner', default)` */
  function FullNameOr(pr: PullRequest, default: string): string {
    match pr.repository
    case None => default
    case Some(r) => r.nameWithOwner.GetOr(default)
  }

  /** `pr.get('repository', {}).get('name', 'Unknown')` */
  function ShortName(pr: PullRequest): string {
    match pr.repository
    case None => "Unknown"
    case Some(r) => r.name.GetOr("Unknown")
  }

  /** `pr.get('createdAt', '')` */
  function PrCreatedAt(pr: PullRequest): string {
    pr.createdAt.GetOr("")
  }
}
