/** `generate_markdown` of generate_contributions.py: the contributions
    document built from the stored pull requests and repositories. The
    functions state what each part of the document is; the methods build it
    the way the script does, appending to the list of lines in loops, and
    are proved to produce exactly that. */
module Report {
  import opened Common
  import opened Records
  import opened Categories
  import opened Sorting
  import opened Grouping
  import opened Entries

  /** The account whose own repositories are not external. */
  const Owner: string := "oameye"

  /** Line 82: the stored repositories that are not forks. */
  function NonForks(repos: seq<Repository>): (r: seq<Repository>)
    ensures |r| <= |repos|
  {
    if repos == [] then []
    else
      var last := repos[|repos| - 1];
      NonForks(repos[..|repos| - 1]) + (if last.isFork.GetOr(false) then [] else [last])
  }

  /** Line 85: a merged pull request to a repository the owner does not own. */
  predicate IsExternalMerged(pr: PullRequest) {
    !StartsWith(FullNameOr(pr, ""), Owner + "/") && pr.state == Some("merged")
  }

  /** Line 85: the external merged pull requests, in stored order. */
  function ExternalMerged(prs: seq<PullRequest>): (r: seq<PullRequest>)
    ensures |r| <= |prs|
  {
    if prs == [] then []
    else
      var last := prs[|prs| - 1];
      ExternalMerged(prs[..|prs| - 1]) + (if IsExternalMerged(last) then [last] else [])
  }

  /** The sort key `pr.get('createdAt', '')`. */
  function PrDateKey(pr: PullRequest): SortKey {
    SortKey(0, PrCreatedAt(pr))
  }

  /** The sort key `(repo.get('stargazerCount', 0), repo.get('createdAt', ''))`. */
  function RepoKey(repo: Repository): SortKey {
    SortKey(repo.stargazerCount.GetOr(0), repo.createdAt.GetOr(""))
  }

  /** The sort key `len(prs)` of an organisation's item. */
  function GroupSizeKey(item: (string, seq<PullRequest>)): SortKey {
    SortKey(|item.1|, "")
  }

  /** The sort key `count` of a repository's item. */
  function CountKey(item: (string, nat)): SortKey {
    SortKey(item.1, "")
  }

  /** Lines 85-88: the external merged pull requests, newest first. */
  function ExternalSorted(prs: seq<PullRequest>): seq<PullRequest> {
    SortDesc(ExternalMerged(prs), PrDateKey)
  }

  /** `s.split('/')[0]`: the text before the first `/`. */
  function BeforeSlash(s: string): (r: string)
    ensures |r| <= |s| && r == s[..|r|]
    ensures '/' !in r
    ensures |r| < |s| ==> s[|r|] == '/'
  {
    if s == [] || s[0] == '/' then [] else [s[0]] + BeforeSlash(s[1..])
  }

  /** Lines 158-159: the organisation of a pull request's repository. */
  function OrgOf(pr: PullRequest): string {
    var full := FullNameOr(pr, "Unknown");
    if '/' in full then BeforeSlash(full) else "Unknown"
  }

  /** How an organisation's pull requests are shown. */
  datatype Policy =
    | Aggregate                            // counts per repository and the last five
    | Flagship(repo: string, role: string) // one repository summarised, the others listed
    | ListAll                              // every pull request, newest first

  /** The organisations lines 168, 198 and 245 single out. */
  function PolicyOf(org: string): Policy {
    if org == "QuantumEngineeredSystems" then Aggregate
    else if org == "JuliaDynamics" then Flagship("CriticalTransitions.jl", "Co-creator and main contributor")
    else if org == "qojulia" then Flagship("SecondQuantizedAlgebra.jl", "Major contributor and maintainer")
    else ListAll
  }

  /** One line per repository count of the breakdown. */
  function CountLines(items: seq<(string, nat)>): (r: seq<Line>)
    ensures |r| == |items|
    ensures forall i :: 0 <= i < |items| ==> r[i] == RepoCount(items[i].0, items[i].1)
  {
    if items == [] then []
    else
      var last := items[|items| - 1];
      CountLines(items[..|items| - 1]) + [RepoCount(last.0, last.1)]
  }

  /** The repository counts of an organisation, largest first. */
  function RepoBreakdown(prs: seq<PullRequest>): seq<(string, nat)> {
    SortDesc(CountItems(prs, ShortName), CountKey)
  }

  /** `head`, then a line for each of the first `n` of `prs`, in order. */
  function Listing(head: seq<Line>, prs: seq<PullRequest>, n: nat): Result<seq<Line>, Crash> {
    var lines :- Render(Take(prs, n), PrLineOf);
    Success(head + lines)
  }

  /** Lines 182-190: the summary's opening lines, one line per repository
      of the breakdown between the totals and the recent heading. */
  function SummaryHead(total: nat, breakdown: seq<(string, nat)>): (r: seq<Line>)
    ensures |r| == 4 + |breakdown|
  {
    [MaintainerIntro, MergedTotal(total), ActiveRepos(|breakdown|)] + CountLines(breakdown) + [LastFiveHeading]
  }

  /** Lines 170-197: the summary of an organisation the owner maintains,
      with its five newest pull requests. */
  function AggregateBody(prs: seq<PullRequest>): Result<seq<Line>, Crash> {
    Listing(SummaryHead(|prs|, RepoBreakdown(prs)), SortDesc(prs, PrDateKey), 5)
  }

  /** Lines 216-228: the flagship summary with its last three pull requests,
      shown only when the flagship has any. */
  function FlagshipBlock(repo: string, role: string, flagship: seq<PullRequest>): Result<seq<Line>, Crash> {
    if flagship == [] then Success([])
    else Listing([FlagshipHeading(repo, |flagship|, role), FlagshipRecentHeading(repo)], SortDesc(flagship, PrDateKey), 3)
  }

  /** Lines 231-244: all of the organisation's other pull requests, newest
      first, shown only when there are any. */
  function OtherBlock(org: string, other: seq<PullRequest>): Result<seq<Line>, Crash> {
    if other == [] then Success([])
    else Listing([OtherHeading(org)], SortDesc(other, PrDateKey), |other|)
  }

  /** Lines 198-291: an organisation with a flagship repository. */
  function FlagshipBody(org: string, repo: string, role: string, prs: seq<PullRequest>): Result<seq<Line>, Crash> {
    var head :- FlagshipBlock(repo, role, Members(prs, ShortName, repo));
    var rest :- OtherBlock(org, NonMembers(prs, ShortName, repo));
    Success(head + rest)
  }

  /** Lines 168-302: what follows an organisation's heading. */
  function OrgBody(org: string, prs: seq<PullRequest>): Result<seq<Line>, Crash> {
    match PolicyOf(org)
    case Aggregate => AggregateBody(prs)
    case Flagship(repo, role) => FlagshipBody(org, repo, role, prs)
    case ListAll => Render(SortDesc(prs, PrDateKey), PrLineOf)
  }

  /** Lines 165-304: one organisation's section. */
  function OrgSection(item: (string, seq<PullRequest>)): Result<seq<Line>, Crash> {
    var body :- OrgBody(item.0, item.1);
    Success([OrgHeading(item.0, |item.1|)] + body)
  }

  /** Lines 154-164: the external pull requests grouped by organisation
      without the owner's, the largest group first. */
  function OrgItems(external: seq<PullRequest>): seq<(string, seq<PullRequest>)> {
    SortDesc(GroupItems(NonMembers(external, OrgOf, Owner), OrgOf), GroupSizeKey)
  }

  /** A bucket as a dict item; a category the dict lacks has no repositories. */
  function BucketItem(categories: map<Category, seq<Repository>>, c: Category): (Category, seq<Repository>) {
    (c, if c in categories then categories[c] else [])
  }

  /** `categorized_repos.items()`, in the dict's order. */
  function CategoryItems(categories: map<Category, seq<Repository>>): (r: seq<(Category, seq<Repository>)>)
    ensures |r| == |CategoryOrder|
    ensures forall i :: 0 <= i < |r| ==> r[i] == BucketItem(categories, CategoryOrder[i])
  {
    [BucketItem(categories, JuliaPackages), BucketItem(categories, ResearchProjects),
     BucketItem(categories, ToolsUtilities), BucketItem(categories, DocsTutorials),
     BucketItem(categories, PersonalProjects)]
  }

  /** Lines 123-147: a bucket's section, its repositories by stars and then
      creation date, both descending; nothing for an empty bucket. */
  function CategoryBlock(item: (Category, seq<Repository>)): Result<seq<Line>, Crash> {
    if item.1 == [] then Success([])
    else
      var lines :- Render(SortDesc(item.1, RepoKey), RepoLinesOf);
      Success([CategoryHeading(item.0)] + lines)
  }

  /** The document head (lines 91-101). */
  function Head(today: string): seq<Line> {
    [DocumentTitle, GeneratorNote, GeneratedOn(today), RecentHeading]
  }

  /** `generate_markdown()` on the stored `prs` and `repos`, generated on
      `today`: the document's lines, or the first exception raised. */
  function Document(prs: seq<PullRequest>, repos: seq<Repository>, today: string): Result<seq<Line>, Crash> {
    var external := ExternalSorted(prs);
    var recent :- Render(Take(external, 10), PrLineOf);
    var categorized :- Categorized(NonForks(repos));
    var projects :- Render(CategoryItems(categorized), CategoryBlock);
    var orgs :- Render(OrgItems(external), OrgSection);
    Success(Head(today) + recent + [ProjectsHeading] + projects + [OrgsHeading] + orgs + [FooterRule, FooterNote])
  }

  // ---------------------------------------------------------------------
  // The script's loops

  /** Lines 154-161: `org_prs`, a `defaultdict(list)` filled in one pass,
      skipping the owner's organisation. */
  method GroupByOrg(prs: seq<PullRequest>) returns (items: seq<(string, seq<PullRequest>)>)
    ensures items == GroupItems(NonMembers(prs, OrgOf, Owner), OrgOf)
  {
    items := GroupExcept(prs, OrgOf, Owner);
  }

  /** Lines 172-176: `repo_counts`, a `defaultdict(int)` filled in one pass. */
  method CountByRepo(prs: seq<PullRequest>) returns (items: seq<(string, nat)>)
    ensures items == CountItems(prs, ShortName)
  {
    var repos: seq<string> := [];
    var counts: map<string, nat> := map[];
    for i := 0 to |prs|
      invariant IsCountDict(prs[..i], ShortName, repos, counts)
    {
      var pr := prs[i];
      assert prs[..i + 1] == prs[..i] + [pr];
      CountDictStep(prs[..i], pr, ShortName, repos, counts);
      var name := ShortName(pr);
      if name !in counts {
        repos := repos + [name];
        counts := counts[name := 0];
      }
      counts := counts[name := counts[name] + 1];
    }
    assert prs[..|prs|] == prs;
    CountDictItems(prs, ShortName, repos, counts);
    items := DictItems(repos, counts);
  }

  /** Lines 207-213: the flagship's pull requests and the others, in order. */
  method SplitByRepo(prs: seq<PullRequest>, repo: string) returns (flagship: seq<PullRequest>, other: seq<PullRequest>)
    ensures flagship == Members(prs, ShortName, repo)
    ensures other == NonMembers(prs, ShortName, repo)
  {
    flagship, other := [], [];
    for i := 0 to |prs|
      invariant flagship == Members(prs[..i], ShortName, repo)
      invariant other == NonMembers(prs[..i], ShortName, repo)
    {
      assert prs[..i + 1][..i] == prs[..i];
      if ShortName(prs[i]) == repo {
        flagship := flagship + [prs[i]];
      } else {
        other := other + [prs[i]];
      }
    }
    assert prs[..|prs|] == prs;
  }

  /** Lines 170-197: the summary of an organisation the owner maintains. */
  method RenderAggregate(prs: seq<PullRequest>) returns (r: Result<seq<Line>, Crash>)
    ensures r == AggregateBody(prs)
  {
    var counts := CountByRepo(prs);
    var breakdown := SortDesc(counts, CountKey);
    var md := [MaintainerIntro, MergedTotal(|prs|), ActiveRepos(|breakdown|)];
    for j := 0 to |breakdown|
      invariant md == [MaintainerIntro, MergedTotal(|prs|), ActiveRepos(|breakdown|)] + CountLines(breakdown[..j])
    {
      assert breakdown[..j + 1][..j] == breakdown[..j];
      md := md + [RepoCount(breakdown[j].0, breakdown[j].1)];
    }
    assert breakdown[..|breakdown|] == breakdown;
    md := md + [LastFiveHeading];
    assert md == SummaryHead(|prs|, breakdown);
    var recent := RenderAll(Take(SortDesc(prs, PrDateKey), 5), PrLineOf);
    if recent.Failure? {
      return Failure(recent.error);
    }
    r := Success(md + recent.value);
  }

  /** Lines 200-244: an organisation with a flagship repository. */
  method RenderFlagship(org: string, repo: string, role: string, prs: seq<PullRequest>) returns (r: Result<seq<Line>, Crash>)
    ensures r == FlagshipBody(org, repo, role, prs)
  {
    var flagship, other := SplitByRepo(prs, repo);
    var md := [];
    if flagship != [] {
      var recent := RenderAll(Take(SortDesc(flagship, PrDateKey), 3), PrLineOf);
      if recent.Failure? {
        return Failure(recent.error);
      }
      md := [FlagshipHeading(repo, |flagship|, role), FlagshipRecentHeading(repo)] + recent.value;
    }
    assert FlagshipBlock(repo, role, flagship) == Success(md);
    var rest := [];
    if other != [] {
      var sorted := SortDesc(other, PrDateKey);
      assert Take(sorted, |other|) == sorted;
      var listed := RenderAll(sorted, PrLineOf);
      if listed.Failure? {
        assert OtherBlock(org, other) == Failure(listed.error);
        return Failure(listed.error);
      }
      rest := [OtherHeading(org)] + listed.value;
    }
    assert OtherBlock(org, other) == Success(rest);
    r := Success(md + rest);
  }

  /** Lines 168-302: the lines following an organisation's heading. */
  method RenderOrg(org: string, prs: seq<PullRequest>) returns (r: Result<seq<Line>, Crash>)
    ensures r == OrgBody(org, prs)
  {
    match PolicyOf(org)
    case Aggregate =>
      r := RenderAggregate(prs);
    case Flagship(repo, role) =>
      r := RenderFlagship(org, repo, role, prs);
    case ListAll =>
      r := RenderAll(SortDesc(prs, PrDateKey), PrLineOf);
  }

  /** Lines 165-304: every organisation's section in turn. */
  method RenderOrgs(items: seq<(string, seq<PullRequest>)>) returns (r: Result<seq<Line>, Crash>)
    ensures r == Render(items, OrgSection)
  {
    var md: seq<Line> := [];
    for i := 0 to |items|
      invariant Render(items[..i], OrgSection) == Success(md)
    {
      assert items[..i + 1][..i] == items[..i];
      var (org, prs) := items[i];
      var body := RenderOrg(org, prs);
      if body.Failure? {
        RenderFirstFailure(items, OrgSection, i + 1);
        return Failure(body.error);
      }
      assert OrgSection(items[i]) == Success([OrgHeading(org, |prs|)] + body.value);
      assert Render(items[..i + 1], OrgSection) == Success(md + ([OrgHeading(org, |prs|)] + body.value));
      md := md + ([OrgHeading(org, |prs|)] + body.value);
    }
    assert items[..|items|] == items;
    r := Success(md);
  }

  /** Lines 122-147: every non-empty bucket's section in turn. */
  method RenderProjects(categories: map<Category, seq<Repository>>) returns (r: Result<seq<Line>, Crash>)
    ensures r == Render(CategoryItems(categories), CategoryBlock)
  {
    var items := CategoryItems(categories);
    var md: seq<Line> := [];
    for i := 0 to |items|
      invariant Render(items[..i], CategoryBlock) == Success(md)
    {
      assert items[..i + 1][..i] == items[..i];
      var (category, categoryRepos) := items[i];
      if categoryRepos != [] {
        var sorted := SortDesc(categoryRepos, RepoKey);
        var lines := RenderAll(sorted, RepoLinesOf);
        if lines.Failure? {
          RenderFirstFailure(items, CategoryBlock, i + 1);
          return Failure(lines.error);
        }
        assert CategoryBlock(items[i]) == Success([CategoryHeading(category)] + lines.value);
        md := md + ([CategoryHeading(category)] + lines.value);
      } else {
        assert CategoryBlock(items[i]) == Success([]);
        assert md + [] == md;
      }
    }
    assert items[..|items|] == items;
    r := Success(md);
  }

  /** `generate_markdown()`, with the stored lists as parameters and the
      generation date given. */
  method GenerateMarkdown(prs: seq<PullRequest>, repos: seq<Repository>, today: string) returns (r: Result<seq<Line>, Crash>)
    ensures r == Document(prs, repos, today)
  {
    var ownRepos := NonForks(repos);
    var external := SortDesc(ExternalMerged(prs), PrDateKey);
    var md := [DocumentTitle, GeneratorNote, GeneratedOn(today), RecentHeading];
    var recent :- RenderAll(Take(external, 10), PrLineOf);
    md := md + recent + [ProjectsHeading];
    var categorized :- CategorizeRepositories(ownRepos);
    var projects :- RenderProjects(categorized);
    md := md + projects + [OrgsHeading];
    var orgItems := GroupByOrg(external);
    var orgs :- RenderOrgs(SortDesc(orgItems, GroupSizeKey));
    md := md + orgs + [FooterRule, FooterNote];
    r := Success(md);
  }
}
