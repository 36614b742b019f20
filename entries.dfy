/** The lines of the generated contributions document and the formatting of
    one entry: a pull request line, a repository block, the date rule. Lines
    are kept at the level of their structure (which heading, which entry,
    which numbers), not as the decorated markdown text. */
module Entries {
  import opened Common
  import opened Records
  import opened Categories

  /** A pull request entry: `- **[repo](url)** - title *(merged date)*` */
  datatype PrEntry = PrEntry(repo: string, url: string, title: string, merged: string)

  /** One line of the document; blank lines are not represented. */
  datatype Line =
    | DocumentTitle                                   // "# Open Source Contributions"
    | GeneratorNote                                   // the "automatically generated" note
    | GeneratedOn(date: string)                       // "*Generated on <date>*"
    | RecentHeading                                   // "## Recent Merged Contributions ..."
    | PrLine(entry: PrEntry)
    | ProjectsHeading                                 // "## My Open Source Projects"
    | CategoryHeading(category: Category)             // "### <category>"
    | RepoHead(name: string, url: string, stars: Option<int>)  // "- **[name](url)** <star badge>"
    | DescriptionLine(text: string)                   // "  - <description>"
    | CreatedLine(date: string)                       // "  - *Created: <date>*"
    | Separator                                       // "#"
    | OrgsHeading                                     // "## All Merged Pull Requests by Organization ..."
    | OrgHeading(org: string, count: nat)             // "### <org> (<n> PRs)"
    | MaintainerIntro                                 // "*As main maintainer of ... packages:*"
    | MergedTotal(count: nat)                         // "- **<n>** merged PRs"
    | ActiveRepos(count: nat)                         // "- Active development across **<n>** repositories:"
    | RepoCount(repo: string, count: nat)             // "  - **<repo>**: <n> PRs"
    | LastFiveHeading                                 // "*Recent contributions (last 5):*"
    | FlagshipHeading(repo: string, count: nat, role: string)  // "**<repo>** (<n> PRs) - *<role>*"
    | FlagshipRecentHeading(repo: string)             // "*Recent <repo> contributions (last 3):*"
    | OtherHeading(org: string)                       // "**Other <org> contributions:**"
    | FooterRule                                      // "---"
    | FooterNote                                      // "*This document was automatically generated ...*"

  predicate IsDigit(c: char) {
    '0' <= c <= '9'
  }

  /** The value of two decimal digits. */
  function TwoDigits(tens: char, units: char): int {
    (tens as int - '0' as int) * 10 + (units as int - '0' as int)
  }

  /** The timestamps `datetime.fromisoformat` accepts here: a `YYYY-MM-DD`
      date with a year from 1, a month from 1 to 12 and a day from 1 to 31,
      alone or followed by a time part introduced by `T` or a space. */
  predicate WellFormedTimestamp(s: string) {
    |s| >= 10
    && IsDigit(s[0]) && IsDigit(s[1]) && IsDigit(s[2]) && IsDigit(s[3]) && s[4] == '-'
    && IsDigit(s[5]) && IsDigit(s[6]) && s[7] == '-' && IsDigit(s[8]) && IsDigit(s[9])
    && 1 <= TwoDigits(s[0], s[1]) * 100 + TwoDigits(s[2], s[3])
    && 1 <= TwoDigits(s[5], s[6]) <= 12 && 1 <= TwoDigits(s[8], s[9]) <= 31
    && (|s| == 10 || s[10] == 'T' || s[10] == ' ')
  }

  /** `datetime.fromisoformat(s.replace('Z', '+00:00')).strftime('%Y-%m-%d')`:
      the date part of a well-formed timestamp, a ValueError otherwise. */
  function IsoDate(s: string): (r: Result<string, Crash>)
    ensures r.Success? <==> WellFormedTimestamp(s)
    ensures r.Success? ==> |r.value| == 10 && StartsWith(s, r.value)
    ensures r.Success? ==> r.value[4] == '-' && r.value[7] == '-'
    ensures |s| < 10 ==> r == Failure(ValueError(s))
  {
    if WellFormedTimestamp(s) then Success(s[..10]) else Failure(ValueError(s))
  }

  /** The fields of one pull request line, with the defaults of lines
      107-110: an unknown repository, "No title", "#" for a missing url. */
  function FormatPr(pr: PullRequest): Result<PrEntry, Crash> {
    var merged :- IsoDate(PrCreatedAt(pr));
    Success(PrEntry(FullNameOr(pr, "Unknown"), pr.url.GetOr("#"), pr.title.GetOr("No title"), merged))
  }

  /** The one line a pull request renders as. */
  function PrLineOf(pr: PullRequest): Result<seq<Line>, Crash> {
    var entry :- FormatPr(pr);
    Success([PrLine(entry)])
  }

  /** The block a repository renders as (lines 132-147): `repo['name']` and
      `repo['url']` raise a KeyError when absent; the star count defaults to
      0 and shows only when positive; the description defaults to "No
      description" and shows only when non-empty. */
  function RepoLinesOf(repo: Repository): Result<seq<Line>, Crash> {
    if repo.name.None? then Failure(KeyError("name"))
    else if repo.url.None? then Failure(KeyError("url"))
    else
      var created :- IsoDate(repo.createdAt.GetOr(""));
      var stars := repo.stargazerCount.GetOr(0);
      var description := repo.description.GetOr("No description");
      Success([RepoHead(repo.name.value, repo.url.value, if stars > 0 then Some(stars) else None)]
        + (if description != "" then [DescriptionLine(description)] else [])
        + [CreatedLine(created), Separator])
  }

  /** The lines appended by a loop that renders every element of `s` in
      turn with `f`, or the exception of the first element `f` raises on. */
  function Render<T>(s: seq<T>, f: T -> Result<seq<Line>, Crash>): Result<seq<Line>, Crash> {
    if s == [] then Success([])
    else
      var before :- Render(s[..|s| - 1], f);
      var last :- f(s[|s| - 1]);
      Success(before + last)
  }

  /** `for x in s: md.extend(f(x))`, stopping at the first exception. */
  method RenderAll<T>(s: seq<T>, f: T -> Result<seq<Line>, Crash>) returns (r: Result<seq<Line>, Crash>)
    ensures r == Render(s, f)
  {
    var md: seq<Line> := [];
    for i := 0 to |s|
      invariant Render(s[..i], f) == Success(md)
    {
      assert s[..i + 1][..i] == s[..i];
      var lines := f(s[i]);
      if lines.Failure? {
        RenderFirstFailure(s, f, i + 1);
        return Failure(lines.error);
      }
      md := md + lines.value;
    }
    assert s[..|s|] == s;
    r := Success(md);
  }

  /** An exception raised on a prefix ends the whole loop with it. */
  lemma {:induction false} RenderFirstFailure<T>(s: seq<T>, f: T -> Result<seq<Line>, Crash>, k: nat)
    requires k <= |s| && Render(s[..k], f).Failure?
    ensures Render(s, f) == Render(s[..k], f)
    decreases |s|
  {
    if k < |s| {
      var init := s[..|s| - 1];
      assert init[..k] == s[..k];
      RenderFirstFailure(init, f, k);
    } else {
      assert s[..k] == s;
    }
  }

  /** The loop fails exactly when `f` fails on some element, and then with
      the exception of the first such element. */
  lemma {:induction false} RenderFailure<T>(s: seq<T>, f: T -> Result<seq<Line>, Crash>)
    ensures Render(s, f).Failure? <==> exists i :: 0 <= i < |s| && f(s[i]).Failure?
    ensures Render(s, f).Failure? ==>
      exists i :: 0 <= i < |s| && Render(s, f) == f(s[i])
        && forall j :: 0 <= j < i ==> f(s[j]).Success?
  {
    if s != [] {
      var init, last := s[..|s| - 1], s[|s| - 1];
      RenderFailure(init, f);
      if Render(init, f).Failure? {
        var i :| 0 <= i < |init| && Render(init, f) == f(init[i]) && forall j :: 0 <= j < i ==> f(init[j]).Success?;
        assert s[i] == init[i];
        assert forall j :: 0 <= j < i ==> s[j] == init[j];
      } else {
        assert forall j :: 0 <= j < |init| ==> s[j] == init[j] && f(init[j]).Success?;
        if f(last).Failure? {
          assert Render(s, f) == f(s[|s| - 1]);
        }
      }
    }
  }

  /** Rendering pull requests gives one line per pull request, in order,
      unless one of them has a malformed `createdAt`. */
  lemma {:induction false} RenderPrs(prs: seq<PullRequest>)
    ensures Render(prs, PrLineOf).Success? <==> forall pr :: pr in prs ==> WellFormedTimestamp(PrCreatedAt(pr))
    ensures Render(prs, PrLineOf).Success? ==>
      |Render(prs, PrLineOf).value| == |prs|
      && forall i :: 0 <= i < |prs| ==> Render(prs, PrLineOf).value[i] == PrLine(FormatPr(prs[i]).value)
  {
    if prs != [] {
      var init, last := prs[..|prs| - 1], prs[|prs| - 1];
      assert prs == init + [last];
      RenderPrs(init);
      if Render(prs, PrLineOf).Success? {
        var lines := Render(prs, PrLineOf).value;
        assert lines == Render(init, PrLineOf).value + [PrLine(FormatPr(last).value)];
      }
    }
  }

  /** The fields of a pull request line: the defaults apply exactly to the
      missing keys, and the date is the first ten characters of `createdAt`. */
  lemma FormatPrFields(pr: PullRequest)
    requires WellFormedTimestamp(PrCreatedAt(pr))
    ensures FormatPr(pr).Success?
    ensures var e := FormatPr(pr).value;
      (pr.title.None? ==> e.title == "No title") && (pr.title.Some? ==> e.title == pr.title.value)
      && (pr.url.None? ==> e.url == "#") && (pr.url.Some? ==> e.url == pr.url.value)
      && (pr.repository.None? ==> e.repo == "Unknown")
      && (pr.repository.Some? && pr.repository.value.nameWithOwner.None? ==> e.repo == "Unknown")
      && (pr.repository.Some? && pr.repository.value.nameWithOwner.Some? ==> e.repo == pr.repository.value.nameWithOwner.value)
      && e.merged == PrCreatedAt(pr)[..10]
  {
  }

  /** A GitHub timestamp renders as its date; the empty default and year
      zero raise. */
  lemma IsoDateExample()
    ensures IsoDate("2024-03-05T10:00:00Z") == Success("2024-03-05")
    ensures IsoDate("").Failure?
    ensures IsoDate("0000-01-01").Failure?
  {
    var z := "0000-01-01";
    assert TwoDigits(z[0], z[1]) == 0 && TwoDigits(z[2], z[3]) == 0;
    var s := "2024-03-05T10:00:00Z";
    assert TwoDigits(s[0], s[1]) == 20 && TwoDigits(s[2], s[3]) == 24;
    assert TwoDigits(s[5], s[6]) == 3 && TwoDigits(s[8], s[9]) == 5;
    assert WellFormedTimestamp(s);
    assert s[..10] == "2024-03-05";
  }

  /** The shape of a repository block: a head line whose star badge is
      shown exactly when the count is positive, a description line exactly
      when the description is non-empty ("No description" when it is
      missing), then the creation date and the separator. */
  lemma RepoBlockShape(repo: Repository)
    requires repo.name.Some? && repo.url.Some?
    requires WellFormedTimestamp(repo.createdAt.GetOr(""))
    ensures RepoLinesOf(repo).Success?
    ensures var lines := RepoLinesOf(repo).value;
      var stars := repo.stargazerCount.GetOr(0);
      lines[0] == RepoHead(repo.name.value, repo.url.value, lines[0].stars)
      && (lines[0].stars.Some? <==> stars > 0)
      && (lines[0].stars.Some? ==> lines[0].stars.value == stars)
      && (|lines| == 4 <==> repo.description.GetOr("No description") != "")
      && (|lines| == 4 ==> lines[1] == DescriptionLine(repo.description.GetOr("No description")))
      && (repo.description.None? ==> lines[1] == DescriptionLine("No description"))
      && lines[|lines| - 2] == CreatedLine(repo.createdAt.GetOr("")[..10])
      && lines[|lines| - 1] == Separator
  {
  }

  /** A repository without a name or a url raises a KeyError. */
  lemma RepoBlockMissingKey(repo: Repository)
    requires repo.name.None? || repo.url.None?
    ensures RepoLinesOf(repo).Failure? && RepoLinesOf(repo).error.KeyError?
  {
  }
}
