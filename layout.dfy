/** The headings of the generated document: which category sections and
    which organisation sections it holds, and in which order. Every other
    line is a "plain" line as far as these headings are concerned. */
module Layout {
  import opened Common
  import opened Records
  import opened Categories
  import opened Sorting
  import opened Grouping
  import opened Entries
  import opened Report
  import opened ReportFacts

  /** The category headings among `lines`, in order. */
  function CategoriesShown(lines: seq<Line>): seq<Category> {
    if lines == [] then []
    else
      var last := lines[|lines| - 1];
      CategoriesShown(lines[..|lines| - 1]) + (if last.CategoryHeading? then [last.category] else [])
  }

  /** The organisation headings among `lines`, in order, with their counts. */
  function OrgsShown(lines: seq<Line>): seq<(string, nat)> {
    if lines == [] then []
    else
      var last := lines[|lines| - 1];
      OrgsShown(lines[..|lines| - 1]) + (if last.OrgHeading? then [(last.org, last.count)] else [])
  }

  /** Lines that are neither a category nor an organisation heading. */
  predicate Plain(lines: seq<Line>) {
    forall i :: 0 <= i < |lines| ==> !lines[i].CategoryHeading? && !lines[i].OrgHeading?
  }

  /** The headings of two pieces put together are those of the first
      followed by those of the second. */
  lemma {:induction false} ShownConcat(a: seq<Line>, b: seq<Line>)
    ensures CategoriesShown(a + b) == CategoriesShown(a) + CategoriesShown(b)
    ensures OrgsShown(a + b) == OrgsShown(a) + OrgsShown(b)
    decreases |b|
  {
    if b != [] {
      var init := b[..|b| - 1];
      assert (a + b)[..|a + b| - 1] == a + init;
      ShownConcat(a, init);
    } else {
      assert a + b == a;
    }
  }

  /** Plain lines show no heading. */
  lemma {:induction false} PlainShown(lines: seq<Line>)
    requires Plain(lines)
    ensures CategoriesShown(lines) == [] && OrgsShown(lines) == []
  {
    if lines != [] {
      PlainShown(lines[..|lines| - 1]);
    }
  }

  lemma PlainConcat(a: seq<Line>, b: seq<Line>)
    requires Plain(a) && Plain(b)
    ensures Plain(a + b)
  {
    forall i | 0 <= i < |a + b|
      ensures !(a + b)[i].CategoryHeading? && !(a + b)[i].OrgHeading?
    {
      if i < |a| {
        assert (a + b)[i] == a[i];
      } else {
        assert (a + b)[i] == b[i - |a|];
      }
    }
  }

  /** Rendering with a function whose every output is plain gives plain
      lines. */
  lemma {:induction false} RenderPlain<T>(s: seq<T>, f: T -> Result<seq<Line>, Crash>)
    requires forall i :: 0 <= i < |s| && f(s[i]).Success? ==> Plain(f(s[i]).value)
    ensures Render(s, f).Success? ==> Plain(Render(s, f).value)
  {
    if s != [] && Render(s, f).Success? {
      var init := s[..|s| - 1];
      assert forall i :: 0 <= i < |init| ==> init[i] == s[i];
      RenderPlain(init, f);
      PlainConcat(Render(init, f).value, f(s[|s| - 1]).value);
    }
  }

  /** Pull request lines are plain. */
  lemma PrLinesPlain(prs: seq<PullRequest>)
    ensures Render(prs, PrLineOf).Success? ==> Plain(Render(prs, PrLineOf).value)
  {
    RenderPrs(prs);
  }

  /** Repository blocks are plain. */
  lemma RepoLinesPlain(repos: seq<Repository>)
    ensures Render(repos, RepoLinesOf).Success? ==> Plain(Render(repos, RepoLinesOf).value)
  {
    RenderPlain(repos, RepoLinesOf);
  }

  /** What follows an organisation's heading is plain, whatever its policy. */
  lemma OrgBodyPlain(org: string, prs: seq<PullRequest>)
    ensures OrgBody(org, prs).Success? ==> Plain(OrgBody(org, prs).value)
  {
    match PolicyOf(org)
    case Aggregate => AggregatePlain(prs);
    case Flagship(repo, role) => FlagshipPlain(org, repo, role, prs);
    case ListAll => PrLinesPlain(SortDesc(prs, PrDateKey));
  }

  /** A listing after plain heading lines is plain. */
  lemma ListingPlain(head: seq<Line>, prs: seq<PullRequest>, n: nat)
    requires Plain(head)
    ensures Listing(head, prs, n).Success? ==> Plain(Listing(head, prs, n).value)
  {
    PrLinesPlain(Take(prs, n));
    if Listing(head, prs, n).Success? {
      PlainConcat(head, Render(Take(prs, n), PrLineOf).value);
    }
  }

  /** The summary of a maintained organisation is plain. */
  lemma AggregatePlain(prs: seq<PullRequest>)
    ensures AggregateBody(prs).Success? ==> Plain(AggregateBody(prs).value)
  {
    var b := RepoBreakdown(prs);
    var head := [MaintainerIntro, MergedTotal(|prs|), ActiveRepos(|b|)];
    PlainConcat(head, CountLines(b));
    PlainConcat(head + CountLines(b), [LastFiveHeading]);
    ListingPlain(SummaryHead(|prs|, b), SortDesc(prs, PrDateKey), 5);
  }

  /** The flagship block and the other pull requests are plain. */
  lemma FlagshipPlain(org: string, repo: string, role: string, prs: seq<PullRequest>)
    ensures FlagshipBody(org, repo, role, prs).Success? ==> Plain(FlagshipBody(org, repo, role, prs).value)
  {
    var flagship, other := Members(prs, ShortName, repo), NonMembers(prs, ShortName, repo);
    var head := FlagshipBlock(repo, role, flagship);
    var rest := OtherBlock(org, other);
    ListingPlain([FlagshipHeading(repo, |flagship|, role), FlagshipRecentHeading(repo)], SortDesc(flagship, PrDateKey), 3);
    ListingPlain([OtherHeading(org)], SortDesc(other, PrDateKey), |other|);
    if head.Success? && rest.Success? {
      PlainConcat(head.value, rest.value);
    }
  }

  /** One heading per organisation, with its number of pull requests. */
  function OrgHeadings(items: seq<(string, seq<PullRequest>)>): (r: seq<(string, nat)>)
    ensures |r| == |items|
    ensures forall i :: 0 <= i < |items| ==> r[i] == (items[i].0, |items[i].1|)
  {
    if items == [] then []
    else
      var last := items[|items| - 1];
      OrgHeadings(items[..|items| - 1]) + [(last.0, |last.1|)]
  }

  /** The non-empty buckets of `items`, in order. */
  function NonEmptyBuckets(items: seq<(Category, seq<Repository>)>): seq<Category> {
    if items == [] then []
    else
      var last := items[|items| - 1];
      NonEmptyBuckets(items[..|items| - 1]) + (if last.1 != [] then [last.0] else [])
  }

  /** The organisation sections show one heading per organisation, in the
      order of `items`, and no category heading. */
  lemma {:induction false} OrgSectionsShown(items: seq<(string, seq<PullRequest>)>)
    ensures var r := Render(items, OrgSection);
      r.Success? ==> OrgsShown(r.value) == OrgHeadings(items) && CategoriesShown(r.value) == []
  {
    var r := Render(items, OrgSection);
    if items != [] && r.Success? {
      var init, last := items[..|items| - 1], items[|items| - 1];
      OrgSectionsShown(init);
      var before := Render(init, OrgSection).value;
      var body := OrgBody(last.0, last.1).value;
      OrgBodyPlain(last.0, last.1);
      PlainShown(body);
      ShownConcat([OrgHeading(last.0, |last.1|)], body);
      assert OrgsShown([OrgHeading(last.0, |last.1|)]) == [(last.0, |last.1|)];
      ShownConcat(before, [OrgHeading(last.0, |last.1|)] + body);
    }
  }

  /** The project sections show the heading of each non-empty bucket, in
      the order of `items`, and no organisation heading. */
  lemma {:induction false} ProjectSectionsShown(items: seq<(Category, seq<Repository>)>)
    ensures var r := Render(items, CategoryBlock);
      r.Success? ==> CategoriesShown(r.value) == NonEmptyBuckets(items) && OrgsShown(r.value) == []
  {
    var r := Render(items, CategoryBlock);
    if items != [] && r.Success? {
      var init, last := items[..|items| - 1], items[|items| - 1];
      ProjectSectionsShown(init);
      var before := Render(init, CategoryBlock).value;
      var block := CategoryBlock(last).value;
      if last.1 != [] {
        var lines := Render(SortDesc(last.1, RepoKey), RepoLinesOf).value;
        RepoLinesPlain(SortDesc(last.1, RepoKey));
        PlainShown(lines);
        ShownConcat([CategoryHeading(last.0)], lines);
        assert CategoriesShown([CategoryHeading(last.0)]) == [last.0];
      }
      ShownConcat(before, block);
    }
  }

  /** `[c]` when bucket `c` is non-empty, nothing otherwise. */
  function IfNonEmpty(categories: map<Category, seq<Repository>>, c: Category): seq<Category> {
    if c in categories && categories[c] != [] then [c] else []
  }

  /** The buckets in dict order, the empty ones skipped. */
  lemma NonEmptyInDictOrder(categories: map<Category, seq<Repository>>)
    ensures NonEmptyBuckets(CategoryItems(categories))
      == IfNonEmpty(categories, JuliaPackages) + IfNonEmpty(categories, ResearchProjects)
       + IfNonEmpty(categories, ToolsUtilities) + IfNonEmpty(categories, DocsTutorials)
       + IfNonEmpty(categories, PersonalProjects)
  {
    var a, b, c := BucketItem(categories, JuliaPackages), BucketItem(categories, ResearchProjects), BucketItem(categories, ToolsUtilities);
    var d, e := BucketItem(categories, DocsTutorials), BucketItem(categories, PersonalProjects);
    assert NonEmptyBuckets([a]) == IfNonEmpty(categories, JuliaPackages) by {
      assert [a][..0] == [];
    }
    assert NonEmptyBuckets([a, b]) == NonEmptyBuckets([a]) + IfNonEmpty(categories, ResearchProjects) by {
      assert [a, b][..1] == [a];
    }
    assert NonEmptyBuckets([a, b, c]) == NonEmptyBuckets([a, b]) + IfNonEmpty(categories, ToolsUtilities) by {
      assert [a, b, c][..2] == [a, b];
    }
    assert NonEmptyBuckets([a, b, c, d]) == NonEmptyBuckets([a, b, c]) + IfNonEmpty(categories, DocsTutorials) by {
      assert [a, b, c, d][..3] == [a, b, c];
    }
    assert NonEmptyBuckets([a, b, c, d, e]) == NonEmptyBuckets([a, b, c, d]) + IfNonEmpty(categories, PersonalProjects) by {
      assert [a, b, c, d, e][..4] == [a, b, c, d];
    }
  }

  /** The headings of the whole document are those of its project
      sections followed by those of its organisation sections. */
  lemma DocumentShown(head: seq<Line>, recent: seq<Line>, projects: seq<Line>, orgs: seq<Line>,
                      categories: seq<Category>, headings: seq<(string, nat)>)
    requires Plain(head) && Plain(recent)
    requires CategoriesShown(projects) == categories && OrgsShown(projects) == []
    requires CategoriesShown(orgs) == [] && OrgsShown(orgs) == headings
    ensures var d := head + recent + [ProjectsHeading] + projects + [OrgsHeading] + orgs + [FooterRule, FooterNote];
      CategoriesShown(d) == categories && OrgsShown(d) == headings
  {
    PlainShown(head);
    PlainShown(recent);
    var p1 := head + recent;
    ShownConcat(head, recent);
    var p2 := p1 + [ProjectsHeading];
    ShownConcat(p1, [ProjectsHeading]);
    assert CategoriesShown([ProjectsHeading]) == [] && OrgsShown([ProjectsHeading]) == [];
    var p3 := p2 + projects;
    ShownConcat(p2, projects);
    var p4 := p3 + [OrgsHeading];
    ShownConcat(p3, [OrgsHeading]);
    assert CategoriesShown([OrgsHeading]) == [] && OrgsShown([OrgsHeading]) == [];
    var p5 := p4 + orgs;
    ShownConcat(p4, orgs);
    ShownConcat(p5, [FooterRule, FooterNote]);
    assert CategoriesShown([FooterRule, FooterNote]) == [] && OrgsShown([FooterRule, FooterNote]) == [] by {
      assert [FooterRule, FooterNote][..1] == [FooterRule];
    }
    assert CategoriesShown(p2) == [] && OrgsShown(p2) == [];
    assert CategoriesShown(p3) == CategoriesShown(projects) && OrgsShown(p3) == OrgsShown(projects);
    assert CategoriesShown(p4) == CategoriesShown(projects) && OrgsShown(p4) == OrgsShown(projects);
  }

  /** Lines 122-164 of the whole document: its category headings are
      those of the non-empty buckets of the owner's non-fork repositories,
      in dict order; its organisation headings are one per organisation of
      the external pull requests, each with its number of pull requests,
      from the largest to the smallest. */
  lemma DocumentHeadings(prs: seq<PullRequest>, repos: seq<Repository>, today: string)
    ensures var d := Document(prs, repos, today);
      d.Success? ==>
        var categories := Categorized(NonForks(repos)).value;
        CategoriesShown(d.value)
          == IfNonEmpty(categories, JuliaPackages) + IfNonEmpty(categories, ResearchProjects)
           + IfNonEmpty(categories, ToolsUtilities) + IfNonEmpty(categories, DocsTutorials)
           + IfNonEmpty(categories, PersonalProjects)
        && OrgsShown(d.value) == OrgHeadings(OrgItems(ExternalSorted(prs)))
  {
    var d := Document(prs, repos, today);
    if d.Success? {
      var external := ExternalSorted(prs);
      var categories := Categorized(NonForks(repos)).value;
      assert d.value == Assembled(today, Take(external, 10), CategoryItems(categories), OrgItems(external));
      AssembledHeadings(today, Take(external, 10), CategoryItems(categories), OrgItems(external));
      NonEmptyInDictOrder(categories);
    }
  }

  /** The document assembled from the pull requests it lists first, the
      buckets and the organisation groups, when each of them renders. */
  function Assembled(today: string, recent: seq<PullRequest>, buckets: seq<(Category, seq<Repository>)>,
                     groups: seq<(string, seq<PullRequest>)>): seq<Line>
    requires Render(recent, PrLineOf).Success?
    requires Render(buckets, CategoryBlock).Success?
    requires Render(groups, OrgSection).Success?
  {
    Head(today) + Render(recent, PrLineOf).value + [ProjectsHeading]
      + Render(buckets, CategoryBlock).value + [OrgsHeading]
      + Render(groups, OrgSection).value + [FooterRule, FooterNote]
  }

  /** The headings of the assembled document: one per non-empty bucket,
      then one per organisation group. */
  lemma AssembledHeadings(today: string, recent: seq<PullRequest>, buckets: seq<(Category, seq<Repository>)>,
                          groups: seq<(string, seq<PullRequest>)>)
    requires Render(recent, PrLineOf).Success?
    requires Render(buckets, CategoryBlock).Success?
    requires Render(groups, OrgSection).Success?
    ensures CategoriesShown(Assembled(today, recent, buckets, groups)) == NonEmptyBuckets(buckets)
    ensures OrgsShown(Assembled(today, recent, buckets, groups)) == OrgHeadings(groups)
  {
    PrLinesPlain(recent);
    assert Plain(Head(today));
    ProjectSectionsShown(buckets);
    OrgSectionsShown(groups);
    DocumentShown(Head(today), Render(recent, PrLineOf).value, Render(buckets, CategoryBlock).value,
      Render(groups, OrgSection).value, NonEmptyBuckets(buckets), OrgHeadings(groups));
  }

  /** Lines 164-165: one organisation heading per organisation with
      external merged pull requests, with its count, largest first. */
  lemma OrgHeadingsOrder(prs: seq<PullRequest>)
    ensures var shown := OrgHeadings(OrgItems(ExternalSorted(prs)));
      |shown| == |KeySet(ExternalSorted(prs), OrgOf)|
      && forall i, j :: 0 <= i < j < |shown| ==> shown[i].1 >= shown[j].1
  {
    var items := OrgItems(ExternalSorted(prs));
    OrgOrder(prs);
    var shown := OrgHeadings(items);
    forall i, j | 0 <= i < j < |shown|
      ensures shown[i].1 >= shown[j].1
    {
      assert !KeyLess(GroupSizeKey(items[i]), GroupSizeKey(items[j]));
    }
  }
}
