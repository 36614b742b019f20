/** What the generated contributions document promises: which pull
    requests it lists and in which order, how organisations are grouped and
    ordered, and what each organisation's summary holds. */
module ReportFacts {
  import opened Common
  import opened Records
  import opened Categories
  import opened Sorting
  import opened Grouping
  import opened Entries
  import opened Report

  /** The external list holds each external merged pull request as often as
      it is stored, and nothing else. */
  lemma {:induction false} ExternalMergedCount(prs: seq<PullRequest>, pr: PullRequest)
    ensures multiset(ExternalMerged(prs))[pr] == if IsExternalMerged(pr) then multiset(prs)[pr] else 0
  {
    if prs != [] {
      var init, last := prs[..|prs| - 1], prs[|prs| - 1];
      assert prs == init + [last];
      ExternalMergedCount(init, pr);
    }
  }

  /** Lines 85-88: the sorted external list is a permutation of the stored
      pull requests that are merged and not the owner's, newest first, and
      pull requests with the same `createdAt` keep their stored order. */
  lemma ExternalSortedSpec(prs: seq<PullRequest>)
    ensures forall pr :: pr in ExternalSorted(prs) <==> pr in prs && IsExternalMerged(pr)
    ensures forall pr :: multiset(ExternalSorted(prs))[pr] == if IsExternalMerged(pr) then multiset(prs)[pr] else 0
    ensures Descending(ExternalSorted(prs), PrDateKey)
    ensures forall k :: WithKey(ExternalSorted(prs), PrDateKey, k) == WithKey(ExternalMerged(prs), PrDateKey, k)
  {
    SortDescProperties(ExternalMerged(prs), PrDateKey);
    forall pr
      ensures multiset(ExternalSorted(prs))[pr] == if IsExternalMerged(pr) then multiset(prs)[pr] else 0
    {
      ExternalMergedCount(prs, pr);
    }
  }

  /** Lines 104-112: the recent section lists the first ten pull requests
      of the sorted external list, or all of them when there are fewer,
      each as its own line; it fails exactly when one of them has a
      malformed `createdAt`. */
  lemma RecentSection(prs: seq<PullRequest>)
    ensures var shown := Take(ExternalSorted(prs), 10);
      var r := Render(shown, PrLineOf);
      (r.Success? <==> forall pr :: pr in shown ==> WellFormedTimestamp(PrCreatedAt(pr)))
      && (r.Success? ==>
        |r.value| == (if |ExternalMerged(prs)| < 10 then |ExternalMerged(prs)| else 10)
        && forall i :: 0 <= i < |r.value| ==> r.value[i] == PrLine(FormatPr(ExternalSorted(prs)[i]).value))
  {
    RenderPrs(Take(ExternalSorted(prs), 10));
  }

  /** Lines 158-159: the organisation is the text of `nameWithOwner` before
      its first `/`, or "Unknown" when it has none. */
  lemma OrgOfShape(pr: PullRequest)
    ensures '/' !in OrgOf(pr)
    ensures var full := FullNameOr(pr, "Unknown");
      ('/' !in full ==> OrgOf(pr) == "Unknown")
      && ('/' in full ==> StartsWith(full, OrgOf(pr) + "/"))
  {
    var full := FullNameOr(pr, "Unknown");
    if '/' in full {
      var org := OrgOf(pr);
      assert org != full;
      assert full[..|org| + 1] == org + "/";
    }
  }

  /** A pull request whose organisation is the owner's is to one of the
      owner's repositories. */
  lemma OwnerOrgIsOwnRepository(pr: PullRequest)
    requires OrgOf(pr) == Owner
    ensures StartsWith(FullNameOr(pr, ""), Owner + "/")
  {
    OrgOfShape(pr);
    assert FullNameOr(pr, "Unknown") == FullNameOr(pr, "");
  }

  /** Line 160: the check that skips the owner's organisation never skips
      anything, because line 85 has already removed those pull requests. */
  lemma OwnerCheckRedundant(prs: seq<PullRequest>)
    ensures NonMembers(ExternalSorted(prs), OrgOf, Owner) == ExternalSorted(prs)
  {
    ExternalSortedSpec(prs);
    forall pr | pr in ExternalSorted(prs)
      ensures OrgOf(pr) != Owner
    {
      if OrgOf(pr) == Owner {
        OwnerOrgIsOwnRepository(pr);
      }
    }
    NonMembersAll(ExternalSorted(prs), OrgOf, Owner);
  }

  /** Lines 154-164: the organisations are listed from the largest group
      to the smallest, one group per organisation of the external pull
      requests, and the group sizes add up to the number of external pull
      requests. */
  lemma OrgOrder(prs: seq<PullRequest>)
    ensures var items := OrgItems(ExternalSorted(prs));
      Descending(items, GroupSizeKey)
      && Sum(items, SizeOf) == |ExternalMerged(prs)|
      && |items| == |KeySet(ExternalSorted(prs), OrgOf)|
  {
    var external := ExternalSorted(prs);
    var groups := GroupItems(external, OrgOf);
    OwnerCheckRedundant(prs);
    assert OrgItems(external) == SortDesc(groups, GroupSizeKey);
    SortDescProperties(groups, GroupSizeKey);
    SortDescSum(groups, GroupSizeKey, SizeOf);
    GroupItemsSum(external, OrgOf);
  }

  /** Lines 157-161: each organisation's group holds its external pull
      requests, in the order of the external list, and is not empty. */
  lemma OrgGroups(prs: seq<PullRequest>)
    ensures forall item :: item in OrgItems(ExternalSorted(prs)) ==>
      item.1 == Members(ExternalSorted(prs), OrgOf, item.0) && item.1 != []
  {
    var external := ExternalSorted(prs);
    var groups := GroupItems(external, OrgOf);
    OwnerCheckRedundant(prs);
    assert OrgItems(external) == SortDesc(groups, GroupSizeKey);
    SortDescProperties(groups, GroupSizeKey);
    GroupItemsNonEmpty(external, OrgOf);
    SameElements(SortDesc(groups, GroupSizeKey), groups);
  }

  /** Two sequences with the same multiset have the same elements. */
  lemma SameElements<T>(a: seq<T>, b: seq<T>)
    requires multiset(a) == multiset(b)
    ensures forall x :: x in a <==> x in b
  {
    forall x
      ensures x in a <==> x in b
    {
      assert x in a <==> x in multiset(a);
      assert x in b <==> x in multiset(b);
    }
  }

  /** Lines 172-191: the repository breakdown of the maintained
      organisation counts every pull request once, has one entry per
      distinct repository, each with that repository's number of pull
      requests, from the largest to the smallest. */
  lemma BreakdownFacts(prs: seq<PullRequest>)
    ensures var b := RepoBreakdown(prs);
      Sum(b, CountOf) == |prs|
      && |b| == |KeySet(prs, ShortName)|
      && Descending(b, CountKey)
      && forall item :: item in b ==> item.1 == |Members(prs, ShortName, item.0)| && item.1 > 0
  {
    var counts := CountItems(prs, ShortName);
    SortDescProperties(counts, CountKey);
    SortDescSum(counts, CountKey, CountOf);
    CountItemsSum(prs, ShortName);
    CountItemsPositive(prs, ShortName);
    SameElements(SortDesc(counts, CountKey), counts);
  }

  /** Rendering the first `n` of `sorted` lists them in that order, one
      line each. */
  lemma {:induction false} FirstLines(sorted: seq<PullRequest>, n: nat)
    ensures var r := Render(Take(sorted, n), PrLineOf);
      r.Success? ==>
        |r.value| == (if |sorted| < n then |sorted| else n)
        && forall i :: 0 <= i < |r.value| ==> r.value[i].PrLine? && FormatPr(sorted[i]) == Success(r.value[i].entry)
  {
    var shown := Take(sorted, n);
    RenderPrs(shown);
    if Render(shown, PrLineOf).Success? {
      var lines := Render(shown, PrLineOf).value;
      forall i | 0 <= i < |lines|
        ensures lines[i].PrLine? && FormatPr(sorted[i]) == Success(lines[i].entry)
      {
        assert shown[i] == sorted[i];
      }
    }
  }

  /** A listing is its heading lines and then one line for each of the
      first `n` pull requests, in their order. */
  lemma ListingShape(head: seq<Line>, k: nat, sorted: seq<PullRequest>, n: nat, lines: seq<Line>)
    requires k == |head| && Listing(head, sorted, n) == Success(lines)
    ensures |lines| == k + (if |sorted| < n then |sorted| else n)
    ensures forall i :: 0 <= i < k ==> lines[i] == head[i]
    ensures forall i :: k <= i < |lines| ==>
      lines[i].PrLine? && FormatPr(sorted[i - k]) == Success(lines[i].entry)
  {
    FirstLines(sorted, n);
    var listed := Render(Take(sorted, n), PrLineOf).value;
    assert lines == head + listed;
    forall i | k <= i < |lines|
      ensures lines[i].PrLine? && FormatPr(sorted[i - k]) == Success(lines[i].entry)
    {
      assert lines[i] == listed[i - k];
    }
  }

  /** A summary listing: its opening lines, then one line for each of the
      first five of `sorted`, in order. */
  lemma SummaryListing(total: nat, b: seq<(string, nat)>, sorted: seq<PullRequest>, lines: seq<Line>)
    requires Listing(SummaryHead(total, b), sorted, 5) == Success(lines)
    ensures |lines| == 4 + |b| + (if |sorted| < 5 then |sorted| else 5)
    ensures forall i :: 0 <= i < 4 + |b| ==> lines[i] == SummaryHead(total, b)[i]
    ensures forall i :: 4 + |b| <= i < |lines| ==>
      lines[i].PrLine? && FormatPr(sorted[i - (4 + |b|)]) == Success(lines[i].entry)
  {
    ListingShape(SummaryHead(total, b), 4 + |b|, sorted, 5, lines);
  }

  /** Lines 182-191: the summary is its heading lines, one line per
      repository and then the five newest pull requests (or all, when
      there are fewer), newest first. */
  lemma AggregateShape(prs: seq<PullRequest>, lines: seq<Line>)
    requires AggregateBody(prs) == Success(lines)
    ensures |lines| == 4 + |RepoBreakdown(prs)| + (if |prs| < 5 then |prs| else 5)
    ensures forall i :: 4 + |RepoBreakdown(prs)| <= i < |lines| ==>
      lines[i].PrLine? && FormatPr(SortDesc(prs, PrDateKey)[i - (4 + |RepoBreakdown(prs)|)]) == Success(lines[i].entry)
  {
    var b := RepoBreakdown(prs);
    var sorted := SortDesc(prs, PrDateKey);
    assert Listing(SummaryHead(|prs|, b), sorted, 5) == Success(lines);
    SummaryListing(|prs|, b, sorted, lines);
    assert |sorted| == |prs|;
  }

  /** Lines 182-187: the summary opens with the total number of pull
      requests and of repositories, then one line per repository with its
      count, in breakdown order. */
  lemma AggregateHead(prs: seq<PullRequest>, lines: seq<Line>)
    requires AggregateBody(prs) == Success(lines)
    ensures var b := RepoBreakdown(prs);
      |lines| >= 4 + |b|
      && lines[..3] == [MaintainerIntro, MergedTotal(|prs|), ActiveRepos(|b|)]
      && (forall i :: 0 <= i < |b| ==> lines[3 + i] == RepoCount(b[i].0, b[i].1))
      && lines[3 + |b|] == LastFiveHeading
  {
    SummaryListingHead(|prs|, RepoBreakdown(prs), SortDesc(prs, PrDateKey), lines);
  }

  /** The opening lines of a summary listing, line by line. */
  lemma SummaryListingHead(total: nat, b: seq<(string, nat)>, sorted: seq<PullRequest>, lines: seq<Line>)
    requires Listing(SummaryHead(total, b), sorted, 5) == Success(lines)
    ensures |lines| >= 4 + |b|
      && lines[..3] == [MaintainerIntro, MergedTotal(total), ActiveRepos(|b|)]
      && (forall i :: 0 <= i < |b| ==> lines[3 + i] == RepoCount(b[i].0, b[i].1))
      && lines[3 + |b|] == LastFiveHeading
  {
    var head := SummaryHead(total, b);
    ListingShape(head, 4 + |b|, sorted, 5, lines);
    SummaryHeadLines(total, b);
    assert lines[..3] == head[..3];
  }

  /** The opening lines of a summary, line by line. */
  lemma SummaryHeadLines(total: nat, b: seq<(string, nat)>)
    ensures var head := SummaryHead(total, b);
      head[..3] == [MaintainerIntro, MergedTotal(total), ActiveRepos(|b|)]
      && (forall i :: 0 <= i < |b| ==> head[3 + i] == RepoCount(b[i].0, b[i].1))
      && head[3 + |b|] == LastFiveHeading
  {
    var head := SummaryHead(total, b);
    var counts := CountLines(b);
    assert head == [MaintainerIntro, MergedTotal(total), ActiveRepos(|b|)] + counts + [LastFiveHeading];
    forall i | 0 <= i < |b|
      ensures head[3 + i] == RepoCount(b[i].0, b[i].1)
    {
      assert head[3 + i] == counts[i];
    }
  }

  /** Lines 207-213: the flagship's pull requests and the others split the
      organisation's pull requests between them. */
  lemma FlagshipSplit(prs: seq<PullRequest>, repo: string)
    ensures multiset(Members(prs, ShortName, repo)) + multiset(NonMembers(prs, ShortName, repo)) == multiset(prs)
    ensures forall pr :: pr in Members(prs, ShortName, repo) ==> ShortName(pr) == repo
    ensures forall pr :: pr in NonMembers(prs, ShortName, repo) ==> ShortName(pr) != repo
  {
    MembersPartition(prs, ShortName, repo);
    MembersIn(prs, ShortName, repo);
  }

  /** Lines 216-227: a flagship with pull requests gets its summary line
      and then its three newest pull requests (or all, when it has fewer),
      newest first. */
  lemma FlagshipBlockShape(repo: string, role: string, flagship: seq<PullRequest>, lines: seq<Line>)
    requires flagship != [] && FlagshipBlock(repo, role, flagship) == Success(lines)
    ensures |lines| == 2 + (if |flagship| < 3 then |flagship| else 3)
    ensures lines[0] == FlagshipHeading(repo, |flagship|, role) && lines[1] == FlagshipRecentHeading(repo)
    ensures forall i :: 2 <= i < |lines| ==>
      lines[i].PrLine? && FormatPr(SortDesc(flagship, PrDateKey)[i - 2]) == Success(lines[i].entry)
  {
    FlagshipListing(repo, |flagship|, role, SortDesc(flagship, PrDateKey), lines);
  }

  /** The flagship listing: two heading lines, then the first three of
      `sorted`. */
  lemma FlagshipListing(repo: string, count: nat, role: string, sorted: seq<PullRequest>, lines: seq<Line>)
    requires Listing([FlagshipHeading(repo, count, role), FlagshipRecentHeading(repo)], sorted, 3) == Success(lines)
    ensures |lines| == 2 + (if |sorted| < 3 then |sorted| else 3)
    ensures lines[0] == FlagshipHeading(repo, count, role) && lines[1] == FlagshipRecentHeading(repo)
    ensures forall i :: 2 <= i < |lines| ==>
      lines[i].PrLine? && FormatPr(sorted[i - 2]) == Success(lines[i].entry)
  {
    ListingShape([FlagshipHeading(repo, count, role), FlagshipRecentHeading(repo)], 2, sorted, 3, lines);
  }

  /** Lines 231-244: the other pull requests, when there are any, get a
      heading and then all of them, newest first. */
  lemma OtherBlockShape(org: string, other: seq<PullRequest>, lines: seq<Line>)
    requires other != [] && OtherBlock(org, other) == Success(lines)
    ensures |lines| == 1 + |other|
    ensures lines[0] == OtherHeading(org)
    ensures forall i :: 1 <= i < |lines| ==>
      lines[i].PrLine? && FormatPr(SortDesc(other, PrDateKey)[i - 1]) == Success(lines[i].entry)
  {
    OtherListing(org, SortDesc(other, PrDateKey), |other|, lines);
  }

  /** The listing of the other pull requests: a heading, then all of
      `sorted`. */
  lemma OtherListing(org: string, sorted: seq<PullRequest>, n: nat, lines: seq<Line>)
    requires n == |sorted| && Listing([OtherHeading(org)], sorted, n) == Success(lines)
    ensures |lines| == 1 + n
    ensures lines[0] == OtherHeading(org)
    ensures forall i :: 1 <= i < |lines| ==>
      lines[i].PrLine? && FormatPr(sorted[i - 1]) == Success(lines[i].entry)
  {
    ListingShape([OtherHeading(org)], 1, sorted, n, lines);
  }

  /** Lines 240-302 for any other organisation: every pull request is
      listed, newest first. */
  lemma ListAllShape(org: string, prs: seq<PullRequest>)
    requires PolicyOf(org) == ListAll
    ensures var r := OrgBody(org, prs);
      var sorted := SortDesc(prs, PrDateKey);
      Descending(sorted, PrDateKey) && multiset(sorted) == multiset(prs)
      && (r.Success? ==>
        |r.value| == |prs|
        && forall i :: 0 <= i < |prs| ==> r.value[i].PrLine? && FormatPr(sorted[i]) == Success(r.value[i].entry))
  {
    SortDescProperties(prs, PrDateKey);
    FirstLines(SortDesc(prs, PrDateKey), |prs|);
  }

  /** Lines 123-147: an empty bucket shows nothing; a non-empty one shows
      its heading and then its repositories by stars and creation date,
      both descending, repositories that tie keeping their bucket order. */
  lemma CategoryBlockShape(item: (Category, seq<Repository>))
    ensures var r := CategoryBlock(item);
      var sorted := SortDesc(item.1, RepoKey);
      Descending(sorted, RepoKey) && multiset(sorted) == multiset(item.1)
      && (forall k :: WithKey(sorted, RepoKey, k) == WithKey(item.1, RepoKey, k))
      && (item.1 == [] ==> r == Success([]))
      && (item.1 != [] && r.Success? ==>
            |r.value| >= 1 && r.value[0] == CategoryHeading(item.0) && r.value[1..] == Render(sorted, RepoLinesOf).value)
      && (item.1 != [] ==> (r.Failure? <==> Render(sorted, RepoLinesOf).Failure?))
  {
    SortDescProperties(item.1, RepoKey);
  }

  /** The pull requests of one repository or organisation taken from a
      newest-first list are newest first too. */
  lemma {:induction false} MembersDescending<T>(s: seq<T>, key: T -> string, k: string, sortKey: T -> SortKey)
    requires Descending(s, sortKey)
    ensures Descending(Members(s, key, k), sortKey)
  {
    if s != [] {
      var init, last := s[..|s| - 1], s[|s| - 1];
      assert Descending(init, sortKey);
      MembersDescending(init, key, k, sortKey);
      var m := Members(init, key, k);
      if key(last) == k {
        MembersIn(init, key, k);
        forall i | 0 <= i < |m|
          ensures !KeyLess(sortKey(m[i]), sortKey(last))
        {
          assert m[i] in m;
          assert m[i] in init;
          var j :| 0 <= j < |init| && init[j] == m[i];
          assert s[j] == init[j];
        }
        assert Members(s, key, k) == m + [last];
      }
    }
  }

  /** The sorts of lines 221, 236, 268, 283 and 294 change nothing: each
      organisation's group, and each part of it, is already newest first,
      being taken in order from the sorted external list. */
  lemma GroupsAlreadySorted(prs: seq<PullRequest>, repo: string)
    ensures forall item :: item in OrgItems(ExternalSorted(prs)) ==>
      SortDesc(item.1, PrDateKey) == item.1
      && SortDesc(Members(item.1, ShortName, repo), PrDateKey) == Members(item.1, ShortName, repo)
      && SortDesc(NonMembers(item.1, ShortName, repo), PrDateKey) == NonMembers(item.1, ShortName, repo)
  {
    var external := ExternalSorted(prs);
    ExternalSortedSpec(prs);
    OrgGroups(prs);
    forall item | item in OrgItems(external)
      ensures SortDesc(item.1, PrDateKey) == item.1
      && SortDesc(Members(item.1, ShortName, repo), PrDateKey) == Members(item.1, ShortName, repo)
      && SortDesc(NonMembers(item.1, ShortName, repo), PrDateKey) == NonMembers(item.1, ShortName, repo)
    {
      MembersDescending(external, OrgOf, item.0, PrDateKey);
      SortDescOfDescending(item.1, PrDateKey);
      MembersDescending(item.1, ShortName, repo, PrDateKey);
      SortDescOfDescending(Members(item.1, ShortName, repo), PrDateKey);
      NonMembersDescending(item.1, ShortName, repo, PrDateKey);
      SortDescOfDescending(NonMembers(item.1, ShortName, repo), PrDateKey);
    }
  }

  lemma {:induction false} NonMembersDescending<T>(s: seq<T>, key: T -> string, k: string, sortKey: T -> SortKey)
    requires Descending(s, sortKey)
    ensures Descending(NonMembers(s, key, k), sortKey)
  {
    if s != [] {
      var init, last := s[..|s| - 1], s[|s| - 1];
      assert Descending(init, sortKey);
      NonMembersDescending(init, key, k, sortKey);
      var m := NonMembers(init, key, k);
      if key(last) != k {
        MembersIn(init, key, k);
        forall i | 0 <= i < |m|
          ensures !KeyLess(sortKey(m[i]), sortKey(last))
        {
          assert m[i] in m;
          assert m[i] in init;
          var j :| 0 <= j < |init| && init[j] == m[i];
          assert s[j] == init[j];
        }
        assert NonMembers(s, key, k) == m + [last];
      }
    }
  }
}
