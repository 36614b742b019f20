/** The reconciler of update_database.py: merging freshly fetched pull
    requests and repositories into the stored lists, and the metadata written
    beside them. */
module Reconciler {
  import opened Common
  import opened Records

  // ---------------------------------------------------------------------------
  // Pull requests: append-only, keyed on url
  // ---------------------------------------------------------------------------

  /** `{pr.get('url') for pr in prs}` */
  function Urls(prs: seq<PullRequest>): set<Option<string>> {
    set pr | pr in prs :: pr.url
  }

  /** The urls of `prs`, position by position. */
  function UrlList(prs: seq<PullRequest>): (r: seq<Option<string>>)
    ensures |r| == |prs| && forall i :: 0 <= i < |prs| ==> r[i] == prs[i].url
  {
    seq(|prs|, i requires 0 <= i < |prs| => prs[i].url)
  }

  /** No two pull requests share a url. */
  predicate NoDuplicateUrls(prs: seq<PullRequest>) {
    Distinct(UrlList(prs))
  }

  /** The pull requests of `incoming` whose url is not in `known`, in
      incoming order. `known` is fixed: a url repeated in `incoming` is kept
      every time it occurs. */
  function Unseen(known: set<Option<string>>, incoming: seq<PullRequest>): (r: seq<PullRequest>)
    ensures |r| <= |incoming|
  {
    if incoming == [] then []
    else
      var last := incoming[|incoming| - 1];
      Unseen(known, incoming[..|incoming| - 1]) + (if last.url in known then [] else [last])
  }

  /** `Unseen` keeps only incoming records with an unknown url. */
  lemma {:induction false} UnseenMembers(known: set<Option<string>>, incoming: seq<PullRequest>)
    ensures forall pr :: pr in Unseen(known, incoming) ==> pr in incoming && pr.url !in known
  {
    if incoming != [] {
      var init := incoming[..|incoming| - 1];
      UnseenMembers(known, init);
      assert forall pr :: pr in init ==> pr in incoming;
    }
  }

  /** What `merge_prs(existing, incoming)` returns. */
  function MergedPrs(existing: seq<PullRequest>, incoming: seq<PullRequest>): seq<PullRequest> {
    existing + Unseen(Urls(existing), incoming)
  }

  /** `Unseen` keeps exactly the records with an unknown url, each as often
      as it occurs in `incoming`. */
  lemma {:induction false} UnseenCount(known: set<Option<string>>, incoming: seq<PullRequest>, pr: PullRequest)
    ensures multiset(Unseen(known, incoming))[pr] == if pr.url in known then 0 else multiset(incoming)[pr]
  {
    if incoming != [] {
      var init, last := incoming[..|incoming| - 1], incoming[|incoming| - 1];
      assert incoming == init + [last];
      UnseenCount(known, init, pr);
    }
  }

  /** Nothing is appended exactly when every incoming url is already known. */
  lemma {:induction false} UnseenEmpty(known: set<Option<string>>, incoming: seq<PullRequest>)
    ensures Unseen(known, incoming) == [] <==> forall pr :: pr in incoming ==> pr.url in known
  {
    if incoming != [] {
      var init, last := incoming[..|incoming| - 1], incoming[|incoming| - 1];
      assert incoming == init + [last];
      UnseenEmpty(known, init);
    }
  }

  /** The urls appended are the incoming urls that were not known. */
  lemma {:induction false} UnseenUrls(known: set<Option<string>>, incoming: seq<PullRequest>)
    ensures Urls(Unseen(known, incoming)) == Urls(incoming) - known
  {
    if incoming != [] {
      var init, last := incoming[..|incoming| - 1], incoming[|incoming| - 1];
      assert incoming == init + [last];
      UnseenUrls(known, init);
      var u := Unseen(known, init);
      assert Urls(incoming) == Urls(init) + {last.url};
      if last.url in known {
        assert Unseen(known, incoming) == u;
      } else {
        assert Urls(u + [last]) == Urls(u) + {last.url};
      }
    }
  }

  /** A duplicate-free incoming list yields duplicate-free appended records. */
  lemma {:induction false} UnseenDistinct(known: set<Option<string>>, incoming: seq<PullRequest>)
    requires NoDuplicateUrls(incoming)
    ensures NoDuplicateUrls(Unseen(known, incoming))
  {
    if incoming != [] {
      var init, last := incoming[..|incoming| - 1], incoming[|incoming| - 1];
      assert incoming == init + [last];
      assert UrlList(incoming) == UrlList(init) + [last.url];
      DistinctSnoc(UrlList(init), last.url);
      UnseenDistinct(known, init);
      var u := Unseen(known, init);
      UnseenMembers(known, init);
      if last.url !in known {
        assert UrlList(u + [last]) == UrlList(u) + [last.url];
        forall i | 0 <= i < |u|
          ensures UrlList(u)[i] != last.url
        {
          assert u[i] in init;
          var j :| 0 <= j < |init| && init[j] == u[i];
          assert UrlList(init)[j] == u[i].url;
        }
        DistinctSnoc(UrlList(u), last.url);
      }
    }
  }

  /** merge_prs returns the existing records, untouched and in place,
      followed by exactly the incoming records whose url was not among the
      ORIGINAL existing urls (each as often as it occurs), in incoming order. */
  lemma MergedPrsContents(existing: seq<PullRequest>, incoming: seq<PullRequest>, pr: PullRequest)
    ensures |MergedPrs(existing, incoming)| >= |existing|
    ensures MergedPrs(existing, incoming)[..|existing|] == existing
    ensures multiset(MergedPrs(existing, incoming)[|existing|..])[pr]
         == if pr.url in Urls(existing) then 0 else multiset(incoming)[pr]
  {
    var m := MergedPrs(existing, incoming);
    assert m[..|existing|] == existing;
    assert m[|existing|..] == Unseen(Urls(existing), incoming);
    UnseenCount(Urls(existing), incoming, pr);
  }

  /** The store never shrinks, and stays the same size exactly when every
      incoming url was already stored. */
  lemma MergedPrsGrowth(existing: seq<PullRequest>, incoming: seq<PullRequest>)
    ensures |MergedPrs(existing, incoming)| >= |existing|
    ensures |MergedPrs(existing, incoming)| == |existing|
        <==> forall pr :: pr in incoming ==> pr.url in Urls(existing)
  {
    UnseenEmpty(Urls(existing), incoming);
  }

  /** After a merge every incoming url is stored and no url was invented. */
  lemma MergedPrsUrls(existing: seq<PullRequest>, incoming: seq<PullRequest>)
    ensures Urls(MergedPrs(existing, incoming)) == Urls(existing) + Urls(incoming)
  {
    var u := Unseen(Urls(existing), incoming);
    UnseenUrls(Urls(existing), incoming);
    assert Urls(existing + u) == Urls(existing) + Urls(u);
  }

  /** Merging the same incoming list again adds nothing. */
  lemma MergedPrsIdempotent(existing: seq<PullRequest>, incoming: seq<PullRequest>)
    ensures MergedPrs(MergedPrs(existing, incoming), incoming) == MergedPrs(existing, incoming)
  {
    var m := MergedPrs(existing, incoming);
    MergedPrsUrls(existing, incoming);
    UnseenEmpty(Urls(m), incoming);
  }

  /** The merged list is duplicate-free when both inputs are. */
  lemma MergedPrsDistinct(existing: seq<PullRequest>, incoming: seq<PullRequest>)
    requires NoDuplicateUrls(existing) && NoDuplicateUrls(incoming)
    ensures NoDuplicateUrls(MergedPrs(existing, incoming))
  {
    var u := Unseen(Urls(existing), incoming);
    UnseenDistinct(Urls(existing), incoming);
    assert UrlList(existing + u) == UrlList(existing) + UrlList(u);
    UnseenMembers(Urls(existing), incoming);
    forall x | x in UrlList(existing)
      ensures x !in UrlList(u)
    {
      var i :| 0 <= i < |existing| && UrlList(existing)[i] == x;
      assert existing[i] in existing;
      forall j | 0 <= j < |u|
        ensures UrlList(u)[j] != x
      {
        assert u[j] in u;
      }
    }
    DistinctConcat(UrlList(existing), UrlList(u));
  }

  /** The url set is computed once and not extended while appending, so an
      unknown url that occurs twice in `incoming` is stored twice. */
  lemma {:induction false} MergedPrsRepeatedUrl(existing: seq<PullRequest>, incoming: seq<PullRequest>, i: nat, j: nat)
    requires i < j < |incoming|
    requires incoming[i].url == incoming[j].url && incoming[i].url !in Urls(existing)
    ensures !NoDuplicateUrls(Unseen(Urls(existing), incoming))
    ensures !NoDuplicateUrls(MergedPrs(existing, incoming))
  {
    var known := Unseen(Urls(existing), incoming);
    var init, last := incoming[..|incoming| - 1], incoming[|incoming| - 1];
    assert incoming == init + [last];
    var u := Unseen(Urls(existing), init);
    if j == |incoming| - 1 {
      UnseenCount(Urls(existing), init, incoming[i]);
      assert incoming[i] in init;
      assert incoming[i] in multiset(init);
      assert incoming[i] in u;
      var a :| 0 <= a < |u| && u[a] == incoming[i];
      assert known == u + [last];
      assert UrlList(known)[a] == UrlList(known)[|u|];
    } else {
      MergedPrsRepeatedUrl(existing, init, i, j);
      var a, b :| 0 <= a < b < |u| && UrlList(u)[a] == UrlList(u)[b];
      assert known[..|u|] == u;
      assert UrlList(known)[a] == UrlList(known)[b];
    }
    var m := MergedPrs(existing, incoming);
    var a, b :| 0 <= a < b < |known| && UrlList(known)[a] == UrlList(known)[b];
    assert m[|existing| + a] == known[a] && m[|existing| + b] == known[b];
    assert UrlList(m)[|existing| + a] == UrlList(m)[|existing| + b];
  }

  // ---------------------------------------------------------------------------
  // Repositories: upsert keyed on name, with field-wise update
  // ---------------------------------------------------------------------------

  /** `{repo.get('name') for repo in repos}` */
  function Names(repos: seq<Repository>): set<Option<string>> {
    set r | r in repos :: r.name
  }

  /** The names of `repos`, position by position. */
  function NameList(repos: seq<Repository>): (r: seq<Option<string>>)
    ensures |r| == |repos| && forall i :: 0 <= i < |repos| ==> r[i] == repos[i].name
  {
    seq(|repos|, i requires 0 <= i < |repos| => repos[i].name)
  }

  /** The lookup `{repo.get('name'): repo for repo in repos}`, with each
      record stood for by its position in the list it shares with the lookup.
      A later record with the same name replaces an earlier one. */
  function IndexByName(repos: seq<Repository>): (index: map<Option<string>, nat>)
    ensures forall n :: n in index ==> index[n] < |repos| && repos[index[n]].name == n
  {
    if repos == [] then map[]
    else IndexByName(repos[..|repos| - 1])[repos[|repos| - 1].name := |repos| - 1]
  }

  /** The lookup has one key per stored name, and maps it to the LAST
      record with that name. */
  lemma {:induction false} IndexByNameLast(repos: seq<Repository>)
    ensures IndexByName(repos).Keys == Names(repos)
    ensures forall n, k :: (n in IndexByName(repos) && IndexByName(repos)[n] < k < |repos|) ==> repos[k].name != n
  {
    if repos != [] {
      var init, last := repos[..|repos| - 1], repos[|repos| - 1];
      assert repos == init + [last];
      IndexByNameLast(init);
      assert Names(repos) == Names(init) + {last.name};
    }
  }

  /** One field of `dict.update`: a present incoming value wins, even an
      empty or false one; an absent one keeps the current value. */
  function Override<T>(current: Option<T>, incoming: Option<T>): Option<T> {
    if incoming.Some? then incoming else current
  }

  /** `target.update(incoming)` on a repository record */
  function Update(target: Repository, incoming: Repository): Repository {
    Repository(
      Override(target.name, incoming.name),
      Override(target.description, incoming.description),
      Override(target.url, incoming.url),
      Override(target.isPrivate, incoming.isPrivate),
      Override(target.isFork, incoming.isFork),
      Override(target.createdAt, incoming.createdAt),
      Override(target.stargazerCount, incoming.stargazerCount))
  }

  /** The successive updates `target.update(rs[0]); target.update(rs[1]); ...` */
  function UpdateAll(target: Repository, rs: seq<Repository>): Repository {
    if rs == [] then target else Update(UpdateAll(target, rs[..|rs| - 1]), rs[|rs| - 1])
  }

  /** The records of `rs` with name `n`, in order. */
  function Named(rs: seq<Repository>, n: Option<string>): (r: seq<Repository>)
    ensures |r| <= |rs|
  {
    if rs == [] then []
    else Named(rs[..|rs| - 1], n) + (if rs[|rs| - 1].name == n then [rs[|rs| - 1]] else [])
  }

  /** The records of `rs` whose name is not a key of `index`, in order. */
  function NewRepos(index: map<Option<string>, nat>, rs: seq<Repository>): (r: seq<Repository>)
    ensures |r| <= |rs|
  {
    if rs == [] then []
    else NewRepos(index, rs[..|rs| - 1]) + (if rs[|rs| - 1].name in index then [] else [rs[|rs| - 1]])
  }

  /** `Named` keeps only records with name `n`. */
  lemma {:induction false} NamedMembers(rs: seq<Repository>, n: Option<string>)
    ensures forall x :: x in Named(rs, n) ==> x in rs && x.name == n
  {
    if rs != [] {
      var init := rs[..|rs| - 1];
      NamedMembers(init, n);
      assert forall x :: x in init ==> x in rs;
    }
  }

  /** Every key of `index` names a record of `acc` at that position. */
  predicate IndexInto(index: map<Option<string>, nat>, acc: seq<Repository>) {
    forall n :: n in index ==> index[n] < |acc| && acc[index[n]].name == n
  }

  /** One iteration of the loop of merge_repos. */
  function MergeStep(index: map<Option<string>, nat>, acc: seq<Repository>, repo: Repository): seq<Repository>
    requires forall n :: n in index ==> index[n] < |acc|
  {
    if repo.name in index then acc[index[repo.name] := Update(acc[index[repo.name]], repo)]
    else acc + [repo]
  }

  /** The loop of merge_repos over `incoming`, with the lookup fixed. */
  function MergeAll(index: map<Option<string>, nat>, existing: seq<Repository>, incoming: seq<Repository>): (r: seq<Repository>)
    requires forall n :: n in index ==> index[n] < |existing|
    ensures |r| == |existing| + |NewRepos(index, incoming)|
  {
    if incoming == [] then existing
    else MergeStep(index, MergeAll(index, existing, incoming[..|incoming| - 1]), incoming[|incoming| - 1])
  }

  /** What `merge_repos(existing, incoming)` returns. */
  function MergedRepos(existing: seq<Repository>, incoming: seq<Repository>): seq<Repository> {
    MergeAll(IndexByName(existing), existing, incoming)
  }

  /** The records appended by the loop are the unseen ones, in order. */
  lemma {:induction false} MergeAllAppended(index: map<Option<string>, nat>, existing: seq<Repository>, incoming: seq<Repository>)
    requires forall n :: n in index ==> index[n] < |existing|
    ensures MergeAll(index, existing, incoming)[|existing|..] == NewRepos(index, incoming)
  {
    if incoming != [] {
      var init, last := incoming[..|incoming| - 1], incoming[|incoming| - 1];
      MergeAllAppended(index, existing, init);
      var acc := MergeAll(index, existing, init);
      if last.name in index {
        assert MergeAll(index, existing, incoming)[|existing|..] == acc[|existing|..];
      } else {
        assert MergeAll(index, existing, incoming)[|existing|..] == acc[|existing|..] + [last];
      }
    }
  }

  /** Stored records keep their names and positions. */
  lemma {:induction false} MergeAllNames(index: map<Option<string>, nat>, existing: seq<Repository>, incoming: seq<Repository>, k: nat)
    requires IndexInto(index, existing)
    requires k < |existing|
    ensures MergeAll(index, existing, incoming)[k].name == existing[k].name
  {
    if incoming != [] {
      var init, last := incoming[..|incoming| - 1], incoming[|incoming| - 1];
      MergeAllNames(index, existing, init, k);
      if last.name in index && index[last.name] == k {
        assert existing[k].name == last.name;
      }
    }
  }

  /** The record at the position a name maps to has received every incoming
      record with that name, in order. */
  lemma {:induction false} MergeAllTarget(index: map<Option<string>, nat>, existing: seq<Repository>, incoming: seq<Repository>, n: Option<string>)
    requires IndexInto(index, existing)
    requires n in index
    ensures MergeAll(index, existing, incoming)[index[n]] == UpdateAll(existing[index[n]], Named(incoming, n))
  {
    if incoming != [] {
      var init, last := incoming[..|incoming| - 1], incoming[|incoming| - 1];
      MergeAllTarget(index, existing, init, n);
      if last.name == n {
        var named := Named(incoming, n);
        assert named == Named(init, n) + [last];
        assert named[..|named| - 1] == Named(init, n);
      } else {
        assert Named(incoming, n) == Named(init, n);
        if last.name in index {
          assert existing[index[n]].name != existing[index[last.name]].name;
        }
      }
    }
  }

  /** A stored record no incoming name maps to is unchanged. */
  lemma {:induction false} MergeAllUntouched(index: map<Option<string>, nat>, existing: seq<Repository>, incoming: seq<Repository>, k: nat)
    requires forall n :: n in index ==> index[n] < |existing|
    requires k < |existing|
    requires forall x :: x in incoming && x.name in index ==> index[x.name] != k
    ensures MergeAll(index, existing, incoming)[k] == existing[k]
  {
    if incoming != [] {
      var init, last := incoming[..|incoming| - 1], incoming[|incoming| - 1];
      assert last in incoming;
      MergeAllUntouched(index, existing, init, k);
    }
  }

  /** merge_repos keeps every stored record at its position with its name,
      and appends the incoming records with an unseen name at the end, in
      incoming order (repeats included: the lookup is not extended). */
  lemma MergedReposLayout(existing: seq<Repository>, incoming: seq<Repository>)
    ensures |MergedRepos(existing, incoming)| == |existing| + |NewRepos(IndexByName(existing), incoming)|
    ensures MergedRepos(existing, incoming)[|existing|..] == NewRepos(IndexByName(existing), incoming)
    ensures forall k :: 0 <= k < |existing| ==> MergedRepos(existing, incoming)[k].name == existing[k].name
    ensures forall x :: x in MergedRepos(existing, incoming)[|existing|..] <==> x in incoming && x.name !in Names(existing)
  {
    IndexByNameLast(existing);
    MergeAllAppended(IndexByName(existing), existing, incoming);
    forall k | 0 <= k < |existing|
      ensures MergedRepos(existing, incoming)[k].name == existing[k].name
    {
      MergeAllNames(IndexByName(existing), existing, incoming, k);
    }
    NewReposMembers(IndexByName(existing), incoming);
  }

  lemma {:induction false} NewReposMembers(index: map<Option<string>, nat>, rs: seq<Repository>)
    ensures forall x :: x in NewRepos(index, rs) <==> x in rs && x.name !in index
  {
    if rs != [] {
      var init, last := rs[..|rs| - 1], rs[|rs| - 1];
      assert rs == init + [last];
      NewReposMembers(index, init);
    }
  }

  /** The record updated for name `n` is the LAST stored record named `n`,
      and it has received every incoming record named `n`, in order. */
  lemma MergedReposTarget(existing: seq<Repository>, incoming: seq<Repository>, n: Option<string>)
    requires n in Names(existing)
    ensures n in IndexByName(existing)
    ensures var k := IndexByName(existing)[n];
      && k < |existing| && existing[k].name == n
      && (forall j :: k < j < |existing| ==> existing[j].name != n)
      && MergedRepos(existing, incoming)[k] == UpdateAll(existing[k], Named(incoming, n))
  {
    IndexByNameLast(existing);
    MergeAllTarget(IndexByName(existing), existing, incoming, n);
  }

  /** A stored record is unchanged when no incoming record has its name, or
      when a later stored record has the same name (that one is updated). */
  lemma MergedReposUntouched(existing: seq<Repository>, incoming: seq<Repository>, k: nat)
    requires k < |existing|
    requires existing[k].name !in Names(incoming)
          || exists j :: k < j < |existing| && existing[j].name == existing[k].name
    ensures MergedRepos(existing, incoming)[k] == existing[k]
  {
    var index := IndexByName(existing);
    IndexByNameLast(existing);
    var n := existing[k].name;
    if index[n] == k {
      NamedEmpty(incoming, n);
      MergeAllTarget(index, existing, incoming, n);
    } else {
      MergeAllUntouched(index, existing, incoming, k);
    }
  }

  lemma {:induction false} NamedEmpty(rs: seq<Repository>, n: Option<string>)
    requires n !in Names(rs)
    ensures Named(rs, n) == []
  {
    if rs != [] {
      var init, last := rs[..|rs| - 1], rs[|rs| - 1];
      assert rs == init + [last];
      assert Names(rs) == Names(init) + {last.name};
      NamedEmpty(init, n);
    }
  }

  /** `dict.update` overwrites every field the incoming record has, even
      with an empty or false value, and keeps every field it lacks. */
  lemma UpdateFields(target: Repository, incoming: Repository)
    ensures var u := Update(target, incoming);
      (incoming.name.Some? ==> u.name == incoming.name) && (incoming.name.None? ==> u.name == target.name)
      && (incoming.description.Some? ==> u.description == incoming.description)
      && (incoming.description.None? ==> u.description == target.description)
      && (incoming.url.Some? ==> u.url == incoming.url) && (incoming.url.None? ==> u.url == target.url)
      && (incoming.isPrivate.Some? ==> u.isPrivate == incoming.isPrivate)
      && (incoming.isPrivate.None? ==> u.isPrivate == target.isPrivate)
      && (incoming.isFork.Some? ==> u.isFork == incoming.isFork) && (incoming.isFork.None? ==> u.isFork == target.isFork)
      && (incoming.createdAt.Some? ==> u.createdAt == incoming.createdAt)
      && (incoming.createdAt.None? ==> u.createdAt == target.createdAt)
      && (incoming.stargazerCount.Some? ==> u.stargazerCount == incoming.stargazerCount)
      && (incoming.stargazerCount.None? ==> u.stargazerCount == target.stargazerCount)
  {
  }

  /** Merging one fetched record whose name is stored overwrites its star
      count in the record that name maps to and does not add a record. */
  lemma MergedReposOverwrite(existing: seq<Repository>, fetched: Repository, stars: int)
    requires fetched.name in Names(existing) && fetched.stargazerCount == Some(stars)
    ensures |MergedRepos(existing, [fetched])| == |existing|
    ensures MergedRepos(existing, [fetched])[IndexByName(existing)[fetched.name]].stargazerCount == Some(stars)
  {
    IndexByNameLast(existing);
    MergedReposTarget(existing, [fetched], fetched.name);
    assert Named([fetched], fetched.name) == [fetched];
    assert [fetched][..0] == [];
  }

  /** The merged repositories have distinct names when both inputs do. */
  lemma MergedReposDistinct(existing: seq<Repository>, incoming: seq<Repository>)
    requires Distinct(NameList(existing)) && Distinct(NameList(incoming))
    ensures Distinct(NameList(MergedRepos(existing, incoming)))
  {
    var index := IndexByName(existing);
    var added := NewRepos(index, incoming);
    IndexByNameLast(existing);
    MergeAllAppended(index, existing, incoming);
    forall k | 0 <= k < |existing|
      ensures MergedRepos(existing, incoming)[k].name == existing[k].name
    {
      MergeAllNames(index, existing, incoming, k);
    }
    NewReposDistinct(index, incoming);
    AddedNamesFresh(existing, incoming);
    DistinctAfterAppend(existing, added, MergedRepos(existing, incoming));
  }

  /** Records named as `existing` followed by `added` have distinct names
      when each part does and no name is in both. */
  lemma DistinctAfterAppend(existing: seq<Repository>, added: seq<Repository>, m: seq<Repository>)
    requires |m| == |existing| + |added| && m[|existing|..] == added
    requires forall k :: 0 <= k < |existing| ==> m[k].name == existing[k].name
    requires Distinct(NameList(existing)) && Distinct(NameList(added))
    requires forall x :: x in NameList(existing) ==> x !in NameList(added)
    ensures Distinct(NameList(m))
  {
    assert NameList(m) == NameList(existing) + NameList(added) by {
      forall k | 0 <= k < |m|
        ensures NameList(m)[k] == (NameList(existing) + NameList(added))[k]
      {
        if k >= |existing| {
          assert m[k] == m[|existing|..][k - |existing|];
        }
      }
    }
    DistinctConcat(NameList(existing), NameList(added));
  }

  /** No appended record carries a name already stored. */
  lemma AddedNamesFresh(existing: seq<Repository>, incoming: seq<Repository>)
    ensures forall x :: x in NameList(existing) ==> x !in NameList(NewRepos(IndexByName(existing), incoming))
  {
    var added := NewRepos(IndexByName(existing), incoming);
    IndexByNameLast(existing);
    NewReposMembers(IndexByName(existing), incoming);
    forall x | x in NameList(existing)
      ensures x !in NameList(added)
    {
      var i :| 0 <= i < |existing| && NameList(existing)[i] == x;
      assert existing[i] in existing;
      forall j | 0 <= j < |added|
        ensures NameList(added)[j] != x
      {
        assert added[j] in added;
      }
    }
  }

  /** The lookup is built once and not extended while appending, so an
      unseen name that occurs twice in `incoming` is stored twice. */
  lemma MergedReposRepeatedName(existing: seq<Repository>, incoming: seq<Repository>, i: nat, j: nat)
    requires i < j < |incoming|
    requires incoming[i].name == incoming[j].name && incoming[i].name !in Names(existing)
    ensures !Distinct(NameList(MergedRepos(existing, incoming)))
  {
    IndexByNameLast(existing);
    var added := NewRepos(IndexByName(existing), incoming);
    NewReposRepeated(IndexByName(existing), incoming, i, j);
    var a, b :| 0 <= a < b < |added| && NameList(added)[a] == NameList(added)[b];
    MergedReposLayout(existing, incoming);
    var m := MergedRepos(existing, incoming);
    assert m[|existing| + a] == added[a] && m[|existing| + b] == added[b];
    assert NameList(m)[|existing| + a] == NameList(m)[|existing| + b];
  }

  lemma {:induction false} NewReposRepeated(index: map<Option<string>, nat>, incoming: seq<Repository>, i: nat, j: nat)
    requires i < j < |incoming|
    requires incoming[i].name == incoming[j].name && incoming[i].name !in index
    ensures !Distinct(NameList(NewRepos(index, incoming)))
  {
    var added := NewRepos(index, incoming);
    var init, last := incoming[..|incoming| - 1], incoming[|incoming| - 1];
    var u := NewRepos(index, init);
    if j == |incoming| - 1 {
      NewReposMembers(index, init);
      assert incoming[i] == init[i];
      assert incoming[i] in u;
      var a :| 0 <= a < |u| && u[a] == incoming[i];
      assert added == u + [last];
      assert NameList(added)[a] == NameList(added)[|u|];
    } else {
      NewReposRepeated(index, init, i, j);
      var a, b :| 0 <= a < b < |u| && NameList(u)[a] == NameList(u)[b];
      assert added[..|u|] == u;
      assert NameList(added)[a] == NameList(added)[b];
    }
  }

  /** `NewRepos` keeps only records of its input. */
  lemma {:induction false} NewReposFrom(index: map<Option<string>, nat>, rs: seq<Repository>)
    ensures forall x :: x in NewRepos(index, rs) ==> x in rs
  {
    if rs != [] {
      var init := rs[..|rs| - 1];
      NewReposFrom(index, init);
      assert forall x :: x in init ==> x in rs;
    }
  }

  lemma {:induction false} NewReposDistinct(index: map<Option<string>, nat>, rs: seq<Repository>)
    requires Distinct(NameList(rs))
    ensures Distinct(NameList(NewRepos(index, rs)))
  {
    if rs != [] {
      var init, last := rs[..|rs| - 1], rs[|rs| - 1];
      assert rs == init + [last];
      assert NameList(rs) == NameList(init) + [last.name];
      DistinctSnoc(NameList(init), last.name);
      NewReposDistinct(index, init);
      var u := NewRepos(index, init);
      NewReposFrom(index, init);
      if last.name !in index {
        assert NameList(u + [last]) == NameList(u) + [last.name];
        forall i | 0 <= i < |u|
          ensures NameList(u)[i] != last.name
        {
          assert u[i] in init;
          var j :| 0 <= j < |init| && init[j] == u[i];
          assert NameList(init)[j] == u[i].name;
        }
        DistinctSnoc(NameList(u), last.name);
      }
    }
  }

  // ---------------------------------------------------------------------------
  // The store
  // ---------------------------------------------------------------------------

  /** The metadata file: time of the last save and the two totals. */
  datatype Metadata = Metadata(lastUpdate: string, totalPrs: nat, totalRepos: nat)

  /** The in-memory database `db` of update_database.py. */
  class Database {
    var prs: seq<PullRequest>
    var repos: seq<Repository>
    var lastUpdate: Option<string>

    /** The database as loaded; a missing file is an empty list or an
        absent timestamp. */
    constructor Load(prs: seq<PullRequest>, repos: seq<Repository>, lastUpdate: Option<string>)
      ensures this.prs == prs && this.repos == repos && this.lastUpdate == lastUpdate
    {
      this.prs := prs;
      this.repos := repos;
      this.lastUpdate := lastUpdate;
    }

    /** `db['prs'] = merge_prs(db['prs'], new_prs)` */
    method MergePrs(newPrs: seq<PullRequest>)
      modifies this`prs
      ensures prs == MergedPrs(old(prs), newPrs)
    {
      var existingUrls := set pr | pr in prs :: pr.url;
      var i := 0;
      while i < |newPrs|
        invariant 0 <= i <= |newPrs|
        invariant existingUrls == Urls(old(prs))
        invariant prs == old(prs) + Unseen(existingUrls, newPrs[..i])
      {
        var pr := newPrs[i];
        assert newPrs[..i + 1][..i] == newPrs[..i];
        if pr.url !in existingUrls {
          prs := prs + [pr];
        }
        i := i + 1;
      }
      assert newPrs[..i] == newPrs;
    }

    /** `db['repos'] = merge_repos(db['repos'], new_repos)` */
    method MergeRepos(newRepos: seq<Repository>)
      modifies this`repos
      ensures repos == MergedRepos(old(repos), newRepos)
    {
      var existingDict: map<Option<string>, nat> := map[];
      var j := 0;
      while j < |repos|
        invariant 0 <= j <= |repos|
        invariant existingDict == IndexByName(repos[..j])
      {
        assert repos[..j + 1][..j] == repos[..j];
        existingDict := existingDict[repos[j].name := j];
        j := j + 1;
      }
      assert repos[..j] == repos;
      var i := 0;
      while i < |newRepos|
        invariant 0 <= i <= |newRepos|
        invariant existingDict == IndexByName(old(repos))
        invariant repos == MergeAll(existingDict, old(repos), newRepos[..i])
      {
        var repo := newRepos[i];
        assert newRepos[..i + 1][..i] == newRepos[..i];
        if repo.name in existingDict {
          var k := existingDict[repo.name];
          repos := repos[k := Update(repos[k], repo)];
        } else {
          repos := repos + [repo];
        }
        i := i + 1;
      }
      assert newRepos[..i] == newRepos;
    }

    /** The metadata save_database writes: `now` and the two list lengths. */
    function SavedMetadata(now: string): Metadata
      reads this
    {
      Metadata(now, |prs|, |repos|)
    }

    /** update_database without the fetch and the files: merge the fetched
        lists and return the metadata that would be saved. */
    method Refresh(newPrs: seq<PullRequest>, newRepos: seq<Repository>, now: string) returns (m: Metadata)
      modifies this`prs, this`repos
      ensures prs == MergedPrs(old(prs), newPrs) && repos == MergedRepos(old(repos), newRepos)
      ensures m == SavedMetadata(now)
      ensures m.lastUpdate == now
      ensures m.totalPrs == |MergedPrs(old(prs), newPrs)| && m.totalRepos == |MergedRepos(old(repos), newRepos)|
      ensures m.totalPrs >= |old(prs)| && m.totalRepos >= |old(repos)|
    {
      MergePrs(newPrs);
      MergeRepos(newRepos);
      MergedPrsGrowth(old(prs), newPrs);
      m := SavedMetadata(now);
    }
  }
}
