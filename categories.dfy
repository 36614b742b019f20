/** `categorize_repositories` of generate_contributions.py: sorting the
    user's own public, non-fork repositories into five fixed buckets by the
    first of five tests that matches. */
module Categories {
  import opened Common
  import opened Records

  datatype Category =
    | JuliaPackages
    | ResearchProjects
    | ToolsUtilities
    | DocsTutorials
    | PersonalProjects

  /** The order of the bucket dict, which is the order the report emits the
      buckets in. */
  const CategoryOrder: seq<Category> :=
    [JuliaPackages, ResearchProjects, ToolsUtilities, DocsTutorials, PersonalProjects]

  const AllCategories: set<Category> := set c | c in CategoryOrder

  /** Every category is listed in `CategoryOrder`. */
  lemma CategoryListed(c: Category)
    ensures c in AllCategories
  {
    match c
    case JuliaPackages => assert CategoryOrder[0] == c;
    case ResearchProjects => assert CategoryOrder[1] == c;
    case ToolsUtilities => assert CategoryOrder[2] == c;
    case DocsTutorials => assert CategoryOrder[3] == c;
    case PersonalProjects => assert CategoryOrder[4] == c;
  }

  /** The order in which the tests are tried: it differs from `CategoryOrder`. */
  const TestOrder: seq<Category> :=
    [JuliaPackages, DocsTutorials, ResearchProjects, ToolsUtilities, PersonalProjects]

  const DocsKeywords: seq<string> := ["tutorial", "docs", "documentation", "guide"]
  const ResearchKeywords: seq<string> := ["research", "paper", "parametron", "quantum", "oscillator", "hopf"]
  const ToolsKeywords: seq<string> := ["tool", "utility", "engine", "zotero", "homebrew"]

  /** An exception the report builder can raise. */
  datatype Crash =
    | KeyError(key: string)      // `repo['name']` or `repo['url']` on a record without it
    | ValueError(text: string)   // `datetime.fromisoformat` on a malformed timestamp

  /** `any(kw in name.lower() or kw in description.lower() for kw in keywords)` */
  predicate MentionsAny(name: string, description: string, keywords: seq<string>) {
    exists kw :: kw in keywords && (Contains(Lower(name), kw) || Contains(Lower(description), kw))
  }

  /** The test of one bucket on a repository's name and description. */
  predicate Matches(c: Category, name: string, description: string) {
    match c
    case JuliaPackages => EndsWith(name, ".jl")
    case DocsTutorials => MentionsAny(name, description, DocsKeywords)
    case ResearchProjects => MentionsAny(name, description, ResearchKeywords)
    case ToolsUtilities => MentionsAny(name, description, ToolsKeywords)
    case PersonalProjects => Contains(name, "github.io") || Contains(name, "website") || Contains(name, "hugo")
  }

  /** The if/elif chain of lines 50-62: the first bucket whose test matches. */
  function ClassifyNamed(name: string, description: string): Option<Category> {
    if EndsWith(name, ".jl") then Some(JuliaPackages)
    else if MentionsAny(name, description, DocsKeywords) then Some(DocsTutorials)
    else if MentionsAny(name, description, ResearchKeywords) then Some(ResearchProjects)
    else if MentionsAny(name, description, ToolsKeywords) then Some(ToolsUtilities)
    else if Contains(name, "github.io") || Contains(name, "website") || Contains(name, "hugo") then Some(PersonalProjects)
    else None
  }

  /** The bucket one repository goes to: none for a private repository or a
      fork, a KeyError for a record without a name. */
  function Classify(repo: Repository): Result<Option<Category>, Crash> {
    if repo.isPrivate.GetOr(false) || repo.isFork.GetOr(false) then Success(None)
    else if repo.name.None? then Failure(KeyError("name"))
    else Success(ClassifyNamed(repo.name.value, repo.description.GetOr("")))
  }

  /** The repositories of `repos` that `classify` sends to `v`, in input
      order. Stated for any classifier, so that the bookkeeping below does
      not depend on the tests. */
  function Sent(repos: seq<Repository>, classify: Repository -> Result<Option<Category>, Crash>, v: Option<Category>): (r: seq<Repository>)
    ensures |r| <= |repos|
  {
    if repos == [] then []
    else
      var last := repos[|repos| - 1];
      Sent(repos[..|repos| - 1], classify, v) + (if classify(last) == Success(v) then [last] else [])
  }

  /** Only repositories of `repos` that `classify` sends to `v` are sent to `v`. */
  lemma {:induction false} SentMembers(repos: seq<Repository>, classify: Repository -> Result<Option<Category>, Crash>, v: Option<Category>)
    ensures forall x :: x in Sent(repos, classify, v) ==> x in repos && classify(x) == Success(v)
  {
    if repos != [] {
      var init := repos[..|repos| - 1];
      SentMembers(init, classify, v);
      assert forall x :: x in init ==> x in repos;
    }
  }

  /** The repositories of `repos` that go to bucket `c`, in input order. */
  function Bucket(repos: seq<Repository>, c: Category): (r: seq<Repository>)
    ensures forall x :: x in r ==> x in repos && Classify(x) == Success(Some(c))
  {
    SentMembers(repos, Classify, Some(c));
    Sent(repos, Classify, Some(c))
  }

  /** The repositories of `repos` that go to no bucket, in input order. */
  function Skipped(repos: seq<Repository>): (r: seq<Repository>)
    ensures forall x :: x in r ==> x in repos && Classify(x) == Success(None)
  {
    SentMembers(repos, Classify, None);
    Sent(repos, Classify, None)
  }

  /** The five buckets of `repos` under `classify`, keyed by category. */
  function SentAll(repos: seq<Repository>, classify: Repository -> Result<Option<Category>, Crash>): map<Category, seq<Repository>> {
    map c | c in AllCategories :: Sent(repos, classify, Some(c))
  }

  /** The five buckets of `repos` under `classify`, or the exception
      `classify` raises on some repository. */
  function SortedInto(repos: seq<Repository>, classify: Repository -> Result<Option<Category>, Crash>): Result<map<Category, seq<Repository>>, Crash> {
    if exists x :: x in repos && classify(x).Failure? then Failure(KeyError("name"))
    else Success(SentAll(repos, classify))
  }

  /** What `categorize_repositories(repos)` returns, or the KeyError it
      raises on the first public non-fork record without a name. */
  function Categorized(repos: seq<Repository>): Result<map<Category, seq<Repository>>, Crash> {
    SortedInto(repos, Classify)
  }

  /** Appending one repository grows at most the list it is sent to. */
  lemma SentSnoc(repos: seq<Repository>, x: Repository, classify: Repository -> Result<Option<Category>, Crash>, v: Option<Category>)
    ensures Sent(repos + [x], classify, v) == Sent(repos, classify, v) + (if classify(x) == Success(v) then [x] else [])
  {
    assert (repos + [x])[..|repos|] == repos;
  }

  /** `categories[c].append(x)` when `x` goes to bucket `c`; nothing when
      it goes to none. */
  function Place(categories: map<Category, seq<Repository>>, v: Option<Category>, x: Repository): map<Category, seq<Repository>>
    requires forall c :: c in categories
  {
    if v.None? then categories else categories[v.value := categories[v.value] + [x]]
  }

  /** Before the loop: five empty lists. */
  lemma SentAllEmpty(classify: Repository -> Result<Option<Category>, Crash>)
    ensures SentAll([], classify) == map[
      JuliaPackages := [], ResearchProjects := [], ToolsUtilities := [],
      DocsTutorials := [], PersonalProjects := []]
  {
    var m: map<Category, seq<Repository>> := map[
      JuliaPackages := [], ResearchProjects := [], ToolsUtilities := [],
      DocsTutorials := [], PersonalProjects := []];
    forall c
      ensures c in AllCategories
    {
      CategoryListed(c);
    }
    assert SentAll([], classify).Keys == m.Keys;
  }

  /** One step of the loop: the repository is appended to the list of its
      bucket, or to none. */
  lemma SentAllSnoc(repos: seq<Repository>, x: Repository, classify: Repository -> Result<Option<Category>, Crash>)
    requires classify(x).Success?
    ensures forall c :: c in SentAll(repos, classify)
    ensures SentAll(repos + [x], classify) == Place(SentAll(repos, classify), classify(x).value, x)
  {
    forall c
      ensures c in AllCategories
    {
      CategoryListed(c);
    }
    var v := classify(x).value;
    var before, after := SentAll(repos, classify), SentAll(repos + [x], classify);
    var m := Place(before, v, x);
    assert after.Keys == m.Keys by {
      assert forall c :: c in after && c in m;
    }
    forall c | c in m
      ensures after[c] == m[c]
    {
      SentSnoc(repos, x, classify, Some(c));
    }
  }

  /** `categorize_repositories(repos)`: one pass appending each repository
      to the list of its bucket. */
  method CategorizeRepositories(repos: seq<Repository>) returns (r: Result<map<Category, seq<Repository>>, Crash>)
    ensures r == Categorized(repos)
  {
    r := SortInto(repos, Classify);
  }

  /** The loop of lines 42-62 under the bucket test `classify`, which only
      ever raises a KeyError for a missing name. */
  method SortInto(repos: seq<Repository>, classify: Repository -> Result<Option<Category>, Crash>) returns (r: Result<map<Category, seq<Repository>>, Crash>)
    requires forall x :: classify(x).Failure? ==> classify(x).error == KeyError("name")
    ensures r == SortedInto(repos, classify)
  {
    var categories: map<Category, seq<Repository>> := map[
      JuliaPackages := [], ResearchProjects := [], ToolsUtilities := [],
      DocsTutorials := [], PersonalProjects := []];
    SentAllEmpty(classify);
    for i := 0 to |repos|
      invariant forall j :: 0 <= j < i ==> classify(repos[j]).Success?
      invariant categories == SentAll(repos[..i], classify)
    {
      var repo := repos[i];
      var category := classify(repo);
      if category.Failure? {
        assert repo in repos;
        return Failure(category.error);
      }
      assert repos[..i + 1] == repos[..i] + [repo];
      SentAllSnoc(repos[..i], repo, classify);
      if category.value.Some? {
        var c := category.value.value;
        categories := categories[c := categories[c] + [repo]];
      }
    }
    assert repos[..|repos|] == repos;
    assert forall x :: x in repos ==> classify(x).Success?;
    r := Success(categories);
  }

  /** First match wins: a repository lands in the first bucket, in test
      order, whose test matches, and in none when no test matches. */
  lemma ClassifyFirstMatch(name: string, description: string)
    ensures ClassifyNamed(name, description).None? <==> forall c :: !Matches(c, name, description)
    ensures ClassifyNamed(name, description).Some? ==>
      exists k :: 0 <= k < |TestOrder| && TestOrder[k] == ClassifyNamed(name, description).value
        && Matches(TestOrder[k], name, description)
        && forall j :: 0 <= j < k ==> !Matches(TestOrder[j], name, description)
  {
    var r := ClassifyNamed(name, description);
    if r.Some? {
      var k := if r.value == JuliaPackages then 0 else if r.value == DocsTutorials then 1
        else if r.value == ResearchProjects then 2 else if r.value == ToolsUtilities then 3 else 4;
      assert TestOrder[k] == r.value && Matches(TestOrder[k], name, description);
    } else {
      forall c
        ensures !Matches(c, name, description)
      {
      }
    }
  }

  /** Private repositories and forks land in no bucket. */
  lemma PrivateOrForkSkipped(repo: Repository)
    requires repo.isPrivate == Some(true) || repo.isFork == Some(true)
    ensures Classify(repo) == Success(None)
    ensures forall repos, c :: repo !in Bucket(repos, c)
  {
  }

  /** `foo.jl` described as "a tutorial" is a Julia package, although the
      Documentation & Tutorials test matches too: the `.jl` test comes first. */
  lemma JuliaBeforeDocs()
    ensures ClassifyNamed("foo.jl", "a tutorial") == Some(JuliaPackages)
    ensures Matches(DocsTutorials, "foo.jl", "a tutorial")
  {
    assert "foo.jl"[6 - 3..] == ".jl";
    var d := Lower("a tutorial");
    assert d == "a tutorial" by {
      forall i | 0 <= i < |d|
        ensures d[i] == "a tutorial"[i]
      {
      }
    }
    assert OccursAt(d, "tutorial", 2);
    ContainsAt(d, "tutorial");
    assert "tutorial" in DocsKeywords;
  }

  /** The keyword tests ignore case: upper-casing the name and the
      description does not change them. */
  lemma MentionsAnyIgnoresCase(name: string, description: string, keywords: seq<string>)
    ensures MentionsAny(Upper(name), Upper(description), keywords) == MentionsAny(name, description, keywords)
  {
    LowerOfUpper(name);
    LowerOfUpper(description);
  }

  /** A name holding one of the personal-site words anywhere, with any
      text around it, passes the Personal Projects test, whatever the
      description. */
  lemma PersonalMatchesName(prefix: string, word: string, suffix: string, description: string)
    requires word in ["github.io", "website", "hugo"]
    ensures Matches(PersonalProjects, prefix + word + suffix, description)
  {
    var name := prefix + word + suffix;
    assert name[|prefix|..|prefix| + |word|] == word;
    assert OccursAt(name, word, |prefix|);
    ContainsAt(name, word);
  }

  /** No lower-case ASCII letter occurs in `s`. */
  predicate NoLowerCase(s: string) {
    forall i :: 0 <= i < |s| ==> !('a' <= s[i] <= 'z')
  }

  /** The Personal Projects test is case-sensitive: a name without
      lower-case letters never passes it, whatever the description. */
  lemma PersonalIsCaseSensitive(name: string, description: string)
    requires NoLowerCase(name)
    ensures !Matches(PersonalProjects, name, description)
  {
    assert 'g' !in name && 'w' !in name && 'h' !in name;
    MissingFirstChar(name, "github.io");
    MissingFirstChar(name, "website");
    MissingFirstChar(name, "hugo");
  }

  /** The `.jl` test is case-sensitive: a name without lower-case letters
      never passes it, whatever the description. */
  lemma JuliaSuffixIsCaseSensitive(name: string, description: string)
    requires NoLowerCase(name)
    ensures !Matches(JuliaPackages, name, description)
  {
    if |name| >= 3 {
      assert name[|name| - 3..][2] == name[|name| - 1];
    }
  }

  /** Upper-casing a name, which leaves the keyword tests unchanged, makes
      it fail both the `.jl` test and the Personal Projects test. */
  lemma UpperNameFailsNameTests(name: string, description: string)
    ensures !Matches(JuliaPackages, Upper(name), description)
    ensures !Matches(PersonalProjects, Upper(name), description)
  {
    JuliaSuffixIsCaseSensitive(Upper(name), description);
    PersonalIsCaseSensitive(Upper(name), description);
  }

  /** Under any classifier that fails on none of `repos`, the five
      buckets and the skipped repositories partition `repos`. */
  lemma {:induction false} SentPartition(repos: seq<Repository>, classify: Repository -> Result<Option<Category>, Crash>)
    requires forall x :: x in repos ==> classify(x).Success?
    ensures multiset(Sent(repos, classify, Some(JuliaPackages))) + multiset(Sent(repos, classify, Some(ResearchProjects)))
          + multiset(Sent(repos, classify, Some(ToolsUtilities))) + multiset(Sent(repos, classify, Some(DocsTutorials)))
          + multiset(Sent(repos, classify, Some(PersonalProjects))) + multiset(Sent(repos, classify, None))
         == multiset(repos)
  {
    if repos != [] {
      var init, last := repos[..|repos| - 1], repos[|repos| - 1];
      assert repos == init + [last];
      assert last in repos;
      SentPartition(init, classify);
      var v := classify(last).value;
      SentSnoc(init, last, classify, Some(JuliaPackages));
      SentSnoc(init, last, classify, Some(ResearchProjects));
      SentSnoc(init, last, classify, Some(ToolsUtilities));
      SentSnoc(init, last, classify, Some(DocsTutorials));
      SentSnoc(init, last, classify, Some(PersonalProjects));
      SentSnoc(init, last, classify, None);
      var one := multiset{last};
      ghost var j, r, t, d, p, k := (if v == Some(JuliaPackages) then one else multiset{}),
        (if v == Some(ResearchProjects) then one else multiset{}),
        (if v == Some(ToolsUtilities) then one else multiset{}),
        (if v == Some(DocsTutorials) then one else multiset{}),
        (if v == Some(PersonalProjects) then one else multiset{}),
        (if v == None then one else multiset{});
      assert j + r + t + d + p + k == one by {
        match v
        case None =>
        case Some(JuliaPackages) =>
        case Some(ResearchProjects) =>
        case Some(ToolsUtilities) =>
        case Some(DocsTutorials) =>
        case Some(PersonalProjects) =>
      }
      UnionShift(multiset(Sent(init, classify, Some(JuliaPackages))), multiset(Sent(init, classify, Some(ResearchProjects))),
        multiset(Sent(init, classify, Some(ToolsUtilities))), multiset(Sent(init, classify, Some(DocsTutorials))),
        multiset(Sent(init, classify, Some(PersonalProjects))), multiset(Sent(init, classify, None)), j, r, t, d, p, k);
    }
  }

  /** Every public, non-fork repository of a categorization that does not
      fail is in exactly one bucket or skipped: the five buckets and the
      skipped repositories partition `repos`. */
  lemma BucketsPartition(repos: seq<Repository>)
    requires forall x :: x in repos ==> Classify(x).Success?
    ensures multiset(Bucket(repos, JuliaPackages)) + multiset(Bucket(repos, ResearchProjects))
          + multiset(Bucket(repos, ToolsUtilities)) + multiset(Bucket(repos, DocsTutorials))
          + multiset(Bucket(repos, PersonalProjects)) + multiset(Skipped(repos))
         == multiset(repos)
  {
    SentPartition(repos, Classify);
  }

  /** Regrouping a sum of six multisets each grown by a delta. */
  lemma UnionShift<T>(a: multiset<T>, b: multiset<T>, c: multiset<T>, d: multiset<T>, e: multiset<T>, f: multiset<T>,
                      da: multiset<T>, db: multiset<T>, dc: multiset<T>, dd: multiset<T>, de: multiset<T>, df: multiset<T>)
    ensures (a + da) + (b + db) + (c + dc) + (d + dd) + (e + de) + (f + df)
         == (a + b + c + d + e + f) + (da + db + dc + dd + de + df)
  {
  }

  /** The buckets are pairwise disjoint. */
  lemma BucketsDisjoint(repos: seq<Repository>, c1: Category, c2: Category, x: Repository)
    requires c1 != c2
    ensures !(x in Bucket(repos, c1) && x in Bucket(repos, c2))
  {
  }
}
