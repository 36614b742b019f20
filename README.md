# Open source contributions: reconciler and report builder

A Dafny model of the two deterministic parts of the contributions page
generator in `posts/open_source_contributions/`.

The first part is the reconciler of `update_database.py`. It merges freshly
fetched pull requests and repositories into the stored lists:

- Pull requests are append-only and keyed on `url`.
- Repositories are upserted, keyed on `name`, with a field-wise `dict.update`.
- The saved metadata holds the two list lengths.

The in-memory database `db` is the class `Reconciler.Database`. Its methods
`MergePrs` and `MergeRepos` run the loops of `merge_prs` and `merge_repos`.
They are proved to leave exactly the lists that the functions `MergedPrs` and
`MergedRepos` describe. The lemmas beside those functions state what a merge
promises:

- order and length accounting;
- idempotence;
- duplicate-freedom, and the inputs that break it;
- which stored record is updated, and which fields the update overwrites.

In `merge_repos` the list and the lookup dict share their records. The model
stands each record for by its position in the list: the lookup maps a name to
the index of the last stored record with that name.

The second part is the report builder of `generate_contributions.py`. It
takes the stored pull requests and repositories and builds:

- the recent external merged pull requests;
- the owner's public, non-fork repositories, in five buckets ranked by first
  match (`categorize_repositories`), each bucket sorted by stars and then by
  creation date;
- the external pull requests grouped by organisation, largest group first,
  with three summary policies:
  - an aggregate for `QuantumEngineeredSystems`;
  - a flagship and "other" split for `JuliaDynamics`
    (`CriticalTransitions.jl`) and `qojulia` (`SecondQuantizedAlgebra.jl`);
  - a full listing for every other organisation.

The document is a sequence of structured `Entries.Line` values: which
heading, which pull request entry, which counts. It is not the decorated
markdown text. The exceptions the script can raise are the `Crash` values of
a `Result`:

- a `KeyError` for a repository without `name` or `url`;
- a `ValueError` for a malformed `createdAt`.

`Report.Document` states the whole document as a function.
`Report.GenerateMarkdown` builds it the way the script does, appending in
loops, and is proved to produce exactly `Document`.

Python's stable `sort(key=..., reverse=True)` is `Sorting.SortDesc`. It is
proved once to be ordered, a permutation and stable (`SortDescProperties`).
The `defaultdict` loops are `Grouping.GroupExcept` and
`Report.CountByRepo`. They are proved against `GroupItems` and `CountItems`:
keys in order of first occurrence, each group in input order.

Modules, leaves first:

| module | file |
|---|---|
| Common | common.dfy |
| Records | records.dfy |
| Reconciler | reconciler.dfy |
| Sorting | sorting.dfy |
| Grouping | grouping.dfy |
| Categories | categories.dfy |
| Entries | entries.dfy |
| Report | report.dfy |
| ReportFacts | reportfacts.dfy |
| Layout | layout.dfy |

## Model

| member | source | states |
|---|---|---|
| Reconciler.Database.MergePrs | posts/open_source_contributions/update_database.py:67-78 | After the loop, the stored pull requests are `MergedPrs(old list, fetched list)`. The url set is computed once from the original list and never extended. |
| Reconciler.MergedPrsContents | posts/open_source_contributions/update_database.py:70-77 | The merged list is the original list, untouched and in place, followed by each incoming pull request whose url was not originally stored, as often as it occurs in the incoming list, and nothing else. |
| Reconciler.MergedPrsGrowth | posts/open_source_contributions/update_database.py:73-75 | The list never shrinks. Its length is unchanged if and only if every incoming url was already stored. |
| Reconciler.MergedPrsUrls | posts/open_source_contributions/update_database.py:70-75 | The urls after a merge are exactly the stored urls plus the incoming urls. |
| Reconciler.MergedPrsIdempotent | posts/open_source_contributions/update_database.py:70-75 | Merging the same incoming list into the result a second time adds nothing. |
| Reconciler.MergedPrsDistinct | posts/open_source_contributions/update_database.py:70-75 | If the stored list and the incoming list are each free of duplicate urls, so is the merged list. |
| Reconciler.MergedPrsRepeatedUrl | posts/open_source_contributions/update_database.py:70-75 | An unstored url that occurs twice in the incoming list is appended twice, so the merged list has a duplicate url. |
| Reconciler.IndexByName | posts/open_source_contributions/update_database.py:83 | Every key of the lookup maps to the position of a stored record with that name. |
| Reconciler.IndexByNameLast | posts/open_source_contributions/update_database.py:83 | The lookup's keys are exactly the stored names. Each key maps to the last record with that name: no later record shares it. |
| Reconciler.Database.MergeRepos | posts/open_source_contributions/update_database.py:80-95 | The first loop builds the lookup. After the second loop, the stored repositories are `MergedRepos(old list, fetched list)`. |
| Reconciler.MergedReposLayout | posts/open_source_contributions/update_database.py:85-93 | Every stored record keeps its position and its name. The records appended at the end are exactly the incoming records whose name is not stored, in incoming order. |
| Reconciler.MergedReposTarget | posts/open_source_contributions/update_database.py:83-89 | For a stored name, the record updated is the last stored record with that name. It has received every incoming record with that name, in order. |
| Reconciler.MergedReposUntouched | posts/open_source_contributions/update_database.py:83-89 | A stored record is unchanged if no incoming record has its name, or if a later stored record has the same name. |
| Reconciler.UpdateFields | posts/open_source_contributions/update_database.py:89 | For each of the seven fields, `dict.update` takes the incoming value when the incoming record has the field, even an empty string, `false` or zero. It keeps the stored value when the field is missing. |
| Reconciler.MergedReposOverwrite | posts/open_source_contributions/update_database.py:86-89 | Merging a fetched record whose name is stored adds no record and sets the star count of the updated record to the fetched one. |
| Reconciler.MergedReposDistinct | posts/open_source_contributions/update_database.py:83-93 | If the stored list and the incoming list each have distinct names, so does the merged list. |
| Reconciler.MergedReposRepeatedName | posts/open_source_contributions/update_database.py:83-93 | An unstored name that occurs twice in the incoming list is appended twice, so the merged list has a duplicate name. |
| Reconciler.Database.Refresh | posts/open_source_contributions/update_database.py:59-63 | Both lists are merged as `merge_prs` and `merge_repos` merge them. The metadata holds the given time and the lengths of the two merged lists, each at least the old length. |
| Categories.CategorizeRepositories | posts/open_source_contributions/generate_contributions.py:32-65 | The result is `Categorized(repos)`: the five buckets, or the KeyError raised by the first public, non-fork record without a name. |
| Categories.SortInto | posts/open_source_contributions/generate_contributions.py:42-62 | For any bucket test, the loop appending each repository to its bucket yields exactly the five in-order filters `SentAll`. It fails if the test fails on any repository. |
| Categories.Bucket | posts/open_source_contributions/generate_contributions.py:42-62 | A bucket holds only input repositories that the tests send to it. |
| Categories.Skipped | posts/open_source_contributions/generate_contributions.py:43-63 | The repositories left out of every bucket are input repositories that the tests send nowhere. |
| Categories.ClassifyFirstMatch | posts/open_source_contributions/generate_contributions.py:50-63 | A repository goes to the first bucket, in test order (`.jl`, docs, research, tools, personal site), whose test matches. A `.jl` name is therefore a Julia package even when a docs keyword matches too. It goes to no bucket if and only if no test matches. |
| Categories.PrivateOrForkSkipped | posts/open_source_contributions/generate_contributions.py:43-44 | A private repository or a fork lands in no bucket. |
| Categories.MentionsAnyIgnoresCase | posts/open_source_contributions/generate_contributions.py:52-60 | The keyword tests give the same answer when the name and the description are upper-cased. |
| Categories.PersonalMatchesName | posts/open_source_contributions/generate_contributions.py:61-62 | Any name holding `github.io`, `website` or `hugo` anywhere passes the personal-site test, whatever the description. |
| Categories.PersonalIsCaseSensitive | posts/open_source_contributions/generate_contributions.py:61 | A name with no lower-case letter never passes the personal-site test, whatever the description. |
| Categories.JuliaSuffixIsCaseSensitive | posts/open_source_contributions/generate_contributions.py:50 | A name with no lower-case letter never passes the `.jl` test, whatever the description. |
| Categories.UpperNameFailsNameTests | posts/open_source_contributions/generate_contributions.py:50-61 | An upper-cased name fails both the `.jl` test and the personal-site test, although the keyword tests ignore case. |
| Categories.BucketsPartition | posts/open_source_contributions/generate_contributions.py:42-62 | If no record fails, the five buckets and the skipped repositories together are a permutation of the input. |
| Categories.BucketsDisjoint | posts/open_source_contributions/generate_contributions.py:50-62 | No repository is in two buckets. |
| Sorting.KeyLessOrder | posts/open_source_contributions/generate_contributions.py:130 | Python's `<` on the `(int, str)` sort keys is a strict total order. |
| Sorting.SortDescProperties | posts/open_source_contributions/generate_contributions.py:88 | `sort(key, reverse=True)` leaves the keys non-increasing and keeps every element as often as it occurs. Elements with equal keys keep their original relative order. |
| Sorting.SortDescOfDescending | posts/open_source_contributions/generate_contributions.py:236 | Sorting a list whose keys are already non-increasing leaves it unchanged. |
| Sorting.SortDescSum | posts/open_source_contributions/generate_contributions.py:164 | Sorting changes no total of any weight over the elements. |
| Grouping.KeysInOrderFacts | posts/open_source_contributions/generate_contributions.py:154-161 | A dict filled in one pass lists each key once, and every element's key is among them. |
| Grouping.KeysInOrderSet | posts/open_source_contributions/generate_contributions.py:154-161 | The listed keys are exactly the keys of the elements. |
| Grouping.GroupDictStep | posts/open_source_contributions/generate_contributions.py:161 | `groups[key].append(x)` keeps a grouping dict of the list extended by `x`: a new key goes at the end, and `x` joins its own group only. |
| Grouping.CountDictStep | posts/open_source_contributions/generate_contributions.py:176 | `counts[key] += 1` keeps a counting dict of the list extended by `x`. |
| Grouping.GroupExcept | posts/open_source_contributions/generate_contributions.py:154-161 | The loop appending every element whose key is not the skipped one yields the dict items `GroupItems` of the remaining elements: keys in order of first occurrence, each group in input order. |
| Grouping.GroupItemsNonEmpty | posts/open_source_contributions/generate_contributions.py:157-161 | Every group is its key's elements and is not empty. |
| Grouping.CountItemsPositive | posts/open_source_contributions/generate_contributions.py:173-176 | Every count is the size of its key's group and is positive. |
| Grouping.GroupItemsSum | posts/open_source_contributions/generate_contributions.py:154-161 | The group sizes sum to the number of elements, and there is one group per distinct key. |
| Grouping.CountItemsSum | posts/open_source_contributions/generate_contributions.py:173-180 | The counts sum to the number of elements, and there is one count per distinct key. |
| Grouping.MembersPartition | posts/open_source_contributions/generate_contributions.py:207-213 | A key's group and the rest together are a permutation of the list, and their lengths add up to its length. |
| Grouping.MembersCount | posts/open_source_contributions/generate_contributions.py:207-211 | The group of a key holds each element with that key as often as the list does, and nothing else. |
| Grouping.MembersIn | posts/open_source_contributions/generate_contributions.py:207-213 | The group holds only elements with the key, and the rest only elements without it. |
| Grouping.NonMembersAll | posts/open_source_contributions/generate_contributions.py:160 | Skipping a key that no element has skips nothing. |
| Entries.IsoDate | posts/open_source_contributions/generate_contributions.py:110 | A timestamp renders successfully if and only if it is well formed: the year is at least 1, the month is 1-12 and the day is 1-31. The rendered date is its first ten characters, with dashes at positions 4 and 7. A string shorter than ten characters is a ValueError. |
| Entries.IsoDateExample | posts/open_source_contributions/generate_contributions.py:110 | `2024-03-05T10:00:00Z` renders as `2024-03-05`. The empty default and year `0000` raise. |
| Entries.FormatPrFields | posts/open_source_contributions/generate_contributions.py:107-112 | A pull request line shows its title, or "No title" when the title is missing, and its url, or "#" when the url is missing. Its repository cell is `nameWithOwner` when present, and "Unknown" when the repository or its `nameWithOwner` is missing. Its date is the first ten characters of `createdAt`. |
| Entries.RenderAll | posts/open_source_contributions/generate_contributions.py:106-112 | The loop appending each element's lines yields `Render`: all the lines in order, or the first exception raised. |
| Entries.RenderFailure | posts/open_source_contributions/generate_contributions.py:106-112 | The loop fails if and only if some element fails, and then with the exception of the first failing element. |
| Entries.RenderFirstFailure | posts/open_source_contributions/generate_contributions.py:106-112 | An exception raised on a prefix is the outcome of the whole loop. |
| Entries.RenderPrs | posts/open_source_contributions/generate_contributions.py:106-112 | Rendering pull requests succeeds if and only if every `createdAt` is well formed. It then gives one line per pull request, in order. |
| Entries.RepoBlockShape | posts/open_source_contributions/generate_contributions.py:132-147 | A repository block has a star badge exactly when stars are positive. It has a description line exactly when the description, defaulting to "No description", is non-empty. It ends with the creation date and the separator. |
| Entries.RepoBlockMissingKey | posts/open_source_contributions/generate_contributions.py:133-135 | A repository without `name` or `url` raises a KeyError. |
| Report.BeforeSlash | posts/open_source_contributions/generate_contributions.py:159 | `split('/')[0]` is the longest prefix without `/`, followed in the input by `/` when it is shorter. |
| Report.CountLines | posts/open_source_contributions/generate_contributions.py:183-184 | One breakdown line per repository count, in order. |
| Report.GroupByOrg | posts/open_source_contributions/generate_contributions.py:154-161 | `org_prs` is the grouping by organisation of the external pull requests outside the owner's organisation. |
| Report.CountByRepo | posts/open_source_contributions/generate_contributions.py:172-176 | `repo_counts` is the counting dict of the organisation's pull requests by repository name. |
| Report.SplitByRepo | posts/open_source_contributions/generate_contributions.py:207-213 | The flagship's pull requests and the others, each in input order. |
| Report.RenderAggregate | posts/open_source_contributions/generate_contributions.py:170-197 | The maintained organisation's summary equals `AggregateBody`. |
| Report.RenderFlagship | posts/open_source_contributions/generate_contributions.py:200-244 | A flagship organisation's body equals `FlagshipBody`. |
| Report.RenderOrg | posts/open_source_contributions/generate_contributions.py:168-302 | The body after an organisation's heading follows the organisation's policy. |
| Report.RenderOrgs | posts/open_source_contributions/generate_contributions.py:164-304 | The organisation sections are each organisation's heading and body, in turn, or the first exception. |
| Report.RenderProjects | posts/open_source_contributions/generate_contributions.py:122-147 | The project sections are each non-empty bucket's heading and sorted repository blocks, in dict order, or the first exception. |
| Report.GenerateMarkdown | posts/open_source_contributions/generate_contributions.py:67-311 | The document built by the appending loops equals `Document`. |
| ReportFacts.ExternalMergedCount | posts/open_source_contributions/generate_contributions.py:85 | The external list holds each stored pull request that is merged and not the owner's, as often as it is stored, and nothing else. |
| ReportFacts.ExternalSortedSpec | posts/open_source_contributions/generate_contributions.py:85-88 | The sorted external list has exactly the merged, non-owner pull requests, newest first. Pull requests with equal `createdAt` keep their stored order. |
| ReportFacts.RecentSection | posts/open_source_contributions/generate_contributions.py:104-112 | The recent section lists the first min(10, n) of the sorted external list, one line each. It fails if and only if one of them has a malformed `createdAt`. |
| ReportFacts.OrgOfShape | posts/open_source_contributions/generate_contributions.py:158-159 | The organisation is the text of `nameWithOwner` before its first `/`, or "Unknown" when there is no `/`. |
| ReportFacts.OwnerOrgIsOwnRepository | posts/open_source_contributions/generate_contributions.py:160 | A pull request whose organisation is `oameye` is to a repository whose full name starts with `oameye/`. |
| ReportFacts.OwnerCheckRedundant | posts/open_source_contributions/generate_contributions.py:157-161 | The organisation check of line 160 removes nothing from the external list. |
| ReportFacts.OrgOrder | posts/open_source_contributions/generate_contributions.py:154-164 | Organisations come largest group first, one per distinct organisation. The group sizes sum to the number of external pull requests. |
| ReportFacts.OrgGroups | posts/open_source_contributions/generate_contributions.py:157-161 | Each organisation's group is its external pull requests in sorted order, and is not empty. |
| ReportFacts.BreakdownFacts | posts/open_source_contributions/generate_contributions.py:172-184 | The counts sum to the organisation's pull requests. There is one count per distinct repository, each that repository's positive number of pull requests, largest first. |
| ReportFacts.AggregateShape | posts/open_source_contributions/generate_contributions.py:186-197 | The summary ends with its five newest pull requests, or all of them when there are fewer, newest first. |
| ReportFacts.AggregateHead | posts/open_source_contributions/generate_contributions.py:178-187 | The summary opens with the total number of pull requests and of repositories, then one line per repository with its count, in breakdown order, then the recent heading. |
| ReportFacts.FlagshipSplit | posts/open_source_contributions/generate_contributions.py:207-213 | The flagship part and the other part partition the organisation's pull requests by repository name. |
| ReportFacts.FlagshipBlockShape | posts/open_source_contributions/generate_contributions.py:216-227 | A non-empty flagship gets its heading with its count and role, then its three newest pull requests, or all when it has fewer, newest first. |
| ReportFacts.OtherBlockShape | posts/open_source_contributions/generate_contributions.py:231-244 | The non-empty other part gets its heading and then every one of its pull requests, newest first. |
| ReportFacts.ListAllShape | posts/open_source_contributions/generate_contributions.py:292-302 | Any other organisation lists every pull request, newest first. |
| ReportFacts.CategoryBlockShape | posts/open_source_contributions/generate_contributions.py:122-147 | An empty bucket shows nothing. A non-empty one shows its heading, then exactly the blocks of its repositories sorted by stars and then by creation date. That order is non-increasing, a permutation of the bucket, and stable on ties. |
| ReportFacts.GroupsAlreadySorted | posts/open_source_contributions/generate_contributions.py:221-294 | The sorts of lines 221, 236, 268, 283 and 294 change nothing: every group and part is already newest first. |
| Layout.OrgSectionsShown | posts/open_source_contributions/generate_contributions.py:164-165 | The organisation sections show one heading per organisation, in item order, with its count. |
| Layout.ProjectSectionsShown | posts/open_source_contributions/generate_contributions.py:122-126 | The project sections show one heading per non-empty bucket, in item order. |
| Layout.NonEmptyInDictOrder | posts/open_source_contributions/generate_contributions.py:122-124 | The buckets shown are the non-empty ones, in dict order: Julia, Research, Tools, Docs, Personal. |
| Layout.AssembledHeadings | posts/open_source_contributions/generate_contributions.py:91-309 | A document's headings are those of its project sections followed by those of its organisation sections. |
| Layout.DocumentHeadings | posts/open_source_contributions/generate_contributions.py:117-165 | A generated document shows exactly the non-empty buckets in dict order, then one heading per organisation in the sorted grouping. |
| Layout.OrgHeadingsOrder | posts/open_source_contributions/generate_contributions.py:164-165 | One organisation heading per distinct organisation, with counts non-increasing. |

### Behaviour worth knowing

- `merge_prs` (update_database.py:68) says it merges "avoiding duplicates". Its url set and the
  repository lookup of `merge_repos` are built once and never extended while
  appending. An unstored url or name that is repeated inside one fetch is
  therefore appended each time (`MergedPrsRepeatedUrl`,
  `MergedReposRepeatedName`). The merged lists are duplicate-free only when
  both inputs are (`MergedPrsDistinct`, `MergedReposDistinct`).
- The `JuliaDynamics` and `qojulia` branches show their flagship repository
  as one line with a count and a role, then its last three pull requests
  (lines 216-227 and 263-275). They give no per-repository breakdown. Only
  `QuantumEngineeredSystems` gets the breakdown and the last five
  (lines 178-197).
- The organisation check at line 160 never removes anything
  (`OwnerCheckRedundant`). The re-sorts at lines 221, 236, 268, 283 and 294
  change nothing (`GroupsAlreadySorted`).

## Left out

- File I/O is not modelled: `load_database` in both scripts and the file
  writes of `save_database`. `Database.Load` stands for a completed load.
  The merge results and the metadata are the values that would be written.
- The GitHub CLI calls are not modelled (`run_gh_command`,
  `fetch_new_data`). The fetched lists are parameters.
  `update_contributions.py` is not part of this model.
- The wall clock (`datetime.now()`) is a parameter: `now` of `Refresh` and
  `today` of `GenerateMarkdown`. The `%B %d, %Y` formatting of the header
  date is not modelled.
- Every `print` is left out, including the "Added new PR/repo" notifications.
- Blank lines, emoji, the markdown decoration and the final `'\n'.join` are
  left out. Lines are kept as structured `Line` values.
- A key whose JSON value is `null` is treated like a missing key. Python
  sees `None` there instead of the default. Values of an unexpected JSON type
  are not modelled either. Field by field, in `generate_contributions.py`:
  - pull request `title` (line 108) and `url` (line 109): Python prints
    `None`. The model prints "No title" and "#".
  - repository `url` (line 135): Python prints `None`. The model raises
    `KeyError("url")`.
  - repository `description`: Python raises on `description.lower()`
    (lines 52-59), unless the name ends in `.jl` or contains `tutorial`. In
    that case the block has no description line (line 142). The model uses
    the empty string for the bucket tests and prints "No description".
  - repository `name` (line 50): Python raises on `name.endswith`. The
    model raises `KeyError("name")`.
  - pull request `repository` and its `nameWithOwner` (line 85): Python
    raises on `.get` or `.startswith`. The model uses the empty name: the
    pull request is external, and its repository cell is "Unknown".
  - `createdAt` (lines 88, 110, 130 and 137): Python raises when it compares
    `None` with a string in a sort, or on `None.replace`. The model sorts
    the empty string as the oldest date and raises `ValueError` where the
    date is rendered.
  - repository `stargazerCount` (lines 130 and 139): Python raises on
    comparing `None` with a number. The model uses 0.
  - `state`, `isPrivate` and `isFork` (lines 43, 82 and 85): `None` is
    falsy and is not `'merged'`, so Python behaves as for a missing key,
    and so does the model.
- `Entries.IsoDate` approximates `datetime.fromisoformat`. It accepts
  `YYYY-MM-DD` with year 1-9999, month 1-12 and day 1-31, alone or followed
  by `T` or a space. It does not check the number of days in the month or
  the time part. It does not accept the other ISO forms Python also
  accepts, such as `YYYYMMDD`. The `'Z'` replacement only affects the time
  part, so it is left out.
- `Entries.IsoDate` renders years below 1000 with their four digits. On
  some C libraries `strftime('%Y')` does not zero-pad them.
- `Reconciler.UpdateFields` treats an incoming `null` like a missing key, so
  it keeps the stored value. Python's `dict.update` would store `None`.
- `Common.Lower` lower-cases ASCII letters only, unlike Python's Unicode
  `str.lower`.
- The JuliaDynamics and qojulia branches also compute `repo_counts` and
  `merged_count` (lines 200-209 and 247-256). Neither is used, so they are
  not modelled.
- `Categories.SortInto` requires its bucket test to fail only with
  `KeyError("name")`. That is the only exception `Classify` raises.
- Python's TimSort is modelled by an insertion sort. A stable sort has only
  one possible result, so the output is the same.
