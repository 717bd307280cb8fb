# Organization directory queries

The organization directory is a small web service. It stores organizations,
the buildings they occupy and a tree of business activities. Its
`Repository` class answers every read: organizations in a building, an
organization by id, organizations by activity id (taking in the activity's
sub-activities), organizations by activity name, buildings inside a
latitude/longitude rectangle, and organizations by name.

This project models that class. The database session becomes a value of
`Tables.Db`, which holds four in-memory tables:

- `activities`, with an optional parent id;
- `organizations`;
- `buildings`, whose coordinates are `real`s because they are only ever compared;
- the `organization_activity` link table, a set of (organization id, activity id) pairs.

Each SQL query becomes a selection over these tables:

- `WHERE` is `Seqs.Filter`.
- The join through the link table is `Repository.JoinRows`, which keeps one row per matching activity.
- SQLAlchemy's `.unique()` is `Seqs.Unique`, and `.first()` is `Seqs.First`.
- `ILIKE '%text%'` is `Text.ILike`.

Rows keep table order, which stands in for the order the database returns
them in.

The recursive helper `_get_child_activity_ids` / `_get_children` updates a
list inside a `for` loop. It is modelled as the recursive method
`Repository.GetChildren`, with that loop and its invariant. The method is
proved equal to the specification function `Repository.Expand`. `Expand`
is then shown to hold exactly the activities 1 to `max_level` child steps
below the queried one (`Repository.Descendant`). The two query methods
that call the helper are methods as well. `GetOrganizationsByActivity` is
proved equal to the ghost function `Repository.OrganizationsByActivity` and
`SearchOrganizationsByActivity` to `Repository.OrganizationsByActivityName`;
the membership contracts of those two functions state the results. For
`GetChildActivityIds` the function is `Expand`, which has no contract of its
own: membership is stated by the method's second `ensures` and by the lemma
`Repository.ExpandMembership`. The other queries are functions.

`SeedData` checks the queries against the seed data of the `add_test_data`
migration. `Scenarios` shows two things on small tables:

- the depth bound, on a parent chain;
- the repetitions on a self-parent.

Files: `wrappers.dfy` (`Option`), `seqs.dfy`, `text.dfy`, `tables.dfy`,
`repository.dfy`, `seed.dfy`, `scenarios.dfy`.

### Behaviour of the code worth noting

- **Hierarchy closure.**
  - The helper recurses once per child. It neither deduplicates nor adds the queried activity itself; the root appears in its list only when it lies on a cycle of at most `max_level` steps.
  - It ends on cyclic data because the level grows by one per call.
  - `Repository.SelfParentRepeated`, `Repository.SelfParentCount` and `Scenarios.LoopRepeats` show the repetitions.
- **Root of the name search.**
  - `get_organizations_by_activity` adds the queried activity to the helper's list.
  - `search_organizations_by_activity` does not add the matched activity, although the comment at app/repository/repository.py:57 speaks of the root activity and all its descendants.
  - `Repository.ActivityNameSearchSkipsMatch` states the difference.
- **Rectangle search.**
  - `get_organizations_in_rect` selects `Building` rows (the endpoint's response model is a list of buildings), so `Repository.GetOrganizationsInRect` returns buildings.

## Model

| member | source | states |
|---|---|---|
| Seqs.Filter | app/repository/repository.py:18-21 | the rows kept by a `WHERE` are exactly the table's rows that satisfy the condition, and no more of them than there are rows |
| Seqs.Unique | app/repository/repository.py:22 | `unique()` keeps exactly the same elements, each once, and never lengthens the result |
| Seqs.UniqueOfDistinct | app/repository/repository.py:22 | `unique()` leaves a result that already has no duplicates unchanged |
| Seqs.FilterDistinct | app/repository/repository.py:18-21 | a `WHERE` over a table without duplicate rows returns no duplicates |
| Seqs.FirstIndex | app/repository/repository.py:50 | the position found is the first one whose row satisfies the condition; there is none exactly when no row does |
| Seqs.First | app/repository/repository.py:62 | `first()` returns nothing exactly when no row matches, and otherwise a matching row with no matching row before it |
| Text.Lower | app/repository/repository.py:60 | the case fold never yields an upper-case letter of A-Z, А-Я or Ё, and leaves every other character as it is |
| Text.LowerSame | app/repository/repository.py:60 | two characters fold alike exactly when they are equal or are the upper- and lower-case forms of one letter of A-Z, А-Я or Ё |
| Text.ILike | app/repository/repository.py:60 | `ILIKE '%p%'` holds exactly when, at some position of the name, every character of the pattern equals the name's character there up to case |
| Text.LowerIdempotent | app/repository/repository.py:60 | folding a character twice is folding it once |
| Text.Fold | app/repository/repository.py:60 | the folded string has the same length and is folded character by character |
| Text.StartsWith | app/repository/repository.py:60 | true exactly when the pattern is a prefix of the string |
| Text.Contains | app/repository/repository.py:60 | true exactly when the pattern occurs in the string at some position |
| Text.ILikeEmpty | app/repository/repository.py:60 | the empty pattern `'%%'` matches every name |
| Text.ILikeFoldedPattern | app/repository/repository.py:60 | matching does not depend on the case of the pattern |
| Text.ILikeNeedsChar | app/repository/repository.py:60 | a name matches only if every character of the pattern occurs in it up to case |
| Text.ILikeSubstring | app/repository/repository.py:130 | a name matches each of its own substrings |
| Text.UpperCyrillic | app/repository/repository.py:60 | the upper-case form of a lower-case Cyrillic letter folds back to it |
| Text.LowerToCyrillic | app/repository/repository.py:60 | exactly a lower-case Cyrillic letter and its upper-case form fold to that letter |
| Text.ILikeMissingLetter | app/repository/repository.py:60 | a name that lacks, in either case, a Cyrillic letter of the pattern does not match |
| Repository.ChildIds | app/repository/repository.py:109-113 | the child query returns exactly the ids of the rows whose parent is `pid` |
| Repository.ChildIdsIn | app/repository/repository.py:109-113 | the child query over a part of the table returns exactly the ids of that part's rows whose parent is `pid` |
| Repository.ChildIdsInAppend | app/repository/repository.py:109-113 | the child query over two parts of the table is the concatenation of the two queries |
| Repository.ChildIdsInNone | app/repository/repository.py:109-113 | a parent id that no row names has no children |
| Repository.ExpandAllSnoc | app/repository/repository.py:116-117 | extending the list with one more child appends that child's expansion |
| Repository.ExpandMembership | app/repository/repository.py:103-121 | an id is in the expansion of `pid` at `level` exactly when it is 1 to `maxLevel - level + 1` child steps below `pid`: all such ids appear and nothing deeper |
| Repository.ExpandAllMembership | app/repository/repository.py:116-117 | an id is in the concatenated expansions of the children exactly when it lies below one of them within the remaining depth |
| Repository.ExpandMembers | app/repository/repository.py:103-121 | the membership statement for every id at once |
| Repository.GetChildren | app/repository/repository.py:105-119 | `_get_children` returns `Expand`: nothing past `max_level`; otherwise the direct children in query order, then each child's own expansion in child order, so the list begins with the children; its members are exactly the descendants within the remaining depth; it terminates on any parent graph |
| Repository.GetChildActivityIds | app/repository/repository.py:103-121 | `_get_child_activity_ids(p, max_level)` returns exactly the ids 1 to `max_level` child steps below `p` |
| Repository.ExpandUnfold1 | app/repository/repository.py:113-119 | one step of the expansion for an activity with one child: the child, then its expansion one level deeper |
| Repository.ExpandUnfold2 | app/repository/repository.py:113-119 | the same step for two children, in child order |
| Repository.ExpandUnfold3 | app/repository/repository.py:113-119 | the same step for three children, in child order |
| Repository.ExpandAllCovers | app/repository/repository.py:116-117 | the concatenated list holds each id at least as often as any one child's expansion does |
| Repository.SelfParentRepeated | app/repository/repository.py:105-119 | no deduplication: an activity that is its own parent appears in its own expansion at least once for each level still to expand |
| Repository.ChildIdsInDistinct | app/repository/repository.py:109-113 | with unique activity ids the child query returns no id twice |
| Repository.SelfParentUnreachable | app/repository/repository.py:109-113 | with unique activity ids no other activity leads back, by any number of child steps, to an activity that is its own parent |
| Repository.ExpandAllSelfCount | app/repository/repository.py:116-117 | over distinct children the concatenated list holds a self-parent exactly as often as its own expansion, or not at all when it is not among them |
| Repository.SelfParentCount | app/repository/repository.py:105-119 | with unique activity ids a self-parent appears in its own expansion exactly once per remaining level, so `_get_child_activity_ids(p, m)` lists `p` exactly `m` times |
| Repository.JoinRows | app/repository/repository.py:34-35 | an organization has a row in the join exactly when it is linked to an existing activity whose id is in the list |
| Repository.RowsOf | app/repository/repository.py:34-35 | an organization's join rows are copies of it, and there is one exactly when some matching activity row is linked to it |
| Repository.OrganizationsByActivity | app/repository/repository.py:24-37 | the organizations linked to the activity itself or to a descendant at most three levels down, each once |
| Repository.GetOrganizationsByActivity | app/repository/repository.py:24-37 | `get_organizations_by_activity` returns `OrganizationsByActivity`, so exactly the organizations linked to the activity or to a descendant within three levels, without repeats even when several of an organization's activities match |
| Repository.FindActivityByName | app/repository/repository.py:58-62 | nothing exactly when no activity name contains the text case-insensitively; otherwise the first matching activity in query order |
| Repository.FindActivityByNameAt | app/repository/repository.py:58-62 | a matching activity with no match before it is the one found |
| Repository.OrganizationsByActivityName | app/repository/repository.py:55-81 | with no matching activity the result is empty; otherwise it holds the organizations linked to a descendant (1 to 3 levels) of the first match, each once |
| Repository.SearchOrganizationsByActivity | app/repository/repository.py:55-81 | `search_organizations_by_activity` returns `OrganizationsByActivityName`, so `[]` when nothing matches and no repeats |
| Repository.ActivityNameSearchSkipsMatch | app/repository/repository.py:68 | an organization linked only to the matched activity, which is not its own descendant, is found by the id search and not by the name search |
| Repository.SortedPair | app/repository/repository.py:85-86 | `sorted([a, b])` puts the smaller value first and keeps both values |
| Repository.GetOrganizationsInRect | app/repository/repository.py:83-100 | exactly the buildings whose latitude and longitude lie between the corners' values, in either order, with both ends included, each once |
| Repository.RectCornerOrder | app/repository/repository.py:85-86 | the result is the same when the two corners are swapped, or only the latitudes, or only the longitudes |
| Repository.GetOrganizationsInBuilding | app/repository/repository.py:16-22 | exactly the organizations whose building id is the one asked for, each once |
| Repository.BuildingQueryDistinct | app/repository/repository.py:16-22 | with unique organization ids `unique()` changes nothing: the result is the plain `WHERE building_id = ...` selection in table order |
| Repository.GetOrganization | app/repository/repository.py:39-53 | nothing exactly when no organization has the id; otherwise an organization in the table with that id |
| Repository.GetOrganizationFinds | app/repository/repository.py:39-53 | with unique primary keys, looking up an organization's id returns that organization |
| Repository.SearchOrganizationsByName | app/repository/repository.py:123-132 | exactly the organizations whose name contains the text case-insensitively, each once |
| SeedData.SeedChildIdsSplit | alembic/versions/add_test_data.py:24-60 | the child query on the seed runs over the three levels of rows in turn |
| SeedData.SeedRootParents | alembic/versions/add_test_data.py:27-30 | the root activities are nobody's children |
| SeedData.SeedSubParents | alembic/versions/add_test_data.py:34-45 | the subcategories have parent 1, 2 or 3 only |
| SeedData.SeedLeafParents | alembic/versions/add_test_data.py:49-59 | the specific kinds have parent 5, 10 or 11 only |
| SeedData.SeedChildless | alembic/versions/add_test_data.py:24-60 | only activities 1, 2, 3, 5, 10 and 11 have children |
| SeedData.SeedChildIdsFood | alembic/versions/add_test_data.py:34-36 | the children of "Еда" are 5, 6, 7 |
| SeedData.SeedChildIdsCars | alembic/versions/add_test_data.py:39-41 | the children of "Автомобили" are 8, 9, 10 |
| SeedData.SeedChildIdsServices | alembic/versions/add_test_data.py:44-45 | the children of "Услуги" are 11, 12 |
| SeedData.SeedChildIdsMeat | alembic/versions/add_test_data.py:49-51 | the children of "Мясная продукция" are 13, 14, 15 |
| SeedData.SeedChildIdsParts | alembic/versions/add_test_data.py:54-55 | the children of "Запчасти" are 16, 17 |
| SeedData.SeedChildIdsRepair | alembic/versions/add_test_data.py:58-59 | the children of "Ремонт" are 18, 19 |
| SeedData.SeedExpandMeat | alembic/versions/add_test_data.py:34-59 | expanding 5 from level 2 gives 13, 14, 15 |
| SeedData.SeedExpandParts | alembic/versions/add_test_data.py:34-59 | expanding 10 from level 2 gives 16, 17 |
| SeedData.SeedExpandRepair | alembic/versions/add_test_data.py:34-59 | expanding 11 from level 2 gives 18, 19 |
| SeedData.SeedExpandFood | alembic/versions/add_test_data.py:24-60 | the helper's list for 1 is 5, 6, 7, 13, 14, 15 |
| SeedData.SeedExpandCars | alembic/versions/add_test_data.py:24-60 | the helper's list for 2 is 8, 9, 10, 16, 17 |
| SeedData.SeedExpandServices | alembic/versions/add_test_data.py:24-60 | the helper's list for 3 is 11, 12, 18, 19 |
| SeedData.SeedFoodLinks | alembic/versions/add_test_data.py:91-116 | only organizations 2, 3, 6 are linked to an activity under "Еда" |
| SeedData.SeedCarLinks | alembic/versions/add_test_data.py:91-116 | only organizations 1, 4, 5 are linked to an activity under "Автомобили" |
| SeedData.SeedMeatLinks | alembic/versions/add_test_data.py:91-116 | only organization 2 is linked to 13, 14 or 15 |
| SeedData.SeedServiceLinks | alembic/versions/add_test_data.py:91-116 | only organizations 7, 8 are linked to an activity under "Услуги" |
| SeedData.SeedActivityPresent | alembic/versions/add_test_data.py:24-60 | every activity id from 1 to 19 exists |
| SeedData.SeedByFoodFinds | alembic/versions/add_test_data.py:15-115 | `get_organizations_by_activity(1)` contains organizations 2, 3, 6 |
| SeedData.SeedByFoodOnly | alembic/versions/add_test_data.py:15-115 | every organization in `get_organizations_by_activity(1)` is 2, 3 or 6 |
| SeedData.SeedByCarsFinds | alembic/versions/add_test_data.py:15-115 | `get_organizations_by_activity(2)` contains organizations 1, 4, 5 |
| SeedData.SeedByCarsOnly | alembic/versions/add_test_data.py:15-115 | every organization in `get_organizations_by_activity(2)` is 1, 4 or 5 |
| SeedData.SeedByServicesFinds | alembic/versions/add_test_data.py:15-115 | `get_organizations_by_activity(3)` contains organizations 7, 8, found two levels down |
| SeedData.SeedByServicesOnly | alembic/versions/add_test_data.py:15-115 | every organization in `get_organizations_by_activity(3)` is 7 or 8 |
| SeedData.SeedRootNoMeat | alembic/versions/add_test_data.py:27-30 | no root activity's name contains "Мясн" |
| SeedData.SeedMeatMatches | alembic/versions/add_test_data.py:34 | "Мясная продукция" contains "Мясн" |
| SeedData.SeedFindsMeat | alembic/versions/add_test_data.py:27-34 | the name search for "Мясн" settles on activity 5 |
| SeedData.SeedMeatDescendants | alembic/versions/add_test_data.py:34-51 | the helper's list for 5 is 13, 14, 15 |
| SeedData.SeedSearchMeatFinds | alembic/versions/add_test_data.py:15-115 | `search_organizations_by_activity("Мясн")` contains organization 2 |
| SeedData.SeedSearchMeatOnly | alembic/versions/add_test_data.py:15-115 | every organization in `search_organizations_by_activity("Мясн")` is 2 |
| SeedData.SeedRectCentre | alembic/versions/add_test_data.py:15-21 | the rectangle (55.75, 37.61)-(55.77, 37.62) holds exactly buildings 1 and 2 |
| SeedData.SeedOrganizationsInBuildingOne | alembic/versions/add_test_data.py:64-72 | the organizations in building 1 are 2 and 3 |
| SeedData.SeedBuildingOne | alembic/versions/add_test_data.py:64-72 | `get_organizations_in_building(1)` holds exactly organizations 2 and 3 |
| SeedData.SeedLookupFinds | alembic/versions/add_test_data.py:64-72 | `get_organization(4)` is "АвтоГруз" |
| SeedData.SeedLookupMisses | alembic/versions/add_test_data.py:64-72 | `get_organization(9)` is nothing |
| Scenarios.ChainChildren | app/repository/repository.py:109-113 | each activity on the chain has exactly the next one as its child |
| Scenarios.SingleChildSteps | app/repository/repository.py:105-119 | along single-child steps the expansion lists the chain down to the depth limit, in order |
| Scenarios.ChainDepth | app/repository/repository.py:103-121 | on the chain with five activities, the default depth of 3 reaches 4 but not 5, and a depth of 2 stops at 3 |
| Scenarios.LoopRepeats | app/repository/repository.py:105-119 | an activity that is its own parent is listed three times, itself included, and the expansion stops |

## Left out

- The database session, the engine and the migrations are left out: a `Db` value is passed in instead, and `async`/`await` is read as sequential code.
- The order of query results is left out; the SQL order is unspecified. Rows keep table order, and the contracts that state a position or a sequence (the helper's own list, `first()`, the seed checks of the helper, `Repository.RectCornerOrder`, `Repository.BuildingQueryDistinct` and the row position cited by `SeedData.SeedLookupFinds`) are about that table order.
- Repository.FindActivityByName: `first()` over an unordered query returns an unspecified match; the model takes the first in table order.
- Eager loading is left out (`joinedload`/`selectinload` of buildings, phones, activities and children). It changes how rows are fetched, not which rows are returned. Phones and addresses are not modelled for the same reason.
- Logging in `get_organization` is left out.
- Text.ILike: `%` and `_` typed inside the search text act as wildcards in SQL, and a backslash escapes the character after it (PostgreSQL's default escape character for LIKE and ILIKE). Here all three are taken literally.
- Text.Lower: the fold covers A-Z, А-Я and Ё only. The database's other Unicode case mappings are not modelled.
- Repository.GetOrganization: the contract states only "an organization with that id". `Repository.GetOrganizationFinds` gives "the one organization with that id" where primary keys are unique.
- Repository.GetOrganizationsInRect: coordinates are exact reals. Floating-point rounding of the stored latitudes and longitudes is not modelled.
- The HTTP layer is left out: routing, the API-key check, caching through the `@cache` decorator and its Redis backend, and the request bounds on latitudes and longitudes (±90 and ±180). The endpoints for activities and buildings call repository methods that do not exist.
- The radius search and the time-limited cache have no code in the repository, so there is nothing to model.
- The name search for organizations has no checks against the seed; its general contract is in `Repository.SearchOrganizationsByName`.
