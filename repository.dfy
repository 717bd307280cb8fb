/** The `Repository` of the organization directory: every SQL query it
    issues becomes a selection over the in-memory tables of `Tables.Db`. */
module Repository {
  import opened Wrappers
  import opened Seqs
  import opened Text
  import opened Tables

  /** `max_level`'s default: the hierarchy is expanded at most three child
      steps below the queried activity. */
  const DefaultMaxLevel := 3

  // ---------------------------------------------------------------------
  // Descendants of an activity
  // ---------------------------------------------------------------------

  /** `SELECT id FROM activities WHERE parent_id = pid`, in table order. */
  function ChildIds(db: Db, pid: int): (r: seq<int>)
    ensures forall c :: c in r <==> IsChild(db, pid, c)
  {
    ChildIdsIn(db.activities, pid)
  }

  function ChildIdsIn(acts: seq<Activity>, pid: int): (r: seq<int>)
    ensures forall c :: c in r <==> exists a :: a in acts && a.id == c && a.parentId == Some(pid)
  {
    if acts == [] then []
    else (if acts[0].parentId == Some(pid) then [acts[0].id] else []) + ChildIdsIn(acts[1..], pid)
  }

  /** The child query distributes over a split of the table. */
  lemma {:induction false} ChildIdsInAppend(a: seq<Activity>, b: seq<Activity>, pid: int)
    ensures ChildIdsIn(a + b, pid) == ChildIdsIn(a, pid) + ChildIdsIn(b, pid)
  {
    if a == [] {
      assert a + b == b;
    } else {
      var head := if a[0].parentId == Some(pid) then [a[0].id] else [];
      assert (a + b)[0] == a[0];
      assert (a + b)[1..] == a[1..] + b;
      assert ChildIdsIn(a + b, pid) == head + ChildIdsIn(a[1..] + b, pid);
      assert ChildIdsIn(a, pid) == head + ChildIdsIn(a[1..], pid);
      ChildIdsInAppend(a[1..], b, pid);
    }
  }

  /** An activity that no row names as its parent has no children. */
  lemma ChildIdsInNone(acts: seq<Activity>, pid: int)
    requires forall a :: a in acts ==> a.parentId != Some(pid)
    ensures ChildIdsIn(acts, pid) == []
  {
    if ChildIdsIn(acts, pid) != [] {
      assert ChildIdsIn(acts, pid)[0] in ChildIdsIn(acts, pid);
    }
  }

  /** `x` is reached from `p` by following exactly `k` child edges. */
  ghost predicate ReachableIn(db: Db, p: int, x: int, k: nat)
    decreases k
  {
    if k == 0 then x == p
    else exists c :: IsChild(db, p, c) && ReachableIn(db, c, x, k - 1)
  }

  /** `x` is reached from `p` by 1 to `depth` child edges. */
  ghost predicate Descendant(db: Db, p: int, x: int, depth: int) {
    exists k: nat :: 1 <= k <= depth && ReachableIn(db, p, x, k)
  }

  /** What `_get_children(pid, level)` returns: nothing once `level` exceeds
      `maxLevel`; otherwise the direct children of `pid` in query order,
      followed by each child's own expansion one level deeper. */
  ghost function Expand(db: Db, pid: int, level: int, maxLevel: int): seq<int>
    decreases maxLevel + 1 - level, 0
  {
    if level > maxLevel then []
    else
      var cs := ChildIds(db, pid);
      cs + ExpandAll(db, cs, level + 1, maxLevel)
  }

  /** The expansions of the activities `cs`, concatenated in the order of `cs`. */
  ghost function ExpandAll(db: Db, cs: seq<int>, level: int, maxLevel: int): seq<int>
    decreases maxLevel + 1 - level, |cs|
  {
    if cs == [] then []
    else Expand(db, cs[0], level, maxLevel) + ExpandAll(db, cs[1..], level, maxLevel)
  }

  /** Appending one activity appends its expansion. */
  lemma {:induction false} ExpandAllSnoc(db: Db, cs: seq<int>, c: int, level: int, maxLevel: int)
    ensures ExpandAll(db, cs + [c], level, maxLevel) == ExpandAll(db, cs, level, maxLevel) + Expand(db, c, level, maxLevel)
    decreases |cs|
  {
    if cs == [] {
      assert [c][1..] == [];
    } else {
      assert (cs + [c])[1..] == cs[1..] + [c];
      ExpandAllSnoc(db, cs[1..], c, level, maxLevel);
    }
  }

  /** The expansion of `pid` at `level` holds exactly the activities reached
      from `pid` by 1 to `maxLevel - level + 1` child steps: every one of them
      appears, and nothing deeper. */
  lemma {:induction false} ExpandMembership(db: Db, pid: int, level: int, maxLevel: int, x: int)
    ensures x in Expand(db, pid, level, maxLevel) <==> Descendant(db, pid, x, maxLevel - level + 1)
    decreases maxLevel + 1 - level, 0
  {
    if level <= maxLevel {
      var cs := ChildIds(db, pid);
      var rest := ExpandAll(db, cs, level + 1, maxLevel);
      assert Expand(db, pid, level, maxLevel) == cs + rest;
      ExpandAllMembership(db, cs, level + 1, maxLevel, x);
      if x in cs {
        assert ReachableIn(db, x, x, 0);
        assert ReachableIn(db, pid, x, 1);
      } else if x in rest {
        var c, k: nat :| c in cs && 1 <= k <= maxLevel - level && ReachableIn(db, c, x, k);
        assert ReachableIn(db, pid, x, k + 1);
      }
      if Descendant(db, pid, x, maxLevel - level + 1) {
        var k: nat :| 1 <= k <= maxLevel - level + 1 && ReachableIn(db, pid, x, k);
        var c :| IsChild(db, pid, c) && ReachableIn(db, c, x, k - 1);
        assert c in cs;
        if k > 1 {
          assert Descendant(db, c, x, maxLevel - level);
        }
      }
    }
  }

  /** An element of the concatenated expansions belongs to the expansion of
      one of the activities. */
  lemma {:induction false} ExpandAllMembership(db: Db, cs: seq<int>, level: int, maxLevel: int, x: int)
    ensures x in ExpandAll(db, cs, level, maxLevel) <==>
              exists c :: c in cs && Descendant(db, c, x, maxLevel - level + 1)
    decreases maxLevel + 1 - level, |cs|
  {
    if cs != [] {
      ExpandMembership(db, cs[0], level, maxLevel, x);
      ExpandAllMembership(db, cs[1..], level, maxLevel, x);
      assert ExpandAll(db, cs, level, maxLevel)
        == Expand(db, cs[0], level, maxLevel) + ExpandAll(db, cs[1..], level, maxLevel);
      if exists c :: c in cs && Descendant(db, c, x, maxLevel - level + 1) {
        var c :| c in cs && Descendant(db, c, x, maxLevel - level + 1);
        if c != cs[0] {
          assert c in cs[1..];
        }
      }
      if x in Expand(db, cs[0], level, maxLevel) {
        assert cs[0] in cs && Descendant(db, cs[0], x, maxLevel - level + 1);
      }
      if x in ExpandAll(db, cs[1..], level, maxLevel) {
        var c :| c in cs[1..] && Descendant(db, c, x, maxLevel - level + 1);
        assert c in cs;
      }
    }
  }

  /** `_get_children(pid, level)`: the recursive, depth-bounded expansion.
      It never deduplicates, and it stops on any parent graph, cyclic or
      not, because `level` grows by one per call. */
  method GetChildren(db: Db, pid: int, level: int, maxLevel: int) returns (allIds: seq<int>)
    ensures allIds == Expand(db, pid, level, maxLevel)
    ensures forall x :: x in allIds <==> Descendant(db, pid, x, maxLevel - level + 1)
    ensures level <= maxLevel ==> allIds[..|ChildIds(db, pid)|] == ChildIds(db, pid)
    decreases maxLevel + 1 - level
  {
    if level > maxLevel {
      allIds := [];
    } else {
      var childIds := ChildIds(db, pid);
      allIds := childIds;
      for i := 0 to |childIds|
        invariant allIds == childIds + ExpandAll(db, childIds[..i], level + 1, maxLevel)
      {
        var sub := GetChildren(db, childIds[i], level + 1, maxLevel);
        ExpandAllSnoc(db, childIds[..i], childIds[i], level + 1, maxLevel);
        assert childIds[..i + 1] == childIds[..i] + [childIds[i]];
        allIds := allIds + sub;
      }
      assert childIds[..|childIds|] == childIds;
    }
    ExpandMembers(db, pid, level, maxLevel);
  }

  /** `_get_child_activity_ids(parent_id, max_level)`: the ids reached from
      `parentId` by 1 to `maxLevel` child steps, with repetitions where the
      data holds cycles, and never `parentId` itself unless it lies on a cycle
      of at most `maxLevel` steps. */
  method GetChildActivityIds(db: Db, parentId: int, maxLevel: int) returns (ids: seq<int>)
    ensures ids == Expand(db, parentId, 1, maxLevel)
    ensures forall x :: x in ids <==> Descendant(db, parentId, x, maxLevel)
  {
    ids := GetChildren(db, parentId, 1, maxLevel);
  }

  /** `ExpandMembership` for every activity id at once. */
  lemma ExpandMembers(db: Db, pid: int, level: int, maxLevel: int)
    ensures forall x :: x in Expand(db, pid, level, maxLevel) <==> Descendant(db, pid, x, maxLevel - level + 1)
  {
    forall x ensures x in Expand(db, pid, level, maxLevel) <==> Descendant(db, pid, x, maxLevel - level + 1) {
      ExpandMembership(db, pid, level, maxLevel, x);
    }
  }

  /** One step of the expansion of an activity with one, two or three
      children. */
  lemma ExpandUnfold1(db: Db, p: int, a: int, level: int, maxLevel: int)
    requires level <= maxLevel
    requires ChildIds(db, p) == [a]
    ensures Expand(db, p, level, maxLevel) == [a] + Expand(db, a, level + 1, maxLevel)
  {
    assert ExpandAll(db, [a], level + 1, maxLevel) == Expand(db, a, level + 1, maxLevel);
  }

  lemma ExpandUnfold2(db: Db, p: int, a: int, b: int, level: int, maxLevel: int)
    requires level <= maxLevel
    requires ChildIds(db, p) == [a, b]
    ensures Expand(db, p, level, maxLevel) ==
      [a, b] + Expand(db, a, level + 1, maxLevel) + Expand(db, b, level + 1, maxLevel)
  {
    assert ExpandAll(db, [b], level + 1, maxLevel) == Expand(db, b, level + 1, maxLevel);
    assert ExpandAll(db, [a, b], level + 1, maxLevel) ==
      Expand(db, a, level + 1, maxLevel) + ExpandAll(db, [b], level + 1, maxLevel);
  }

  lemma ExpandUnfold3(db: Db, p: int, a: int, b: int, c: int, level: int, maxLevel: int)
    requires level <= maxLevel
    requires ChildIds(db, p) == [a, b, c]
    ensures Expand(db, p, level, maxLevel) ==
      [a, b, c] + Expand(db, a, level + 1, maxLevel) + Expand(db, b, level + 1, maxLevel)
        + Expand(db, c, level + 1, maxLevel)
  {
    assert ExpandAll(db, [c], level + 1, maxLevel) == Expand(db, c, level + 1, maxLevel);
    assert ExpandAll(db, [b, c], level + 1, maxLevel) ==
      Expand(db, b, level + 1, maxLevel) + ExpandAll(db, [c], level + 1, maxLevel);
    assert ExpandAll(db, [a, b, c], level + 1, maxLevel) ==
      Expand(db, a, level + 1, maxLevel) + ExpandAll(db, [b, c], level + 1, maxLevel);
  }

  /** Expansions of the activities `cs` contain, element for element, at
      least what the expansion of any one of them contains. */
  lemma {:induction false} ExpandAllCovers(db: Db, cs: seq<int>, c: int, level: int, maxLevel: int, x: int)
    requires c in cs
    ensures multiset(ExpandAll(db, cs, level, maxLevel))[x] >= multiset(Expand(db, c, level, maxLevel))[x]
    decreases |cs|
  {
    if cs[0] != c {
      ExpandAllCovers(db, cs[1..], c, level, maxLevel, x);
    }
  }

  /** No deduplication: an activity that is its own parent shows up at
      least once per level still to be expanded, so
      `GetChildActivityIds(db, p, m)` lists `p` itself at least `m` times. */
  lemma {:induction false} SelfParentRepeated(db: Db, p: int, level: int, maxLevel: int)
    requires IsChild(db, p, p)
    ensures multiset(Expand(db, p, level, maxLevel))[p] >= maxLevel - level + 1
    decreases maxLevel + 1 - level
  {
    if level <= maxLevel {
      var cs := ChildIds(db, p);
      assert p in cs;
      SelfParentRepeated(db, p, level + 1, maxLevel);
      ExpandAllCovers(db, cs, p, level + 1, maxLevel, p);
      assert Expand(db, p, level, maxLevel) == cs + ExpandAll(db, cs, level + 1, maxLevel);
    }
  }

  /** With unique activity ids the child query has no repeats. */
  lemma {:induction false} ChildIdsInDistinct(acts: seq<Activity>, pid: int)
    requires forall i, j :: 0 <= i < j < |acts| ==> acts[i].id != acts[j].id
    ensures NoDuplicates(ChildIdsIn(acts, pid))
  {
    if acts != [] {
      ChildIdsInDistinct(acts[1..], pid);
      assert forall a :: a in acts[1..] ==> a.id != acts[0].id;
      var rest := ChildIdsIn(acts[1..], pid);
      if acts[0].parentId == Some(pid) {
        assert acts[0].id !in rest;
        assert ChildIdsIn(acts, pid) == [acts[0].id] + rest;
      } else {
        assert ChildIdsIn(acts, pid) == rest;
      }
    }
  }

  /** With unique activity ids, an activity other than a self-parent `p` never
      leads back to `p`: the only row with id `p` has parent `p`. */
  lemma {:induction false} SelfParentUnreachable(db: Db, p: int, c: int, k: nat)
    requires WellFormed(db) && IsChild(db, p, p) && c != p
    ensures !ReachableIn(db, c, p, k)
    decreases k
  {
    if k > 0 && ReachableIn(db, c, p, k) {
      var c' :| IsChild(db, c, c') && ReachableIn(db, c', p, k - 1);
      if c' == p {
        assert false;
      } else {
        SelfParentUnreachable(db, p, c', k - 1);
        assert false;
      }
    }
  }

  /** The expansions of distinct activities hold a self-parent `p` as often as
      `p`'s own expansion does when `p` is among them, and not at all otherwise. */
  lemma {:induction false} ExpandAllSelfCount(db: Db, cs: seq<int>, p: int, level: int, maxLevel: int)
    requires WellFormed(db) && IsChild(db, p, p) && NoDuplicates(cs)
    ensures multiset(ExpandAll(db, cs, level, maxLevel))[p]
            == if p in cs then multiset(Expand(db, p, level, maxLevel))[p] else 0
    decreases |cs|
  {
    if cs != [] {
      assert NoDuplicates(cs[1..]);
      ExpandAllSelfCount(db, cs[1..], p, level, maxLevel);
      if cs[0] != p {
        ExpandMembership(db, cs[0], level, maxLevel, p);
        forall k: nat | 1 <= k <= maxLevel - level + 1 ensures !ReachableIn(db, cs[0], p, k) {
          SelfParentUnreachable(db, p, cs[0], k);
        }
      } else {
        assert p !in cs[1..];
      }
    }
  }

  /** With unique activity ids, a self-parent `p` shows up exactly once per
      level still to be expanded: `GetChildActivityIds(db, p, m)` lists `p`
      exactly `m` times. */
  lemma {:induction false} SelfParentCount(db: Db, p: int, level: int, maxLevel: int)
    requires WellFormed(db) && IsChild(db, p, p) && level <= maxLevel + 1
    ensures multiset(Expand(db, p, level, maxLevel))[p] == maxLevel - level + 1
    decreases maxLevel + 1 - level
  {
    if level <= maxLevel {
      var cs := ChildIds(db, p);
      ChildIdsInDistinct(db.activities, p);
      DistinctCount(cs, p);
      ExpandAllSelfCount(db, cs, p, level + 1, maxLevel);
      SelfParentCount(db, p, level + 1, maxLevel);
      assert Expand(db, p, level, maxLevel) == cs + ExpandAll(db, cs, level + 1, maxLevel);
    }
  }

  // ---------------------------------------------------------------------
  // Organizations joined through their activities
  // ---------------------------------------------------------------------

  /** The rows of `organizations JOIN organization_activity JOIN activities
      WHERE activities.id IN ids`, projected on the organization: one row
      per (organization, matching activity) pair, so an organization
      linked to several matching activities occurs several times. */
  function JoinRows(db: Db, orgs: seq<Organization>, ids: seq<int>): (r: seq<Organization>)
    ensures forall o :: o in r <==> o in orgs && LinkedToAny(db, o, ids)
  {
    if orgs == [] then []
    else RowsOf(db, orgs[0], db.activities, ids) + JoinRows(db, orgs[1..], ids)
  }

  /** The join rows of one organization, one per matching activity row. */
  function RowsOf(db: Db, o: Organization, acts: seq<Activity>, ids: seq<int>): (r: seq<Organization>)
    ensures forall o' :: o' in r ==> o' == o
    ensures o in r <==> exists a :: a in acts && a.id in ids && (o.id, a.id) in db.links
  {
    if acts == [] then []
    else
      (if acts[0].id in ids && (o.id, acts[0].id) in db.links then [o] else [])
      + RowsOf(db, o, acts[1..], ids)
  }

  /** What `get_organizations_by_activity` returns: the organizations linked
      to the activity itself or to one of its descendants down to three
      levels, each once. */
  ghost function OrganizationsByActivity(db: Db, activityId: int): (r: seq<Organization>)
    ensures forall o :: o in r <==>
              o in db.organizations &&
              exists a :: a in db.activities && (o.id, a.id) in db.links &&
                          (a.id == activityId || Descendant(db, activityId, a.id, DefaultMaxLevel))
    ensures NoDuplicates(r)
  {
    ExpandMembers(db, activityId, 1, DefaultMaxLevel);
    Unique(JoinRows(db, db.organizations, [activityId] + Expand(db, activityId, 1, DefaultMaxLevel)))
  }

  /** `get_organizations_by_activity(activity_id)`. */
  method GetOrganizationsByActivity(db: Db, activityId: int) returns (orgs: seq<Organization>)
    ensures orgs == OrganizationsByActivity(db, activityId)
    ensures forall o :: o in orgs <==>
              o in db.organizations &&
              exists a :: a in db.activities && (o.id, a.id) in db.links &&
                          (a.id == activityId || Descendant(db, activityId, a.id, DefaultMaxLevel))
    ensures NoDuplicates(orgs)
  {
    var childIds := GetChildActivityIds(db, activityId, DefaultMaxLevel);
    var activityIds := [activityId] + childIds;
    orgs := Unique(JoinRows(db, db.organizations, activityIds));
  }

  /** The first activity, in query order, whose name contains `activityName`
      case-insensitively. */
  function FindActivityByName(db: Db, activityName: string): (r: Option<Activity>)
    ensures r.None? <==> forall a :: a in db.activities ==> !ILike(a.name, activityName)
    ensures r.Some? ==>
              exists i :: 0 <= i < |db.activities| && db.activities[i] == r.value &&
                          ILike(r.value.name, activityName) &&
                          forall j :: 0 <= j < i ==> !ILike(db.activities[j].name, activityName)
  {
    First(db.activities, (a: Activity) => ILike(a.name, activityName))
  }

  /** The match is the first activity, in query order, whose name matches. */
  lemma FindActivityByNameAt(db: Db, activityName: string, k: int)
    requires 0 <= k < |db.activities| && ILike(db.activities[k].name, activityName)
    requires forall j :: 0 <= j < k ==> !ILike(db.activities[j].name, activityName)
    ensures FindActivityByName(db, activityName) == Some(db.activities[k])
  {
  }

  /** What `search_organizations_by_activity` returns: nothing when no
      activity name matches; otherwise the organizations linked to a
      descendant (1 to 3 levels down) of the first matching activity, each
      once. The matched activity's own id is not among the ids searched. */
  ghost function OrganizationsByActivityName(db: Db, activityName: string): (r: seq<Organization>)
    ensures FindActivityByName(db, activityName).None? ==> r == []
    ensures FindActivityByName(db, activityName).Some? ==>
              var root := FindActivityByName(db, activityName).value;
              forall o :: o in r <==>
                o in db.organizations &&
                exists a :: a in db.activities && (o.id, a.id) in db.links &&
                            Descendant(db, root.id, a.id, DefaultMaxLevel)
    ensures NoDuplicates(r)
  {
    match FindActivityByName(db, activityName)
    case None => []
    case Some(root) =>
      ExpandMembers(db, root.id, 1, DefaultMaxLevel);
      Unique(JoinRows(db, db.organizations, Expand(db, root.id, 1, DefaultMaxLevel)))
  }

  /** `search_organizations_by_activity(activity_name)`. */
  method SearchOrganizationsByActivity(db: Db, activityName: string) returns (orgs: seq<Organization>)
    ensures orgs == OrganizationsByActivityName(db, activityName)
    ensures FindActivityByName(db, activityName).None? ==> orgs == []
    ensures NoDuplicates(orgs)
  {
    var root := FindActivityByName(db, activityName);
    if root.None? {
      return [];
    }
    var activityIds := GetChildActivityIds(db, root.value.id, DefaultMaxLevel);
    orgs := Unique(JoinRows(db, db.organizations, activityIds));
  }

  /** Unlike the search by activity id, the search by activity name leaves
      out the matched activity itself: an organization linked only to it is
      found by the first and not by the second, as long as the activity is
      not its own descendant. */
  lemma ActivityNameSearchSkipsMatch(db: Db, activityName: string, o: Organization)
    requires FindActivityByName(db, activityName).Some?
    requires o in db.organizations
    requires (o.id, FindActivityByName(db, activityName).value.id) in db.links
    requires forall a :: a in db.activities && (o.id, a.id) in db.links ==>
                         a.id == FindActivityByName(db, activityName).value.id
    requires !Descendant(db, FindActivityByName(db, activityName).value.id,
                         FindActivityByName(db, activityName).value.id, DefaultMaxLevel)
    ensures o in OrganizationsByActivity(db, FindActivityByName(db, activityName).value.id)
    ensures o !in OrganizationsByActivityName(db, activityName)
  {
    var root := FindActivityByName(db, activityName).value;
    assert root in db.activities;
  }

  // ---------------------------------------------------------------------
  // Rectangle search
  // ---------------------------------------------------------------------

  /** `sorted([a, b])`: the two values, smaller first. */
  function SortedPair(a: real, b: real): (r: (real, real))
    ensures r.0 <= r.1
    ensures multiset{r.0, r.1} == multiset{a, b}
  {
    if a <= b then (a, b) else (b, a)
  }

  /** `get_organizations_in_rect(lat1, lon1, lat2, lon2)`: the buildings whose
      latitude lies between the two latitudes and whose longitude lies
      between the two longitudes, boundaries included, each once. */
  function GetOrganizationsInRect(db: Db, lat1: real, lon1: real, lat2: real, lon2: real): (r: seq<Building>)
    ensures forall b :: b in r <==>
              b in db.buildings &&
              (lat1 <= b.latitude <= lat2 || lat2 <= b.latitude <= lat1) &&
              (lon1 <= b.longitude <= lon2 || lon2 <= b.longitude <= lon1)
    ensures NoDuplicates(r)
  {
    var lats := SortedPair(lat1, lat2);
    var lons := SortedPair(lon1, lon2);
    Unique(Filter(db.buildings, (b: Building) =>
      lats.0 <= b.latitude <= lats.1 && lons.0 <= b.longitude <= lons.1))
  }

  /** The corners may be given in any order: swapping the two corners, only
      the latitudes or only the longitudes gives the same result. */
  lemma RectCornerOrder(db: Db, lat1: real, lon1: real, lat2: real, lon2: real)
    ensures GetOrganizationsInRect(db, lat1, lon1, lat2, lon2) == GetOrganizationsInRect(db, lat2, lon2, lat1, lon1)
    ensures GetOrganizationsInRect(db, lat1, lon1, lat2, lon2) == GetOrganizationsInRect(db, lat2, lon1, lat1, lon2)
    ensures GetOrganizationsInRect(db, lat1, lon1, lat2, lon2) == GetOrganizationsInRect(db, lat1, lon2, lat2, lon1)
  {
  }

  // ---------------------------------------------------------------------
  // Simple lookups
  // ---------------------------------------------------------------------

  /** `get_organizations_in_building(building_id)`. */
  function GetOrganizationsInBuilding(db: Db, buildingId: int): (r: seq<Organization>)
    ensures forall o :: o in r <==> o in db.organizations && o.buildingId == buildingId
    ensures NoDuplicates(r)
  {
    Unique(Filter(db.organizations, (o: Organization) => o.buildingId == buildingId))
  }

  /** With unique organization ids, `unique()` changes nothing: the result is
      the plain `WHERE building_id = ...` selection in table order. */
  lemma BuildingQueryDistinct(db: Db, buildingId: int)
    requires WellFormed(db)
    ensures GetOrganizationsInBuilding(db, buildingId)
            == Filter(db.organizations, (o: Organization) => o.buildingId == buildingId)
  {
    var f := Filter(db.organizations, (o: Organization) => o.buildingId == buildingId);
    FilterDistinct(db.organizations, (o: Organization) => o.buildingId == buildingId);
    UniqueOfDistinct(f);
  }

  /** `get_organization(org_id)`: the first organization with that id, or
      nothing. */
  function GetOrganization(db: Db, orgId: int): (r: Option<Organization>)
    ensures r.None? <==> forall o :: o in db.organizations ==> o.id != orgId
    ensures r.Some? ==> r.value in db.organizations && r.value.id == orgId
  {
    First(db.organizations, (o: Organization) => o.id == orgId)
  }

  /** With unique primary keys the lookup returns the one organization with
      that id. */
  lemma GetOrganizationFinds(db: Db, o: Organization)
    requires WellFormed(db)
    requires o in db.organizations
    ensures GetOrganization(db, o.id) == Some(o)
  {
  }

  /** `search_organizations_by_name(name)`: the organizations whose name
      contains `name` case-insensitively, each once. */
  function SearchOrganizationsByName(db: Db, name: string): (r: seq<Organization>)
    ensures forall o :: o in r <==> o in db.organizations && ILike(o.name, name)
    ensures NoDuplicates(r)
  {
    Unique(Filter(db.organizations, (o: Organization) => ILike(o.name, name)))
  }
}
