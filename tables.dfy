/** The four tables the repository queries, held in memory. Rows are kept
    in table order, which stands in for the order the database happens to
    return them in. */
module Tables {
  import opened Wrappers

  /** A row of `activities`: `parent_id` is NULL for a root activity. */
  datatype Activity = Activity(id: int, name: string, parentId: Option<int>)

  /** A row of `organizations`. */
  datatype Organization = Organization(id: int, name: string, buildingId: int)

  /** A row of `buildings`; the coordinates are only ever compared. */
  datatype Building = Building(id: int, latitude: real, longitude: real)

  /** The whole database. `links` is the `organization_activity` table of
      (organization id, activity id) pairs; its composite primary key makes
      it a set. */
  datatype Db = Db(
    activities: seq<Activity>,
    organizations: seq<Organization>,
    buildings: seq<Building>,
    links: set<(int, int)>)

  /** Every table's primary key is unique. */
  ghost predicate WellFormed(db: Db) {
    && (forall i, j :: 0 <= i < j < |db.activities| ==> db.activities[i].id != db.activities[j].id)
    && (forall i, j :: 0 <= i < j < |db.organizations| ==> db.organizations[i].id != db.organizations[j].id)
    && (forall i, j :: 0 <= i < j < |db.buildings| ==> db.buildings[i].id != db.buildings[j].id)
  }

  /** `c` is a child of `p`: some activity row has id `c` and parent `p`. */
  ghost predicate IsChild(db: Db, p: int, c: int) {
    exists a :: a in db.activities && a.id == c && a.parentId == Some(p)
  }

  /** Organization `o` is linked to an existing activity whose id is in `ids`:
      the join `organizations ⋈ organization_activity ⋈ activities` with
      `activities.id IN ids` has a row for `o`. */
  ghost predicate LinkedToAny(db: Db, o: Organization, ids: seq<int>) {
    exists a :: a in db.activities && a.id in ids && (o.id, a.id) in db.links
  }
}
