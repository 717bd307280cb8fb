/** The seed data of the `add_test_data` migration, and what the queries
    return on it. */
module SeedData {
  import opened Wrappers
  import opened Seqs
  import opened Text
  import opened Tables
  import opened Repository

  /** Level 1: the root activities. */
  const RootActivities := [
    Activity(1, "Еда", None),
    Activity(2, "Автомобили", None),
    Activity(3, "Услуги", None),
    Activity(4, "Строительство", None) ]

  /** Level 2: the subcategories. */
  const SubActivities := [
    Activity(5, "Мясная продукция", Some(1)),
    Activity(6, "Молочная продукция", Some(1)),
    Activity(7, "Овощи и фрукты", Some(1)),
    Activity(8, "Грузовые", Some(2)),
    Activity(9, "Легковые", Some(2)),
    Activity(10, "Запчасти", Some(2)),
    Activity(11, "Ремонт", Some(3)),
    Activity(12, "Обслуживание", Some(3)) ]

  /** Level 3: the specific kinds. */
  const LeafActivities := [
    Activity(13, "Говядина", Some(5)),
    Activity(14, "Свинина", Some(5)),
    Activity(15, "Птица", Some(5)),
    Activity(16, "Двигатель", Some(10)),
    Activity(17, "Тормоза", Some(10)),
    Activity(18, "Ремонт двигателя", Some(11)),
    Activity(19, "Кузовной ремонт", Some(11)) ]

  const Seed := Db(
    RootActivities + SubActivities + LeafActivities,
    [ Organization(1, "ООО \"Рога и Копыта\"", 2),
      Organization(2, "Мясной Двор", 1),
      Organization(3, "Молочные Реки", 1),
      Organization(4, "АвтоГруз", 3),
      Organization(5, "ЛегкоАвто", 3),
      Organization(6, "Фермерские Овощи", 4),
      Organization(7, "ДвигательСервис", 5),
      Organization(8, "Кузовной Центр", 5) ],
    [ Building(1, 55.7558, 37.6173),
      Building(2, 55.7625, 37.6163),
      Building(3, 59.9343, 30.3351),
      Building(4, 55.7964, 49.1088),
      Building(5, 43.5855, 39.7231) ],
    SeedLinks)

  /** The organization-activity links, as (organization id, activity id) pairs. */
  const SeedLinks: set<(int, int)> := {
    (1, 2), (1, 10), (1, 16),
    (2, 5), (2, 13), (2, 14),
    (3, 6),
    (4, 8),
    (5, 9), (5, 17),
    (6, 7),
    (7, 18),
    (8, 19) }

  /** The child query on the seed runs over the three levels in turn. */
  lemma SeedChildIdsSplit(db: Db, pid: int)
    requires db == Seed
    ensures ChildIds(db, pid) ==
      ChildIdsIn(RootActivities, pid) + ChildIdsIn(SubActivities, pid) + ChildIdsIn(LeafActivities, pid)
  {
    ChildIdsInAppend(RootActivities + SubActivities, LeafActivities, pid);
    ChildIdsInAppend(RootActivities, SubActivities, pid);
  }

  /** Each level of the table names only a few parents. */
  lemma SeedRootParents(x: int)
    ensures ChildIdsIn(RootActivities, x) == []
  {
    assert forall a :: a in RootActivities ==> a.parentId == None;
    ChildIdsInNone(RootActivities, x);
  }

  lemma SeedSubParents(x: int)
    requires x != 1 && x != 2 && x != 3
    ensures ChildIdsIn(SubActivities, x) == []
  {
    assert forall a :: a in SubActivities ==> a.parentId == Some(1) || a.parentId == Some(2) || a.parentId == Some(3);
    ChildIdsInNone(SubActivities, x);
  }

  lemma SeedLeafParents(x: int)
    requires x != 5 && x != 10 && x != 11
    ensures ChildIdsIn(LeafActivities, x) == []
  {
    assert forall a :: a in LeafActivities ==> a.parentId == Some(5) || a.parentId == Some(10) || a.parentId == Some(11);
    ChildIdsInNone(LeafActivities, x);
  }

  /** Only activities 1, 2, 3, 5, 10 and 11 have children. */
  lemma SeedChildless(db: Db, x: int)
    requires db == Seed
    requires x != 1 && x != 2 && x != 3 && x != 5 && x != 10 && x != 11
    ensures ChildIds(db, x) == []
  {
    SeedRootParents(x);
    SeedSubParents(x);
    SeedLeafParents(x);
    SeedChildIdsSplit(db, x);
  }

  /** The children of the activities that have some, in table order. */
  lemma SeedChildIdsFood(db: Db) requires db == Seed ensures ChildIds(db, 1) == [5, 6, 7] { SeedChildIdsSplit(db, 1); }
  lemma SeedChildIdsCars(db: Db) requires db == Seed ensures ChildIds(db, 2) == [8, 9, 10] { SeedChildIdsSplit(db, 2); }
  lemma SeedChildIdsServices(db: Db) requires db == Seed ensures ChildIds(db, 3) == [11, 12] { SeedChildIdsSplit(db, 3); }
  lemma SeedChildIdsMeat(db: Db) requires db == Seed ensures ChildIds(db, 5) == [13, 14, 15] { SeedChildIdsSplit(db, 5); }
  lemma SeedChildIdsParts(db: Db) requires db == Seed ensures ChildIds(db, 10) == [16, 17] { SeedChildIdsSplit(db, 10); }
  lemma SeedChildIdsRepair(db: Db) requires db == Seed ensures ChildIds(db, 11) == [18, 19] { SeedChildIdsSplit(db, 11); }

  /** Expansions of the seed's subcategories, then of its roots. */
  lemma SeedExpandMeat(db: Db)
    requires db == Seed
    ensures Expand(db, 5, 2, DefaultMaxLevel) == [13, 14, 15]
  {
    SeedChildIdsMeat(db);
    SeedChildless(db, 13);
    SeedChildless(db, 14);
    SeedChildless(db, 15);
    ExpandUnfold3(db, 5, 13, 14, 15, 2, 3);
  }

  lemma SeedExpandParts(db: Db)
    requires db == Seed
    ensures Expand(db, 10, 2, DefaultMaxLevel) == [16, 17]
  {
    SeedChildIdsParts(db);
    SeedChildless(db, 16);
    SeedChildless(db, 17);
    ExpandUnfold2(db, 10, 16, 17, 2, 3);
  }

  lemma SeedExpandRepair(db: Db)
    requires db == Seed
    ensures Expand(db, 11, 2, DefaultMaxLevel) == [18, 19]
  {
    SeedChildIdsRepair(db);
    SeedChildless(db, 18);
    SeedChildless(db, 19);
    ExpandUnfold2(db, 11, 18, 19, 2, 3);
  }

  lemma SeedExpandFood(db: Db)
    requires db == Seed
    ensures Expand(db, 1, 1, DefaultMaxLevel) == [5, 6, 7, 13, 14, 15]
  {
    SeedChildIdsFood(db);
    SeedExpandMeat(db);
    SeedChildless(db, 6);
    SeedChildless(db, 7);
    ExpandUnfold3(db, 1, 5, 6, 7, 1, 3);
  }

  lemma SeedExpandCars(db: Db)
    requires db == Seed
    ensures Expand(db, 2, 1, DefaultMaxLevel) == [8, 9, 10, 16, 17]
  {
    SeedChildIdsCars(db);
    SeedExpandParts(db);
    SeedChildless(db, 8);
    SeedChildless(db, 9);
    ExpandUnfold3(db, 2, 8, 9, 10, 1, 3);
  }

  lemma SeedExpandServices(db: Db)
    requires db == Seed
    ensures Expand(db, 3, 1, DefaultMaxLevel) == [11, 12, 18, 19]
  {
    SeedChildIdsServices(db);
    SeedExpandRepair(db);
    SeedChildless(db, 12);
    ExpandUnfold2(db, 3, 11, 12, 1, 3);
  }

  /** The organizations linked to the activities under each root. */
  lemma SeedFoodLinks(oid: int, x: int)
    requires (oid, x) in SeedLinks && x in [1, 5, 6, 7, 13, 14, 15]
    ensures oid in {2, 3, 6}
  {
  }

  lemma SeedCarLinks(oid: int, x: int)
    requires (oid, x) in SeedLinks && x in [2, 8, 9, 10, 16, 17]
    ensures oid in {1, 4, 5}
  {
  }

  lemma SeedMeatLinks(oid: int, x: int)
    requires (oid, x) in SeedLinks && x in [13, 14, 15]
    ensures oid == 2
  {
  }

  lemma SeedServiceLinks(oid: int, x: int)
    requires (oid, x) in SeedLinks && x in [3, 11, 12, 18, 19]
    ensures oid in {7, 8}
  {
  }

  /** Every activity id from 1 to 19 is in the table. */
  lemma SeedActivityPresent(db: Db, x: int)
    requires db == Seed && 1 <= x <= 19
    ensures exists a :: a in db.activities && a.id == x
  {
    var i := x - 1;
    assert db.activities[i].id == x;
  }

  /** The organizations of activity 1 ("Еда") include the meat, dairy and vegetable sellers ... */
  lemma SeedByFoodFinds(db: Db, o: Organization)
    requires db == Seed
    requires o in db.organizations && o.id in {2, 3, 6}
    ensures o in OrganizationsByActivity(db, 1)
  {
    SeedExpandFood(db);
    var x := if o.id == 2 then 5 else if o.id == 3 then 6 else 7;
    SeedActivityPresent(db, x);
    var a :| a in db.activities && a.id == x;
    ExpandMembership(db, 1, 1, DefaultMaxLevel, x);
  }

  /** ... and nothing else. */
  lemma SeedByFoodOnly(db: Db, o: Organization)
    requires db == Seed
    requires o in OrganizationsByActivity(db, 1)
    ensures o.id in {2, 3, 6}
  {
    SeedExpandFood(db);
    var a :| a in db.activities && (o.id, a.id) in db.links &&
             (a.id == 1 || Descendant(db, 1, a.id, DefaultMaxLevel));
    ExpandMembership(db, 1, 1, DefaultMaxLevel, a.id);
    SeedFoodLinks(o.id, a.id);
  }

  /** The organizations of activity 2 ("Автомобили") include the freight, car and parts sellers ... */
  lemma SeedByCarsFinds(db: Db, o: Organization)
    requires db == Seed
    requires o in db.organizations && o.id in {1, 4, 5}
    ensures o in OrganizationsByActivity(db, 2)
  {
    SeedExpandCars(db);
    var x := if o.id == 1 then 10 else if o.id == 4 then 8 else 9;
    SeedActivityPresent(db, x);
    var a :| a in db.activities && a.id == x;
    ExpandMembership(db, 2, 1, DefaultMaxLevel, x);
  }

  /** ... and nothing else. */
  lemma SeedByCarsOnly(db: Db, o: Organization)
    requires db == Seed
    requires o in OrganizationsByActivity(db, 2)
    ensures o.id in {1, 4, 5}
  {
    SeedExpandCars(db);
    var a :| a in db.activities && (o.id, a.id) in db.links &&
             (a.id == 2 || Descendant(db, 2, a.id, DefaultMaxLevel));
    ExpandMembership(db, 2, 1, DefaultMaxLevel, a.id);
    SeedCarLinks(o.id, a.id);
  }

  /** The organizations of activity 3 ("Услуги") include the two repair shops, through the
      activities two levels down ... */
  lemma SeedByServicesFinds(db: Db, o: Organization)
    requires db == Seed
    requires o in db.organizations && o.id in {7, 8}
    ensures o in OrganizationsByActivity(db, 3)
  {
    SeedExpandServices(db);
    var x := if o.id == 7 then 18 else 19;
    SeedActivityPresent(db, x);
    var a :| a in db.activities && a.id == x;
    ExpandMembership(db, 3, 1, DefaultMaxLevel, x);
  }

  /** ... and nothing else. */
  lemma SeedByServicesOnly(db: Db, o: Organization)
    requires db == Seed
    requires o in OrganizationsByActivity(db, 3)
    ensures o.id in {7, 8}
  {
    SeedExpandServices(db);
    var a :| a in db.activities && (o.id, a.id) in db.links &&
             (a.id == 3 || Descendant(db, 3, a.id, DefaultMaxLevel));
    ExpandMembership(db, 3, 1, DefaultMaxLevel, a.id);
    SeedServiceLinks(o.id, a.id);
  }

  /** The first activity whose name contains "Мясн" is "Мясная продукция":
      none of the four roots before it has a "я" in its name. */
  lemma SeedRootNoMeat(db: Db, j: int)
    requires db == Seed && 0 <= j < 4
    ensures !ILike(db.activities[j].name, "Мясн")
  {
    ILikeMissingLetter(db.activities[j].name, "Мясн", 1);
  }

  lemma SeedMeatMatches(db: Db)
    requires db == Seed
    ensures ILike(db.activities[4].name, "Мясн")
  {
    ILikeSubstring(db.activities[4].name, "Мясн", 0);
  }

  lemma SeedFindsMeat(db: Db)
    requires db == Seed
    ensures FindActivityByName(db, "Мясн") == Some(db.activities[4])
  {
    forall j | 0 <= j < 4 ensures !ILike(db.activities[j].name, "Мясн") {
      SeedRootNoMeat(db, j);
    }
    SeedMeatMatches(db);
    FindActivityByNameAt(db, "Мясн", 4);
  }

  /** The name search expands the matched activity from level 1. */
  lemma SeedMeatDescendants(db: Db)
    requires db == Seed
    ensures Expand(db, 5, 1, DefaultMaxLevel) == [13, 14, 15]
  {
    SeedChildIdsMeat(db);
    SeedChildless(db, 13);
    SeedChildless(db, 14);
    SeedChildless(db, 15);
    ExpandUnfold3(db, 5, 13, 14, 15, 1, 3);
  }

  /** Searching by the name "Мясн" finds "Мясной Двор" through beef and pork ... */
  lemma SeedSearchMeatFinds(db: Db, o: Organization)
    requires db == Seed
    requires o in db.organizations && o.id == 2
    ensures o in OrganizationsByActivityName(db, "Мясн")
  {
    SeedFindsMeat(db);
    SeedMeatDescendants(db);
    SeedActivityPresent(db, 13);
    var a :| a in db.activities && a.id == 13;
    ExpandMembership(db, 5, 1, DefaultMaxLevel, 13);
  }

  /** ... and nothing else. */
  lemma SeedSearchMeatOnly(db: Db, o: Organization)
    requires db == Seed
    requires o in OrganizationsByActivityName(db, "Мясн")
    ensures o.id == 2
  {
    SeedFindsMeat(db);
    SeedMeatDescendants(db);
    var a :| a in db.activities && (o.id, a.id) in db.links &&
             Descendant(db, 5, a.id, DefaultMaxLevel);
    ExpandMembership(db, 5, 1, DefaultMaxLevel, a.id);
    SeedMeatLinks(o.id, a.id);
  }

  /** The rectangle around the centre of Moscow holds the first two buildings
      and no other. */
  lemma SeedRectCentre(db: Db, b: Building)
    requires db == Seed
    ensures b in GetOrganizationsInRect(db, 55.75, 37.61, 55.77, 37.62) <==>
            b in db.buildings && b.id in {1, 2}
  {
  }

  /** Building 1 houses "Мясной Двор" and "Молочные Реки". */
  lemma SeedOrganizationsInBuildingOne(db: Db, o: Organization)
    requires db == Seed && o in db.organizations
    ensures o.buildingId == 1 <==> o.id in {2, 3}
  {
  }

  lemma SeedBuildingOne(db: Db, o: Organization)
    requires db == Seed
    ensures o in GetOrganizationsInBuilding(db, 1) <==> o in db.organizations && o.id in {2, 3}
  {
    if o in db.organizations {
      SeedOrganizationsInBuildingOne(db, o);
    }
  }

  /** Looking up organization 4 finds "АвтоГруз"; there is no organization 9. */
  lemma SeedLookupFinds(db: Db)
    requires db == Seed
    ensures GetOrganization(db, 4) == Some(db.organizations[3])
  {
    var r := GetOrganization(db, 4);
    assert r.value in db.organizations;
  }

  lemma SeedLookupMisses(db: Db)
    requires db == Seed
    ensures GetOrganization(db, 9) == None
  {
    assert forall o :: o in db.organizations ==> o.id <= 8;
  }
}
