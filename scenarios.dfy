/** Small activity tables that show the depth bound and the missing
    deduplication of the child-id expansion. */
module Scenarios {
  import opened Wrappers
  import opened Tables
  import opened Repository

  /** The parent chain 1 → 2 → 3 → 4 → 5. */
  const Chain := Db(
    [ Activity(1, "a", None),
      Activity(2, "b", Some(1)),
      Activity(3, "c", Some(2)),
      Activity(4, "d", Some(3)),
      Activity(5, "e", Some(4)) ],
    [], [], {})

  lemma ChainChildren(db: Db)
    requires db == Chain
    ensures ChildIds(db, 1) == [2] && ChildIds(db, 2) == [3]
    ensures ChildIds(db, 3) == [4] && ChildIds(db, 4) == [5]
  {
  }

  /** On any table where 1 → 2 → 3 → 4 are single-child steps, three levels
      down from 1 reach 4 and no further ... */
  lemma SingleChildSteps(db: Db)
    requires ChildIds(db, 1) == [2] && ChildIds(db, 2) == [3] && ChildIds(db, 3) == [4]
    ensures Expand(db, 1, 1, DefaultMaxLevel) == [2, 3, 4]
    ensures Expand(db, 1, 1, 2) == [2, 3]
  {
    ExpandUnfold1(db, 3, 4, 3, 3);
    ExpandUnfold1(db, 2, 3, 2, 3);
    ExpandUnfold1(db, 1, 2, 1, 3);
    ExpandUnfold1(db, 2, 3, 2, 2);
    ExpandUnfold1(db, 1, 2, 1, 2);
  }

  /** ... so on the chain, activity 5, four steps down, is never reached, and
      a depth limit of two stops at 3. */
  lemma ChainDepth(db: Db)
    requires db == Chain
    ensures Expand(db, 1, 1, DefaultMaxLevel) == [2, 3, 4]
    ensures Expand(db, 1, 1, 2) == [2, 3]
  {
    ChainChildren(db);
    SingleChildSteps(db);
  }

  /** An activity that is its own parent. */
  const Loop := Db([Activity(1, "a", Some(1))], [], [], {})

  /** The expansion stops after three levels and lists the activity three
      times, itself included. */
  lemma LoopRepeats(db: Db)
    requires db == Loop
    ensures Expand(db, 1, 1, DefaultMaxLevel) == [1, 1, 1]
  {
    assert ChildIds(db, 1) == [1];
    assert Expand(db, 1, 3, 3) == [1];
    assert Expand(db, 1, 2, 3) == [1, 1];
  }
}
