/**
  The habit routes: create, list, update and delete habits of the signed-in
  user, over one owner-scoped table.
*/
module Habits {
  import opened Http
  import opened OwnedStore

  /** The mutable columns of a habit. The request schema carries exactly these,
      with the same defaults: no description, active. */
  datatype HabitFields = HabitFields(title: string, description: Option<string> := None, isActive: bool := true)

  const HabitNotFound := HttpError(NOT_FOUND, "Habit not found")

  /** POST /habits: a new habit for the caller, with the columns of the request. */
  method CreateHabit(db: Store<HabitFields>, currentUser: nat, habitIn: HabitFields) returns (habit: Row<HabitFields>)
    requires db.Valid()
    modifies db
    ensures db.Valid()
    ensures habit.id !in old(db.rows) && habit.userId == currentUser && habit.fields == habitIn
    ensures db.rows == old(db.rows)[habit.id := habit]
  {
    habit := db.Add(currentUser, habitIn);
  }

  /** GET /habits: the caller's habits, and no one else's. */
  function GetMyHabits(db: Store<HabitFields>, currentUser: nat): (habits: set<Row<HabitFields>>)
    reads db
    requires db.Valid()
    ensures forall h :: h in habits <==> h.id in db.rows && db.rows[h.id] == h && h.userId == currentUser
  {
    Owned(db.State(), currentUser)
  }

  /** PUT /habits/{id}: a habit that is missing or not the caller's is "Habit not
      found" and nothing changes; otherwise title, description and the active flag
      are all replaced and id and owner kept. */
  method UpdateHabit(db: Store<HabitFields>, habitId: int, habitIn: HabitFields, currentUser: nat)
    returns (r: Result<Row<HabitFields>>)
    requires db.Valid()
    modifies db
    ensures db.Valid() && db.nextId == old(db.nextId)
    ensures r.Err? <==> !(habitId in old(db.rows) && old(db.rows)[habitId].userId == currentUser)
    ensures r.Err? ==> r.error == HabitNotFound && db.rows == old(db.rows)
    ensures r.Ok? ==> r.value == Row(habitId, currentUser, habitIn) && db.rows == old(db.rows)[habitId := r.value]
  {
    var row := db.Replace(currentUser, habitId, habitIn);
    if row.None? {
      return Err(HabitNotFound);
    }
    r := Ok(row.value);
  }

  /** DELETE /habits/{id}: a habit that is missing or not the caller's is "Habit
      not found" and nothing changes; otherwise exactly that habit is removed. */
  method DeleteHabit(db: Store<HabitFields>, habitId: int, currentUser: nat) returns (r: Result<()>)
    requires db.Valid()
    modifies db
    ensures db.Valid() && db.nextId == old(db.nextId)
    ensures r.Err? <==> !(habitId in old(db.rows) && old(db.rows)[habitId].userId == currentUser)
    ensures r.Err? ==> r.error == HabitNotFound && db.rows == old(db.rows)
    ensures r.Ok? ==> db.rows == old(db.rows) - {habitId}
  {
    var row := db.Remove(currentUser, habitId);
    if row.None? {
      return Err(HabitNotFound);
    }
    r := Ok(());
  }

  /** A client of the routes: another user's update of a habit is answered
      "Habit not found" and leaves the habit as it was. */
  method TwoUsers(alice: nat, bob: nat)
    requires alice != bob
  {
    var db := new Store<HabitFields>();
    var habit := CreateHabit(db, alice, HabitFields("read"));
    assert habit.fields.isActive && habit.fields.description == None;
    var changed := UpdateHabit(db, habit.id, HabitFields("read", isActive := false), bob);
    assert changed == Err(HabitNotFound);
    assert GetMyHabits(db, alice) == {habit};
    changed := UpdateHabit(db, habit.id, HabitFields("read", isActive := false), alice);
    assert changed.Ok? && !changed.value.fields.isActive;
  }
}
