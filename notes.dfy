/**
  The note routes: create, list, update and delete notes of the signed-in
  user, over one owner-scoped table.
*/
module Notes {
  import opened Http
  import opened OwnedStore

  /** The mutable columns of a note. The request schema carries exactly these,
      with the same default: no content. A note has no status flag. */
  datatype NoteFields = NoteFields(title: string, content: Option<string> := None)

  const NoteNotFound := HttpError(NOT_FOUND, "Note not found")

  /** POST /notes: a new note for the caller, with the columns of the request. */
  method CreateNote(db: Store<NoteFields>, currentUser: nat, noteIn: NoteFields) returns (note: Row<NoteFields>)
    requires db.Valid()
    modifies db
    ensures db.Valid()
    ensures note.id !in old(db.rows) && note.userId == currentUser && note.fields == noteIn
    ensures db.rows == old(db.rows)[note.id := note]
  {
    note := db.Add(currentUser, noteIn);
  }

  /** GET /notes: the caller's notes, and no one else's. */
  function GetMyNotes(db: Store<NoteFields>, currentUser: nat): (notes: set<Row<NoteFields>>)
    reads db
    requires db.Valid()
    ensures forall n :: n in notes <==> n.id in db.rows && db.rows[n.id] == n && n.userId == currentUser
  {
    Owned(db.State(), currentUser)
  }

  /** PUT /notes/{id}: a note that is missing or not the caller's is "Note not
      found" and nothing changes; otherwise title and content are both
      replaced and id and owner kept. */
  method UpdateNote(db: Store<NoteFields>, noteId: int, noteIn: NoteFields, currentUser: nat)
    returns (r: Result<Row<NoteFields>>)
    requires db.Valid()
    modifies db
    ensures db.Valid() && db.nextId == old(db.nextId)
    ensures r.Err? <==> !(noteId in old(db.rows) && old(db.rows)[noteId].userId == currentUser)
    ensures r.Err? ==> r.error == NoteNotFound && db.rows == old(db.rows)
    ensures r.Ok? ==> r.value == Row(noteId, currentUser, noteIn) && db.rows == old(db.rows)[noteId := r.value]
  {
    var row := db.Replace(currentUser, noteId, noteIn);
    if row.None? {
      return Err(NoteNotFound);
    }
    r := Ok(row.value);
  }

  /** DELETE /notes/{id}: a note that is missing or not the caller's is "Note
      not found" and nothing changes; otherwise exactly that note is removed. */
  method DeleteNote(db: Store<NoteFields>, noteId: int, currentUser: nat) returns (r: Result<()>)
    requires db.Valid()
    modifies db
    ensures db.Valid() && db.nextId == old(db.nextId)
    ensures r.Err? <==> !(noteId in old(db.rows) && old(db.rows)[noteId].userId == currentUser)
    ensures r.Err? ==> r.error == NoteNotFound && db.rows == old(db.rows)
    ensures r.Ok? ==> db.rows == old(db.rows) - {noteId}
  {
    var row := db.Remove(currentUser, noteId);
    if row.None? {
      return Err(NoteNotFound);
    }
    r := Ok(());
  }

  /** A client of the routes: a note just created shows up in its owner's
      listing and in no one else's. */
  method NewNoteIsListed(alice: nat, bob: nat)
    requires alice != bob
  {
    var db := new Store<NoteFields>();
    var note := CreateNote(db, alice, NoteFields("groceries", Some("milk")));
    assert note in GetMyNotes(db, alice);
    assert GetMyNotes(db, bob) == {};
  }
}
