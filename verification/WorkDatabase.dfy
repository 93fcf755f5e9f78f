/**
 One database session: writes land in `db` and reach other sessions only by a commit; a rollback
 forgets them. The first write of a transaction takes the writer reservation, so from there to
 the end of the transaction nobody else commits.
 */
module WorkDatabase {
  import opened WorkTypes

  class Session {
    var committed: Db
    var db: Db

    constructor (start: Db)
      ensures committed == start && db == start
    {
      committed := start;
      db := start;
    }

    method Commit()
      modifies this
      ensures committed == old(db) && db == old(db)
    {
      committed := db;
    }

    method Rollback()
      modifies this
      ensures committed == old(committed) && db == old(committed)
    {
      db := committed;
    }
  }
}
