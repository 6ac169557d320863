/**
 * The database behind the SQLAlchemy session: the two tables as maps from
 * primary key to row, and the next value of each autoincrement sequence.
 * Routes receive it as a parameter, as FastAPI injects the session.
 */
module Database {
  import opened Models

  class Db {
    var users: map<nat, User>
    var resumes: map<nat, Resume>
    var nextUserId: nat
    var nextResumeId: nat

    /**
     * The column constraints of both tables, the column types of every
     * stored resume, and ids below their sequence counters.
     */
    ghost predicate Valid()
      reads this
    {
      && UsersKeyed(users)
      && UniqueEmails(users)
      && ResumesKeyed(resumes)
      && OwnersExist(resumes, users)
      && (forall id | id in resumes :: Storable(resumes[id].analysis))
      && (forall id | id in users :: id < nextUserId)
      && (forall id | id in resumes :: id < nextResumeId)
    }

    /** An empty database. */
    constructor ()
      ensures Valid()
      ensures users == map[] && resumes == map[]
    {
      users := map[];
      resumes := map[];
      nextUserId := 1;
      nextResumeId := 1;
    }
  }
}
