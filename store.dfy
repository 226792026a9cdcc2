/** The bot's SQLite tables (organizations, users, updates, visits) as an in-memory store,
    and the image and audio files it keeps on disk. */
module Store {
  import opened PyStr

  type UserId = int
  type Path = string

  /** A row of the users table; the user_id column is the key of Database.users. */
  datatype UserRow = UserRow(
    username: string,
    firstName: string,
    surname: string,
    org: string,
    executive: bool,
    admin: bool)

  /** A row of the updates table; the AUTOINCREMENT id is the row's position in Database.updates. */
  datatype UpdateRow = UpdateRow(
    userId: UserId,
    username: Option<string>,
    organization: string,
    originalText: string,
    structuredText: string,
    imagePath: Option<Path>,
    timestamp: nat)

  /** A row of the visits table. */
  datatype Visit = Visit(userId: UserId, visitTime: nat)

  /** Timestamps strictly increase along the table. */
  ghost predicate Chronological(rows: seq<UpdateRow>) {
    forall i, j :: 0 <= i < j < |rows| ==> rows[i].timestamp < rows[j].timestamp
  }

  /** The database file. The wall clock is a counter that every timestamped insert advances. */
  class Database {
    var organizations: set<string>
    var users: map<UserId, UserRow>
    var updates: seq<UpdateRow>
    var visits: seq<Visit>
    var clock: nat

    ghost predicate Valid()
      reads this
    {
      && Chronological(updates)
      && (forall i :: 0 <= i < |updates| ==> updates[i].timestamp < clock)
    }

    /** init_db on an empty file. */
    constructor ()
      ensures Valid()
      ensures organizations == {} && users == map[] && updates == [] && visits == []
    {
      organizations, users, updates, visits, clock := {}, map[], [], [], 0;
    }
  }

  /** The working directory: the paths of the files that exist (os.path.exists). */
  class Disk {
    var files: set<Path>

    constructor (files: set<Path>)
      ensures this.files == files
    {
      this.files := files;
    }
  }

  /** SELECT ... FROM users WHERE user_id = uid: the row, or None. */
  function LookupUser(users: map<UserId, UserRow>, uid: UserId): (r: Option<UserRow>)
    ensures r.Some? <==> uid in users
    ensures r.Some? ==> r.value == users[uid]
  {
    if uid in users then Some(users[uid]) else None
  }

  /** The rows written by uid, in table order. */
  function ByAuthor(rows: seq<UpdateRow>, uid: UserId): (r: seq<UpdateRow>)
    ensures |r| <= |rows|
    ensures forall x :: x in r <==> x in rows && x.userId == uid
  {
    if rows == [] then []
    else
      var last := rows[|rows| - 1];
      var init := ByAuthor(rows[..|rows| - 1], uid);
      assert rows == rows[..|rows| - 1] + [last];
      if last.userId == uid then init + [last] else init
  }

  /** DELETE FROM updates WHERE user_id = uid: the rows left, in table order. */
  function WithoutAuthor(rows: seq<UpdateRow>, uid: UserId): (r: seq<UpdateRow>)
    ensures |r| <= |rows|
    ensures forall x :: x in r <==> x in rows && x.userId != uid
  {
    if rows == [] then []
    else
      var last := rows[|rows| - 1];
      var init := WithoutAuthor(rows[..|rows| - 1], uid);
      assert rows == rows[..|rows| - 1] + [last];
      if last.userId != uid then init + [last] else init
  }

  /** Deleting uid's updates leaves every other author's updates exactly as they were, and none of uid's. */
  lemma {:induction false} WithoutAuthorKeepsOthers(rows: seq<UpdateRow>, uid: UserId, other: UserId)
    ensures ByAuthor(WithoutAuthor(rows, uid), other) == if other == uid then [] else ByAuthor(rows, other)
  {
    if rows != [] {
      var init := rows[..|rows| - 1];
      var last := rows[|rows| - 1];
      WithoutAuthorKeepsOthers(init, uid, other);
      var w := WithoutAuthor(init, uid);
      if last.userId != uid {
        ByAuthorAppend(w, last, other);
      }
    }
  }

  lemma ByAuthorAppend(rows: seq<UpdateRow>, x: UpdateRow, uid: UserId)
    ensures ByAuthor(rows + [x], uid) == if x.userId == uid then ByAuthor(rows, uid) + [x] else ByAuthor(rows, uid)
  {
    assert (rows + [x])[..|rows + [x]| - 1] == rows;
  }

  /** Deleting some rows keeps the survivors in timestamp order. */
  lemma {:induction false} WithoutAuthorChronological(rows: seq<UpdateRow>, uid: UserId, bound: nat)
    requires Chronological(rows)
    requires forall i :: 0 <= i < |rows| ==> rows[i].timestamp < bound
    ensures Chronological(WithoutAuthor(rows, uid))
    ensures forall i :: 0 <= i < |WithoutAuthor(rows, uid)| ==> WithoutAuthor(rows, uid)[i].timestamp < bound
  {
    if rows != [] {
      var init := rows[..|rows| - 1];
      var last := rows[|rows| - 1];
      WithoutAuthorChronological(init, uid, last.timestamp);
      var w := WithoutAuthor(init, uid);
      if last.userId != uid {
        assert WithoutAuthor(rows, uid) == w + [last];
      }
    }
  }

  /** Appending a row stamped with the current clock keeps the table in timestamp order, and the
      advanced clock is again ahead of every row. */
  lemma AppendChronological(rows: seq<UpdateRow>, row: UpdateRow, clock: nat)
    requires Chronological(rows) && forall i :: 0 <= i < |rows| ==> rows[i].timestamp < clock
    requires row.timestamp == clock
    ensures Chronological(rows + [row])
    ensures forall i :: 0 <= i < |rows + [row]| ==> (rows + [row])[i].timestamp < clock + 1
  {
  }
}
