/** The server's SQLite database as three tables of values. */
module Database {
  import opened Wrappers
  import opened Http

  /** A row of `games`, keyed by its `trackId`; the image URLs are stored comma-joined. */
  datatype Game = Game(name: string, title: string, description: string, images: string, rating: Option<real>)

  /** A row of `user_reviews`. */
  datatype ReviewRow = ReviewRow(
    id: string,
    userId: string,
    gameTrackId: int,
    overallRating: real,
    valueRating: real,
    adRating: real,
    effortRating: real,
    enjoymentRating: real,
    offerAmount: real,
    comment: string,
    createdAt: string,
    updatedAt: Option<string>)

  /** A row of `users`, keyed by its unique `username`; `password` holds the password's hash. */
  datatype UserRow = UserRow(id: string, password: string, createdAt: string)

  datatype Db = Db(games: map<int, Game>, reviews: seq<ReviewRow>, users: map<string, UserRow>)

  /** The database after a request, and the request's answer. */
  datatype Reply<T> = Reply(db: Db, result: Result<T, HttpError>)

  /** The primary keys in use in `user_reviews`. */
  function ReviewIds(rows: seq<ReviewRow>): set<string> {
    set row | row in rows :: row.id
  }

  /** The primary keys in use in `users`. */
  function UserIds(users: map<string, UserRow>): set<string> {
    set u | u in users :: users[u].id
  }

  /** The table constraints: review ids are unique, every review refers to a stored game,
      and user ids are unique (usernames are unique by being the keys). */
  predicate WellFormed(db: Db) {
    && (forall i, j :: 0 <= i < j < |db.reviews| ==> db.reviews[i].id != db.reviews[j].id)
    && (forall i :: 0 <= i < |db.reviews| ==> db.reviews[i].gameTrackId in db.games)
    && (forall u, v :: u in db.users && v in db.users && u != v ==> db.users[u].id != db.users[v].id)
  }

  /** Python's `sqlite3` binds an int only within SQLite's 64-bit INTEGER; outside it the
      call raises `OverflowError`, which no endpoint catches. */
  predicate FitsInteger(n: int) {
    -0x8000_0000_0000_0000 <= n < 0x8000_0000_0000_0000
  }

  const ErasedStatus := "all records erased"

  /** `erase_all`: every row of all three tables is deleted. */
  function EraseAll(db: Db): (r: Reply<string>)
    ensures r.db.games == map[] && r.db.reviews == [] && r.db.users == map[]
    ensures WellFormed(r.db)
    ensures r.result == Ok(ErasedStatus)
  {
    Reply(Db(map[], [], map[]), Ok(ErasedStatus))
  }

  /** Python's `sep.join(parts)`: the parts in order with `sep` between neighbours. */
  function Join(sep: string, parts: seq<string>): (r: string)
    ensures parts == [] ==> r == ""
    ensures |parts| == 1 ==> r == parts[0]
    ensures |parts| == 2 ==> r == parts[0] + sep + parts[1]
    ensures |parts| == 3 ==> r == parts[0] + sep + parts[1] + sep + parts[2]
    decreases |parts|
  {
    if parts == [] then ""
    else if |parts| == 1 then parts[0]
    else parts[0] + sep + Join(sep, parts[1..])
  }

  /** Appending a part to a non-empty list appends `sep` and that part to the joined text,
      so `sep` stands between every two neighbours and nowhere else. */
  lemma {:induction false} JoinSnoc(sep: string, parts: seq<string>, last: string)
    requires parts != []
    ensures Join(sep, parts + [last]) == Join(sep, parts) + sep + last
    decreases |parts|
  {
    if |parts| == 1 {
      assert parts + [last] == [parts[0], last];
    } else {
      assert (parts + [last])[1..] == parts[1..] + [last];
      JoinSnoc(sep, parts[1..], last);
    }
  }
}
