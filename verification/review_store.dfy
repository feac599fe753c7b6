/** Storing reviews (`create_review`) and listing them for one game (`get_reviews_for_game`). */
module ReviewStore {
  import opened Wrappers
  import opened Http
  import opened Database
  import TextOrder

  /** The validated body of a review POST. */
  datatype ReviewCreate = ReviewCreate(
    gameTrackId: int,
    name: string,
    title: string,
    description: string,
    images: seq<string>,
    rating: Option<real>,
    overallRating: real,
    valueRating: real,
    adRating: real,
    effortRating: real,
    enjoymentRating: real,
    offerAmount: real,
    comment: string)

  /** The answer to a stored review. */
  datatype Created = Created(id: string, createdAt: string)

  /** Every review is filed under this user: the endpoint takes no credentials. */
  const ZeroUserId := "00000000-0000-0000-0000-000000000000"

  /** The game row a review introduces when its game is not stored yet. */
  function GameOf(req: ReviewCreate): (g: Game)
    ensures g.name == req.name && g.title == req.title && g.description == req.description
    ensures g.images == Join(",", req.images) && g.rating == req.rating
  {
    Game(req.name, req.title, req.description, Join(",", req.images), req.rating)
  }

  /** `create_review`, given the fresh `uuid4` text and the clock's ISO timestamp. The game row
      is inserted only when no game with that id exists; then one review row is appended. If
      the id is already a review's key the insert fails and the transaction is never committed;
      a game id outside SQLite's integer range fails the first query already. */
  function CreateReview(db: Db, req: ReviewCreate, reviewId: string, now: string): (r: Reply<Created>)
    ensures r.result.Ok? <==> FitsInteger(req.gameTrackId) && reviewId !in ReviewIds(db.reviews)
    ensures r.result.Err? ==> r.result.error == ServerError && r.db == db
    ensures r.result.Ok? ==>
              && r.result.value == Created(reviewId, now)
              && |r.db.reviews| == |db.reviews| + 1
              && r.db.reviews[..|db.reviews|] == db.reviews
              && var row := r.db.reviews[|db.reviews|];
                 && row.id == reviewId && row.userId == ZeroUserId && row.gameTrackId == req.gameTrackId
                 && row.overallRating == req.overallRating && row.valueRating == req.valueRating
                 && row.adRating == req.adRating && row.effortRating == req.effortRating
                 && row.enjoymentRating == req.enjoymentRating && row.offerAmount == req.offerAmount
                 && row.comment == req.comment && row.createdAt == now && row.updatedAt.None?
    ensures r.result.Ok? ==>
              && r.db.games.Keys == db.games.Keys + {req.gameTrackId}
              && (forall k :: k in db.games ==> r.db.games[k] == db.games[k])
              && (req.gameTrackId !in db.games ==> r.db.games[req.gameTrackId] == GameOf(req))
    ensures r.db.users == db.users
  {
    if !FitsInteger(req.gameTrackId) || reviewId in ReviewIds(db.reviews) then
      Reply(db, Err(ServerError))
    else
      var games := if req.gameTrackId in db.games then db.games else db.games[req.gameTrackId := GameOf(req)];
      var row := ReviewRow(
        reviewId, ZeroUserId, req.gameTrackId,
        req.overallRating, req.valueRating, req.adRating, req.effortRating, req.enjoymentRating, req.offerAmount,
        req.comment, now, None);
      Reply(Db(games, db.reviews + [row], db.users), Ok(Created(reviewId, now)))
  }

  /** Storing a review keeps the table constraints. */
  lemma CreateReviewKeepsWellFormed(db: Db, req: ReviewCreate, reviewId: string, now: string)
    requires WellFormed(db)
    ensures WellFormed(CreateReview(db, req, reviewId, now).db)
  {
  }

  /** A review as the listing returns it. */
  datatype ReviewOut = ReviewOut(
    overallRating: real,
    valueRating: real,
    adRating: real,
    effortRating: real,
    enjoymentRating: real,
    offerAmount: real,
    comment: string,
    createdAt: string)

  /** The listed columns of a row. */
  function Project(row: ReviewRow): (o: ReviewOut)
    ensures o.overallRating == row.overallRating && o.valueRating == row.valueRating
    ensures o.adRating == row.adRating && o.effortRating == row.effortRating
    ensures o.enjoymentRating == row.enjoymentRating && o.offerAmount == row.offerAmount
    ensures o.comment == row.comment && o.createdAt == row.createdAt
  {
    ReviewOut(row.overallRating, row.valueRating, row.adRating, row.effortRating, row.enjoymentRating,
              row.offerAmount, row.comment, row.createdAt)
  }

  /** The `WHERE game_trackId = ?` part of the query, projected, in table order. */
  function Matching(rows: seq<ReviewRow>, trackId: int): (r: seq<ReviewOut>)
    ensures |r| <= |rows|
    ensures (forall i :: 0 <= i < |rows| ==> rows[i].gameTrackId != trackId) ==> r == []
    ensures (forall i :: 0 <= i < |rows| ==> rows[i].gameTrackId == trackId) ==> |r| == |rows|
    decreases |rows|
  {
    if rows == [] then []
    else (if rows[0].gameTrackId == trackId then [Project(rows[0])] else []) + Matching(rows[1..], trackId)
  }

  /** Newest first: `ORDER BY created_at DESC` on the timestamp text. */
  predicate SortedDesc(s: seq<ReviewOut>) {
    forall i, j :: 0 <= i < j < |s| ==> TextOrder.Le(s[j].createdAt, s[i].createdAt)
  }

  /** Inserts `x` into a newest-first list before the first entry not newer than it. */
  function InsertDesc(x: ReviewOut, s: seq<ReviewOut>): (r: seq<ReviewOut>)
    requires SortedDesc(s)
    ensures SortedDesc(r)
    ensures multiset(r) == multiset(s) + multiset{x}
    decreases |s|
  {
    if s == [] then [x]
    else if TextOrder.Le(s[0].createdAt, x.createdAt) then
      InsertFrontKeepsOrder(x, s);
      [x] + s
    else
      TextOrder.LeTotal(s[0].createdAt, x.createdAt);
      var rest := InsertDesc(x, s[1..]);
      assert s == [s[0]] + s[1..];
      HeadBoundsInsertion(s[0], x, s[1..], rest);
      [s[0]] + rest
  }

  lemma InsertFrontKeepsOrder(x: ReviewOut, s: seq<ReviewOut>)
    requires SortedDesc(s) && |s| > 0 && TextOrder.Le(s[0].createdAt, x.createdAt)
    ensures SortedDesc([x] + s)
  {
    var t := [x] + s;
    forall i, j | 0 <= i < j < |t|
      ensures TextOrder.Le(t[j].createdAt, t[i].createdAt)
    {
      if i == 0 && j > 1 {
        TextOrder.LeTransitive(s[j - 1].createdAt, s[0].createdAt, x.createdAt);
      }
    }
  }

  lemma HeadBoundsInsertion(h: ReviewOut, x: ReviewOut, tail: seq<ReviewOut>, rest: seq<ReviewOut>)
    requires SortedDesc([h] + tail) && SortedDesc(rest)
    requires TextOrder.Le(x.createdAt, h.createdAt)
    requires multiset(rest) == multiset(tail) + multiset{x}
    ensures SortedDesc([h] + rest)
  {
    var t := [h] + rest;
    forall i, j | 0 <= i < j < |t|
      ensures TextOrder.Le(t[j].createdAt, t[i].createdAt)
    {
      var y := rest[j - 1];
      assert t[j] == y;
      if i == 0 {
        assert t[i] == h;
        assert y in multiset(rest);
        if y != x {
          assert y in multiset(tail);
          var k :| 0 <= k < |tail| && tail[k] == y;
          assert ([h] + tail)[k + 1] == y;
          assert ([h] + tail)[0] == h;
          assert TextOrder.Le(y.createdAt, h.createdAt);
        } else {
          assert TextOrder.Le(y.createdAt, h.createdAt);
        }
      } else {
        assert t[i] == rest[i - 1];
        assert TextOrder.Le(y.createdAt, rest[i - 1].createdAt);
      }
    }
  }

  /** Insertion sort into newest-first order. */
  function SortDesc(s: seq<ReviewOut>): (r: seq<ReviewOut>)
    ensures SortedDesc(r)
    ensures multiset(r) == multiset(s)
    decreases |s|
  {
    if s == [] then []
    else
      assert s == [s[0]] + s[1..];
      InsertDesc(s[0], SortDesc(s[1..]))
  }

  /** `get_reviews_for_game`: the reviews of exactly that game, newest first. Rows with equal
      timestamps may come in either order, so the contract fixes the multiset and the order only.
      An id outside SQLite's integer range cannot be bound and the request fails. */
  method GetReviewsForGame(db: Db, trackId: int) returns (r: Result<seq<ReviewOut>, HttpError>)
    ensures r.Err? <==> !FitsInteger(trackId)
    ensures r.Err? ==> r.error == ServerError
    ensures r.Ok? ==> multiset(r.value) == multiset(Matching(db.reviews, trackId))
    ensures r.Ok? ==> SortedDesc(r.value)
  {
    if !FitsInteger(trackId) {
      return Err(ServerError);
    }
    var rows := db.reviews;
    var selected: seq<ReviewOut> := [];
    var i := |rows|;
    while i > 0
      invariant 0 <= i <= |rows|
      invariant selected == Matching(rows[i..], trackId)
    {
      i := i - 1;
      assert rows[i..] == [rows[i]] + rows[i + 1..];
      if rows[i].gameTrackId == trackId {
        selected := [Project(rows[i])] + selected;
      }
    }
    assert rows[0..] == rows;
    r := Ok(SortDesc(selected));
  }

  /** A listed review comes from a row of that game, and every row of that game is listed. */
  lemma {:induction false} MatchingExactlyThatGame(rows: seq<ReviewRow>, trackId: int, o: ReviewOut)
    ensures o in Matching(rows, trackId) <==>
            exists i :: 0 <= i < |rows| && rows[i].gameTrackId == trackId && Project(rows[i]) == o
    decreases |rows|
  {
    if rows != [] {
      MatchingExactlyThatGame(rows[1..], trackId, o);
      if o in Matching(rows[1..], trackId) {
        var i :| 0 <= i < |rows[1..]| && rows[1..][i].gameTrackId == trackId && Project(rows[1..][i]) == o;
        assert rows[i + 1] == rows[1..][i];
      }
      if exists i :: 0 <= i < |rows| && rows[i].gameTrackId == trackId && Project(rows[i]) == o {
        var i :| 0 <= i < |rows| && rows[i].gameTrackId == trackId && Project(rows[i]) == o;
        if i > 0 {
          assert rows[1..][i - 1] == rows[i];
        }
      }
    }
  }

  /** Matching distributes over appending rows. */
  lemma {:induction false} MatchingAppend(rows: seq<ReviewRow>, more: seq<ReviewRow>, trackId: int)
    ensures Matching(rows + more, trackId) == Matching(rows, trackId) + Matching(more, trackId)
    decreases |rows|
  {
    if rows != [] {
      assert (rows + more)[1..] == rows[1..] + more;
      MatchingAppend(rows[1..], more, trackId);
    } else {
      assert rows + more == more;
    }
  }

  /** After a review is stored, its game's listing gains exactly that review and every other
      game's listing is unchanged. */
  lemma CreatedReviewIsListed(db: Db, req: ReviewCreate, reviewId: string, now: string, trackId: int)
    requires CreateReview(db, req, reviewId, now).result.Ok?
    ensures var r := CreateReview(db, req, reviewId, now);
            var added := ReviewOut(req.overallRating, req.valueRating, req.adRating, req.effortRating,
                                   req.enjoymentRating, req.offerAmount, req.comment, now);
            && (trackId == req.gameTrackId ==>
                  multiset(Matching(r.db.reviews, trackId)) == multiset(Matching(db.reviews, trackId)) + multiset{added})
            && (trackId != req.gameTrackId ==> Matching(r.db.reviews, trackId) == Matching(db.reviews, trackId))
  {
    var r := CreateReview(db, req, reviewId, now);
    var row := r.db.reviews[|db.reviews|];
    assert r.db.reviews == db.reviews + [row];
    MatchingAppend(db.reviews, [row], trackId);
    assert [row][1..] == [];
  }

  /** After `erase_all` no game lists any review, and the next review stored for a game
      re-creates its game row. */
  lemma NothingListedAfterErase(db: Db, req: ReviewCreate, reviewId: string, now: string, trackId: int)
    ensures Matching(EraseAll(db).db.reviews, trackId) == []
    ensures FitsInteger(req.gameTrackId) ==>
              CreateReview(EraseAll(db).db, req, reviewId, now).db.games == map[req.gameTrackId := GameOf(req)]
    ensures !FitsInteger(req.gameTrackId) ==>
              CreateReview(EraseAll(db).db, req, reviewId, now) == Reply(EraseAll(db).db, Err(ServerError))
  {
  }
}
