/** The domain entities: User (music/domainmodel/user.py), Review
    (music/domainmodel/review.py) and minimal Track, Artist, Album and Genre.
    The last four are modelled minimally here: they carry only what the core
    reads and writes, and the model assumes `__eq__` by id and `add_genre` /
    `add_review` skipping duplicates, as User's own helpers do. */
module DomainModel {
  import opened Wrappers
  import Text
  import Lists

  datatype Artist = Artist(artistId: int, fullName: string)
  datatype Album = Album(albumId: int, title: string)
  datatype Genre = Genre(genreId: int, name: string)

  /** The keys that `__eq__` compares. */
  function ArtistKey(a: Artist): int { a.artistId }
  function GenreKey(g: Genre): int { g.genreId }
  function TrackKey(t: Track): int { t.trackId }

  /** What `Review.__eq__` compares: the track (by id) and the user (by name),
      either of which may be None. */
  function ReviewKey(r: Review): (Option<int>, Option<Option<string>>)
  {
    (if r.track == null then None else Some(r.track.trackId),
     if r.user == null then None else Some(r.user.userName))
  }

  class Track {
    const trackId: int
    const title: string
    var trackUrl: Option<string>
    var trackDuration: Option<int>
    var videoHyperlink: Option<string>
    var artist: Option<Artist>
    var album: Option<Album>
    var genres: seq<Genre>
    var reviews: seq<Review>

    constructor (id: int, title: string)
      ensures trackId == id && this.title == title
      ensures trackUrl == None && trackDuration == None && videoHyperlink == None
      ensures artist == None && album == None && genres == [] && reviews == []
    {
      trackId, this.title := id, title;
      trackUrl, trackDuration, videoHyperlink := None, None, None;
      artist, album, genres, reviews := None, None, [], [];
    }

    /** `Track.add_genre`: a genre already present (by id) is not added again. */
    method AddGenre(g: Genre)
      modifies this`genres
      ensures genres == Lists.AddIfAbsent(old(genres), g, GenreKey)
    {
      if !Lists.Contains(genres, g, GenreKey) {
        genres := genres + [g];
      }
    }

    /** `Track.add_review`: a review already present (same track and user) is
        not added again. */
    method AddReview(r: Review)
      modifies this`reviews
      ensures reviews == Lists.AddIfAbsent(old(reviews), r, ReviewKey)
    {
      if !Lists.Contains(reviews, r, ReviewKey) {
        reviews := reviews + [r];
      }
    }
  }

  /** The user name a User keeps: the lower-cased, stripped string, or None
      when the argument was not a string. */
  function NormalizeName(name: Option<string>): (r: Option<string>)
    ensures r.Some? <==> name.Some?
    ensures r.Some? ==> Text.NoUpper(r.value) && Text.NoEdgeSpace(r.value)
  {
    if name.None? then None else Some(Text.Normalize(name.value))
  }

  /** A stored user name is already in normal form. */
  lemma NormalizeNameIdempotent(name: Option<string>)
    ensures NormalizeName(NormalizeName(name)) == NormalizeName(name)
  {
    if name.Some? { Text.NormalizeIdempotent(name.value); }
  }

  /** The password a User keeps: a string of at least seven characters, else
      the None sentinel (construction does not raise). */
  function CheckPassword(pw: Option<string>): (r: Option<string>)
    ensures r.Some? <==> pw.Some? && |pw.value| >= 7
    ensures r.Some? ==> r == pw
  {
    if pw.Some? && |pw.value| >= 7 then pw else None
  }

  class User {
    const userName: Option<string>
    const password: Option<string>
    var reviews: seq<Review>
    var likedTracks: seq<Track>

    /** `User.__init__`; a None argument stands for a value that is not a string. */
    constructor (name: Option<string>, pw: Option<string>)
      ensures userName == NormalizeName(name)
      ensures password == CheckPassword(pw)
      ensures reviews == [] && likedTracks == []
    {
      userName := NormalizeName(name);
      password := CheckPassword(pw);
      reviews, likedTracks := [], [];
    }

    method AddReview(r: Review)
      modifies this`reviews
      ensures reviews == Lists.AddIfAbsent(old(reviews), r, ReviewKey)
    {
      if !Lists.Contains(reviews, r, ReviewKey) {
        reviews := reviews + [r];
      }
    }

    method RemoveReview(r: Review)
      modifies this`reviews
      ensures reviews == Lists.RemoveFirst(old(reviews), r, ReviewKey)
    {
      if Lists.Contains(reviews, r, ReviewKey) {
        var i := Lists.IndexOf(reviews, r, ReviewKey);
        reviews := reviews[..i] + reviews[i + 1..];
      }
    }

    /** A None argument stands for anything that is not a Track: ignored. */
    method AddLikedTrack(t: Track?)
      modifies this`likedTracks
      ensures likedTracks == if t == null then old(likedTracks) else Lists.AddIfAbsent<Track, int>(old(likedTracks), t, TrackKey)
    {
      if t != null && !Lists.Contains<Track, int>(likedTracks, t, TrackKey) {
        likedTracks := likedTracks + [t];
      }
    }

    method RemoveLikedTrack(t: Track?)
      modifies this`likedTracks
      ensures likedTracks == if t == null then old(likedTracks) else Lists.RemoveFirst<Track, int>(old(likedTracks), t, TrackKey)
    {
      if t != null && Lists.Contains<Track, int>(likedTracks, t, TrackKey) {
        var i := Lists.IndexOf<Track, int>(likedTracks, t, TrackKey);
        likedTracks := likedTracks[..i] + likedTracks[i + 1..];
      }
    }
  }

  /** `User.__eq__`: the user names compare, nothing else. */
  predicate UserEq(a: User, b: User) { a.userName == b.userName }

  /** `User.__lt__`: compares user names; a None name raises TypeError. */
  function UserLess(a: User, b: User): (r: Result<bool>)
    ensures r.Err? <==> a.userName.None? || b.userName.None?
    ensures r.Err? ==> r.error == TypeError
  {
    if a.userName.None? || b.userName.None? then Err(TypeError)
    else Ok(Text.LessEq(a.userName.value, b.userName.value) && a.userName != b.userName)
  }

  /** For named users exactly one of `a < b`, `b < a`, `a == b` holds. */
  lemma UserOrderTrichotomy(a: User, b: User)
    requires a.userName.Some? && b.userName.Some?
    ensures UserEq(a, b) ==> UserLess(a, b) == Ok(false) && UserLess(b, a) == Ok(false)
    ensures !UserEq(a, b) ==> (UserLess(a, b) == Ok(true)) != (UserLess(b, a) == Ok(true))
  {
    var x, y := a.userName.value, b.userName.value;
    Text.LessEqTotal(x, y);
    if Text.LessEq(x, y) && Text.LessEq(y, x) { Text.LessEqAntisymmetric(x, y); }
  }

  predicate ValidRating(r: int) { 1 <= r <= 5 }

  class Review {
    const track: Track?
    const user: User?
    var rating: Option<int>

    /** `Review.__init__` once its rating check has passed; `NewReview` is
        the whole constructor, raising path included. */
    constructor (track: Track?, user: User?, rating: int)
      requires ValidRating(rating)
      ensures this.track == track && this.user == user && this.rating == Some(rating)
    {
      this.track, this.user, this.rating := track, user, Some(rating);
    }

    /** The `rating` setter: an invalid value clears the rating, then raises. */
    method SetRating(newRating: int) returns (res: Outcome)
      modifies this`rating
      ensures ValidRating(newRating) ==> res == Pass && rating == Some(newRating)
      ensures !ValidRating(newRating) ==> res == Fail(ValueError) && rating == None
    {
      if ValidRating(newRating) {
        rating := Some(newRating);
        res := Pass;
      } else {
        rating := None;
        res := Fail(ValueError);
      }
    }
  }

  /** `Review(track, user, rating)`: succeeds exactly for a rating in [1,5],
      otherwise raises ValueError and no review exists. */
  method NewReview(track: Track?, user: User?, rating: int) returns (res: Result<Review>)
    ensures res.Ok? <==> ValidRating(rating)
    ensures res.Err? ==> res.error == ValueError
    ensures res.Ok? ==> fresh(res.value) && res.value.track == track && res.value.user == user
    ensures res.Ok? ==> res.value.rating.Some? && ValidRating(res.value.rating.value)
    ensures res.Ok? ==> res.value.rating == Some(rating)
  {
    if ValidRating(rating) {
      var r := new Review(track, user, rating);
      res := Ok(r);
    } else {
      res := Err(ValueError);
    }
  }

  /** Track `__eq__` as Python applies it to two attributes that may be None. */
  predicate SameTrack(x: Track?, y: Track?)
  {
    (x == null && y == null) || (x != null && y != null && x.trackId == y.trackId)
  }

  predicate SameUser(x: User?, y: User?)
  {
    (x == null && y == null) || (x != null && y != null && UserEq(x, y))
  }

  /** `Review.__eq__`: same track and same user; the rating is ignored. */
  predicate ReviewEq(a: Review, b: Review)
  {
    SameTrack(b.track, a.track) && SameUser(b.user, a.user)
  }

  /** `ReviewKey` equality is `Review.__eq__`, so the list helpers keyed by it
      behave as Python's `in` and `remove` on reviews. */
  lemma ReviewKeyIsEquality(a: Review, b: Review)
    ensures ReviewEq(a, b) <==> ReviewKey(a) == ReviewKey(b)
  {
  }
}
