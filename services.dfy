/** The service layer (music/utilities/services.py): registering users and
    reviews against a repository, the dictionaries the pages show, and the
    sorted name lists the navigation is built from. Flask's `url_for`, the
    password hash and the random generator are outside this model; the hash
    arrives as a parameter and the random pick is a nondeterministic choice. */
module Services {
  import opened Wrappers
  import opened DomainModel
  import Text
  import Lists
  import Repository
  import Memory

  /** The video ids `get_random_video` picks from. */
  const Videos: seq<string> := [
    "-zV-AxfysJA", "nDdZfAAvcC8", "t20wYezWfDw", "lvY8T9y6JPk", "yGNkjDvsHDU",
    "P96OSLHNPUY", "3u43yUcB8uY", "dxMP7U_DrtE", "U0YhKshmj9s", "TsAidqXIfos"
  ]

  /** `get_random_video`: one of the ten fixed ids, which one is not fixed. */
  method GetRandomVideo() returns (v: string)
    ensures v in Videos
    ensures |v| == 11
  {
    assert Videos[0] in Videos;
    v :| v in Videos;
  }

  /** `add_user`: NameNotUniqueException when the repository already answers
      `get_user(name)`; otherwise exactly one new user, built from the name and
      the password hash, is appended. */
  method AddUser(name: string, passwordHash: string, repo: Memory.MemoryRepository) returns (res: Outcome)
    modifies repo`users
    ensures old(repo.GetUser(name)).Some? ==> res == Fail(NameNotUniqueException) && repo.users == old(repo.users)
    ensures old(repo.GetUser(name)).None? ==>
              res == Pass && |repo.users| == |old(repo.users)| + 1 && repo.users[..|old(repo.users)|] == old(repo.users)
    ensures old(repo.GetUser(name)).None? ==>
              var u := repo.users[|repo.users| - 1];
              fresh(u) && u.userName == NormalizeName(Some(name)) && u.password == CheckPassword(Some(passwordHash))
              && u.reviews == [] && u.likedTracks == []
  {
    if repo.GetUser(name).Some? {
      return Fail(NameNotUniqueException);
    }
    var user := new User(Some(name), Some(passwordHash));
    repo.AddUser(user);
    res := Pass;
  }

  /** No two users carry the same user name. */
  ghost predicate UniqueNames(users: seq<User>)
  {
    forall i, j :: 0 <= i < j < |users| ==> users[i].userName != users[j].userName
  }

  /** `add_user` looks up the name as given but stores its normal form, so
      with "dave" registered, "Dave" is let through and a second "dave" is
      stored. */
  lemma AddUserAdmitsDuplicate(users: seq<User>)
    requires |users| == 1 && users[0].userName == Some("dave")
    ensures Memory.FirstUserNamed(users, "Dave") == |users|
    ensures NormalizeName(Some("Dave")) == users[0].userName
  {
    var lowered := Text.Lower("Dave");
    assert lowered == "dave" by {
      assert Text.LowerChar('D') == 'd';
      assert forall i :: 1 <= i < 4 ==> Text.LowerChar("Dave"[i]) == "dave"[i];
    }
    assert Text.LeadingSpaces("dave") == 0;
    assert Text.TrailingSpaces("dave") == 0;
    assert "dave"[0..4] == "dave";
  }

  /** `add_user` with the uniqueness check made on the name as it will be
      stored: a repository whose user names are distinct keeps them so. */
  method AddUserNormalized(name: string, passwordHash: string, repo: Memory.MemoryRepository) returns (res: Outcome)
    modifies repo`users
    ensures old(repo.GetUser(Text.Normalize(name))).Some? ==> res == Fail(NameNotUniqueException) && repo.users == old(repo.users)
    ensures old(repo.GetUser(Text.Normalize(name))).None? ==>
              res == Pass && |repo.users| == |old(repo.users)| + 1 && repo.users[..|old(repo.users)|] == old(repo.users)
              && repo.users[|repo.users| - 1].userName == Some(Text.Normalize(name))
    ensures UniqueNames(old(repo.users)) ==> UniqueNames(repo.users)
  {
    if repo.GetUser(Text.Normalize(name)).Some? {
      return Fail(NameNotUniqueException);
    }
    var user := new User(Some(name), Some(passwordHash));
    repo.AddUser(user);
    res := Pass;
  }

  datatype UserDict = UserDict(userName: Option<string>, password: Option<string>)

  /** `user_to_dict`. */
  function UserToDict(u: User): (d: UserDict)
    ensures d.userName == u.userName && d.password == u.password
  {
    UserDict(u.userName, u.password)
  }

  /** `get_user`: UnknownUserException when no user has the name, else that
      user's dictionary. */
  function GetUser(name: string, repo: Memory.MemoryRepository): (r: Result<UserDict>)
    reads repo
    ensures r.Err? <==> forall u :: u in repo.users ==> u.userName != Some(name)
    ensures r.Err? ==> r.error == UnknownUserException
    ensures r.Ok? ==> r.value.userName == Some(name) && exists u :: u in repo.users && UserToDict(u) == r.value
  {
    match repo.GetUser(name)
    case None => Err(UnknownUserException)
    case Some(u) => Ok(UserToDict(u))
  }

  /** `make_review`: builds the review (ValueError for a rating outside
      [1,5], and then nothing changes) and links it from the user and the
      track, so the repository's link check passes. */
  method MakeReview(track: Track, user: User, rating: int) returns (res: Result<Review>)
    modifies track`reviews, user`reviews
    ensures res.Err? <==> !ValidRating(rating)
    ensures res.Err? ==> res.error == ValueError && track.reviews == old(track.reviews) && user.reviews == old(user.reviews)
    ensures res.Ok? ==> fresh(res.value) && res.value.track == track && res.value.user == user && res.value.rating == Some(rating)
    ensures res.Ok? ==> user.reviews == Lists.AddIfAbsent(old(user.reviews), res.value, ReviewKey)
    ensures res.Ok? ==> track.reviews == Lists.AddIfAbsent(old(track.reviews), res.value, ReviewKey)
    ensures res.Ok? ==> Repository.CheckReviewLinks(res.value) == Pass
  {
    res := NewReview(track, user, rating);
    if res.Ok? {
      user.AddReview(res.value);
      track.AddReview(res.value);
    }
  }

  /** `add_review`: NonExistentTrackException for an unknown track is checked
      before UnknownUserException for an unknown user; a bad rating is
      swallowed and changes nothing; otherwise the linked review is stored. */
  method AddReview(trackId: int, rating: int, userName: string, repo: Memory.MemoryRepository) returns (res: Outcome)
    modifies repo`reviews, repo.trackIndex.Values`reviews, repo.users`reviews
    ensures old(repo.GetTrack(trackId)).None? ==> res == Fail(NonExistentTrackException)
    ensures old(repo.GetTrack(trackId)).Some? && old(repo.GetUser(userName)).None? ==> res == Fail(UnknownUserException)
    ensures old(repo.GetTrack(trackId)).Some? && old(repo.GetUser(userName)).Some? ==> res == Pass
    ensures res.Fail? || !ValidRating(rating) ==> repo.reviews == old(repo.reviews)
    ensures res.Pass? && ValidRating(rating) ==>
              |repo.reviews| == |old(repo.reviews)| + 1 && repo.reviews[..|old(repo.reviews)|] == old(repo.reviews)
    ensures res.Pass? && ValidRating(rating) ==>
              var r := repo.reviews[|repo.reviews| - 1];
              fresh(r) && r.rating == Some(rating)
              && r.track == old(repo.GetTrack(trackId)).value && r.user == old(repo.GetUser(userName)).value
              && Repository.CheckReviewLinks(r) == Pass
    ensures res.Pass? && ValidRating(rating) ==>
              var r, u, t := repo.reviews[|repo.reviews| - 1], old(repo.GetUser(userName)).value, old(repo.GetTrack(trackId)).value;
              u.reviews == Lists.AddIfAbsent(old(u.reviews), r, ReviewKey) && t.reviews == Lists.AddIfAbsent(old(t.reviews), r, ReviewKey)
    ensures forall u :: u in repo.users && (res.Fail? || !ValidRating(rating) || Some(u) != old(repo.GetUser(userName))) ==>
              u.reviews == old(u.reviews)
    ensures forall t :: t in old(repo.trackIndex.Values) && (res.Fail? || !ValidRating(rating) || Some(t) != old(repo.GetTrack(trackId))) ==>
              t.reviews == old(t.reviews)
  {
    var track := repo.GetTrack(trackId);
    if track.None? {
      return Fail(NonExistentTrackException);
    }
    var user := repo.GetUser(userName);
    if user.None? {
      return Fail(UnknownUserException);
    }
    res := Pass;
    var review := MakeReview(track.value, user.value, rating);
    if review.Ok? {
      var stored := repo.AddReview(review.value);
    }
  }

  /** Python's `int()` of a quotient: truncation toward zero. */
  function TruncDiv(a: int, b: int): (q: int)
    requires b > 0
    ensures a >= 0 ==> q * b <= a < (q + 1) * b
    ensures a < 0 ==> (q - 1) * b < a <= q * b
  {
    if a >= 0 then a / b else -((-a) / b)
  }

  function Sum(xs: seq<int>): int
  {
    if |xs| == 0 then 0 else Sum(xs[..|xs| - 1]) + xs[|xs| - 1]
  }

  /** The rating `track_to_dict` shows: 0 without reviews, else the mean of
      the ratings cut to an integer. */
  function MeanRating(ratings: seq<int>): int
  {
    if |ratings| == 0 then 0 else TruncDiv(Sum(ratings), |ratings|)
  }

  lemma {:induction false} SumBounds(xs: seq<int>, lo: int, hi: int)
    requires forall i :: 0 <= i < |xs| ==> lo <= xs[i] <= hi
    ensures lo * |xs| <= Sum(xs) <= hi * |xs|
    decreases |xs|
  {
    if |xs| > 0 { SumBounds(xs[..|xs| - 1], lo, hi); }
  }

  /** With every rating in [1,5] the shown rating is in [1,5] too. */
  lemma MeanRatingInRange(ratings: seq<int>)
    requires |ratings| > 0
    requires forall i :: 0 <= i < |ratings| ==> ValidRating(ratings[i])
    ensures 1 <= MeanRating(ratings) <= 5
  {
    SumBounds(ratings, 1, 5);
    var n, s := |ratings|, Sum(ratings);
    var q := TruncDiv(s, n);
    assert q * n <= s < (q + 1) * n;
    MulLtCancel(1, q + 1, n);
    MulLeCancel(q, 5, n);
  }

  lemma MulLtCancel(a: int, b: int, n: int)
    requires n > 0 && a * n < b * n
    ensures a < b
  {
  }

  lemma MulLeCancel(a: int, b: int, n: int)
    requires n > 0 && a * n <= b * n
    ensures a <= b
  {
  }

  /** The ratings of a track's reviews; None when one of them has had its
      rating cleared, where Python's `sum` raises TypeError. */
  function Ratings(reviews: seq<Review>): (r: Option<seq<int>>)
    reads reviews
    ensures r.Some? <==> forall i :: 0 <= i < |reviews| ==> reviews[i].rating.Some?
    ensures r.Some? ==> |r.value| == |reviews| && forall i :: 0 <= i < |reviews| ==> Some(r.value[i]) == reviews[i].rating
  {
    if exists i :: 0 <= i < |reviews| && reviews[i].rating.None? then None
    else Some(seq(|reviews|, i reads reviews requires 0 <= i < |reviews| && reviews[i].rating.Some? => reviews[i].rating.value))
  }

  datatype TrackDict = TrackDict(
    trackId: int, title: string, artist: Option<Artist>, album: Option<Album>,
    genres: seq<Genre>, rating: int, video: Option<string>)

  /** `track_to_dict`: the track's fields and its integer mean rating, or
      TypeError when a review has no rating. */
  function TrackToDict(t: Track): (r: Result<TrackDict>)
    reads t, t.reviews
    ensures r.Err? <==> Ratings(t.reviews).None?
    ensures r.Err? ==> r.error == TypeError
    ensures r.Ok? ==> r.value.trackId == t.trackId && r.value.title == t.title && r.value.genres == t.genres
    ensures r.Ok? ==> r.value.artist == t.artist && r.value.album == t.album && r.value.video == t.videoHyperlink
    ensures r.Ok? && |t.reviews| == 0 ==> r.value.rating == 0
    ensures (r.Ok? && |t.reviews| > 0 && forall i :: 0 <= i < |t.reviews| ==> ValidRating(t.reviews[i].rating.value))
              ==> 1 <= r.value.rating <= 5
  {
    match Ratings(t.reviews)
    case None => Err(TypeError)
    case Some(rs) =>
      assert forall i :: 0 <= i < |t.reviews| ==> t.reviews[i].rating.Some? ==> rs[i] == t.reviews[i].rating.value;
      assert |rs| > 0 && (forall i :: 0 <= i < |rs| ==> ValidRating(rs[i])) ==> 1 <= MeanRating(rs) <= 5 by {
        if |rs| > 0 && forall i :: 0 <= i < |rs| ==> ValidRating(rs[i]) { MeanRatingInRange(rs); }
      }
      Ok(TrackDict(t.trackId, t.title, t.artist, t.album, t.genres, MeanRating(rs), t.videoHyperlink))
  }

  /** Artist and album names as their links carry them: spaces become `_`. */
  function ArtistLinkName(name: string): string { Text.Replace(name, ' ', '_') }

  /** Genre names as their links carry them: spaces become `-`. */
  function GenreLinkName(name: string): string { Text.Replace(name, ' ', '-') }

  /** The keys of the dict the name lists build: each name once, in the order
      of first appearance, as `dict.update` inserts them. */
  method NameIndex(names: seq<string>) returns (keys: seq<string>)
    ensures forall n :: n in keys <==> n in names
    ensures forall i, j :: 0 <= i < j < |keys| ==> keys[i] != keys[j]
    ensures Text.Sorted(names) ==> Text.Sorted(keys)
  {
    keys := [];
    var i := 0;
    while i < |names|
      invariant 0 <= i <= |names|
      invariant forall n :: n in keys <==> n in names[..i]
      invariant forall a, b :: 0 <= a < b < |keys| ==> keys[a] != keys[b]
      invariant Text.Sorted(names) ==> Text.Sorted(keys)
    {
      var name := names[i];
      if name !in keys {
        if Text.Sorted(names) {
          forall a | 0 <= a < |keys| ensures Text.LessEq(keys[a], name) {
            assert keys[a] in names[..i];
            var m :| 0 <= m < i && names[m] == keys[a];
          }
        }
        keys := keys + [name];
      }
      assert names[..i + 1] == names[..i] + [name];
      i := i + 1;
    }
    assert names[..i] == names;
  }

  /** The sorted link names of a list of names, one dict key each. */
  method SortedLinkKeys(names: seq<string>) returns (keys: seq<string>)
    ensures forall n :: n in keys <==> n in names
    ensures forall i, j :: 0 <= i < j < |keys| ==> keys[i] != keys[j]
    ensures Text.Sorted(keys)
  {
    var sorted := Text.Sort(names);
    assert forall n :: n in sorted <==> n in names by {
      forall n ensures n in sorted <==> n in names {
        assert n in sorted <==> n in multiset(sorted);
        assert n in names <==> n in multiset(names);
      }
    }
    keys := NameIndex(sorted);
  }

  /** `get_genre_names_and_urls` without the URLs: each genre's link name
      once, sorted. */
  method GenreNames(repo: Memory.MemoryRepository) returns (keys: seq<string>)
    ensures forall n :: n in keys <==> exists g :: g in repo.genres && GenreLinkName(g.name) == n
    ensures forall i, j :: 0 <= i < j < |keys| ==> keys[i] != keys[j]
    ensures Text.Sorted(keys)
  {
    var gs := repo.GetGenres();
    var names := seq(|gs|, i requires 0 <= i < |gs| => GenreLinkName(gs[i].name));
    assert forall g :: g in gs ==> GenreLinkName(g.name) in names by {
      forall g | g in gs ensures GenreLinkName(g.name) in names {
        var i :| 0 <= i < |gs| && gs[i] == g;
        assert names[i] == GenreLinkName(g.name);
      }
    }
    keys := SortedLinkKeys(names);
  }

  /** `get_artist_names_and_urls` without the URLs. */
  method ArtistNames(repo: Memory.MemoryRepository) returns (keys: seq<string>)
    ensures forall n :: n in keys <==> exists a :: a in repo.artists && ArtistLinkName(a.fullName) == n
    ensures forall i, j :: 0 <= i < j < |keys| ==> keys[i] != keys[j]
    ensures Text.Sorted(keys)
  {
    var artists := repo.GetArtists();
    var names := seq(|artists|, i requires 0 <= i < |artists| => ArtistLinkName(artists[i].fullName));
    assert forall a :: a in artists ==> ArtistLinkName(a.fullName) in names by {
      forall a | a in artists ensures ArtistLinkName(a.fullName) in names {
        var i :| 0 <= i < |artists| && artists[i] == a;
        assert names[i] == ArtistLinkName(a.fullName);
      }
    }
    keys := SortedLinkKeys(names);
  }

  /** `get_album_names_and_urls` without the URLs, over the albums' values. */
  method AlbumNames(repo: Memory.MemoryRepository) returns (keys: seq<string>)
    requires repo.Valid()
    ensures forall n :: n in keys <==> exists id :: id in repo.albums && ArtistLinkName(repo.albums[id].title) == n
    ensures forall i, j :: 0 <= i < j < |keys| ==> keys[i] != keys[j]
    ensures Text.Sorted(keys)
  {
    var albums := repo.GetAlbums();
    var names := seq(|albums|, i requires 0 <= i < |albums| => ArtistLinkName(albums[i].title));
    forall n | n in names ensures exists id :: id in repo.albums && ArtistLinkName(repo.albums[id].title) == n {
      var i :| 0 <= i < |names| && names[i] == n;
      assert albums[i] == repo.albums[repo.albumIds[i]];
    }
    forall id | id in repo.albums ensures ArtistLinkName(repo.albums[id].title) in names {
      var i :| 0 <= i < |albums| && albums[i] == repo.albums[id];
      assert names[i] == ArtistLinkName(repo.albums[id].title);
    }
    keys := SortedLinkKeys(names);
  }

  /** An artist link leads back to the artist's tracks: the repository turns
      `_` back into spaces, which restores any name without `_`. */
  lemma ArtistLinkRoundTrip(name: string, tracks: seq<Track>)
    requires '_' !in name
    ensures Memory.ArtistQuery(tracks, Text.Replace(ArtistLinkName(name), '_', ' ')) == Memory.ArtistQuery(tracks, name)
  {
    Text.ReplaceRoundTrip(name, ' ', '_');
  }

  /** The same for album links and `get_tracks_by_album`. */
  lemma AlbumLinkRoundTrip(title: string, tracks: seq<Track>)
    requires '_' !in title
    ensures Memory.Filter(tracks, Memory.ByAlbumTitle(Text.Replace(ArtistLinkName(title), '_', ' ')))
         == Memory.Filter(tracks, Memory.ByAlbumTitle(title))
  {
    Text.ReplaceRoundTrip(title, ' ', '_');
  }

  /** A genre link is looked up as it stands, with no `-` turned back into a
      space: when no genre name contains `-`, a genre whose name has a space
      is never found from its own link. */
  lemma GenreLinkMissesSpacedName(genres: seq<Genre>, g: Genre)
    requires g in genres && ' ' in g.name
    requires forall h :: h in genres ==> '-' !in h.name
    ensures Memory.FindGenreByName(genres, GenreLinkName(g.name)).None?
  {
    var i :| 0 <= i < |g.name| && g.name[i] == ' ';
    assert GenreLinkName(g.name)[i] == '-';
  }

  /** The first genre whose link name is `link`. */
  function FindGenreByLink(genres: seq<Genre>, link: string): (r: Option<Genre>)
    ensures r.Some? ==> r.value in genres && GenreLinkName(r.value.name) == link
    ensures r.None? <==> forall g :: g in genres ==> GenreLinkName(g.name) != link
  {
    if |genres| == 0 then None
    else if GenreLinkName(genres[0].name) == link then Some(genres[0])
    else
      assert forall g :: g in genres[1..] ==> g in genres;
      FindGenreByLink(genres[1..], link)
  }

  /** Every stored genre's link resolves, to that genre when no two genres
      share a link name. */
  lemma GenreLinkResolves(genres: seq<Genre>, g: Genre)
    requires g in genres
    ensures FindGenreByLink(genres, GenreLinkName(g.name)).Some?
    ensures (forall h :: h in genres && GenreLinkName(h.name) == GenreLinkName(g.name) ==> h == g)
              ==> FindGenreByLink(genres, GenreLinkName(g.name)) == Some(g)
  {
  }

  /** `get_track_ids_for_genre` reached from a genre link, with the link
      matched against the genres' link names. */
  method TrackIdsForGenreLink(link: string, repo: Memory.MemoryRepository) returns (ids: seq<int>)
    ensures FindGenreByLink(repo.genres, link).None? ==> ids == []
    ensures FindGenreByLink(repo.genres, link).Some? ==>
              ids == Memory.IdsOf(Memory.Filter(repo.tracks, Memory.ByGenre(FindGenreByLink(repo.genres, link).value)))
  {
    var genre := FindGenreByLink(repo.genres, link);
    ids := [];
    if genre.Some? {
      ids := repo.TrackIdsWithGenre(genre.value);
    }
  }
}
