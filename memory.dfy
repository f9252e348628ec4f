/** The in-memory backend (music/adapters/MemoryRepository.py): tracks in a
    list kept sorted by `insort_left` plus an id index, lists of users,
    artists, genres and reviews, and a dict of albums keyed by id. The model
    assumes that `Track.__lt__` orders tracks by id. */
module Memory {
  import opened Wrappers
  import opened DomainModel
  import Lists
  import Text
  import Repository

  /** Tracks in non-decreasing id order. */
  predicate SortedById(s: seq<Track>)
  {
    forall i, j :: 0 <= i < j < |s| ==> s[i].trackId <= s[j].trackId
  }

  /** Where `bisect_left` lands in a sorted list: after every track with a
      smaller id, before every other. */
  function LeftPos(s: seq<Track>, id: int): (p: nat)
    requires SortedById(s)
    ensures p <= |s|
    ensures forall j :: 0 <= j < p ==> s[j].trackId < id
    ensures forall j :: p <= j < |s| ==> s[j].trackId >= id
  {
    if |s| == 0 || s[0].trackId >= id then 0
    else
      var p := LeftPos(s[1..], id);
      assert forall j :: 1 <= j < |s| ==> s[j] == s[1..][j - 1];
      1 + p
  }

  /** `insort_left(s, t)`: `t` goes before the tracks with its id. */
  function InsortLeft(s: seq<Track>, t: Track): (r: seq<Track>)
    requires SortedById(s)
    ensures SortedById(r)
    ensures |r| == |s| + 1
    ensures multiset(r) == multiset(s) + multiset{t}
  {
    var p := LeftPos(s, t.trackId);
    assert s == s[..p] + s[p..];
    s[..p] + [t] + s[p..]
  }

  /** `bisect_left(s, id)` on the id order, by binary search. */
  method BisectLeft(s: seq<Track>, id: int) returns (lo: nat)
    requires SortedById(s)
    ensures lo <= |s|
    ensures forall j :: 0 <= j < lo ==> s[j].trackId < id
    ensures forall j :: lo <= j < |s| ==> s[j].trackId >= id
  {
    lo := 0;
    var hi := |s|;
    while lo < hi
      invariant 0 <= lo <= hi <= |s|
      invariant forall j :: 0 <= j < lo ==> s[j].trackId < id
      invariant forall j :: hi <= j < |s| ==> s[j].trackId >= id
    {
      var mid := (lo + hi) / 2;
      if s[mid].trackId < id {
        lo := mid + 1;
      } else {
        hi := mid;
      }
    }
  }

  /** What the queries filter on. */
  datatype Criterion = ByArtistName(name: string) | ByAlbumTitle(title: string) | ByGenre(genre: Genre)

  predicate Matches(t: Track, c: Criterion)
    reads t
  {
    match c
    case ByArtistName(n) => t.artist.Some? && t.artist.value.fullName == n
    case ByAlbumTitle(n) => t.album.Some? && t.album.value.title == n
    case ByGenre(g) => Lists.Contains(t.genres, g, GenreKey)
  }

  /** The tracks of `s` that match `c`, in the order of `s`. */
  function Filter(s: seq<Track>, c: Criterion): (r: seq<Track>)
    reads s
    ensures |r| <= |s|
    ensures forall i :: 0 <= i < |r| ==> r[i] in s && Matches(r[i], c)
    ensures forall i :: 0 <= i < |s| && Matches(s[i], c) ==> s[i] in r
  {
    if |s| == 0 then []
    else
      var init := s[..|s| - 1];
      assert forall i :: 0 <= i < |init| ==> init[i] == s[i];
      var r := Filter(init, c);
      if Matches(s[|s| - 1], c) then r + [s[|s| - 1]] else r
  }

  /** Filtering respects concatenation: the result keeps the scan order. */
  lemma {:induction false} FilterAppend(a: seq<Track>, b: seq<Track>, c: Criterion)
    ensures Filter(a + b, c) == Filter(a, c) + Filter(b, c)
    decreases |b|
  {
    if |b| == 0 {
      assert a + b == a;
    } else {
      var b' := b[..|b| - 1];
      assert (a + b)[..|a + b| - 1] == a + b';
      FilterAppend(a, b', c);
    }
  }

  /** A filtered sorted list is still sorted. */
  lemma {:induction false} FilterSorted(s: seq<Track>, c: Criterion)
    requires SortedById(s)
    ensures SortedById(Filter(s, c))
    decreases |s|
  {
    if |s| > 0 {
      var init := s[..|s| - 1];
      FilterSorted(init, c);
      var r := Filter(init, c);
      forall i | 0 <= i < |r| ensures r[i].trackId <= s[|s| - 1].trackId {
        assert r[i] in init;
      }
    }
  }

  /** The ids of a list of tracks. */
  function IdsOf(s: seq<Track>): (r: seq<int>)
    ensures |r| == |s|
    ensures forall i :: 0 <= i < |s| ==> r[i] == s[i].trackId
  {
    seq(|s|, i requires 0 <= i < |s| => s[i].trackId)
  }

  /** `get_tracks_by_artist`: Python reads `track.artist.full_name` for every
      track and catches only ValueError, so one track without an artist makes
      the whole query raise AttributeError. */
  function ArtistQuery(s: seq<Track>, name: string): Result<seq<Track>>
    reads s
  {
    if exists i :: 0 <= i < |s| && s[i].artist.None? then Err(AttributeError)
    else Ok(Filter(s, ByArtistName(name)))
  }

  /** The first genre called `name`, as the generator in
      `get_track_ids_for_genre` finds it. */
  function FindGenreByName(gs: seq<Genre>, name: string): (r: Option<Genre>)
    ensures r.Some? ==> r.value in gs && r.value.name == name
    ensures r.None? <==> forall g :: g in gs ==> g.name != name
    ensures r.Some? ==> exists i :: 0 <= i < |gs| && gs[i] == r.value && forall j :: 0 <= j < i ==> gs[j].name != name
  {
    if |gs| == 0 then None
    else if gs[0].name == name then Some(gs[0])
    else
      var r := FindGenreByName(gs[1..], name);
      assert forall g :: g in gs[1..] ==> g in gs;
      assert forall j :: 1 <= j < |gs| ==> gs[j] == gs[1..][j - 1];
      r
  }

  /** The ids in `ids` that the index holds, in input order. */
  function PresentIds(ids: seq<int>, index: map<int, Track>): (r: seq<int>)
    ensures |r| <= |ids|
    ensures forall i :: 0 <= i < |r| ==> r[i] in index && r[i] in ids
    ensures forall i :: 0 <= i < |ids| && ids[i] in index ==> ids[i] in r
    ensures |ids| == 1 ==> r == if ids[0] in index then ids else []
  {
    if |ids| == 0 then []
    else
      var init := ids[..|ids| - 1];
      assert forall i :: 0 <= i < |init| ==> init[i] == ids[i];
      var r := PresentIds(init, index);
      if ids[|ids| - 1] in index then r + [ids[|ids| - 1]] else r
  }

  /** How many entries of `ids` (repeats included) the index holds. */
  function CountPresent(ids: seq<int>, index: map<int, Track>): nat
  {
    if |ids| == 0 then 0
    else CountPresent(ids[..|ids| - 1], index) + (if ids[|ids| - 1] in index then 1 else 0)
  }

  /** Dropping the missing ids leaves one entry per present id. */
  lemma {:induction false} PresentIdsCount(ids: seq<int>, index: map<int, Track>)
    ensures |PresentIds(ids, index)| == CountPresent(ids, index)
    decreases |ids|
  {
    if |ids| > 0 { PresentIdsCount(ids[..|ids| - 1], index); }
  }

  /** The kept ids follow the input order: dropping the missing ids from a
      concatenation drops them from each part. With the one-id case in
      `PresentIds`'s contract this fixes the result as the subsequence of
      `ids` at the indexed entries. */
  lemma {:induction false} PresentIdsAppend(a: seq<int>, b: seq<int>, index: map<int, Track>)
    ensures PresentIds(a + b, index) == PresentIds(a, index) + PresentIds(b, index)
    decreases |b|
  {
    if |b| == 0 {
      assert a + b == a;
    } else {
      var b' := b[..|b| - 1];
      assert (a + b)[..|a + b| - 1] == a + b';
      PresentIdsAppend(a, b', index);
    }
  }

  class MemoryRepository {
    var tracks: seq<Track>
    var trackIndex: map<int, Track>
    var albums: map<int, Album>
    var albumIds: seq<int>      // the album dict's keys in insertion order
    var artists: seq<Artist>
    var genres: seq<Genre>
    var users: seq<User>
    var reviews: seq<Review>

    /** The track list is sorted and the index maps each stored id to a stored
        track with that id; albums are keyed by their ids; artists and genres
        hold no two entities with the same id. */
    ghost predicate Valid()
      reads this
    {
      && SortedById(tracks)
      && IndexMatches(tracks, trackIndex)
      && (forall id :: id in albums ==> albums[id].albumId == id)
      && (forall id :: id in albums ==> id in albumIds)
      && (forall k :: 0 <= k < |albumIds| ==> albumIds[k] in albums)
      && (forall i, j :: 0 <= i < j < |albumIds| ==> albumIds[i] != albumIds[j])
      && Lists.Distinct(artists, ArtistKey)
      && Lists.Distinct(genres, GenreKey)
    }

    constructor ()
      ensures Valid()
      ensures tracks == [] && trackIndex == map[] && albums == map[] && albumIds == []
      ensures artists == [] && genres == [] && users == [] && reviews == []
    {
      tracks, trackIndex := [], map[];
      albums, albumIds := map[], [];
      artists, genres, users, reviews := [], [], [], [];
    }

    method AddUser(user: User)
      modifies this`users
      ensures users == old(users) + [user]
    {
      users := users + [user];
    }

    /** `get_user`: the first stored user whose name equals `name`, or None. */
    function GetUser(name: string): (r: Option<User>)
      reads this
      ensures r.Some? ==> r.value in users && r.value.userName == Some(name)
      ensures r.None? <==> forall u :: u in users ==> u.userName != Some(name)
    {
      var i := FirstUserNamed(users, name);
      if i < |users| then Some(users[i]) else None
    }

    /** `add_track`: insort into the sorted list and index by id. */
    method AddTrack(track: Track)
      requires Valid()
      modifies this`tracks, this`trackIndex
      ensures Valid()
      ensures tracks == InsortLeft(old(tracks), track)
      ensures trackIndex == old(trackIndex)[track.trackId := track]
    {
      IndexAfterInsort(tracks, trackIndex, track);
      tracks := InsortLeft(tracks, track);
      trackIndex := trackIndex[track.trackId := track];
    }

    /** `add_album`: None is ignored; otherwise the album is stored under its
        id, replacing any album with that id. */
    method AddAlbum(album: Option<Album>)
      requires Valid()
      modifies this`albums, this`albumIds
      ensures Valid()
      ensures album.None? ==> albums == old(albums) && albumIds == old(albumIds)
      ensures album.Some? ==> albums == old(albums)[album.value.albumId := album.value]
      ensures album.Some? ==> albumIds == if album.value.albumId in old(albums) then old(albumIds) else old(albumIds) + [album.value.albumId]
    {
      if album.Some? {
        var id := album.value.albumId;
        if id !in albums {
          albumIds := albumIds + [id];
        }
        albums := albums[id := album.value];
      }
    }

    /** `add_artist`: None and an artist already stored (same id) are ignored. */
    method AddArtist(artist: Option<Artist>)
      requires Valid()
      modifies this`artists
      ensures Valid()
      ensures artists == if artist.None? then old(artists) else Lists.AddIfAbsent(old(artists), artist.value, ArtistKey)
    {
      if artist.Some? && !Lists.Contains(artists, artist.value, ArtistKey) {
        artists := artists + [artist.value];
      }
    }

    /** `add_genre`: None and a genre already stored (same id) are ignored. */
    method AddGenre(genre: Option<Genre>)
      requires Valid()
      modifies this`genres
      ensures Valid()
      ensures genres == if genre.None? then old(genres) else Lists.AddIfAbsent(old(genres), genre.value, GenreKey)
    {
      if genre.Some? && !Lists.Contains(genres, genre.value, GenreKey) {
        genres := genres + [genre.value];
      }
    }

    /** `get_track`: the indexed track, or None; never raises. */
    function GetTrack(id: int): (r: Option<Track>)
      reads this
      ensures r.Some? <==> id in trackIndex
      ensures Valid() && r.Some? ==> r.value.trackId == id && r.value in tracks
      ensures Valid() && r.None? ==> forall i :: 0 <= i < |tracks| ==> tracks[i].trackId != id
    {
      if id in trackIndex then Some(trackIndex[id]) else None
    }

    function GetTracks(): (r: seq<Track>)
      reads this
      ensures Valid() ==> SortedById(r)
    {
      tracks
    }

    /** `get_tracks_by_artist`, with `_` in the target read as a space. */
    method GetTracksByArtist(target: string) returns (res: Result<seq<Track>>)
      ensures res == ArtistQuery(tracks, Text.Replace(target, '_', ' '))
    {
      var name := Text.Replace(target, '_', ' ');
      var matching: seq<Track> := [];
      var i := 0;
      while i < |tracks|
        invariant 0 <= i <= |tracks|
        invariant forall j :: 0 <= j < i ==> tracks[j].artist.Some?
        invariant matching == Filter(tracks[..i], ByArtistName(name))
      {
        var t := tracks[i];
        if t.artist.None? {
          return Err(AttributeError);
        }
        assert tracks[..i + 1][..i] == tracks[..i];
        if t.artist.value.fullName == name {
          matching := matching + [t];
        }
        i := i + 1;
      }
      assert tracks[..i] == tracks;
      res := Ok(matching);
    }

    /** `get_tracks_by_album`, with `_` in the target read as a space; tracks
        without an album are skipped. */
    method GetTracksByAlbum(target: string) returns (matching: seq<Track>)
      ensures matching == Filter(tracks, ByAlbumTitle(Text.Replace(target, '_', ' ')))
    {
      var title := Text.Replace(target, '_', ' ');
      matching := [];
      var i := 0;
      while i < |tracks|
        invariant 0 <= i <= |tracks|
        invariant matching == Filter(tracks[..i], ByAlbumTitle(title))
      {
        var t := tracks[i];
        assert tracks[..i + 1][..i] == tracks[..i];
        if t.album.Some? && t.album.value.title == title {
          matching := matching + [t];
        }
        i := i + 1;
      }
      assert tracks[..i] == tracks;
    }

    function GetNumberOfTracks(): (n: nat)
      reads this
      ensures n == |tracks|
    {
      |tracks|
    }

    /** `get_first_track`: None when empty, else the track with the least id. */
    function GetFirstTrack(): (r: Option<Track>)
      reads this
      ensures r.None? <==> tracks == []
      ensures Valid() && r.Some? ==> r.value in tracks && forall i :: 0 <= i < |tracks| ==> r.value.trackId <= tracks[i].trackId
    {
      if |tracks| > 0 then Some(tracks[0]) else None
    }

    /** `get_last_track`: None when empty, else a track with the greatest id. */
    function GetLastTrack(): (r: Option<Track>)
      reads this
      ensures r.None? <==> tracks == []
      ensures Valid() && r.Some? ==> r.value in tracks && forall i :: 0 <= i < |tracks| ==> tracks[i].trackId <= r.value.trackId
    {
      if |tracks| > 0 then Some(tracks[|tracks| - 1]) else None
    }

    /** `get_tracks_by_id`: the indexed tracks for the ids present, in input
        order; missing ids are dropped. */
    function GetTracksById(ids: seq<int>): (r: seq<Track>)
      reads this
      ensures |r| == |PresentIds(ids, trackIndex)| == CountPresent(ids, trackIndex)
      ensures forall k :: 0 <= k < |r| ==> r[k] == trackIndex[PresentIds(ids, trackIndex)[k]]
      ensures Valid() ==> forall k :: 0 <= k < |r| ==> r[k] in tracks && r[k].trackId in ids
    {
      var index := trackIndex;
      var present := PresentIds(ids, index);
      PresentIdsCount(ids, index);
      var r := seq(|present|, k requires 0 <= k < |present| => index[present[k]]);
      assert Valid() ==> forall k :: 0 <= k < |r| ==> r[k].trackId == present[k] && r[k] in tracks by {
        if Valid() {
          forall k | 0 <= k < |r| ensures r[k].trackId == present[k] && r[k] in tracks {
            assert present[k] in index;
          }
        }
      }
      r
    }

    /** `get_track_ids_for_genre`: the ids of the tracks carrying the first
        genre with that name, in list order; empty when no genre has it. */
    method GetTrackIdsForGenre(genreName: string) returns (ids: seq<int>)
      ensures FindGenreByName(genres, genreName).None? ==> ids == []
      ensures FindGenreByName(genres, genreName).Some? ==>
                ids == IdsOf(Filter(tracks, ByGenre(FindGenreByName(genres, genreName).value)))
    {
      var genre := FindGenreByName(genres, genreName);
      ids := [];
      if genre.Some? {
        ids := TrackIdsWithGenre(genre.value);
      }
    }

    /** The scan in `get_track_ids_for_genre` once the genre is found: the ids
        of the tracks whose genres contain it, in list order. */
    method TrackIdsWithGenre(genre: Genre) returns (ids: seq<int>)
      ensures ids == IdsOf(Filter(tracks, ByGenre(genre)))
    {
      var c := ByGenre(genre);
      ids := [];
      var i := 0;
      while i < |tracks|
        invariant 0 <= i <= |tracks|
        invariant ids == IdsOf(Filter(tracks[..i], c))
      {
        var t := tracks[i];
        assert tracks[..i + 1][..i] == tracks[..i];
        if Lists.Contains(t.genres, genre, GenreKey) {
          ids := ids + [t.trackId];
        }
        i := i + 1;
      }
      assert tracks[..i] == tracks;
    }

    function GetGenres(): seq<Genre> reads this { genres }

    function GetArtists(): seq<Artist> reads this { artists }

    /** `get_albums`, read as the dict's values in insertion order. */
    function GetAlbums(): (r: seq<Album>)
      reads this
      requires Valid()
      ensures |r| == |albumIds|
      ensures forall id :: id in albums ==> albums[id] in r
      ensures forall k :: 0 <= k < |r| ==> r[k].albumId == albumIds[k]
    {
      var ids, byId := albumIds, albums;
      var r := seq(|ids|, k requires 0 <= k < |ids| => byId[ids[k]]);
      assert forall id :: id in byId ==> byId[id] in r by {
        forall id | id in byId ensures byId[id] in r {
          var k :| 0 <= k < |ids| && ids[k] == id;
          assert r[k] == byId[id];
        }
      }
      r
    }

    /** `add_review`: the shared link check, then one append; on failure the
        review list is unchanged. */
    method AddReview(review: Review) returns (res: Outcome)
      modifies this`reviews
      ensures res == Repository.CheckReviewLinks(review)
      ensures reviews == if res.Pass? then old(reviews) + [review] else old(reviews)
    {
      res := Repository.CheckReviewLinks(review);
      if res.Pass? {
        reviews := reviews + [review];
      }
    }

    function GetReviews(): seq<Review> reads this { reviews }

    /** `track_index`: the leftmost position of a track with this id, or
        ValueError when none is stored. */
    method TrackIndex(track: Track) returns (res: Result<nat>)
      requires Valid()
      ensures res.Ok? <==> exists i :: 0 <= i < |tracks| && tracks[i].trackId == track.trackId
      ensures res.Ok? ==> res.value < |tracks| && tracks[res.value].trackId == track.trackId
      ensures res.Ok? ==> forall j :: 0 <= j < res.value ==> tracks[j].trackId != track.trackId
      ensures res.Err? ==> res.error == ValueError
    {
      var index := BisectLeft(tracks, track.trackId);
      if index != |tracks| && tracks[index].trackId == track.trackId {
        res := Ok(index);
      } else {
        res := Err(ValueError);
      }
    }
  }

  /** The tracks after an insertion are the old ones and the new one. */
  lemma InsortMembers(s: seq<Track>, t: Track)
    requires SortedById(s)
    ensures forall x :: x in InsortLeft(s, t) <==> x in s || x == t
  {
    var r := InsortLeft(s, t);
    forall x ensures x in r <==> x in s || x == t {
      assert x in r <==> x in multiset(r);
      assert x in s <==> x in multiset(s);
    }
  }

  /** The index maps each id to a listed track with that id, and every
      listed track's id is indexed. */
  predicate IndexMatches(s: seq<Track>, index: map<int, Track>)
  {
    && (forall id :: id in index ==> index[id].trackId == id && index[id] in s)
    && (forall x :: x in s ==> x.trackId in index)
  }

  /** `add_track` keeps the list and the index in step. */
  lemma IndexAfterInsort(s: seq<Track>, index: map<int, Track>, t: Track)
    requires SortedById(s) && IndexMatches(s, index)
    ensures IndexMatches(InsortLeft(s, t), index[t.trackId := t])
  {
    var r, m := InsortLeft(s, t), index[t.trackId := t];
    InsortMembers(s, t);
    forall id | id in m ensures m[id].trackId == id && m[id] in r {
      if id != t.trackId { assert index[id] in s; }
    }
    forall x | x in r ensures x.trackId in m {
      if x != t { assert x in s; }
    }
  }

  /** Position of the first user named `name`, or `|users|`. */
  function FirstUserNamed(users: seq<User>, name: string): (i: nat)
    ensures i <= |users|
    ensures i < |users| ==> users[i].userName == Some(name)
    ensures forall j :: 0 <= j < i ==> users[j].userName != Some(name)
  {
    if |users| == 0 then 0
    else if users[0].userName == Some(name) then 0
    else
      var i := FirstUserNamed(users[1..], name);
      assert forall j :: 1 <= j <= i ==> users[j] == users[1..][j - 1];
      1 + i
  }
}
