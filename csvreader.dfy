/** Loading the catalogue (music/adapters/csv_reader.py). The rows arrive
    already read from the CSV file. A first pass adds one track per row and
    groups the rows by artist name, album title and genre title. A second pass
    builds one entity per group and links it to the tracks listed under it.
    Any exception inside a group ends that group only. */
module CsvReader {
  import opened Wrappers
  import opened DomainModel
  import Lists
  import Memory
  import Services

  /** A cell that `int()` is applied to: a number, or text on which `int()`
      raises ValueError. */
  datatype RawId = Numeric(n: int) | NonNumeric

  /** One dict of a row's genre list. A missing key is None; reading it
      raises KeyError. */
  datatype GenreRec = GenreRec(genreId: Option<RawId>, genreTitle: Option<string>)

  /** The `track_genres` cell: empty, text that `ast.literal_eval` rejects, or
      a parsed list of genre dicts. */
  datatype GenreField = Empty | Malformed | Literal(recs: seq<GenreRec>)

  /** A CSV row, with the track id already an integer and the duration
      already rounded. */
  datatype Row = Row(
    trackId: int, title: string, url: Option<string>, duration: Option<int>,
    artistId: RawId, artistName: string, albumId: RawId, albumTitle: string,
    genres: GenreField)

  /** `extract_genres`: the parsed list, or None for an empty cell and for
      one that does not parse. */
  function ExtractGenres(f: GenreField): (r: Option<seq<GenreRec>>)
    ensures r.Some? <==> f.Literal?
    ensures r.Some? ==> r.value == f.recs
  {
    if f.Literal? then Some(f.recs) else None
  }

  /** A dict from names to lists, with its keys in insertion order. */
  datatype Groups = Groups(order: seq<string>, lists: map<string, seq<RawId>>)

  /** The key order lists each key of the dict exactly once. */
  predicate WellFormed(g: Groups)
  {
    && (forall n :: n in g.order ==> n in g.lists)
    && (forall n :: n in g.lists ==> n in g.order)
    && (forall i, j :: 0 <= i < j < |g.order| ==> g.order[i] != g.order[j])
  }

  /** The list stored under `n`; empty when there is none. */
  function ListOf(g: Groups, n: string): seq<RawId>
  {
    if n in g.lists then g.lists[n] else []
  }

  /** Every entry after the head of every list is a track id from `ids`. */
  predicate TailsIn(g: Groups, ids: set<int>)
  {
    forall n, k :: n in g.lists && 1 <= k < |g.lists[n]| ==> g.lists[n][k].Numeric? && g.lists[n][k].n in ids
  }

  /** `g` is `h` with entries appended to some lists and new keys added after
      the old ones: no list ever loses or changes an entry. */
  predicate Extends(h: Groups, g: Groups)
  {
    && |h.order| <= |g.order| && g.order[..|h.order|] == h.order
    && (forall n :: n in h.lists ==> n in g.lists && h.lists[n] <= g.lists[n])
  }

  /** `d[name].append(x)` for a key already present. */
  function AppendTo(g: Groups, name: string, x: RawId): Groups
    requires name in g.lists
  {
    Groups(g.order, g.lists[name := g.lists[name] + [x]])
  }

  /** `d[name] = list` for a new key, which goes last in the key order. */
  function AddKey(g: Groups, name: string, list: seq<RawId>): Groups
  {
    Groups(g.order + [name], g.lists[name := list])
  }

  /** Appending a track id from `ids` keeps the dict's shape and only grows it. */
  lemma AppendKeepsShape(g: Groups, name: string, trackId: int, ids: set<int>)
    requires WellFormed(g) && TailsIn(g, ids) && name in g.lists && trackId in ids
    ensures WellFormed(AppendTo(g, name, Numeric(trackId)))
    ensures Extends(g, AppendTo(g, name, Numeric(trackId)))
    ensures TailsIn(AppendTo(g, name, Numeric(trackId)), ids)
  {
    var r := AppendTo(g, name, Numeric(trackId));
    forall n, k | n in r.lists && 1 <= k < |r.lists[n]|
      ensures r.lists[n][k].Numeric? && r.lists[n][k].n in ids
    {
      if n == name && k < |g.lists[name]| {
        assert r.lists[n][k] == g.lists[n][k];
      }
    }
  }

  /** Adding a new key whose tail holds ids from `ids` keeps the shape too. */
  lemma AddKeyKeepsShape(g: Groups, name: string, list: seq<RawId>, ids: set<int>)
    requires WellFormed(g) && TailsIn(g, ids) && name !in g.lists
    requires forall k :: 1 <= k < |list| ==> list[k].Numeric? && list[k].n in ids
    ensures WellFormed(AddKey(g, name, list))
    ensures Extends(g, AddKey(g, name, list))
    ensures TailsIn(AddKey(g, name, list), ids)
  {
  }

  lemma ExtendsTransitive(a: Groups, b: Groups, c: Groups)
    requires Extends(a, b) && Extends(b, c)
    ensures Extends(a, c)
  {
    assert c.order[..|a.order|] == c.order[..|b.order|][..|a.order|];
  }

  /** `if name not in d: d[name] = [first]`, then `d[name].append(track_id)`. */
  function Enter(g: Groups, name: string, first: RawId, trackId: int): (r: Groups)
    ensures name in r.lists
    ensures name in g.lists ==> r.lists[name] == g.lists[name] + [Numeric(trackId)]
    ensures name !in g.lists ==> r.lists[name] == [first, Numeric(trackId)]
    ensures forall n :: n in r.lists && n != name ==> n in g.lists && r.lists[n] == g.lists[n]
  {
    if name in g.lists then AppendTo(g, name, Numeric(trackId))
    else AddKey(g, name, [first, Numeric(trackId)])
  }

  /** Entering a track id from `ids` keeps the dict's shape. */
  lemma EnterKeepsShape(g: Groups, name: string, first: RawId, trackId: int, ids: set<int>)
    requires WellFormed(g) && TailsIn(g, ids) && trackId in ids
    ensures WellFormed(Enter(g, name, first, trackId))
    ensures TailsIn(Enter(g, name, first, trackId), ids)
  {
    if name in g.lists {
      AppendKeepsShape(g, name, trackId, ids);
    } else {
      AddKeyKeepsShape(g, name, [first, Numeric(trackId)], ids);
    }
  }

  /** The ids of the rows' tracks. */
  function RowIds(rows: seq<Row>): set<int>
  {
    set i | 0 <= i < |rows| :: rows[i].trackId
  }

  lemma RowIdsGrow(rows: seq<Row>)
    requires |rows| > 0
    ensures RowIds(rows) == RowIds(rows[..|rows| - 1]) + {rows[|rows| - 1].trackId}
  {
    var init := rows[..|rows| - 1];
    forall x | x in RowIds(init) ensures x in RowIds(rows) {
      var i :| 0 <= i < |init| && init[i].trackId == x;
      assert rows[i] == init[i];
    }
    forall x | x in RowIds(rows) ensures x in RowIds(init) || x == rows[|rows| - 1].trackId {
      var i :| 0 <= i < |rows| && rows[i].trackId == x;
      if i < |init| { assert init[i] == rows[i]; }
    }
  }

  /** The two groupings built the same way from a row. */
  datatype Field = ArtistField | AlbumField

  function NameOf(r: Row, f: Field): string
  {
    if f == ArtistField then r.artistName else r.albumTitle
  }

  function IdOf(r: Row, f: Field): RawId
  {
    if f == ArtistField then r.artistId else r.albumId
  }

  /** The `artists` or `albums` dict after the first pass over `rows`. */
  function RowGroups(rows: seq<Row>, f: Field): Groups
    decreases |rows|
  {
    if |rows| == 0 then Groups([], map[])
    else
      var last := rows[|rows| - 1];
      Enter(RowGroups(rows[..|rows| - 1], f), NameOf(last, f), IdOf(last, f), last.trackId)
  }

  /** The artist and album dicts keep their key order in step, and every
      entry after a head is the id of one of the rows' tracks. */
  lemma {:induction false} RowGroupsShape(rows: seq<Row>, f: Field)
    ensures WellFormed(RowGroups(rows, f))
    ensures TailsIn(RowGroups(rows, f), RowIds(rows))
    decreases |rows|
  {
    if |rows| > 0 {
      var init := rows[..|rows| - 1];
      var last := rows[|rows| - 1];
      var h := RowGroups(init, f);
      RowGroupsShape(init, f);
      RowIdsGrow(rows);
      EnterKeepsShape(h, NameOf(last, f), IdOf(last, f), last.trackId, RowIds(rows));
    }
  }

  /** The first row whose name (for `f`) is `n`, or `|rows|`. */
  function FirstRow(rows: seq<Row>, n: string, f: Field): (i: nat)
    ensures i <= |rows|
    ensures i < |rows| ==> NameOf(rows[i], f) == n
    ensures forall j :: 0 <= j < i ==> NameOf(rows[j], f) != n
    decreases |rows|
  {
    if |rows| == 0 then 0
    else
      var init := rows[..|rows| - 1];
      var p := FirstRow(init, n, f);
      assert forall j :: 0 <= j < |init| ==> rows[j] == init[j];
      if p < |init| then p
      else if NameOf(rows[|rows| - 1], f) == n then |init|
      else |rows|
  }

  /** The ids of the rows named `n`. */
  function IdsNamed(rows: seq<Row>, n: string, f: Field): set<int>
  {
    set i | 0 <= i < |rows| && NameOf(rows[i], f) == n :: rows[i].trackId
  }

  /** The track ids of the rows named `n`, in row order. */
  function TrackIdsNamed(rows: seq<Row>, n: string, f: Field): seq<RawId>
    decreases |rows|
  {
    if |rows| == 0 then []
    else
      var last := rows[|rows| - 1];
      TrackIdsNamed(rows[..|rows| - 1], n, f) + (if NameOf(last, f) == n then [Numeric(last.trackId)] else [])
  }

  /** The list holds exactly the rows named `n`: each entry is the id of such
      a row, and each such row's id is there. */
  lemma {:induction false} TrackIdsNamedExact(rows: seq<Row>, n: string, f: Field)
    ensures forall k :: 0 <= k < |TrackIdsNamed(rows, n, f)| ==>
              TrackIdsNamed(rows, n, f)[k].Numeric? && TrackIdsNamed(rows, n, f)[k].n in IdsNamed(rows, n, f)
    ensures forall i :: 0 <= i < |rows| && NameOf(rows[i], f) == n ==> Numeric(rows[i].trackId) in TrackIdsNamed(rows, n, f)
    decreases |rows|
  {
    if |rows| > 0 {
      var init := rows[..|rows| - 1];
      var last := rows[|rows| - 1];
      TrackIdsNamedExact(init, n, f);
      var p, r := TrackIdsNamed(init, n, f), TrackIdsNamed(rows, n, f);
      assert forall j :: 0 <= j < |init| ==> rows[j] == init[j];
      assert IdsNamed(init, n, f) <= IdsNamed(rows, n, f);
      assert forall k :: 0 <= k < |p| ==> r[k] == p[k];
      if NameOf(last, f) == n {
        assert last.trackId in IdsNamed(rows, n, f);
      }
    }
  }

  /** No row carries the name, so its list of track ids is empty. */
  lemma {:induction false} UnnamedEmpty(rows: seq<Row>, n: string, f: Field)
    requires FirstRow(rows, n, f) == |rows|
    ensures TrackIdsNamed(rows, n, f) == []
    decreases |rows|
  {
    if |rows| > 0 {
      UnnamedEmpty(rows[..|rows| - 1], n, f);
    }
  }

  /** "First id wins", for the rows seen so far: a name has a list exactly
      when some row carries it; the list's head is the id on the first such
      row, and every row carrying it, that one included, appends its track
      id. */
  predicate FirstIdListed(rows: seq<Row>, f: Field, n: string)
  {
    && (n in RowGroups(rows, f).lists <==> FirstRow(rows, n, f) < |rows|)
    && (n in RowGroups(rows, f).lists ==>
          RowGroups(rows, f).lists[n] == [IdOf(rows[FirstRow(rows, n, f)], f)] + TrackIdsNamed(rows, n, f))
  }

  lemma FirstIdOtherName(rows: seq<Row>, f: Field, n: string)
    requires |rows| > 0 && NameOf(rows[|rows| - 1], f) != n && FirstIdListed(rows[..|rows| - 1], f, n)
    ensures FirstIdListed(rows, f, n)
  {
    var init := rows[..|rows| - 1];
    var p := FirstRow(init, n, f);
    assert TrackIdsNamed(rows, n, f) == TrackIdsNamed(init, n, f);
    if p < |init| {
      assert FirstRow(rows, n, f) == p && rows[p] == init[p];
    }
  }

  lemma FirstIdSameName(rows: seq<Row>, f: Field, n: string)
    requires |rows| > 0 && NameOf(rows[|rows| - 1], f) == n && FirstIdListed(rows[..|rows| - 1], f, n)
    requires FirstRow(rows[..|rows| - 1], n, f) < |rows| - 1
    ensures FirstIdListed(rows, f, n)
  {
    var init, last := rows[..|rows| - 1], rows[|rows| - 1];
    var p, ids := FirstRow(init, n, f), TrackIdsNamed(init, n, f);
    var x := Numeric(last.trackId);
    assert TrackIdsNamed(rows, n, f) == ids + [x];
    assert FirstRow(rows, n, f) == p && rows[p] == init[p];
    var hd := [IdOf(init[p], f)];
    assert RowGroups(rows, f).lists[n] == (hd + ids) + [x];
    assert (hd + ids) + [x] == hd + (ids + [x]);
  }

  lemma FirstIdNewName(rows: seq<Row>, f: Field, n: string)
    requires |rows| > 0 && NameOf(rows[|rows| - 1], f) == n && FirstIdListed(rows[..|rows| - 1], f, n)
    requires FirstRow(rows[..|rows| - 1], n, f) == |rows| - 1
    ensures FirstIdListed(rows, f, n)
  {
    var init, last := rows[..|rows| - 1], rows[|rows| - 1];
    UnnamedEmpty(init, n, f);
    assert TrackIdsNamed(rows, n, f) == [Numeric(last.trackId)];
    assert FirstRow(rows, n, f) == |init|;
    assert RowGroups(rows, f).lists[n] == [IdOf(last, f)] + [Numeric(last.trackId)];
  }

  /** "First id wins" holds for every prefix of the rows, by induction. */
  lemma {:induction false} FirstIdWins(rows: seq<Row>, f: Field, n: string)
    ensures n in RowGroups(rows, f).lists <==> FirstRow(rows, n, f) < |rows|
    ensures n in RowGroups(rows, f).lists ==>
              RowGroups(rows, f).lists[n] == [IdOf(rows[FirstRow(rows, n, f)], f)] + TrackIdsNamed(rows, n, f)
    decreases |rows|
  {
    if |rows| > 0 {
      var init := rows[..|rows| - 1];
      FirstIdWins(init, f, n);
      if NameOf(rows[|rows| - 1], f) != n {
        FirstIdOtherName(rows, f, n);
      } else if FirstRow(init, n, f) < |init| {
        FirstIdSameName(rows, f, n);
      } else {
        FirstIdNewName(rows, f, n);
      }
    }
  }

  /** The genre dicts of one row, as the `try` block walks them: a dict
      without `genre_title` ends the walk; a new title whose dict has no
      `genre_id` gets an empty list and ends it; otherwise the title's list
      receives the track id, after the genre id when the title is new. */
  function GenreRecs(g: Groups, recs: seq<GenreRec>, trackId: int): Groups
    decreases |recs|
  {
    if |recs| == 0 then g
    else match recs[0].genreTitle
      case None => g
      case Some(t) =>
        if t in g.lists then GenreRecs(AppendTo(g, t, Numeric(trackId)), recs[1..], trackId)
        else match recs[0].genreId
          case None => AddKey(g, t, [])
          case Some(id) => GenreRecs(AddKey(g, t, [id, Numeric(trackId)]), recs[1..], trackId)
  }

  /** Walking a row's genre dicts only appends: to old lists, the row's track
      id; new keys go after the old ones. */
  lemma {:induction false} GenreRecsShape(g: Groups, recs: seq<GenreRec>, trackId: int, ids: set<int>)
    requires WellFormed(g) && TailsIn(g, ids) && trackId in ids
    ensures WellFormed(GenreRecs(g, recs, trackId))
    ensures Extends(g, GenreRecs(g, recs, trackId))
    ensures TailsIn(GenreRecs(g, recs, trackId), ids)
    decreases |recs|
  {
    if |recs| > 0 && recs[0].genreTitle.Some? {
      var t := recs[0].genreTitle.value;
      var h;
      if t in g.lists {
        h := AppendTo(g, t, Numeric(trackId));
        AppendKeepsShape(g, t, trackId, ids);
      } else if recs[0].genreId.Some? {
        h := AddKey(g, t, [recs[0].genreId.value, Numeric(trackId)]);
        AddKeyKeepsShape(g, t, [recs[0].genreId.value, Numeric(trackId)], ids);
      } else {
        AddKeyKeepsShape(g, t, [], ids);
        return;
      }
      GenreRecsShape(h, recs[1..], trackId, ids);
      ExtendsTransitive(g, h, GenreRecs(h, recs[1..], trackId));
    }
  }

  /** The `genres` dict after the first pass over `rows`. */
  function GenreGroups(rows: seq<Row>): Groups
    decreases |rows|
  {
    if |rows| == 0 then Groups([], map[])
    else
      var last := rows[|rows| - 1];
      var h := GenreGroups(rows[..|rows| - 1]);
      match ExtractGenres(last.genres)
      case None => h
      case Some(recs) => GenreRecs(h, recs, last.trackId)
  }

  /** The genre dict keeps its key order in step, and every entry after a
      head is the id of one of the rows' tracks. */
  lemma {:induction false} GenreGroupsShape(rows: seq<Row>)
    ensures WellFormed(GenreGroups(rows))
    ensures TailsIn(GenreGroups(rows), RowIds(rows))
    decreases |rows|
  {
    if |rows| > 0 {
      var init := rows[..|rows| - 1];
      var last := rows[|rows| - 1];
      GenreGroupsShape(init);
      RowIdsGrow(rows);
      var h := GenreGroups(init);
      assert TailsIn(h, RowIds(rows));
      if last.genres.Literal? {
        GenreRecsShape(h, last.genres.recs, last.trackId, RowIds(rows));
      }
    }
  }

  /** A row whose genre cell is empty or does not parse adds no genre entry,
      yet its artist and album are grouped like any other. */
  lemma UnparsedGenresStillGrouped(rows: seq<Row>, row: Row)
    requires ExtractGenres(row.genres).None?
    ensures GenreGroups(rows + [row]) == GenreGroups(rows)
    ensures row.artistName in RowGroups(rows + [row], ArtistField).lists
    ensures row.albumTitle in RowGroups(rows + [row], AlbumField).lists
  {
    assert (rows + [row])[..|rows|] == rows;
  }

  /** The fields `create_track_object` copies from a row. */
  predicate Built(t: Track, row: Row)
    reads t`trackUrl, t`trackDuration
  {
    t.trackId == row.trackId && t.title == row.title && t.trackUrl == row.url && t.trackDuration == row.duration
  }

  /** A track as the first pass leaves it: a video picked, nothing linked. */
  predicate Unlinked(t: Track)
    reads t
  {
    && t.artist.None? && t.album.None? && t.genres == [] && t.reviews == []
    && HasVideo(t)
  }

  /** `track.video_hyperlink = get_random_video()`: one of the known videos. */
  predicate HasVideo(t: Track)
    reads t`videoHyperlink
  {
    t.videoHyperlink.Some? && t.videoHyperlink.value in Services.Videos
  }

  /** The `for genre_dict in genre_dicts` loop of one row. */
  method GroupGenres(g: Groups, recs: seq<GenreRec>, trackId: int) returns (r: Groups)
    ensures r == GenreRecs(g, recs, trackId)
  {
    r := g;
    var j := 0;
    while j < |recs|
      invariant 0 <= j <= |recs|
      invariant GenreRecs(g, recs, trackId) == GenreRecs(r, recs[j..], trackId)
    {
      assert recs[j..][1..] == recs[j + 1..];
      var rec := recs[j];
      if rec.genreTitle.None? {
        return;
      }
      var title := rec.genreTitle.value;
      ghost var old_r := r;
      if title !in r.lists {
        if rec.genreId.None? {
          r := AddKey(r, title, []);
          return;
        }
        r := AddKey(r, title, [rec.genreId.value]);
        assert [rec.genreId.value] + [Numeric(trackId)] == [rec.genreId.value, Numeric(trackId)];
        assert AppendTo(r, title, Numeric(trackId)).lists == old_r.lists[title := [rec.genreId.value, Numeric(trackId)]];
      }
      r := AppendTo(r, title, Numeric(trackId));
      j := j + 1;
    }
  }

  /** The track index after `add_track` of `made[k]` for each row `k` in turn:
      a later track with the same id replaces an earlier one. */
  function Stored(m: map<int, Track>, rows: seq<Row>, made: seq<Track>): map<int, Track>
    requires |made| == |rows|
    decreases |rows|
  {
    if |rows| == 0 then m
    else
      var n := |rows| - 1;
      Stored(m, rows[..n], made[..n])[rows[n].trackId := made[n]]
  }

  /** The last row with the given track id, or `|rows|` when there is none. */
  function LastRowWith(rows: seq<Row>, id: int): (k: nat)
    ensures k <= |rows|
    ensures k < |rows| <==> id in RowIds(rows)
    ensures k < |rows| ==> rows[k].trackId == id && forall j :: k < j < |rows| ==> rows[j].trackId != id
    decreases |rows|
  {
    if |rows| == 0 then 0
    else
      var n := |rows| - 1;
      if rows[n].trackId == id then n
      else
        var k := LastRowWith(rows[..n], id);
        RowIdsGrow(rows);
        if k < n then k else |rows|
  }

  /** What the first pass leaves in the index: the old entries, except that
      each id of the rows now maps to the track of its last row. */
  lemma {:induction false} StoredLookup(m: map<int, Track>, rows: seq<Row>, made: seq<Track>)
    requires |made| == |rows|
    ensures Stored(m, rows, made).Keys == m.Keys + RowIds(rows)
    ensures forall id :: id in m && id !in RowIds(rows) ==> Stored(m, rows, made)[id] == m[id]
    ensures forall id :: id in RowIds(rows) ==> Stored(m, rows, made)[id] == made[LastRowWith(rows, id)]
    decreases |rows|
  {
    if |rows| > 0 {
      var n := |rows| - 1;
      StoredLookup(m, rows[..n], made[..n]);
      RowIdsGrow(rows);
      forall id | id in RowIds(rows) && id != rows[n].trackId
        ensures Stored(m, rows, made)[id] == made[LastRowWith(rows, id)]
      {
        assert LastRowWith(rows, id) == LastRowWith(rows[..n], id);
        assert made[..n][LastRowWith(rows[..n], id)] == made[LastRowWith(rows, id)];
      }
    }
  }

  /** The index after the first pass holds only old tracks and new ones. */
  lemma {:induction false} StoredValues(m: map<int, Track>, rows: seq<Row>, made: seq<Track>)
    requires |made| == |rows|
    ensures forall t :: t in Stored(m, rows, made).Values ==> t in m.Values || t in made
    decreases |rows|
  {
    if |rows| > 0 {
      var n := |rows| - 1;
      StoredValues(m, rows[..n], made[..n]);
      var before, after := Stored(m, rows[..n], made[..n]), Stored(m, rows, made);
      forall id | id in after ensures after[id] in m.Values || after[id] in made {
        if id != rows[n].trackId {
          var t := before[id];
          assert t in before.Values;
          if t in made[..n] {
            var k :| 0 <= k < n && made[..n][k] == t;
            assert made[k] == t;
          }
        }
      }
    }
  }

  /** One more row: the dicts of `rows[..i + 1]` are those of `rows[..i]` with
      row `i` entered. */
  lemma GroupsStep(rows: seq<Row>, i: nat)
    requires i < |rows|
    ensures RowGroups(rows[..i + 1], ArtistField) == Enter(RowGroups(rows[..i], ArtistField), rows[i].artistName, rows[i].artistId, rows[i].trackId)
    ensures RowGroups(rows[..i + 1], AlbumField) == Enter(RowGroups(rows[..i], AlbumField), rows[i].albumTitle, rows[i].albumId, rows[i].trackId)
    ensures GenreGroups(rows[..i + 1]) == match ExtractGenres(rows[i].genres)
      case None => GenreGroups(rows[..i])
      case Some(recs) => GenreRecs(GenreGroups(rows[..i]), recs, rows[i].trackId)
  {
    assert rows[..i + 1][..i] == rows[..i];
  }

  lemma PrefixSnoc<T>(s: seq<T>, i: nat)
    requires i < |s|
    ensures s[..i + 1] == s[..i] + [s[i]]
  {
  }

  /** `made[k]`, one of `madeSet`, is the unlinked track built from `rows[k]`,
      for every row. */
  predicate MadeFrom(made: seq<Track>, rows: seq<Row>, madeSet: set<Track>)
    reads madeSet
  {
    && |made| == |rows|
    && (forall k :: 0 <= k < |made| ==> made[k] in madeSet)
    && forall k :: 0 <= k < |rows| ==> Unlinked(made[k]) && Built(made[k], rows[k])
  }

  lemma MadeFromStep(made: seq<Track>, rows: seq<Row>, madeSet: set<Track>, track: Track, row: Row)
    requires MadeFrom(made, rows, madeSet) && Unlinked(track) && Built(track, row)
    ensures MadeFrom(made + [track], rows + [row], madeSet + {track})
  {
    var m, r := made + [track], rows + [row];
    forall k | 0 <= k < |r| ensures m[k] in madeSet + {track} && Unlinked(m[k]) && Built(m[k], r[k]) {
      if k < |rows| { assert m[k] == made[k] && r[k] == rows[k]; }
    }
  }

  /** `create_track_object`: a new track with the row's id, title, url and
      duration. */
  method CreateTrack(row: Row) returns (track: Track)
    ensures fresh(track) && Built(track, row)
    ensures track.artist.None? && track.album.None? && track.genres == [] && track.reviews == []
  {
    track := new Track(row.trackId, row.title);
    track.trackUrl := row.url;
    track.trackDuration := row.duration;
  }

  /** `create_track_object`, the random video and `repo.add_track` for one row;
      `made`, `done` and `madeSet` record the tracks built so far. */
  method StoreTrack(row: Row, repo: Memory.MemoryRepository, ghost made: seq<Track>, ghost done: seq<Row>, ghost madeSet: set<Track>)
      returns (track: Track)
    requires repo.Valid() && MadeFrom(made, done, madeSet)
    modifies repo`tracks, repo`trackIndex
    ensures repo.Valid()
    ensures fresh(track) && MadeFrom(made + [track], done + [row], madeSet + {track})
    ensures |repo.tracks| == |old(repo.tracks)| + 1
    ensures repo.tracks == Memory.InsortLeft(old(repo.tracks), track)
    ensures repo.trackIndex == old(repo.trackIndex)[row.trackId := track]
  {
    track := CreateTrack(row);
    var video := Services.GetRandomVideo();
    track.videoHyperlink := Some(video);
    repo.AddTrack(track);
    MadeFromStep(made, done, madeSet, track, row);
  }

  lemma StoredStep(m: map<int, Track>, rows: seq<Row>, made: seq<Track>, i: nat, track: Track)
    requires i < |rows| && |made| == i
    ensures Stored(m, rows[..i + 1], made + [track]) == Stored(m, rows[..i], made)[rows[i].trackId := track]
  {
    assert rows[..i + 1][..i] == rows[..i] && (made + [track])[..i] == made;
  }

  /** One iteration of the first pass: row `i` becomes a track, which is
      inserted in order into the track list and indexed, and the row is
      entered in the three dicts. `start` is the track list before the pass. */
  method LoadRow(rows: seq<Row>, i: nat, repo: Memory.MemoryRepository, ghost before: map<int, Track>, ghost start: seq<Track>,
                 artists: Groups, albums: Groups, genres: Groups, ghost made: seq<Track>, ghost madeSet: set<Track>)
      returns (artists': Groups, albums': Groups, genres': Groups, track: Track)
    requires i < |rows| && repo.Valid()
    requires artists == RowGroups(rows[..i], ArtistField) && albums == RowGroups(rows[..i], AlbumField)
    requires genres == GenreGroups(rows[..i])
    requires |made| == i && repo.trackIndex == Stored(before, rows[..i], made)
    requires multiset(repo.tracks) == multiset(start) + multiset(made)
    requires MadeFrom(made, rows[..i], madeSet)
    modifies repo`tracks, repo`trackIndex
    ensures repo.Valid()
    ensures artists' == RowGroups(rows[..i + 1], ArtistField) && albums' == RowGroups(rows[..i + 1], AlbumField)
    ensures genres' == GenreGroups(rows[..i + 1])
    ensures repo.tracks == Memory.InsortLeft(old(repo.tracks), track)
    ensures |repo.tracks| == |old(repo.tracks)| + 1
    ensures multiset(repo.tracks) == multiset(start) + multiset(made + [track])
    ensures repo.trackIndex == Stored(before, rows[..i + 1], made + [track])
    ensures fresh(track) && MadeFrom(made + [track], rows[..i + 1], madeSet + {track})
  {
    PrefixSnoc(rows, i);
    artists', albums', genres' := GroupRow(rows, i, artists, albums, genres);
    ghost var tracks := repo.tracks;
    track := StoreTrack(rows[i], repo, made, rows[..i], madeSet);
    StoredStep(before, rows, made, i, track);
    TracksStep(tracks, repo.tracks, start, made, track);
  }

  /** The track list holds the tracks it started with and those made so far. */
  lemma TracksStep(tracks: seq<Track>, tracks': seq<Track>, start: seq<Track>, made: seq<Track>, track: Track)
    requires multiset(tracks) == multiset(start) + multiset(made)
    requires multiset(tracks') == multiset(tracks) + multiset{track}
    ensures multiset(tracks') == multiset(start) + multiset(made + [track])
  {
    assert multiset(made + [track]) == multiset(made) + multiset{track};
  }

  /** Row `i` entered in the three dicts: its genres (when the field parses),
      its artist and its album. */
  method GroupRow(rows: seq<Row>, i: nat, artists: Groups, albums: Groups, genres: Groups)
      returns (artists': Groups, albums': Groups, genres': Groups)
    requires i < |rows|
    requires artists == RowGroups(rows[..i], ArtistField) && albums == RowGroups(rows[..i], AlbumField)
    requires genres == GenreGroups(rows[..i])
    ensures artists' == RowGroups(rows[..i + 1], ArtistField) && albums' == RowGroups(rows[..i + 1], AlbumField)
    ensures genres' == GenreGroups(rows[..i + 1])
  {
    var row := rows[i];
    genres' := genres;
    var recs := ExtractGenres(row.genres);
    if recs.Some? {
      genres' := GroupGenres(genres, recs.value, row.trackId);
    }
    artists' := Enter(artists, row.artistName, row.artistId, row.trackId);
    albums' := Enter(albums, row.albumTitle, row.albumId, row.trackId);
    GroupsStep(rows, i);
  }

  /** Before the first row: empty dicts, the index as it was, no tracks made. */
  lemma FirstPassStart(rows: seq<Row>, m: map<int, Track>)
    ensures RowGroups(rows[..0], ArtistField) == Groups([], map[]) && RowGroups(rows[..0], AlbumField) == Groups([], map[])
    ensures GenreGroups(rows[..0]) == Groups([], map[])
    ensures Stored(m, rows[..0], []) == m
    ensures MadeFrom([], rows[..0], {})
  {
    assert rows[..0] == [];
  }

  /** The first pass of `read_csv_files`: each row becomes a new track
      (`made[k]` for row `k`), which is added to the repository, and the three
      dicts are filled. */
  method FirstPass(rows: seq<Row>, repo: Memory.MemoryRepository)
      returns (artists: Groups, albums: Groups, genres: Groups, ghost made: seq<Track>, ghost madeSet: set<Track>)
    requires repo.Valid()
    modifies repo`tracks, repo`trackIndex
    ensures repo.Valid()
    ensures artists == RowGroups(rows, ArtistField) && albums == RowGroups(rows, AlbumField) && genres == GenreGroups(rows)
    ensures |made| == |rows| && repo.trackIndex == Stored(old(repo.trackIndex), rows, made)
    ensures |repo.tracks| == |old(repo.tracks)| + |rows|
    ensures multiset(repo.tracks) == multiset(old(repo.tracks)) + multiset(made)
    ensures MadeFrom(made, rows, madeSet) && fresh(madeSet)
  {
    artists, albums, genres := Groups([], map[]), Groups([], map[]), Groups([], map[]);
    made, madeSet := [], {};
    ghost var before, start := repo.trackIndex, repo.tracks;
    var i := 0;
    FirstPassStart(rows, before);
    while i < |rows|
      invariant 0 <= i <= |rows|
      invariant repo.Valid()
      invariant artists == RowGroups(rows[..i], ArtistField) && albums == RowGroups(rows[..i], AlbumField)
      invariant genres == GenreGroups(rows[..i])
      invariant |made| == i && repo.trackIndex == Stored(before, rows[..i], made)
      invariant |repo.tracks| == |start| + i
      invariant multiset(repo.tracks) == multiset(start) + multiset(made)
      invariant MadeFrom(made, rows[..i], madeSet) && fresh(madeSet)
    {
      var track;
      artists, albums, genres, track := LoadRow(rows, i, repo, before, start, artists, albums, genres, made, madeSet);
      made, madeSet := made + [track], madeSet + {track};
      i := i + 1;
    }
    assert rows[..i] == rows;
    assert MadeFrom(made, rows, madeSet);
  }

  /** The inner loop of one group: `int(track_id)` and `repo.get_track` for
      each listed id in turn, until one raises. `r.0` are the ids reached and
      `r.1` says whether the loop ran to the end. */
  function Reach(rest: seq<RawId>, ids: set<int>): (r: (seq<int>, bool))
    ensures |r.0| <= |rest|
    ensures r.1 <==> |r.0| == |rest|
    decreases |rest|
  {
    if |rest| == 0 then ([], true)
    else if rest[0].NonNumeric? || rest[0].n !in ids then ([], false)
    else
      var r := Reach(rest[1..], ids);
      ([rest[0].n] + r.0, r.1)
  }

  /** The ids reached are the leading numeric entries that name an indexed
      track, and the loop stops early exactly at the first entry that is not. */
  lemma {:induction false} ReachShape(rest: seq<RawId>, ids: set<int>)
    ensures var r := Reach(rest, ids);
            forall k :: 0 <= k < |r.0| ==> rest[k] == Numeric(r.0[k]) && r.0[k] in ids
    ensures var r := Reach(rest, ids);
            !r.1 ==> rest[|r.0|].NonNumeric? || rest[|r.0|].n !in ids
    decreases |rest|
  {
    if |rest| > 0 && rest[0].Numeric? && rest[0].n in ids {
      ReachShape(rest[1..], ids);
      var r := Reach(rest[1..], ids);
      forall k | 0 <= k < |r.0| ensures rest[k + 1] == Numeric(r.0[k]) {
        assert rest[1..][k] == rest[k + 1];
      }
    }
  }

  /** What the `try` block does with one group: nothing when the list is empty
      or its head is not a number (the `[0]` or the `int()` raises), else the
      entity id, the tracks reached and whether the block completed. */
  datatype GroupRun = Skipped | Ran(entityId: int, linked: seq<int>, complete: bool)

  function RunGroup(list: seq<RawId>, ids: set<int>): (r: GroupRun)
    ensures r.Skipped? <==> |list| == 0 || list[0].NonNumeric?
    ensures r.Ran? ==> r.entityId == list[0].n && r.linked == Reach(list[1..], ids).0 && r.complete == Reach(list[1..], ids).1
  {
    if |list| == 0 || list[0].NonNumeric? then Skipped
    else
      var r := Reach(list[1..], ids);
      Ran(list[0].n, r.0, r.1)
  }

  /** The groups, among `order`, whose run reaches track `id`, as (entity id,
      name) pairs in dict order. */
  function Reaching(order: seq<string>, g: Groups, ids: set<int>, id: int): seq<(int, string)>
    decreases |order|
  {
    if |order| == 0 then []
    else
      var n := order[|order| - 1];
      var run := RunGroup(ListOf(g, n), ids);
      Reaching(order[..|order| - 1], g, ids, id) + (if run.Ran? && id in run.linked then [(run.entityId, n)] else [])
  }

  /** The groups, among `order`, whose `try` block completes, so that the
      entity is registered with the repository. */
  function Completed(order: seq<string>, g: Groups, ids: set<int>): seq<(int, string)>
    decreases |order|
  {
    if |order| == 0 then []
    else
      var n := order[|order| - 1];
      var run := RunGroup(ListOf(g, n), ids);
      Completed(order[..|order| - 1], g, ids) + (if run.Ran? && run.complete then [(run.entityId, n)] else [])
  }

  function ArtistsOf(ws: seq<(int, string)>): seq<Artist>
    decreases |ws|
  {
    if |ws| == 0 then [] else
      var w := ws[|ws| - 1];
      ArtistsOf(ws[..|ws| - 1]) + [Artist(w.0, w.1)]
  }

  function AlbumsOf(ws: seq<(int, string)>): seq<Album>
    decreases |ws|
  {
    if |ws| == 0 then [] else
      var w := ws[|ws| - 1];
      AlbumsOf(ws[..|ws| - 1]) + [Album(w.0, w.1)]
  }

  function GenresOf(ws: seq<(int, string)>): seq<Genre>
    decreases |ws|
  {
    if |ws| == 0 then [] else
      var w := ws[|ws| - 1];
      GenresOf(ws[..|ws| - 1]) + [Genre(w.0, w.1)]
  }

  /** A track's artist after the pass: the last group that reached it wins. */
  function FinalArtist(ws: seq<(int, string)>, before: Option<Artist>): Option<Artist>
  {
    if |ws| == 0 then before else Some(Artist(ws[|ws| - 1].0, ws[|ws| - 1].1))
  }

  function FinalAlbum(ws: seq<(int, string)>, before: Option<Album>): Option<Album>
  {
    if |ws| == 0 then before else Some(Album(ws[|ws| - 1].0, ws[|ws| - 1].1))
  }

  /** `repo.add_album` of each album in turn: the album map, where a later
      album replaces an earlier one with the same id ... */
  function AlbumMapAfter(m: map<int, Album>, xs: seq<Album>): map<int, Album>
    decreases |xs|
  {
    if |xs| == 0 then m
    else AlbumMapAfter(m, xs[..|xs| - 1])[xs[|xs| - 1].albumId := xs[|xs| - 1]]
  }

  /** ... and the order in which the ids first arrived. */
  function AlbumIdsAfter(m: map<int, Album>, ids: seq<int>, xs: seq<Album>): seq<int>
    decreases |xs|
  {
    if |xs| == 0 then ids
    else
      var a := xs[|xs| - 1];
      var r := AlbumIdsAfter(m, ids, xs[..|xs| - 1]);
      if a.albumId in AlbumMapAfter(m, xs[..|xs| - 1]) then r else r + [a.albumId]
  }

  lemma ReachStep(rest: seq<RawId>, j: nat, ids: set<int>)
    requires j < |rest| && rest[j].Numeric? && rest[j].n in ids
    ensures Reach(rest[j..], ids) == ([rest[j].n] + Reach(rest[j + 1..], ids).0, Reach(rest[j + 1..], ids).1)
  {
    assert rest[j..][1..] == rest[j + 1..];
  }

  /** Every track in the index is filed under its own id. */
  predicate KeyedById(index: map<int, Track>)
  {
    forall id :: id in index ==> index[id].trackId == id
  }

  /** The loop raises at position `j`: what was reached before is all. */
  lemma ReachStops(rest: seq<RawId>, j: nat, ids: set<int>, done: seq<int>)
    requires j < |rest| && (rest[j].NonNumeric? || rest[j].n !in ids)
    requires Reach(rest, ids).0 == done + Reach(rest[j..], ids).0 && Reach(rest, ids).1 == Reach(rest[j..], ids).1
    ensures Reach(rest, ids) == (done, false)
  {
    assert Reach(rest[j..], ids) == ([], false);
    assert done + [] == done;
  }

  lemma SnocAssoc<T>(a: seq<T>, x: T, b: seq<T>)
    ensures a + ([x] + b) == (a + [x]) + b
  {
  }

  /** The artist loop over one group's track ids. */
  method SetArtist(rest: seq<RawId>, artist: Artist, repo: Memory.MemoryRepository) returns (complete: bool, ghost linked: seq<int>)
    requires KeyedById(repo.trackIndex)
    modifies repo.trackIndex.Values`artist
    ensures linked == Reach(rest, repo.trackIndex.Keys).0 && complete == Reach(rest, repo.trackIndex.Keys).1
    ensures forall id :: id in repo.trackIndex ==>
              repo.trackIndex[id].artist == if id in linked then Some(artist) else old(repo.trackIndex[id].artist)
  {
    ghost var ids := repo.trackIndex.Keys;
    ghost var done: seq<int> := [];
    var j := 0;
    assert rest[j..] == rest && done + Reach(rest, ids).0 == Reach(rest, ids).0;
    while j < |rest|
      invariant 0 <= j <= |rest|
      invariant Reach(rest, ids).0 == done + Reach(rest[j..], ids).0
      invariant Reach(rest, ids).1 == Reach(rest[j..], ids).1
      invariant forall id :: id in repo.trackIndex ==>
                  repo.trackIndex[id].artist == if id in done then Some(artist) else old(repo.trackIndex[id].artist)
    {
      var x := rest[j];
      if x.NonNumeric? {
        ReachStops(rest, j, ids, done);
        return false, done;
      }
      var t := repo.GetTrack(x.n);
      if t.None? {
        ReachStops(rest, j, ids, done);
        return false, done;
      }
      ReachStep(rest, j, ids);
      SnocAssoc(done, x.n, Reach(rest[j + 1..], ids).0);
      t.value.artist := Some(artist);
      done := done + [x.n];
      j := j + 1;
    }
    complete, linked := true, done;
    assert rest[j..] == [];
  }

  /** The album loop over one group's track ids. */
  method SetAlbum(rest: seq<RawId>, album: Album, repo: Memory.MemoryRepository) returns (complete: bool, ghost linked: seq<int>)
    requires KeyedById(repo.trackIndex)
    modifies repo.trackIndex.Values`album
    ensures linked == Reach(rest, repo.trackIndex.Keys).0 && complete == Reach(rest, repo.trackIndex.Keys).1
    ensures forall id :: id in repo.trackIndex ==>
              repo.trackIndex[id].album == if id in linked then Some(album) else old(repo.trackIndex[id].album)
  {
    ghost var ids := repo.trackIndex.Keys;
    ghost var done: seq<int> := [];
    var j := 0;
    assert rest[j..] == rest && done + Reach(rest, ids).0 == Reach(rest, ids).0;
    while j < |rest|
      invariant 0 <= j <= |rest|
      invariant Reach(rest, ids).0 == done + Reach(rest[j..], ids).0
      invariant Reach(rest, ids).1 == Reach(rest[j..], ids).1
      invariant forall id :: id in repo.trackIndex ==>
                  repo.trackIndex[id].album == if id in done then Some(album) else old(repo.trackIndex[id].album)
    {
      var x := rest[j];
      if x.NonNumeric? {
        ReachStops(rest, j, ids, done);
        return false, done;
      }
      var t := repo.GetTrack(x.n);
      if t.None? {
        ReachStops(rest, j, ids, done);
        return false, done;
      }
      ReachStep(rest, j, ids);
      SnocAssoc(done, x.n, Reach(rest[j + 1..], ids).0);
      t.value.album := Some(album);
      done := done + [x.n];
      j := j + 1;
    }
    complete, linked := true, done;
    assert rest[j..] == [];
  }

  /** `track.add_genre(genre)` on a track that may already have had it
      added: the result is the same either way. */
  method LinkGenre(t: Track, genre: Genre, ghost before: seq<Genre>, ghost after: seq<Genre>)
    requires after == Lists.AddIfAbsent(before, genre, GenreKey)
    requires t.genres == before || t.genres == after
    modifies t`genres
    ensures t.genres == after
  {
    Lists.AddIfAbsentIdempotent(before, genre, GenreKey);
    t.AddGenre(genre);
  }

  /** The genre loop over one group's track ids: `add_genre`, which keeps a
      genre once. */
  method AddGenreTo(rest: seq<RawId>, genre: Genre, repo: Memory.MemoryRepository) returns (complete: bool, ghost linked: seq<int>)
    requires KeyedById(repo.trackIndex)
    modifies repo.trackIndex.Values`genres
    ensures linked == Reach(rest, repo.trackIndex.Keys).0 && complete == Reach(rest, repo.trackIndex.Keys).1
    ensures forall id :: id in repo.trackIndex ==>
              repo.trackIndex[id].genres == if id in linked
                then Lists.AddIfAbsent(old(repo.trackIndex[id].genres), genre, GenreKey)
                else old(repo.trackIndex[id].genres)
  {
    ghost var ids := repo.trackIndex.Keys;
    ghost var done: seq<int> := [];
    var j := 0;
    assert rest[j..] == rest && done + Reach(rest, ids).0 == Reach(rest, ids).0;
    while j < |rest|
      invariant 0 <= j <= |rest|
      invariant Reach(rest, ids).0 == done + Reach(rest[j..], ids).0
      invariant Reach(rest, ids).1 == Reach(rest[j..], ids).1
      invariant forall id :: id in repo.trackIndex ==>
                  repo.trackIndex[id].genres == if id in done
                    then Lists.AddIfAbsent(old(repo.trackIndex[id].genres), genre, GenreKey)
                    else old(repo.trackIndex[id].genres)
    {
      var x := rest[j];
      if x.NonNumeric? {
        ReachStops(rest, j, ids, done);
        return false, done;
      }
      var t := repo.GetTrack(x.n);
      if t.None? {
        ReachStops(rest, j, ids, done);
        return false, done;
      }
      ReachStep(rest, j, ids);
      SnocAssoc(done, x.n, Reach(rest[j + 1..], ids).0);
      LinkGenre(t.value, genre, old(t.value.genres), Lists.AddIfAbsent(old(t.value.genres), genre, GenreKey));
      done := done + [x.n];
      j := j + 1;
    }
    complete, linked := true, done;
    assert rest[j..] == [];
  }

  /** One more group: the runs of `order[..i + 1]` are those of `order[..i]`
      followed by group `i`'s. */
  lemma WireStep(order: seq<string>, g: Groups, ids: set<int>, i: nat)
    requires i < |order|
    ensures Completed(order[..i + 1], g, ids) == Completed(order[..i], g, ids)
              + (var run := RunGroup(ListOf(g, order[i]), ids); if run.Ran? && run.complete then [(run.entityId, order[i])] else [])
  {
    assert order[..i + 1][..i] == order[..i];
  }

  /** One more group, as seen from track `id`: a run that reached it comes
      last, and a track the run did not reach sees no change. */
  lemma ReachingStep(order: seq<string>, g: Groups, ids: set<int>, i: nat, id: int)
    requires i < |order|
    ensures var run := RunGroup(ListOf(g, order[i]), ids);
            Reaching(order[..i + 1], g, ids, id) ==
              if run.Ran? && id in run.linked then Reaching(order[..i], g, ids, id) + [(run.entityId, order[i])]
              else Reaching(order[..i], g, ids, id)
  {
    assert order[..i + 1][..i] == order[..i];
    var ws := Reaching(order[..i], g, ids, id);
    assert ws + [] == ws;
  }

  lemma OfSnoc(ws: seq<(int, string)>, w: (int, string))
    ensures ArtistsOf(ws + [w]) == ArtistsOf(ws) + [Artist(w.0, w.1)]
    ensures AlbumsOf(ws + [w]) == AlbumsOf(ws) + [Album(w.0, w.1)]
    ensures GenresOf(ws + [w]) == GenresOf(ws) + [Genre(w.0, w.1)]
  {
    assert (ws + [w])[..|ws|] == ws;
  }

  lemma AlbumsAfterSnoc(m: map<int, Album>, ids: seq<int>, xs: seq<Album>, a: Album)
    ensures AlbumMapAfter(m, xs + [a]) == AlbumMapAfter(m, xs)[a.albumId := a]
    ensures AlbumIdsAfter(m, ids, xs + [a]) ==
              if a.albumId in AlbumMapAfter(m, xs) then AlbumIdsAfter(m, ids, xs) else AlbumIdsAfter(m, ids, xs) + [a.albumId]
  {
    assert (xs + [a])[..|xs|] == xs;
  }

  /** The artist pass over one more group, on values: the artist list gains
      the group's artist when its run completed, and a track reached by the
      run takes that artist. */
  lemma ArtistPassStep(order: seq<string>, g: Groups, ids: set<int>, i: nat, start: seq<Artist>)
    requires i < |order|
    ensures var run := RunGroup(ListOf(g, order[i]), ids);
            Lists.AddAll(start, ArtistsOf(Completed(order[..i + 1], g, ids)), ArtistKey) ==
              if run.Ran? && run.complete
              then Lists.AddIfAbsent(Lists.AddAll(start, ArtistsOf(Completed(order[..i], g, ids)), ArtistKey), Artist(run.entityId, order[i]), ArtistKey)
              else Lists.AddAll(start, ArtistsOf(Completed(order[..i], g, ids)), ArtistKey)
  {
    WireStep(order, g, ids, i);
    var run := RunGroup(ListOf(g, order[i]), ids);
    var done := Completed(order[..i], g, ids);
    if run.Ran? && run.complete {
      OfSnoc(done, (run.entityId, order[i]));
      Lists.AddAllSnoc(start, ArtistsOf(done), Artist(run.entityId, order[i]), ArtistKey);
    } else {
      assert done + [] == done;
    }
  }

  /** The artist pass over one more group, as seen from track `id`: a run
      that reached it sets its artist, any other leaves it. */
  lemma FinalArtistStep(order: seq<string>, g: Groups, ids: set<int>, i: nat, id: int, b: Option<Artist>)
    requires i < |order|
    ensures var run := RunGroup(ListOf(g, order[i]), ids);
            FinalArtist(Reaching(order[..i + 1], g, ids, id), b) ==
              if run.Ran? && id in run.linked then Some(Artist(run.entityId, order[i])) else FinalArtist(Reaching(order[..i], g, ids, id), b)
  {
    ReachingStep(order, g, ids, i, id);
  }

  /** The album pass over one more group, on values. */
  lemma AlbumPassStep(order: seq<string>, g: Groups, ids: set<int>, i: nat, m: map<int, Album>, albumIds: seq<int>)
    requires i < |order|
    ensures var run := RunGroup(ListOf(g, order[i]), ids);
            var r := AlbumMapAfter(m, AlbumsOf(Completed(order[..i], g, ids)));
            AlbumMapAfter(m, AlbumsOf(Completed(order[..i + 1], g, ids))) ==
              (if run.Ran? && run.complete then r[run.entityId := Album(run.entityId, order[i])] else r)
    ensures var run := RunGroup(ListOf(g, order[i]), ids);
            var r := AlbumIdsAfter(m, albumIds, AlbumsOf(Completed(order[..i], g, ids)));
            AlbumIdsAfter(m, albumIds, AlbumsOf(Completed(order[..i + 1], g, ids))) ==
              (if run.Ran? && run.complete && run.entityId !in AlbumMapAfter(m, AlbumsOf(Completed(order[..i], g, ids)))
               then r + [run.entityId] else r)
  {
    WireStep(order, g, ids, i);
    var run := RunGroup(ListOf(g, order[i]), ids);
    var done := Completed(order[..i], g, ids);
    if run.Ran? && run.complete {
      OfSnoc(done, (run.entityId, order[i]));
      AlbumsAfterSnoc(m, albumIds, AlbumsOf(done), Album(run.entityId, order[i]));
    } else {
      assert done + [] == done;
    }
  }

  /** The album pass over one more group, as seen from track `id`. */
  lemma FinalAlbumStep(order: seq<string>, g: Groups, ids: set<int>, i: nat, id: int, b: Option<Album>)
    requires i < |order|
    ensures var run := RunGroup(ListOf(g, order[i]), ids);
            FinalAlbum(Reaching(order[..i + 1], g, ids, id), b) ==
              if run.Ran? && id in run.linked then Some(Album(run.entityId, order[i])) else FinalAlbum(Reaching(order[..i], g, ids, id), b)
  {
    ReachingStep(order, g, ids, i, id);
  }

  /** The genre pass over one more group, on values: the repository's list
      and a reached track's list each gain the group's genre once. */
  lemma GenrePassStep(order: seq<string>, g: Groups, ids: set<int>, i: nat, start: seq<Genre>)
    requires i < |order|
    ensures var run := RunGroup(ListOf(g, order[i]), ids);
            Lists.AddAll(start, GenresOf(Completed(order[..i + 1], g, ids)), GenreKey) ==
              if run.Ran? && run.complete
              then Lists.AddIfAbsent(Lists.AddAll(start, GenresOf(Completed(order[..i], g, ids)), GenreKey), Genre(run.entityId, order[i]), GenreKey)
              else Lists.AddAll(start, GenresOf(Completed(order[..i], g, ids)), GenreKey)
  {
    WireStep(order, g, ids, i);
    var run := RunGroup(ListOf(g, order[i]), ids);
    var done := Completed(order[..i], g, ids);
    if run.Ran? && run.complete {
      OfSnoc(done, (run.entityId, order[i]));
      Lists.AddAllSnoc(start, GenresOf(done), Genre(run.entityId, order[i]), GenreKey);
    } else {
      assert done + [] == done;
    }
  }

  /** The genre pass over one more group, as seen from track `id`: a run
      that reached it adds its genre once, any other leaves the list. */
  lemma TrackGenresStep(order: seq<string>, g: Groups, ids: set<int>, i: nat, id: int, b: seq<Genre>)
    requires i < |order|
    ensures var run := RunGroup(ListOf(g, order[i]), ids);
            Lists.AddAll(b, GenresOf(Reaching(order[..i + 1], g, ids, id)), GenreKey) ==
              if run.Ran? && id in run.linked
              then Lists.AddIfAbsent(Lists.AddAll(b, GenresOf(Reaching(order[..i], g, ids, id)), GenreKey), Genre(run.entityId, order[i]), GenreKey)
              else Lists.AddAll(b, GenresOf(Reaching(order[..i], g, ids, id)), GenreKey)
  {
    var run := RunGroup(ListOf(g, order[i]), ids);
    var ws := Reaching(order[..i], g, ids, id);
    ReachingStep(order, g, ids, i, id);
    if run.Ran? && id in run.linked {
      OfSnoc(ws, (run.entityId, order[i]));
      Lists.AddAllSnoc(b, GenresOf(ws), Genre(run.entityId, order[i]), GenreKey);
    }
  }

  /** The `try` block of one artist group: the artist is built from the
      list's head, set on each track reached, and registered when the track
      loop completed. */
  method RunArtistGroup(list: seq<RawId>, name: string, repo: Memory.MemoryRepository, ghost run: GroupRun)
    requires repo.Valid() && run == RunGroup(list, repo.trackIndex.Keys)
    modifies repo`artists, repo.trackIndex.Values`artist
    ensures repo.Valid()
    ensures repo.artists == if run.Ran? && run.complete
              then Lists.AddIfAbsent(old(repo.artists), Artist(run.entityId, name), ArtistKey) else old(repo.artists)
    ensures forall id :: id in repo.trackIndex ==>
              repo.trackIndex[id].artist == if run.Ran? && id in run.linked
                then Some(Artist(run.entityId, name)) else old(repo.trackIndex[id].artist)
  {
    if |list| > 0 && list[0].Numeric? {
      var artist := Artist(list[0].n, name);
      var complete, linked := SetArtist(list[1..], artist, repo);
      if complete {
        repo.AddArtist(Some(artist));
      }
    }
  }

  /** The per-track facts of one group's run, gathered into a map. */
  lemma ArtistsLinked(index: map<int, Track>, was: map<int, Option<Artist>>, run: GroupRun, name: string)
    requires was.Keys == index.Keys
    requires forall id :: id in index ==>
               index[id].artist == if run.Ran? && id in run.linked then Some(Artist(run.entityId, name)) else was[id]
    ensures TrackArtists(index) == LinkedArtists(was, run, name)
  {
    forall id | id in index
      ensures TrackArtists(index)[id] == LinkedArtists(was, run, name)[id]
    {
    }
  }

  /** Each indexed track's artist, read from the heap. */
  ghost function TrackArtists(index: map<int, Track>): (m: map<int, Option<Artist>>)
    reads index.Values`artist
    ensures m.Keys == index.Keys
  {
    map id | id in index :: index[id].artist
  }

  /** Each track's artist after the groups of `order`, from its artist `before`. */
  function ArtistsAt(order: seq<string>, g: Groups, ids: set<int>, before: map<int, Option<Artist>>): (m: map<int, Option<Artist>>)
    ensures m.Keys == before.Keys
  {
    map id | id in before :: FinalArtist(Reaching(order, g, ids, id), before[id])
  }

  lemma ArtistsAtNone(g: Groups, ids: set<int>, before: map<int, Option<Artist>>)
    ensures ArtistsAt([], g, ids, before) == before
  {
  }

  /** The track artists after one group's run: the tracks it reached have the
      group's artist. */
  function LinkedArtists(m: map<int, Option<Artist>>, run: GroupRun, name: string): (r: map<int, Option<Artist>>)
    ensures r.Keys == m.Keys
  {
    map id | id in m :: if run.Ran? && id in run.linked then Some(Artist(run.entityId, name)) else m[id]
  }

  lemma ArtistsAtStep(order: seq<string>, g: Groups, ids: set<int>, i: nat, before: map<int, Option<Artist>>)
    requires i < |order|
    ensures ArtistsAt(order[..i + 1], g, ids, before) ==
              LinkedArtists(ArtistsAt(order[..i], g, ids, before), RunGroup(ListOf(g, order[i]), ids), order[i])
  {
    forall id | id in before
      ensures ArtistsAt(order[..i + 1], g, ids, before)[id] ==
                LinkedArtists(ArtistsAt(order[..i], g, ids, before), RunGroup(ListOf(g, order[i]), ids), order[i])[id]
    {
      FinalArtistStep(order, g, ids, i, id, before[id]);
    }
  }

  /** Group `i` of the artist pass. */
  method WireArtistGroup(g: Groups, i: nat, repo: Memory.MemoryRepository,
                         ghost ids: set<int>, ghost start: seq<Artist>, ghost before: map<int, Option<Artist>>)
    requires i < |g.order| && repo.Valid() && repo.trackIndex.Keys == ids
    requires repo.artists == Lists.AddAll(start, ArtistsOf(Completed(g.order[..i], g, ids)), ArtistKey)
    requires TrackArtists(repo.trackIndex) == ArtistsAt(g.order[..i], g, ids, before)
    modifies repo`artists, repo.trackIndex.Values`artist
    ensures repo.Valid()
    ensures repo.artists == Lists.AddAll(start, ArtistsOf(Completed(g.order[..i + 1], g, ids)), ArtistKey)
    ensures TrackArtists(repo.trackIndex) == ArtistsAt(g.order[..i + 1], g, ids, before)
  {
    var name := g.order[i];
    ArtistPassStep(g.order, g, ids, i, start);
    ArtistsAtStep(g.order, g, ids, i, before);
    ghost var was := TrackArtists(repo.trackIndex);
    RunArtistGroup(ListOf(g, name), name, repo, RunGroup(ListOf(g, name), ids));
    ArtistsLinked(repo.trackIndex, was, RunGroup(ListOf(g, name), ids), name);
  }

  /** The artist pass of `read_csv_files`. */
  method WireArtists(g: Groups, repo: Memory.MemoryRepository)
    requires repo.Valid()
    modifies repo`artists, repo.trackIndex.Values`artist
    ensures repo.trackIndex == old(repo.trackIndex)
    ensures repo.Valid()
    ensures repo.artists == Lists.AddAll(old(repo.artists), ArtistsOf(Completed(g.order, g, repo.trackIndex.Keys)), ArtistKey)
    ensures TrackArtists(repo.trackIndex) == ArtistsAt(g.order, g, repo.trackIndex.Keys, old(TrackArtists(repo.trackIndex)))
    ensures TrackAlbums(repo.trackIndex) == old(TrackAlbums(repo.trackIndex))
    ensures TrackGenres(repo.trackIndex) == old(TrackGenres(repo.trackIndex))
  {
    ghost var ids := repo.trackIndex.Keys;
    ghost var before := TrackArtists(repo.trackIndex);
    ghost var start := repo.artists;
    var i := 0;
    assert g.order[..i] == [];
    ArtistsAtNone(g, ids, before);
    while i < |g.order|
      invariant 0 <= i <= |g.order|
      invariant repo.Valid()
      invariant repo.artists == Lists.AddAll(start, ArtistsOf(Completed(g.order[..i], g, ids)), ArtistKey)
      invariant TrackArtists(repo.trackIndex) == ArtistsAt(g.order[..i], g, ids, before)
    {
      WireArtistGroup(g, i, repo, ids, start, before);
      i := i + 1;
    }
    assert g.order[..i] == g.order;
    AlbumsKept(repo.trackIndex);
    GenresKept(repo.trackIndex);
  }

  /** The `try` block of one album group. */
  method RunAlbumGroup(list: seq<RawId>, name: string, repo: Memory.MemoryRepository, ghost run: GroupRun)
    requires repo.Valid() && run == RunGroup(list, repo.trackIndex.Keys)
    modifies repo`albums, repo`albumIds, repo.trackIndex.Values`album
    ensures repo.Valid()
    ensures repo.albums == if run.Ran? && run.complete
              then old(repo.albums)[run.entityId := Album(run.entityId, name)] else old(repo.albums)
    ensures repo.albumIds == if run.Ran? && run.complete && run.entityId !in old(repo.albums)
              then old(repo.albumIds) + [run.entityId] else old(repo.albumIds)
    ensures forall id :: id in repo.trackIndex ==>
              repo.trackIndex[id].album == if run.Ran? && id in run.linked
                then Some(Album(run.entityId, name)) else old(repo.trackIndex[id].album)
  {
    if |list| > 0 && list[0].Numeric? {
      var album := Album(list[0].n, name);
      var complete, linked := SetAlbum(list[1..], album, repo);
      if complete {
        repo.AddAlbum(Some(album));
      }
    }
  }

  /** The per-track facts of one group's run, gathered into a map. */
  lemma AlbumsLinked(index: map<int, Track>, was: map<int, Option<Album>>, run: GroupRun, name: string)
    requires was.Keys == index.Keys
    requires forall id :: id in index ==>
               index[id].album == if run.Ran? && id in run.linked then Some(Album(run.entityId, name)) else was[id]
    ensures TrackAlbums(index) == LinkedAlbums(was, run, name)
  {
    forall id | id in index
      ensures TrackAlbums(index)[id] == LinkedAlbums(was, run, name)[id]
    {
    }
  }

  /** Each indexed track's album, read from the heap. */
  ghost function TrackAlbums(index: map<int, Track>): (m: map<int, Option<Album>>)
    reads index.Values`album
    ensures m.Keys == index.Keys
  {
    map id | id in index :: index[id].album
  }

  /** Each track's album after the groups of `order`, from its album `before`. */
  function AlbumsAt(order: seq<string>, g: Groups, ids: set<int>, before: map<int, Option<Album>>): (m: map<int, Option<Album>>)
    ensures m.Keys == before.Keys
  {
    map id | id in before :: FinalAlbum(Reaching(order, g, ids, id), before[id])
  }

  lemma AlbumsAtNone(g: Groups, ids: set<int>, before: map<int, Option<Album>>)
    ensures AlbumsAt([], g, ids, before) == before
  {
  }

  /** The track albums after one group's run: the tracks it reached have the
      group's album. */
  function LinkedAlbums(m: map<int, Option<Album>>, run: GroupRun, name: string): (r: map<int, Option<Album>>)
    ensures r.Keys == m.Keys
  {
    map id | id in m :: if run.Ran? && id in run.linked then Some(Album(run.entityId, name)) else m[id]
  }

  lemma AlbumsAtStep(order: seq<string>, g: Groups, ids: set<int>, i: nat, before: map<int, Option<Album>>)
    requires i < |order|
    ensures AlbumsAt(order[..i + 1], g, ids, before) ==
              LinkedAlbums(AlbumsAt(order[..i], g, ids, before), RunGroup(ListOf(g, order[i]), ids), order[i])
  {
    forall id | id in before
      ensures AlbumsAt(order[..i + 1], g, ids, before)[id] ==
                LinkedAlbums(AlbumsAt(order[..i], g, ids, before), RunGroup(ListOf(g, order[i]), ids), order[i])[id]
    {
      FinalAlbumStep(order, g, ids, i, id, before[id]);
    }
  }

  /** Group `i` of the album pass. */
  method WireAlbumGroup(g: Groups, i: nat, repo: Memory.MemoryRepository, ghost ids: set<int>,
                        ghost start: map<int, Album>, ghost startIds: seq<int>, ghost before: map<int, Option<Album>>)
    requires i < |g.order| && repo.Valid() && repo.trackIndex.Keys == ids
    requires repo.albums == AlbumMapAfter(start, AlbumsOf(Completed(g.order[..i], g, ids)))
    requires repo.albumIds == AlbumIdsAfter(start, startIds, AlbumsOf(Completed(g.order[..i], g, ids)))
    requires TrackAlbums(repo.trackIndex) == AlbumsAt(g.order[..i], g, ids, before)
    modifies repo`albums, repo`albumIds, repo.trackIndex.Values`album
    ensures repo.Valid()
    ensures repo.albums == AlbumMapAfter(start, AlbumsOf(Completed(g.order[..i + 1], g, ids)))
    ensures repo.albumIds == AlbumIdsAfter(start, startIds, AlbumsOf(Completed(g.order[..i + 1], g, ids)))
    ensures TrackAlbums(repo.trackIndex) == AlbumsAt(g.order[..i + 1], g, ids, before)
  {
    var name := g.order[i];
    AlbumPassStep(g.order, g, ids, i, start, startIds);
    AlbumsAtStep(g.order, g, ids, i, before);
    ghost var was := TrackAlbums(repo.trackIndex);
    RunAlbumGroup(ListOf(g, name), name, repo, RunGroup(ListOf(g, name), ids));
    AlbumsLinked(repo.trackIndex, was, RunGroup(ListOf(g, name), ids), name);
  }

  /** The album pass of `read_csv_files`. */
  method WireAlbums(g: Groups, repo: Memory.MemoryRepository)
    requires repo.Valid()
    modifies repo`albums, repo`albumIds, repo.trackIndex.Values`album
    ensures repo.trackIndex == old(repo.trackIndex)
    ensures repo.Valid()
    ensures repo.albums == AlbumMapAfter(old(repo.albums), AlbumsOf(Completed(g.order, g, repo.trackIndex.Keys)))
    ensures repo.albumIds == AlbumIdsAfter(old(repo.albums), old(repo.albumIds), AlbumsOf(Completed(g.order, g, repo.trackIndex.Keys)))
    ensures TrackAlbums(repo.trackIndex) == AlbumsAt(g.order, g, repo.trackIndex.Keys, old(TrackAlbums(repo.trackIndex)))
    ensures TrackArtists(repo.trackIndex) == old(TrackArtists(repo.trackIndex))
    ensures TrackGenres(repo.trackIndex) == old(TrackGenres(repo.trackIndex))
  {
    ghost var ids := repo.trackIndex.Keys;
    ghost var before := TrackAlbums(repo.trackIndex);
    ghost var start, startIds := repo.albums, repo.albumIds;
    var i := 0;
    assert g.order[..i] == [];
    AlbumsAtNone(g, ids, before);
    while i < |g.order|
      invariant 0 <= i <= |g.order|
      invariant repo.Valid()
      invariant repo.albums == AlbumMapAfter(start, AlbumsOf(Completed(g.order[..i], g, ids)))
      invariant repo.albumIds == AlbumIdsAfter(start, startIds, AlbumsOf(Completed(g.order[..i], g, ids)))
      invariant TrackAlbums(repo.trackIndex) == AlbumsAt(g.order[..i], g, ids, before)
    {
      WireAlbumGroup(g, i, repo, ids, start, startIds, before);
      i := i + 1;
    }
    assert g.order[..i] == g.order;
    ArtistsKept(repo.trackIndex);
    GenresKept(repo.trackIndex);
  }

  /** The `try` block of one genre group. */
  method RunGenreGroup(list: seq<RawId>, name: string, repo: Memory.MemoryRepository, ghost run: GroupRun)
    requires repo.Valid() && run == RunGroup(list, repo.trackIndex.Keys)
    modifies repo`genres, repo.trackIndex.Values`genres
    ensures repo.Valid()
    ensures repo.genres == if run.Ran? && run.complete
              then Lists.AddIfAbsent(old(repo.genres), Genre(run.entityId, name), GenreKey) else old(repo.genres)
    ensures forall id :: id in repo.trackIndex ==>
              repo.trackIndex[id].genres == if run.Ran? && id in run.linked
                then Lists.AddIfAbsent(old(repo.trackIndex[id].genres), Genre(run.entityId, name), GenreKey)
                else old(repo.trackIndex[id].genres)
  {
    if |list| > 0 && list[0].Numeric? {
      var genre := Genre(list[0].n, name);
      var complete, linked := AddGenreTo(list[1..], genre, repo);
      if complete {
        repo.AddGenre(Some(genre));
      }
    }
  }

  /** The per-track facts of one group's run, gathered into a map. */
  lemma GenresLinked(index: map<int, Track>, was: map<int, seq<Genre>>, run: GroupRun, name: string)
    requires was.Keys == index.Keys
    requires forall id :: id in index ==>
               index[id].genres == if run.Ran? && id in run.linked
                 then Lists.AddIfAbsent(was[id], Genre(run.entityId, name), GenreKey) else was[id]
    ensures TrackGenres(index) == LinkedGenres(was, run, name)
  {
    forall id | id in index
      ensures TrackGenres(index)[id] == LinkedGenres(was, run, name)[id]
    {
    }
  }

  /** Each indexed track's genre list, read from the heap. */
  ghost function TrackGenres(index: map<int, Track>): (m: map<int, seq<Genre>>)
    reads index.Values`genres
    ensures m.Keys == index.Keys
  {
    map id | id in index :: index[id].genres
  }

  /** Each track's genres after the groups of `order`, from its list `before`. */
  function GenresAt(order: seq<string>, g: Groups, ids: set<int>, before: map<int, seq<Genre>>): (m: map<int, seq<Genre>>)
    ensures m.Keys == before.Keys
  {
    map id | id in before :: Lists.AddAll(before[id], GenresOf(Reaching(order, g, ids, id)), GenreKey)
  }

  lemma GenresAtNone(g: Groups, ids: set<int>, before: map<int, seq<Genre>>)
    ensures GenresAt([], g, ids, before) == before
  {
  }

  /** The track genre lists after one group's run: the tracks it reached
      have the group's genre, once. */
  function LinkedGenres(m: map<int, seq<Genre>>, run: GroupRun, name: string): (r: map<int, seq<Genre>>)
    ensures r.Keys == m.Keys
  {
    map id | id in m :: if run.Ran? && id in run.linked then Lists.AddIfAbsent(m[id], Genre(run.entityId, name), GenreKey) else m[id]
  }

  lemma GenresAtStep(order: seq<string>, g: Groups, ids: set<int>, i: nat, before: map<int, seq<Genre>>)
    requires i < |order|
    ensures GenresAt(order[..i + 1], g, ids, before) ==
              LinkedGenres(GenresAt(order[..i], g, ids, before), RunGroup(ListOf(g, order[i]), ids), order[i])
  {
    forall id | id in before
      ensures GenresAt(order[..i + 1], g, ids, before)[id] ==
                LinkedGenres(GenresAt(order[..i], g, ids, before), RunGroup(ListOf(g, order[i]), ids), order[i])[id]
    {
      TrackGenresStep(order, g, ids, i, id, before[id]);
    }
  }

  /** Group `i` of the genre pass. */
  method WireGenreGroup(g: Groups, i: nat, repo: Memory.MemoryRepository,
                        ghost ids: set<int>, ghost start: seq<Genre>, ghost before: map<int, seq<Genre>>)
    requires i < |g.order| && repo.Valid() && repo.trackIndex.Keys == ids
    requires repo.genres == Lists.AddAll(start, GenresOf(Completed(g.order[..i], g, ids)), GenreKey)
    requires TrackGenres(repo.trackIndex) == GenresAt(g.order[..i], g, ids, before)
    modifies repo`genres, repo.trackIndex.Values`genres
    ensures repo.Valid()
    ensures repo.genres == Lists.AddAll(start, GenresOf(Completed(g.order[..i + 1], g, ids)), GenreKey)
    ensures TrackGenres(repo.trackIndex) == GenresAt(g.order[..i + 1], g, ids, before)
  {
    var name := g.order[i];
    GenrePassStep(g.order, g, ids, i, start);
    GenresAtStep(g.order, g, ids, i, before);
    ghost var was := TrackGenres(repo.trackIndex);
    RunGenreGroup(ListOf(g, name), name, repo, RunGroup(ListOf(g, name), ids));
    GenresLinked(repo.trackIndex, was, RunGroup(ListOf(g, name), ids), name);
  }

  /** The genre pass of `read_csv_files`. */
  method WireGenres(g: Groups, repo: Memory.MemoryRepository)
    requires repo.Valid()
    modifies repo`genres, repo.trackIndex.Values`genres
    ensures repo.trackIndex == old(repo.trackIndex)
    ensures repo.Valid()
    ensures repo.genres == Lists.AddAll(old(repo.genres), GenresOf(Completed(g.order, g, repo.trackIndex.Keys)), GenreKey)
    ensures TrackGenres(repo.trackIndex) == GenresAt(g.order, g, repo.trackIndex.Keys, old(TrackGenres(repo.trackIndex)))
    ensures TrackArtists(repo.trackIndex) == old(TrackArtists(repo.trackIndex))
    ensures TrackAlbums(repo.trackIndex) == old(TrackAlbums(repo.trackIndex))
  {
    ghost var ids := repo.trackIndex.Keys;
    ghost var before := TrackGenres(repo.trackIndex);
    ghost var start := repo.genres;
    var i := 0;
    assert g.order[..i] == [];
    GenresAtNone(g, ids, before);
    while i < |g.order|
      invariant 0 <= i <= |g.order|
      invariant repo.Valid()
      invariant repo.genres == Lists.AddAll(start, GenresOf(Completed(g.order[..i], g, ids)), GenreKey)
      invariant TrackGenres(repo.trackIndex) == GenresAt(g.order[..i], g, ids, before)
    {
      WireGenreGroup(g, i, repo, ids, start, before);
      i := i + 1;
    }
    assert g.order[..i] == g.order;
    ArtistsKept(repo.trackIndex);
    AlbumsKept(repo.trackIndex);
  }

  /** `map`, with the tracks of `ids` reset to `v`: what a link field holds
      after the first pass, where the tracks of the rows are new. */
  function Reset<V>(m: map<int, V>, ids: set<int>, v: V): (r: map<int, V>)
    ensures r.Keys == m.Keys + ids
  {
    map id | id in m.Keys + ids :: if id in ids then v else m[id]
  }

  /** Two maps with the same keys and the same value at each key. */
  lemma MapsEqual<V>(a: map<int, V>, b: map<int, V>)
    requires a.Keys == b.Keys && forall k | k in a :: a[k] == b[k]
    ensures a == b
  {
    forall k | k in a ensures k in b && a[k] == b[k] { }
    forall k | k in b ensures k in a { }
  }

  /** Every track of the rows is new and unlinked, so after the first pass
      its links are empty and every other track keeps its own. */
  lemma FreshLinks(index: map<int, Track>, rows: seq<Row>, made: seq<Track>, madeSet: set<Track>)
    requires MadeFrom(made, rows, madeSet)
    ensures TrackArtists(Stored(index, rows, made)) == Reset(TrackArtists(index), RowIds(rows), None)
    ensures TrackAlbums(Stored(index, rows, made)) == Reset(TrackAlbums(index), RowIds(rows), None)
    ensures TrackGenres(Stored(index, rows, made)) == Reset(TrackGenres(index), RowIds(rows), [])
  {
    StoredLookup(index, rows, made);
    var after := Stored(index, rows, made);
    var artists, albums, genres := TrackArtists(after), TrackAlbums(after), TrackGenres(after);
    var artists', albums', genres' :=
      Reset(TrackArtists(index), RowIds(rows), None), Reset(TrackAlbums(index), RowIds(rows), None),
      Reset(TrackGenres(index), RowIds(rows), []);
    forall id | id in after
      ensures artists[id] == artists'[id] && albums[id] == albums'[id] && genres[id] == genres'[id]
    {
      if id in RowIds(rows) {
        assert Unlinked(made[LastRowWith(rows, id)]);
      }
    }
    MapsEqual(artists, artists');
    MapsEqual(albums, albums');
    MapsEqual(genres, genres');
  }

  /** The link maps of `index` change only through the field they read. */
  twostate lemma ArtistsKept(index: map<int, Track>)
    requires forall id | id in index :: index[id].artist == old(index[id].artist)
    ensures TrackArtists(index) == old(TrackArtists(index))
  {
    forall id | id in index ensures TrackArtists(index)[id] == old(TrackArtists(index))[id] { }
  }

  twostate lemma AlbumsKept(index: map<int, Track>)
    requires forall id | id in index :: index[id].album == old(index[id].album)
    ensures TrackAlbums(index) == old(TrackAlbums(index))
  {
    forall id | id in index ensures TrackAlbums(index)[id] == old(TrackAlbums(index))[id] { }
  }

  twostate lemma GenresKept(index: map<int, Track>)
    requires forall id | id in index :: index[id].genres == old(index[id].genres)
    ensures TrackGenres(index) == old(TrackGenres(index))
  {
    forall id | id in index ensures TrackGenres(index)[id] == old(TrackGenres(index))[id] { }
  }

  /** Each of `made` carries its row's fields and a video. */
  predicate AllBuilt(made: seq<Track>, rows: seq<Row>)
    reads made`trackUrl, made`trackDuration, made`videoHyperlink
  {
    |made| == |rows| && forall k :: 0 <= k < |rows| ==> Built(made[k], rows[k]) && HasVideo(made[k])
  }

  /** The first pass of `read_csv_files`, with what it means for the links:
      the rows' tracks are new, carry their row's fields and a video, and have
      no links yet; every other track keeps its links. */
  method LoadRows(rows: seq<Row>, repo: Memory.MemoryRepository)
      returns (artists: Groups, albums: Groups, genres: Groups, ghost made: seq<Track>)
    requires repo.Valid()
    modifies repo`tracks, repo`trackIndex
    ensures repo.Valid()
    ensures artists == RowGroups(rows, ArtistField) && albums == RowGroups(rows, AlbumField) && genres == GenreGroups(rows)
    ensures |repo.tracks| == |old(repo.tracks)| + |rows|
    ensures |made| == |rows| && repo.trackIndex == Stored(old(repo.trackIndex), rows, made)
    ensures multiset(repo.tracks) == multiset(old(repo.tracks)) + multiset(made)
    ensures forall k :: 0 <= k < |rows| ==> fresh(made[k])
    ensures AllBuilt(made, rows)
    ensures forall t :: t in repo.trackIndex.Values ==> t in old(repo.trackIndex.Values) || t in made
    ensures TrackArtists(repo.trackIndex) == Reset(old(TrackArtists(repo.trackIndex)), RowIds(rows), None)
    ensures TrackAlbums(repo.trackIndex) == Reset(old(TrackAlbums(repo.trackIndex)), RowIds(rows), None)
    ensures TrackGenres(repo.trackIndex) == Reset(old(TrackGenres(repo.trackIndex)), RowIds(rows), [])
  {
    ghost var index := repo.trackIndex;
    ghost var madeSet;
    label Start:
    artists, albums, genres, made, madeSet := FirstPass(rows, repo);
    ArtistsKept@Start(index);
    AlbumsKept@Start(index);
    GenresKept@Start(index);
    StoredValues(index, rows, made);
    FreshLinks(index, rows, made, madeSet);
  }

  /** The album and genre passes, one after the other. */
  method WireAlbumsGenres(albums: Groups, genres: Groups, repo: Memory.MemoryRepository)
    requires repo.Valid()
    modifies repo`albums, repo`albumIds, repo`genres
    modifies repo.trackIndex.Values`album, repo.trackIndex.Values`genres
    ensures repo.trackIndex == old(repo.trackIndex) && repo.tracks == old(repo.tracks) && repo.artists == old(repo.artists)
    ensures repo.Valid()
    ensures repo.albums == AlbumMapAfter(old(repo.albums), AlbumsOf(Completed(albums.order, albums, repo.trackIndex.Keys)))
    ensures repo.albumIds == AlbumIdsAfter(old(repo.albums), old(repo.albumIds), AlbumsOf(Completed(albums.order, albums, repo.trackIndex.Keys)))
    ensures repo.genres == Lists.AddAll(old(repo.genres), GenresOf(Completed(genres.order, genres, repo.trackIndex.Keys)), GenreKey)
    ensures TrackArtists(repo.trackIndex) == old(TrackArtists(repo.trackIndex))
    ensures TrackAlbums(repo.trackIndex) == AlbumsAt(albums.order, albums, repo.trackIndex.Keys, old(TrackAlbums(repo.trackIndex)))
    ensures TrackGenres(repo.trackIndex) == GenresAt(genres.order, genres, repo.trackIndex.Keys, old(TrackGenres(repo.trackIndex)))
  {
    WireAlbums(albums, repo);
    WireGenres(genres, repo);
  }

  /** The artist, album and genre passes, one after the other. */
  method WireAll(artists: Groups, albums: Groups, genres: Groups, repo: Memory.MemoryRepository)
    requires repo.Valid()
    modifies repo`artists, repo`albums, repo`albumIds, repo`genres
    modifies repo.trackIndex.Values`artist, repo.trackIndex.Values`album, repo.trackIndex.Values`genres
    ensures repo.trackIndex == old(repo.trackIndex) && repo.tracks == old(repo.tracks)
    ensures repo.Valid()
    ensures repo.artists == Lists.AddAll(old(repo.artists), ArtistsOf(Completed(artists.order, artists, repo.trackIndex.Keys)), ArtistKey)
    ensures repo.albums == AlbumMapAfter(old(repo.albums), AlbumsOf(Completed(albums.order, albums, repo.trackIndex.Keys)))
    ensures repo.albumIds == AlbumIdsAfter(old(repo.albums), old(repo.albumIds), AlbumsOf(Completed(albums.order, albums, repo.trackIndex.Keys)))
    ensures repo.genres == Lists.AddAll(old(repo.genres), GenresOf(Completed(genres.order, genres, repo.trackIndex.Keys)), GenreKey)
    ensures TrackArtists(repo.trackIndex) == ArtistsAt(artists.order, artists, repo.trackIndex.Keys, old(TrackArtists(repo.trackIndex)))
    ensures TrackAlbums(repo.trackIndex) == AlbumsAt(albums.order, albums, repo.trackIndex.Keys, old(TrackAlbums(repo.trackIndex)))
    ensures TrackGenres(repo.trackIndex) == GenresAt(genres.order, genres, repo.trackIndex.Keys, old(TrackGenres(repo.trackIndex)))
  {
    WireArtists(artists, repo);
    WireAlbumsGenres(albums, genres, repo);
  }

  /** `read_csv_files`: the first pass, then the artist, album and genre
      passes over the three dicts. The rows are the parsed CSV file. */
  method ReadCsvFiles(rows: seq<Row>, repo: Memory.MemoryRepository) returns (ghost made: seq<Track>)
    requires repo.Valid()
    modifies repo`tracks, repo`trackIndex, repo`artists, repo`albums, repo`albumIds, repo`genres
    modifies repo.trackIndex.Values`artist, repo.trackIndex.Values`album, repo.trackIndex.Values`genres
    ensures repo.Valid()
    ensures |made| == |rows| && repo.trackIndex == Stored(old(repo.trackIndex), rows, made)
    ensures |repo.tracks| == |old(repo.tracks)| + |rows|
    ensures multiset(repo.tracks) == multiset(old(repo.tracks)) + multiset(made)
    ensures forall k :: 0 <= k < |rows| ==> fresh(made[k])
    ensures AllBuilt(made, rows)
    ensures var a := RowGroups(rows, ArtistField);
            repo.artists == Lists.AddAll(old(repo.artists), ArtistsOf(Completed(a.order, a, repo.trackIndex.Keys)), ArtistKey)
    ensures var a := RowGroups(rows, AlbumField);
            repo.albums == AlbumMapAfter(old(repo.albums), AlbumsOf(Completed(a.order, a, repo.trackIndex.Keys)))
    ensures var a := RowGroups(rows, AlbumField);
            repo.albumIds == AlbumIdsAfter(old(repo.albums), old(repo.albumIds), AlbumsOf(Completed(a.order, a, repo.trackIndex.Keys)))
    ensures var g := GenreGroups(rows);
            repo.genres == Lists.AddAll(old(repo.genres), GenresOf(Completed(g.order, g, repo.trackIndex.Keys)), GenreKey)
    ensures var a := RowGroups(rows, ArtistField);
            TrackArtists(repo.trackIndex) ==
              ArtistsAt(a.order, a, repo.trackIndex.Keys, Reset(old(TrackArtists(repo.trackIndex)), RowIds(rows), None))
    ensures var a := RowGroups(rows, AlbumField);
            TrackAlbums(repo.trackIndex) ==
              AlbumsAt(a.order, a, repo.trackIndex.Keys, Reset(old(TrackAlbums(repo.trackIndex)), RowIds(rows), None))
    ensures var g := GenreGroups(rows);
            TrackGenres(repo.trackIndex) ==
              GenresAt(g.order, g, repo.trackIndex.Keys, Reset(old(TrackGenres(repo.trackIndex)), RowIds(rows), []))
  {
    var artists, albums, genres;
    artists, albums, genres, made := LoadRows(rows, repo);
    WireAll(artists, albums, genres, repo);
  }
}
