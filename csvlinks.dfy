/** What the wiring passes of `read_csv_files` achieve when the first pass
    has indexed every row's track: each group whose head is a number runs to
    the end, links every track listed under its name and registers its
    entity (music/adapters/csv_reader.py:86-117). */
module CsvLinks {
  import opened Wrappers
  import opened DomainModel
  import Lists
  import opened CsvReader

  /** When every entry is an indexed track id, the loop never raises and
      reaches every entry. */
  lemma ReachAll(rest: seq<RawId>, ids: set<int>)
    requires forall k :: 0 <= k < |rest| ==> rest[k].Numeric? && rest[k].n in ids
    ensures Reach(rest, ids).1
    ensures forall k :: 0 <= k < |rest| ==> rest[k].n in Reach(rest, ids).0
  {
    ReachShape(rest, ids);
    var r := Reach(rest, ids);
    forall k | 0 <= k < |rest| ensures rest[k].n in r.0 {
      assert rest[k] == Numeric(r.0[k]);
    }
  }

  /** A group with a numeric head whose tail holds indexed ids completes and
      links every track listed under it. */
  lemma ListedLinked(g: Groups, ids: set<int>, n: string)
    requires TailsIn(g, ids) && n in g.lists && |g.lists[n]| > 0 && g.lists[n][0].Numeric?
    ensures var run := RunGroup(ListOf(g, n), ids);
            && run.Ran? && run.complete && run.entityId == g.lists[n][0].n
            && forall k :: 1 <= k < |g.lists[n]| ==> g.lists[n][k].n in run.linked
  {
    var list := g.lists[n];
    var rest := list[1..];
    forall k | 0 <= k < |rest| ensures rest[k].Numeric? && rest[k].n in ids {
      assert rest[k] == list[k + 1];
    }
    ReachAll(rest, ids);
    forall k | 1 <= k < |list| ensures list[k].n in Reach(rest, ids).0 {
      assert list[k] == rest[k - 1];
    }
  }

  /** Group `order[i]`, when it reaches track `id`, is among the groups
      reaching it. */
  lemma {:induction false} ReachingHas(order: seq<string>, g: Groups, ids: set<int>, id: int, i: nat) returns (p: nat)
    requires i < |order|
    requires RunGroup(ListOf(g, order[i]), ids).Ran? && id in RunGroup(ListOf(g, order[i]), ids).linked
    ensures p < |Reaching(order, g, ids, id)|
    ensures Reaching(order, g, ids, id)[p] == (RunGroup(ListOf(g, order[i]), ids).entityId, order[i])
    decreases |order|
  {
    var init := order[..|order| - 1];
    if i < |order| - 1 {
      assert init[i] == order[i];
      p := ReachingHas(init, g, ids, id, i);
    } else {
      p := |Reaching(init, g, ids, id)|;
    }
  }

  /** Group `order[i]`, when it completes, is among the completed groups. */
  lemma {:induction false} CompletedHas(order: seq<string>, g: Groups, ids: set<int>, i: nat) returns (p: nat)
    requires i < |order|
    requires RunGroup(ListOf(g, order[i]), ids).Ran? && RunGroup(ListOf(g, order[i]), ids).complete
    ensures p < |Completed(order, g, ids)|
    ensures Completed(order, g, ids)[p] == (RunGroup(ListOf(g, order[i]), ids).entityId, order[i])
    decreases |order|
  {
    var init := order[..|order| - 1];
    if i < |order| - 1 {
      assert init[i] == order[i];
      p := CompletedHas(init, g, ids, i);
    } else {
      p := |Completed(init, g, ids)|;
    }
  }

  /** No group reaches the track: its links stay as they were. */
  lemma {:induction false} ReachingNone(order: seq<string>, g: Groups, ids: set<int>, id: int)
    requires forall j :: 0 <= j < |order| ==> !(RunGroup(ListOf(g, order[j]), ids).Ran? && id in RunGroup(ListOf(g, order[j]), ids).linked)
    ensures Reaching(order, g, ids, id) == []
    decreases |order|
  {
    if |order| > 0 {
      var init := order[..|order| - 1];
      assert forall j :: 0 <= j < |init| ==> init[j] == order[j];
      ReachingNone(init, g, ids, id);
    }
  }

  /** Exactly one group reaches the track: it is the only one reaching it. */
  lemma {:induction false} ReachingOnly(order: seq<string>, g: Groups, ids: set<int>, id: int, i: nat)
    requires i < |order|
    requires RunGroup(ListOf(g, order[i]), ids).Ran? && id in RunGroup(ListOf(g, order[i]), ids).linked
    requires forall j :: 0 <= j < |order| && j != i ==>
               !(RunGroup(ListOf(g, order[j]), ids).Ran? && id in RunGroup(ListOf(g, order[j]), ids).linked)
    ensures Reaching(order, g, ids, id) == [(RunGroup(ListOf(g, order[i]), ids).entityId, order[i])]
    decreases |order|
  {
    var init := order[..|order| - 1];
    assert forall j :: 0 <= j < |init| ==> init[j] == order[j];
    if i < |order| - 1 {
      ReachingOnly(init, g, ids, id, i);
    } else {
      ReachingNone(init, g, ids, id);
    }
  }

  /** The entities built from a sequence of groups, position by position. */
  lemma {:induction false} OfIndex(ws: seq<(int, string)>, i: nat)
    requires i < |ws|
    ensures |ArtistsOf(ws)| == |ws| && ArtistsOf(ws)[i] == Artist(ws[i].0, ws[i].1)
    ensures |AlbumsOf(ws)| == |ws| && AlbumsOf(ws)[i] == Album(ws[i].0, ws[i].1)
    ensures |GenresOf(ws)| == |ws| && GenresOf(ws)[i] == Genre(ws[i].0, ws[i].1)
    decreases |ws|
  {
    var init, w := ws[..|ws| - 1], ws[|ws| - 1];
    assert ws == init + [w];
    OfSnoc(init, w);
    if |init| > 0 {
      OfIndex(init, if i < |init| then i else 0);
    }
    if i < |init| {
      assert ws[i] == init[i];
      assert ArtistsOf(ws)[i] == ArtistsOf(init)[i];
      assert AlbumsOf(ws)[i] == AlbumsOf(init)[i];
      assert GenresOf(ws)[i] == GenresOf(init)[i];
    }
  }

  /** A larger index keeps every tail inside it. */
  lemma TailsWiden(g: Groups, small: set<int>, ids: set<int>)
    requires TailsIn(g, small) && small <= ids
    ensures TailsIn(g, ids)
  {
  }

  /** Every track a row group reaches is the track of a row carrying the
      group's name. */
  lemma LinkedAreNamed(rows: seq<Row>, f: Field, ids: set<int>, m: string)
    requires m in RowGroups(rows, f).lists
    ensures var run := RunGroup(ListOf(RowGroups(rows, f), m), ids);
            run.Ran? ==> forall x :: x in run.linked ==> x in IdsNamed(rows, m, f)
  {
    var list := ListOf(RowGroups(rows, f), m);
    var run := RunGroup(list, ids);
    FirstIdWins(rows, f, m);
    TrackIdsNamedExact(rows, m, f);
    if run.Ran? {
      var named := TrackIdsNamed(rows, m, f);
      assert list[1..] == named;
      ReachShape(list[1..], ids);
      forall x | x in run.linked ensures x in IdsNamed(rows, m, f) {
        var k :| 0 <= k < |run.linked| && run.linked[k] == x;
        assert named[k] == Numeric(x);
      }
    }
  }

  /** With every row's track indexed, the group of row `k`'s name runs to
      the end and links row `k`'s track, with the id of the first row
      carrying that name. */
  lemma RowGroupLinked(rows: seq<Row>, f: Field, ids: set<int>, k: nat)
    requires RowIds(rows) <= ids && k < |rows|
    requires IdOf(rows[FirstRow(rows, NameOf(rows[k], f), f)], f).Numeric?
    ensures var n := NameOf(rows[k], f);
            var run := RunGroup(ListOf(RowGroups(rows, f), n), ids);
            && run.Ran? && run.complete && run.entityId == IdOf(rows[FirstRow(rows, n, f)], f).n
            && rows[k].trackId in run.linked
  {
    var g, n := RowGroups(rows, f), NameOf(rows[k], f);
    FirstIdWins(rows, f, n);
    TrackIdsNamedExact(rows, n, f);
    RowGroupsShape(rows, f);
    TailsWiden(g, RowIds(rows), ids);
    var list := g.lists[n];
    var named := TrackIdsNamed(rows, n, f);
    assert list == [list[0]] + named;
    ListedLinked(g, ids, n);
    var j :| 0 <= j < |named| && named[j] == Numeric(rows[k].trackId);
    assert list[j + 1] == named[j];
  }

  /** The position of a dict key in the key order. */
  lemma KeyPosition(g: Groups, n: string) returns (i: nat)
    requires WellFormed(g) && n in g.lists
    ensures i < |g.order| && g.order[i] == n
    ensures forall j :: 0 <= j < |g.order| && j != i ==> g.order[j] != n
  {
    assert n in g.order;
    i :| 0 <= i < |g.order| && g.order[i] == n;
  }

  /** The track of row `k` is reached by its own group only, when every row
      with that track id carries the same name. */
  lemma RowReaching(rows: seq<Row>, f: Field, ids: set<int>, k: nat)
    requires RowIds(rows) <= ids && k < |rows|
    requires IdOf(rows[FirstRow(rows, NameOf(rows[k], f), f)], f).Numeric?
    requires forall j :: 0 <= j < |rows| && rows[j].trackId == rows[k].trackId ==> NameOf(rows[j], f) == NameOf(rows[k], f)
    ensures var n := NameOf(rows[k], f);
            var g := RowGroups(rows, f);
            Reaching(g.order, g, ids, rows[k].trackId) == [(IdOf(rows[FirstRow(rows, n, f)], f).n, n)]
  {
    var g, n, id := RowGroups(rows, f), NameOf(rows[k], f), rows[k].trackId;
    RowGroupLinked(rows, f, ids, k);
    RowGroupsShape(rows, f);
    var i := KeyPosition(g, n);
    forall j | 0 <= j < |g.order| && j != i
      ensures !(RunGroup(ListOf(g, g.order[j]), ids).Ran? && id in RunGroup(ListOf(g, g.order[j]), ids).linked)
    {
      var m := g.order[j];
      LinkedAreNamed(rows, f, ids, m);
    }
    ReachingOnly(g.order, g, ids, id, i);
  }

  /** The group named on row `k`, when its head is a number, is registered:
      it is among the completed groups, with the head as its id. */
  lemma RowGroupCompleted(rows: seq<Row>, f: Field, ids: set<int>, k: nat) returns (p: nat)
    requires RowIds(rows) <= ids && k < |rows|
    requires IdOf(rows[FirstRow(rows, NameOf(rows[k], f), f)], f).Numeric?
    ensures var g := RowGroups(rows, f);
            var n := NameOf(rows[k], f);
            p < |Completed(g.order, g, ids)| && Completed(g.order, g, ids)[p] == (IdOf(rows[FirstRow(rows, n, f)], f).n, n)
  {
    var g, n := RowGroups(rows, f), NameOf(rows[k], f);
    RowGroupLinked(rows, f, ids, k);
    RowGroupsShape(rows, f);
    FirstIdWins(rows, f, n);
    var i := KeyPosition(g, n);
    p := CompletedHas(g.order, g, ids, i);
  }

  /** After the artist pass, the track of row `k` has the artist named on its
      row, with the artist id of the first row naming that artist; this needs
      only that the artist id on that first row is a number and that no row
      with the same track id names another artist. */
  lemma RowArtist(rows: seq<Row>, ids: set<int>, before: map<int, Option<Artist>>, k: nat)
    requires RowIds(rows) <= ids && k < |rows| && rows[k].trackId in before
    requires rows[FirstRow(rows, rows[k].artistName, ArtistField)].artistId.Numeric?
    requires forall j :: 0 <= j < |rows| && rows[j].trackId == rows[k].trackId ==> rows[j].artistName == rows[k].artistName
    ensures var g := RowGroups(rows, ArtistField);
            ArtistsAt(g.order, g, ids, before)[rows[k].trackId] ==
              Some(Artist(rows[FirstRow(rows, rows[k].artistName, ArtistField)].artistId.n, rows[k].artistName))
  {
    RowReaching(rows, ArtistField, ids, k);
  }

  /** ... and that artist is registered with the repository. */
  lemma RowArtistRegistered(rows: seq<Row>, ids: set<int>, start: seq<Artist>, k: nat)
    requires RowIds(rows) <= ids && k < |rows|
    requires rows[FirstRow(rows, rows[k].artistName, ArtistField)].artistId.Numeric?
    ensures var g := RowGroups(rows, ArtistField);
            Lists.HasKey(Lists.AddAll(start, ArtistsOf(Completed(g.order, g, ids)), ArtistKey),
                         rows[FirstRow(rows, rows[k].artistName, ArtistField)].artistId.n, ArtistKey)
  {
    var g := RowGroups(rows, ArtistField);
    var p := RowGroupCompleted(rows, ArtistField, ids, k);
    var done := Completed(g.order, g, ids);
    OfIndex(done, p);
    assert Lists.HasKey(ArtistsOf(done), done[p].0, ArtistKey) by {
      assert ArtistKey(ArtistsOf(done)[p]) == done[p].0;
    }
    Lists.AddAllKeys(start, ArtistsOf(done), ArtistKey);
  }

  /** After the album pass, the track of row `k` has the album titled on its
      row, with the album id of the first row with that title. */
  lemma RowAlbum(rows: seq<Row>, ids: set<int>, before: map<int, Option<Album>>, k: nat)
    requires RowIds(rows) <= ids && k < |rows| && rows[k].trackId in before
    requires rows[FirstRow(rows, rows[k].albumTitle, AlbumField)].albumId.Numeric?
    requires forall j :: 0 <= j < |rows| && rows[j].trackId == rows[k].trackId ==> rows[j].albumTitle == rows[k].albumTitle
    ensures var g := RowGroups(rows, AlbumField);
            AlbumsAt(g.order, g, ids, before)[rows[k].trackId] ==
              Some(Album(rows[FirstRow(rows, rows[k].albumTitle, AlbumField)].albumId.n, rows[k].albumTitle))
  {
    RowReaching(rows, AlbumField, ids, k);
  }

  /** ... and the album is registered under that id. */
  lemma RowAlbumRegistered(rows: seq<Row>, ids: set<int>, m: map<int, Album>, k: nat)
    requires RowIds(rows) <= ids && k < |rows|
    requires rows[FirstRow(rows, rows[k].albumTitle, AlbumField)].albumId.Numeric?
    ensures var g := RowGroups(rows, AlbumField);
            rows[FirstRow(rows, rows[k].albumTitle, AlbumField)].albumId.n in AlbumMapAfter(m, AlbumsOf(Completed(g.order, g, ids)))
  {
    var g := RowGroups(rows, AlbumField);
    var p := RowGroupCompleted(rows, AlbumField, ids, k);
    OfIndex(Completed(g.order, g, ids), p);
    AlbumMapKeeps(m, AlbumsOf(Completed(g.order, g, ids)), p);
  }

  /** Every album passed to `add_album` ends up with its id in the map. */
  lemma {:induction false} AlbumMapKeeps(m: map<int, Album>, xs: seq<Album>, p: nat)
    requires p < |xs|
    ensures xs[p].albumId in AlbumMapAfter(m, xs)
    decreases |xs|
  {
    if p < |xs| - 1 {
      var init := xs[..|xs| - 1];
      assert init[p] == xs[p];
      AlbumMapKeeps(m, init, p);
    }
  }

  /** A genre title with a numeric head, in a dict whose tails are indexed
      ids: its run completes, reaches the listed track and is registered. */
  lemma GenreRun(g: Groups, ids: set<int>, n: string, id: int) returns (i: nat)
    requires WellFormed(g) && TailsIn(g, ids)
    requires n in g.lists && |g.lists[n]| > 0 && g.lists[n][0].Numeric? && Numeric(id) in g.lists[n][1..]
    ensures i < |g.order| && g.order[i] == n
    ensures var run := RunGroup(ListOf(g, n), ids);
            run.Ran? && run.complete && run.entityId == g.lists[n][0].n && id in run.linked
  {
    var list := g.lists[n];
    var k :| 0 <= k < |list[1..]| && list[1..][k] == Numeric(id);
    assert list[k + 1] == Numeric(id);
    ListedLinked(g, ids, n);
    i := KeyPosition(g, n);
  }

  /** After the first pass every entry of the genre dict's tails is an
      indexed track id. */
  lemma GenreGroupsIndexed(rows: seq<Row>, ids: set<int>)
    requires RowIds(rows) <= ids
    ensures WellFormed(GenreGroups(rows)) && TailsIn(GenreGroups(rows), ids)
  {
    GenreGroupsShape(rows);
    TailsWiden(GenreGroups(rows), RowIds(rows), ids);
  }

  /** After the genre pass, every track listed under a genre title whose
      head is a number has that genre among its genres ... */
  lemma ListedGenre(g: Groups, ids: set<int>, before: map<int, seq<Genre>>, n: string, id: int)
    requires WellFormed(g) && TailsIn(g, ids) && id in before
    requires n in g.lists && |g.lists[n]| > 0 && g.lists[n][0].Numeric? && Numeric(id) in g.lists[n][1..]
    ensures Lists.HasKey(GenresAt(g.order, g, ids, before)[id], g.lists[n][0].n, GenreKey)
  {
    var i := GenreRun(g, ids, n, id);
    var p := ReachingHas(g.order, g, ids, id, i);
    var reached := Reaching(g.order, g, ids, id);
    OfIndex(reached, p);
    assert Lists.HasKey(GenresOf(reached), g.lists[n][0].n, GenreKey) by {
      assert GenreKey(GenresOf(reached)[p]) == g.lists[n][0].n;
    }
    Lists.AddAllKeys(before[id], GenresOf(reached), GenreKey);
  }

  /** ... and the genre is registered with the repository. */
  lemma ListedGenreRegistered(g: Groups, ids: set<int>, start: seq<Genre>, n: string, id: int)
    requires WellFormed(g) && TailsIn(g, ids)
    requires n in g.lists && |g.lists[n]| > 0 && g.lists[n][0].Numeric? && Numeric(id) in g.lists[n][1..]
    ensures Lists.HasKey(Lists.AddAll(start, GenresOf(Completed(g.order, g, ids)), GenreKey), g.lists[n][0].n, GenreKey)
  {
    var i := GenreRun(g, ids, n, id);
    var q := CompletedHas(g.order, g, ids, i);
    var done := Completed(g.order, g, ids);
    OfIndex(done, q);
    assert Lists.HasKey(GenresOf(done), g.lists[n][0].n, GenreKey) by {
      assert GenreKey(GenresOf(done)[q]) == g.lists[n][0].n;
    }
    Lists.AddAllKeys(start, GenresOf(done), GenreKey);
  }
}
