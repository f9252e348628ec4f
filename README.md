# Music catalogue core, modelled in Dafny

This project models the core of a small Flask music catalogue. The model
covers five parts:

- **The in-memory repository.** It keeps tracks in a list sorted by
  `insort_left`, with a `track_id -> Track` index beside it. It also holds
  users, artists, genres, reviews, and a dict of albums keyed by id. It
  answers scan queries by artist, album, genre and id list.
- **The review-link check.** Every repository runs this check before it
  stores a review.
- **The CSV loader.** One pass turns each parsed row into a track, adds it
  to the repository and groups the rows by artist, album and genre. Three
  more passes then build one entity per group, attach it to every listed
  track, and register it.
- **The User and Review entities.**
- **The service layer.** It registers users and reviews, builds the track
  dictionary with its integer mean rating, and makes the sorted name lists
  that the navigation links are built from.

Layout:

- `wrappers.dfy`: Option, Result and the exceptions the core raises.
- `text.dfy`: `lower`, `strip`, `replace`, string `<=`, and `sort`.
- `lists.dfy`: Python `in`, the guarded `append`, and `remove` on lists
  whose `__eq__` compares a key.
- `domainmodel.dfy`: User, Review, and minimal Track, Artist, Album and
  Genre.
- `repository.dfy`: the shared `add_review` check.
- `memory.dfy`: `MemoryRepository`, a class whose methods update its fields.
- `csvreader.dfy`: `read_csv_files` as imperative methods, each proved
  against a function that describes its result on values.
- `csvlinks.dfy`: what the wiring passes achieve for each row when every
  row's track is in the index.
- `services.dfy`: the services and the two corrections listed under
  Findings.

Track, Artist, Album and Genre are modelled minimally here, with only the
fields the core reads and writes. The model assumes the following about
them:

- equality is by id;
- `Track.add_genre` and `Track.add_review` skip duplicates, as User's own
  helpers do;
- tracks are ordered by `track_id`.

The comment at music/adapters/MemoryRepository.py:13 says "ordered by
date"; the model orders tracks by id instead.

## Model

| member | source | states |
|---|---|---|
| Memory.InsortLeft | music/adapters/MemoryRepository.py:31 | insertion into a sorted list keeps it sorted, adds one element, and the result is a permutation of the old list plus the new track |
| Memory.BisectLeft | music/adapters/MemoryRepository.py:149 | the binary search returns the boundary: every track before it has a smaller id, every track from it on has an id at least as large |
| Memory.InsortMembers | music/adapters/MemoryRepository.py:31 | after insertion, the list holds exactly the old tracks and the new one |
| Memory.IndexAfterInsort | music/adapters/MemoryRepository.py:30-32 | updating the list and the index together keeps two facts: every indexed id maps to a listed track with that id, and every listed track's id is indexed |
| Memory.MemoryRepository.constructor | music/adapters/MemoryRepository.py:15-22 | a new repository is empty in every field and satisfies the invariant |
| Memory.MemoryRepository.AddUser | music/adapters/MemoryRepository.py:24-25 | the user is appended and nothing else changes |
| Memory.MemoryRepository.GetUser | music/adapters/MemoryRepository.py:27-28 | returns a stored user with exactly that name; None exactly when no stored user has it |
| Memory.FirstUserNamed | music/adapters/MemoryRepository.py:28 | the position of the first user with the name, or the list length when none has it |
| Memory.MemoryRepository.AddTrack | music/adapters/MemoryRepository.py:30-32 | the invariant is kept, the list is the sorted insertion of the track, and the index maps its id to it |
| Memory.MemoryRepository.AddAlbum | music/adapters/MemoryRepository.py:34-36 | None changes nothing; otherwise the album is stored under its id, replacing any album with that id, and a new id joins the key order |
| Memory.MemoryRepository.AddArtist | music/adapters/MemoryRepository.py:38-40 | None and an artist already stored (same id) are ignored; the artist list never holds two artists with the same id |
| Memory.MemoryRepository.AddGenre | music/adapters/MemoryRepository.py:126-128 | the same for genres |
| Memory.MemoryRepository.GetTrack | music/adapters/MemoryRepository.py:42-50 | returns a track exactly when the id is indexed, and never raises; a returned track is listed and has that id; None means no listed track has the id |
| Memory.MemoryRepository.GetTracks | music/adapters/MemoryRepository.py:52-53 | the returned list is sorted by id |
| Memory.Filter | music/adapters/MemoryRepository.py:55-82 | a filter query returns matching listed tracks only, and it returns every matching track |
| Memory.FilterAppend | music/adapters/MemoryRepository.py:57-63 | the scan keeps list order: filtering a concatenation concatenates the results |
| Memory.FilterSorted | music/adapters/MemoryRepository.py:57-63 | the result of a query on the sorted list is sorted |
| Memory.MemoryRepository.GetTracksByArtist | music/adapters/MemoryRepository.py:55-68 | with `_` read as a space: AttributeError when some track has no artist (only ValueError is caught); otherwise the tracks whose artist has that name, in list order |
| Memory.MemoryRepository.GetTracksByAlbum | music/adapters/MemoryRepository.py:70-82 | with `_` read as a space: the tracks that have an album with that title, in list order; tracks without an album are skipped |
| Memory.MemoryRepository.GetNumberOfTracks | music/adapters/MemoryRepository.py:85-86 | the length of the track list |
| Memory.MemoryRepository.GetFirstTrack | music/adapters/MemoryRepository.py:88-93 | None exactly when the list is empty; otherwise a listed track whose id is the least |
| Memory.MemoryRepository.GetLastTrack | music/adapters/MemoryRepository.py:95-100 | None exactly when the list is empty; otherwise a listed track whose id is the greatest |
| Memory.PresentIds | music/adapters/MemoryRepository.py:104 | keeps exactly the requested ids that are indexed; a single id is kept exactly when it is indexed |
| Memory.PresentIdsAppend | music/adapters/MemoryRepository.py:104 | the kept ids keep their input order: the result for a concatenation is the results for the parts, concatenated |
| Memory.PresentIdsCount | music/adapters/MemoryRepository.py:102-108 | the number kept equals the number of present entries, repeats included |
| Memory.MemoryRepository.GetTracksById | music/adapters/MemoryRepository.py:102-108 | one indexed track per present id, in input order, so the length is the count of present ids; each one is listed and was asked for |
| Memory.FindGenreByName | music/adapters/MemoryRepository.py:112 | the first stored genre with that name; None exactly when no genre has it |
| Memory.MemoryRepository.GetTrackIdsForGenre | music/adapters/MemoryRepository.py:110-124 | empty when no stored genre has the name; otherwise the ids of the tracks whose genres contain the first such genre, in list order |
| Memory.MemoryRepository.TrackIdsWithGenre | music/adapters/MemoryRepository.py:115-119 | the loop returns the ids of the tracks carrying the genre, in list order |
| Memory.MemoryRepository.GetAlbums | music/adapters/MemoryRepository.py:136-137 | the album dict's values in key order: one album per key, and every stored album is among them |
| Memory.MemoryRepository.AddReview | music/adapters/MemoryRepository.py:139-142 | the result is the shared link check's result; on failure the review list is unchanged, on success exactly this review is appended |
| Memory.MemoryRepository.TrackIndex | music/adapters/MemoryRepository.py:148-152 | returns the leftmost position of a track with that id; ValueError exactly when no listed track has the id |
| Repository.CheckReviewLinks | music/adapters/Repository.py:133-141 | passes exactly when the review is in its user's reviews and in its track's reviews; otherwise RepositoryException; the user link is checked before the track link |
| Repository.NoUserIsRejected | music/adapters/Repository.py:138-139 | a review without a user is refused for its user link, whatever its track |
| DomainModel.NormalizeName | music/domainmodel/user.py:8-11 | a string name is kept with no ASCII capitals and with no character that `str.isspace` accepts at either end; a non-string becomes None |
| DomainModel.NormalizeNameIdempotent | music/domainmodel/user.py:8-11 | a stored name is already in normal form |
| DomainModel.CheckPassword | music/domainmodel/user.py:13-16 | the password is kept exactly when it is a string of at least seven characters; otherwise None, without raising |
| DomainModel.User.constructor | music/domainmodel/user.py:6-19 | the normalised name, the checked password, and empty review and liked-track lists |
| DomainModel.User.AddReview | music/domainmodel/user.py:33-36 | the review is added unless an equal one is there |
| DomainModel.User.RemoveReview | music/domainmodel/user.py:38-41 | the first equal review is removed; no change when there is none |
| DomainModel.User.AddLikedTrack | music/domainmodel/user.py:47-50 | a non-track and a track already liked are ignored; otherwise the track is appended |
| DomainModel.User.RemoveLikedTrack | music/domainmodel/user.py:52-55 | a non-track and an absent track change nothing; otherwise the first equal track is removed |
| DomainModel.UserLess | music/domainmodel/user.py:65-68 | compares the names; TypeError exactly when one of them is None |
| DomainModel.UserOrderTrichotomy | music/domainmodel/user.py:60-68 | for named users, equal users are not less than each other, and between two unequal users exactly one is less |
| DomainModel.Review.constructor | music/domainmodel/review.py:7-19 | the stored track, user and rating, for a rating in [1,5] |
| DomainModel.NewReview | music/domainmodel/review.py:7-19 | succeeds exactly when the rating is in [1,5], and then the review holds that rating; otherwise ValueError |
| DomainModel.Review.SetRating | music/domainmodel/review.py:33-39 | a valid rating is stored; an invalid one clears the rating and then raises ValueError |
| DomainModel.ReviewKeyIsEquality | music/domainmodel/review.py:41-44 | review equality is equality of the track and the user, with the rating ignored |
| DomainModel.Track.AddGenre | music/adapters/csv_reader.py:114 | the genre is added unless a genre with its id is there |
| DomainModel.Track.AddReview | music/utilities/services.py:150 | the review is added unless an equal one is there |
| Lists.AddIfAbsent | music/domainmodel/user.py:33-36 | the element is present afterwards, and the old list is a prefix of the result, which is at most one longer |
| Lists.AddIfAbsentKeys | music/domainmodel/user.py:33-36 | the keys afterwards are the old keys plus the element's key, and a list without duplicates stays without them |
| Lists.AddIfAbsentIdempotent | music/domainmodel/user.py:33-36 | adding twice is adding once |
| Lists.AddAllKeys | music/adapters/csv_reader.py:93 | after repeated guarded appends, the keys are the old ones and the added ones, and a list without duplicates stays without them |
| Lists.IndexOf | music/domainmodel/user.py:41 | the position of the first equal element, or the length when there is none |
| Lists.RemoveFirst | music/domainmodel/user.py:38-41 | no equal element means no change; otherwise the list loses one element and no key appears that was not there; a list without duplicates no longer holds the element |
| Lists.RemoveUndoesAdd | music/domainmodel/user.py:33-41 | removing an element just added restores the list |
| Text.Lower | music/domainmodel/user.py:9 | the same length, with each ASCII capital lowered and every other character kept |
| Text.Strip | music/domainmodel/user.py:9 | the longest runs of `str.isspace` characters (ASCII whitespace, U+001C-U+001F, NEL, NO-BREAK SPACE, U+1680, U+2000-U+200A, U+2028, U+2029, U+202F, U+205F, U+3000) are cut off both ends and nothing else is removed |
| Text.Normalize | music/domainmodel/user.py:9 | no ASCII capitals and no `str.isspace` character at either end, and no longer than the input |
| Text.NormalizeIdempotent | music/domainmodel/user.py:9 | normalising twice is normalising once |
| Text.Replace | music/adapters/MemoryRepository.py:62 | the same length, with every occurrence of one character replaced by the other |
| Text.ReplaceRoundTrip | music/utilities/services.py:67 | replacing a character by one that is absent, then back, restores the string |
| Text.ReplaceRemoves | music/utilities/services.py:57 | no replaced character is left |
| Text.LessEqTotal | music/domainmodel/user.py:68 | any two strings are ordered one way or the other |
| Text.LessEqAntisymmetric | music/domainmodel/user.py:68 | strings ordered both ways are equal |
| Text.LessEqTransitive | music/domainmodel/user.py:68 | the string order is transitive |
| Text.Sort | music/utilities/services.py:58 | `list.sort` returns a sorted permutation of its input |
| Text.SortedPermutationUnique | music/utilities/services.py:58 | a sorted permutation is unique, so any correct sort agrees with `Sort` |
| CsvReader.ExtractGenres | music/adapters/csv_reader.py:24-35 | the parsed list exactly when the cell parses; None for an empty cell and for one that does not parse |
| CsvReader.CreateTrack | music/adapters/csv_reader.py:15-22 | a new track with the row's id, title, url and duration and no links |
| CsvReader.FirstIdWins | music/adapters/csv_reader.py:76-84 | a name has a list exactly when some row carries it; the list's head is the id on the first such row, followed by the track ids of all rows with that name, in row order |
| CsvReader.TrackIdsNamedExact | music/adapters/csv_reader.py:76-84 | a list's entries after the head are exactly the track ids of the rows with that name |
| CsvReader.RowGroupsShape | music/adapters/csv_reader.py:76-84 | each artist or album name is listed once in key order, and every entry after a head is a track id of the rows |
| CsvReader.Enter | music/adapters/csv_reader.py:76-79 | a new name gets its first id and the track id; a known name gets the track id appended; other names are unchanged |
| CsvReader.GenreRecsShape | music/adapters/csv_reader.py:68-72 | one row's genre walk only appends the track id to lists or adds new titles after the old ones |
| CsvReader.GroupGenres | music/adapters/csv_reader.py:67-74 | the loop over one row's genre dicts gives the dict that the walk describes, including the early stop when a key is missing |
| CsvReader.GenreGroupsShape | music/adapters/csv_reader.py:66-74 | each genre title is listed once, and every entry after a head is a track id of the rows |
| CsvReader.UnparsedGenresStillGrouped | music/adapters/csv_reader.py:66-84 | a row whose genre cell is empty or unparsable adds no genre entry, yet its artist and album are grouped |
| CsvReader.StoredLookup | music/adapters/csv_reader.py:61-64 | after the first pass the index holds the old ids and the rows' ids; each row id maps to the track of the last row with that id, and every other id keeps its track |
| CsvReader.StoredValues | music/adapters/csv_reader.py:61-64 | the index afterwards holds only old tracks and tracks made from the rows |
| CsvReader.StoreTrack | music/adapters/csv_reader.py:62-64 | one new track, built from the row, is inserted into the sorted track list at its `bisect.insort_left` position and indexed under its id |
| CsvReader.GroupRow | music/adapters/csv_reader.py:66-84 | the three dicts after one more row are those the row functions describe |
| CsvReader.LoadRow | music/adapters/csv_reader.py:61-84 | one iteration of the first pass: the new track is inserted at its `insort_left` position and indexed, and the row is entered in the three dicts |
| CsvReader.FirstPass | music/adapters/csv_reader.py:61-84 | every row's new track is added before any wiring: the track list holds exactly the old tracks and the new ones (as a multiset) and the index maps each row's id to its track; the three dicts are the row groupings |
| CsvReader.FreshLinks | music/adapters/csv_reader.py:61-64 | after the first pass the rows' tracks have no artist, no album and no genres, and every other track keeps its links |
| CsvReader.LoadRows | music/adapters/csv_reader.py:61-84 | the first pass with what it means for links: the track list holds exactly the old tracks and the new ones, the new tracks carry their row's fields and a known video, with empty links, and other tracks are unchanged |
| CsvReader.Reach | music/adapters/csv_reader.py:90-92 | the inner loop reaches no more entries than it is given, and it completes exactly when it reaches all of them |
| CsvReader.ReachShape | music/adapters/csv_reader.py:90-92 | the reached ids are the leading entries that are numbers naming indexed tracks; the loop stops early exactly at the first entry that is not |
| CsvReader.RunGroup | music/adapters/csv_reader.py:87-95 | a group is skipped exactly when its list is empty or its head is not a number; otherwise the entity id is the head |
| CsvReader.SetArtist | music/adapters/csv_reader.py:90-92 | the reached tracks get the artist and all other tracks keep theirs; reports whether the loop completed |
| CsvReader.SetAlbum | music/adapters/csv_reader.py:101-103 | the reached tracks get the album and all other tracks keep theirs |
| CsvReader.AddGenreTo | music/adapters/csv_reader.py:112-114 | each reached track gains the genre once; all other tracks keep their genres |
| CsvReader.RunArtistGroup | music/adapters/csv_reader.py:87-95 | a skipped group changes nothing; a group that stops early has linked the tracks it reached but does not register its artist; a completed group registers it |
| CsvReader.RunAlbumGroup | music/adapters/csv_reader.py:98-106 | the same for albums, registered by id |
| CsvReader.RunGenreGroup | music/adapters/csv_reader.py:109-117 | the same for genres |
| CsvReader.WireStep | music/adapters/csv_reader.py:86-95 | one more group adds its entity to the registered ones exactly when its run completes |
| CsvReader.ReachingStep | music/adapters/csv_reader.py:86-95 | one more group reaches a track only if its run linked it; later groups still run after a failed one |
| CsvReader.ArtistPassStep | music/adapters/csv_reader.py:86-95 | one more completed group adds its artist to the repository list, guarded against duplicates |
| CsvReader.FinalArtistStep | music/adapters/csv_reader.py:90-92 | the last group that reached a track decides its artist |
| CsvReader.AlbumPassStep | music/adapters/csv_reader.py:97-106 | one more completed group stores its album under its id |
| CsvReader.GenrePassStep | music/adapters/csv_reader.py:108-117 | one more completed group adds its genre to the repository list, once |
| CsvReader.TrackGenresStep | music/adapters/csv_reader.py:112-114 | a group that reached a track adds its genre to that track once |
| CsvReader.WireArtistGroup | music/adapters/csv_reader.py:87-95 | one artist group moves the repository's artists and the tracks' artists one group further |
| CsvReader.WireArtists | music/adapters/csv_reader.py:86-95 | the artist pass registers the artists of the completed groups and sets each track's artist to the last group that reached it; album and genre links are unchanged |
| CsvReader.WireAlbumGroup | music/adapters/csv_reader.py:98-106 | one album group moves the album map, its key order and the tracks' albums one group further |
| CsvReader.WireAlbums | music/adapters/csv_reader.py:97-106 | the album pass stores the albums of the completed groups by id and sets each track's album to the last group that reached it; other links are unchanged |
| CsvReader.WireGenreGroup | music/adapters/csv_reader.py:109-117 | one genre group moves the repository's genres and the tracks' genres one group further |
| CsvReader.WireGenres | music/adapters/csv_reader.py:108-117 | the genre pass registers the genres of the completed groups, and each track gains the genre of every group that reached it, once |
| CsvReader.WireAlbumsGenres | music/adapters/csv_reader.py:97-117 | the album pass and then the genre pass, with the track list, the index and the artists unchanged |
| CsvReader.WireAll | music/adapters/csv_reader.py:86-117 | the three wiring passes in turn, with the track list and the index unchanged |
| CsvReader.ReadCsvFiles | music/adapters/csv_reader.py:52-117 | the whole load: one new track per row is indexed and the track list holds exactly the old tracks and the new ones; only the repository's track, album, artist and genre fields and the tracks' artist, album and genre links change; artists, albums and genres are registered for the completed groups; each track's links are those the passes give, starting from empty links for the rows' tracks |
| CsvLinks.ReachAll | music/adapters/csv_reader.py:90-92 | when every entry is an indexed track id, the loop completes and reaches them all |
| CsvLinks.ListedLinked | music/adapters/csv_reader.py:88-93 | a group with a numeric head whose other entries are indexed track ids completes, with the head as the entity id, and links every listed track |
| CsvLinks.ReachingHas | music/adapters/csv_reader.py:86-95 | a group that reached a track is among the groups reaching it |
| CsvLinks.CompletedHas | music/adapters/csv_reader.py:86-95 | a group whose run completed is among the registered ones |
| CsvLinks.ReachingOnly | music/adapters/csv_reader.py:86-95 | when exactly one group reaches a track, that group alone decides its link |
| CsvLinks.RowGroupLinked | music/adapters/csv_reader.py:76-93 | when every row's track is indexed, the group of a row's name completes, with the first row's id as the entity id, and it links that row's track |
| CsvLinks.RowReaching | music/adapters/csv_reader.py:86-95 | a row's track is reached by its own group only, when no row with the same track id carries another name |
| CsvLinks.RowGroupCompleted | music/adapters/csv_reader.py:86-95 | the group of a row's name, when its head is a number, is among the registered groups |
| CsvLinks.RowArtist | music/adapters/csv_reader.py:88-92 | after the artist pass, a row's track has the artist named on its row, with the id from the first row naming that artist |
| CsvLinks.RowArtistRegistered | music/adapters/csv_reader.py:93 | that artist id is registered with the repository |
| CsvLinks.RowAlbum | music/adapters/csv_reader.py:99-103 | after the album pass, a row's track has the album titled on its row, with the id from the first row with that title |
| CsvLinks.RowAlbumRegistered | music/adapters/csv_reader.py:104 | that album is stored under its id |
| CsvLinks.AlbumMapKeeps | music/adapters/csv_reader.py:104 | every album passed to `add_album` ends with its id in the map |
| CsvLinks.GenreRun | music/adapters/csv_reader.py:110-115 | a genre title with a numeric head completes and links each track listed under it |
| CsvLinks.GenreGroupsIndexed | music/adapters/csv_reader.py:66-74 | when the rows' tracks are indexed, the genre dict is well formed and its entries after the heads are indexed ids |
| CsvLinks.ListedGenre | music/adapters/csv_reader.py:110-114 | after the genre pass, every track listed under a title with a numeric head has that genre |
| CsvLinks.ListedGenreRegistered | music/adapters/csv_reader.py:115 | and that genre is registered with the repository |
| Services.GetRandomVideo | music/utilities/services.py:153-166 | one of the ten fixed video ids |
| Services.AddUser | music/utilities/services.py:26-35 | NameNotUniqueException, with nothing added, when the repository finds the name as given; otherwise exactly one new user is appended, with the normalised name and the checked hash |
| Services.AddUserAdmitsDuplicate | music/utilities/services.py:26-35 | with "dave" stored, the lookup of "Dave" finds nobody, yet "Dave" normalises to the stored name |
| Services.AddUserNormalized | music/utilities/services.py:26-35 | the corrected check looks up the normalised name, so distinct stored names stay distinct |
| Services.UserToDict | music/utilities/services.py:124-129 | the dictionary carries the user's name and password |
| Services.GetUser | music/utilities/services.py:38-43 | UnknownUserException exactly when no user has the name; otherwise the dictionary of a user with that name |
| Services.MakeReview | music/utilities/services.py:147-151 | a rating outside [1,5] gives ValueError and nothing changes; otherwise the new review is linked from its user and its track, so the repository check passes |
| Services.AddReview | music/utilities/services.py:106-117 | an unknown track raises first, then an unknown user; a bad rating is swallowed and stores nothing; otherwise exactly one new, linked review with that rating is stored and appended (unless already present) to the found user's and track's review lists; no other user's or track's reviews change |
| Services.TruncDiv | music/utilities/services.py:138 | division cut toward zero, as `int()` of a quotient does |
| Services.SumBounds | music/utilities/services.py:138 | a sum of values within bounds is within the bounds times the count |
| Services.MeanRatingInRange | music/utilities/services.py:138 | with every rating in [1,5], the truncated mean is in [1,5] |
| Services.Ratings | music/utilities/services.py:138 | the ratings in review order; None exactly when some review has no rating |
| Services.TrackToDict | music/utilities/services.py:131-141 | the track's fields with rating 0 when there are no reviews; TypeError exactly when a rating is missing; with valid ratings the rating is in [1,5] |
| Services.NameIndex | music/utilities/services.py:59-61 | the dict's keys: each name once, and a sorted input gives sorted keys |
| Services.SortedLinkKeys | music/utilities/services.py:58-61 | exactly the given names, each once, sorted |
| Services.GenreNames | music/utilities/services.py:55-63 | the genres' names with spaces turned to `-`, each once, sorted |
| Services.ArtistNames | music/utilities/services.py:65-73 | the artists' names with spaces turned to `_`, each once, sorted |
| Services.AlbumNames | music/utilities/services.py:75-83 | the stored albums' titles with spaces turned to `_`, each once, sorted |
| Services.ArtistLinkRoundTrip | music/utilities/services.py:67 | for a name without `_`, the repository's `_`-to-space query on the link finds the same tracks as the name itself |
| Services.AlbumLinkRoundTrip | music/utilities/services.py:77 | the same for album titles |
| Services.GenreLinkMissesSpacedName | music/utilities/services.py:57 | when no genre name has `-`, a genre whose name has a space is not found from its own link |
| Services.FindGenreByLink | music/adapters/MemoryRepository.py:112 | the corrected lookup: the first genre whose link name matches; None exactly when none does |
| Services.GenreLinkResolves | music/utilities/services.py:57 | with the corrected lookup, every stored genre's link resolves, and to that genre when no two genres share a link name |
| Services.TrackIdsForGenreLink | music/adapters/MemoryRepository.py:110-124 | the genre query reached from a link, through the corrected lookup |

## Left out

- The SQL repository (music/adapters/database_repository.py) and its ORM
  mapping (music/adapters/orm.py) are not part of this model. They are
  meant to meet the same contract as the in-memory repository, and
  `Repository.CheckReviewLinks` is the part of that contract they share.
- Flask, `url_for`, the route handlers and the page clamping are not
  modelled. The name lists are the dict keys without the URLs.
- Reading the CSV file (`read_tracks_file`) and `populate` are not
  modelled. The rows arrive already parsed.
- `ast.literal_eval` is not modelled. Its result is given as a genre field
  that is empty, unparsable, or a list of dicts. A literal that parses to
  something other than a list is not represented.
- The `print` calls in `extract_genres` are left out.
- CsvReader.CreateTrack takes the duration as an optional integer, so
  `round(float(...))` is not modelled. A row's track id is already an
  integer; an `int()` failure there is outside every `try` and would abort
  the whole load.
- CsvReader.ReadCsvFiles models the video pick as an arbitrary member of
  the fixed list. It is not random.
- Password hashing and `authenticate_user` are foreign calls. The hash
  arrives as a parameter.
- Text.Lower: lowers only the ASCII capitals A-Z; `str.lower` on other
  scripts is not modelled. Text.Strip removes every character `str.isspace`
  accepts.
- `Review` and `User.__lt__` take a Python object of any type. The model
  uses Track?/User? (null stands for "not a Track/User") and an Option
  name. It does not model a `bool` passed as a rating, nor `__lt__`
  answering True for a non-User.
- Memory.MemoryRepository.GetAlbums returns the dict's values. The source
  returns the dict itself, and `get_album_names_and_urls`
  (music/utilities/services.py:76-77) then iterates its int keys and reads
  `.title` of each. In memory mode that raises AttributeError as soon as
  any album is stored. Services.AlbumNames models the evident intent over
  the albums instead, and does not model that exception.
- Services.TrackToDict uses integer division cut toward zero. The source
  divides in floating point and then truncates, which is not modelled.
- The pass-through services are not modelled separately: `get_all_tracks`,
  `get_tracks_for_artist`, `get_tracks_for_album`, `get_tracks_by_id`,
  `get_track_ids_for_genre` and `tracks_to_dict`. Each one calls a modelled
  member.
- CsvLinks.RowArtist and CsvLinks.RowAlbum need two assumptions: every
  row's track is indexed, and no two rows with the same track id name
  different artists (or albums). Without the second, the last group to
  reach the track wins, as CsvReader.FinalArtistStep states.

## Findings

| source | as written | input that shows it | evidently intended | confidence | as-written member | corrected member |
|---|---|---|---|---|---|---|
| music/utilities/services.py:28-34 | the uniqueness check looks up the name as given, but User stores it lower-cased and stripped | register "dave", then "Dave": the lookup of "Dave" finds nobody and a second "dave" is stored | check the name in the form it will be stored | not executed | Services.AddUserAdmitsDuplicate | Services.AddUserNormalized |
| music/utilities/services.py:57 | genre links turn spaces into `-`, but `get_track_ids_for_genre` compares the link with the raw names | a genre "Old Time" gets the link "Old-Time", which matches no stored name | match the link against the genres' link names | not executed | Services.GenreLinkMissesSpacedName | Services.TrackIdsForGenreLink |
