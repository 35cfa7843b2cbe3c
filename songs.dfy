/** The song routes: the public catalogue queries, plays and likes, and the
    artist's owner-scoped create, update and delete. */
module Songs {
  import opened Common
  import opened Collections
  import opened Models
  import opened Store
  import ArtistAuth

  // ================================================================ matching

  function Lower(c: char): char {
    if 'A' <= c <= 'Z' then (c as int + 32) as char else c
  }

  function LowerStr(s: string): (r: string)
    ensures |r| == |s|
  {
    seq(|s|, i requires 0 <= i < |s| => Lower(s[i]))
  }

  /** `needle` occurs in `hay` starting at offset `i`. */
  predicate OccursAt(hay: string, needle: string, i: int) {
    0 <= i <= |hay| - |needle| && hay[i..i + |needle|] == needle
  }

  /** `needle` occurs in `hay` as a contiguous piece. */
  predicate Contains(hay: string, needle: string) {
    exists i | 0 <= i <= |hay| - |needle| :: OccursAt(hay, needle, i)
  }

  /** A case-insensitive match of `pattern` somewhere in `field`. */
  predicate MatchesCI(field: string, pattern: string) {
    Contains(LowerStr(field), LowerStr(pattern))
  }

  predicate OptionalMatchesCI(field: Option<string>, pattern: string) {
    field.Some? && MatchesCI(field.value, pattern)
  }

  /** The catalogue listing's filter: published; a non-empty `search` must
      match the title, the artist or the album; a non-empty `genre` must be
      the song's genre exactly. */
  predicate Listed(s: Song, search: Option<string>, genre: Option<string>) {
    && s.status == Published
    && (Given(search) ==>
          MatchesCI(s.title, search.value) || MatchesCI(s.artist, search.value)
          || OptionalMatchesCI(s.album, search.value))
    && (Given(genre) ==> s.genre == genre)
  }

  /** The search route's filter: published, and `q` matches the title or the
      artist. The album is not searched. */
  predicate Searched(s: Song, q: string) {
    s.status == Published && (MatchesCI(s.title, q) || MatchesCI(s.artist, q))
  }

  /** Folding case twice is folding it once. */
  lemma LowerStrIdempotent(s: string)
    ensures LowerStr(LowerStr(s)) == LowerStr(s)
  {
    var t := LowerStr(s);
    forall i | 0 <= i < |s| ensures LowerStr(t)[i] == t[i] {
      assert t[i] == Lower(s[i]);
    }
  }

  /** The match ignores case on both sides, and an empty pattern matches
      every field. */
  lemma MatchIgnoresCase(field: string, pattern: string)
    ensures MatchesCI(field, pattern) == MatchesCI(LowerStr(field), pattern)
    ensures MatchesCI(field, pattern) == MatchesCI(field, LowerStr(pattern))
    ensures MatchesCI(field, "")
  {
    LowerStrIdempotent(field);
    LowerStrIdempotent(pattern);
    assert OccursAt(LowerStr(field), LowerStr(""), 0);
  }

  /** Without a search text or a genre (or with empty ones), the listing
      shows every published song. */
  lemma UnfilteredListingIsPublished(s: Song)
    ensures Listed(s, None, None) <==> s.status == Published
    ensures Listed(s, Some(""), Some("")) <==> s.status == Published
  {
  }

  /** The search route's filter is the listing's for the same text without
      the album: whatever the search finds the listing finds, and what only
      the listing finds matches in its album alone. */
  lemma SearchIsListingWithoutAlbum(s: Song, q: string)
    requires q != ""
    ensures Searched(s, q) ==> Listed(s, Some(q), None)
    ensures Listed(s, Some(q), None) && !Searched(s, q) ==>
      OptionalMatchesCI(s.album, q) && !MatchesCI(s.title, q) && !MatchesCI(s.artist, q)
  {
  }

  /** Sort key of the listing and of an artist's songs: play count. */
  function ByPlays(e: Entry<Song>): Rank {
    (e.doc.playCount, 0)
  }

  /** Sort key of the popular list: play count, then likes. */
  function ByPopularity(e: Entry<Song>): Rank {
    (e.doc.playCount, e.doc.likes)
  }

  // ================================================================ queries

  /** Number of pages of `d` items needed for `n` items (Math.ceil(n / d)). */
  function CeilDiv(n: nat, d: nat): (q: nat)
    requires d > 0
    ensures (q - 1) * d < n <= q * d
  {
    var q := (n + d - 1) / d;
    assert q * d + (n + d - 1) % d == n + d - 1;
    q
  }

  /** Every song the listing's filter selects, each once. */
  ghost function ListMatches(songs: map<Id, Song>, search: Option<string>, genre: Option<string>): (r: seq<Entry<Song>>)
    ensures forall e :: e in r <==> e.id in songs && songs[e.id] == e.doc && Listed(e.doc, search, genre)
    ensures DistinctIds(r)
  {
    var all := Scan(songs);
    var p := (e: Entry<Song>) => Listed(e.doc, search, genre);
    FilterDistinct(all, p);
    Filter(all, p)
  }

  datatype ListQuery = ListQuery(search: Option<string>, genre: Option<string>, limit: Option<nat>, page: Option<nat>)

  datatype SongPage = SongPage(songs: seq<Entry<Song>>, totalPages: Option<nat>, currentPage: nat, total: nat)

  /** The offset of the listing's window: past `page - 1` full pages, so
      that the window of `limit` songs ends at `page * limit`. */
  function Offset(page: nat, limit: nat): (skip: nat)
    requires page > 0 || limit == 0
    ensures limit > 0 ==> skip + limit == page * limit
  {
    if limit == 0 then 0 else (page - 1) * limit
  }

  /** The listing's matches in the order the listing shows them. */
  ghost function Ordered(songs: map<Id, Song>, search: Option<string>, genre: Option<string>): seq<Entry<Song>> {
    SortDesc(ListMatches(songs, search, genre), ByPlays)
  }

  /** GET /songs. Limit and page default to 20 and 1. The matches are ordered
      by play count, highest first; the page is the window of `limit` songs
      at offset `(page - 1) * limit`. A limit of 0 is the store's "no limit";
      the page count is then Infinity or NaN, which JSON writes as null. A
      page of 0 with a positive limit asks the store for a negative offset,
      which it rejects. */
  ghost function List(songs: map<Id, Song>, q: ListQuery): (r: Result<SongPage>)
    ensures r.Err? <==> q.page.GetOr(1) == 0 && q.limit.GetOr(20) > 0
    ensures r.Err? ==> r.failure == BadRequest(Invalid)
    ensures r.Ok? ==>
      var limit := q.limit.GetOr(20);
      var ordered := Ordered(songs, q.search, q.genre);
      && r.value.total == |ListMatches(songs, q.search, q.genre)|
      && r.value.currentPage == q.page.GetOr(1)
      && (limit == 0 ==> r.value.totalPages == None && r.value.songs == ordered)
      && (limit > 0 ==>
            var skip := Offset(q.page.GetOr(1), limit);
            && r.value.totalPages == Some(CeilDiv(r.value.total, limit))
            && |r.value.songs| == Max(0, Min(limit, |ordered| - skip))
            && forall i :: 0 <= i < |r.value.songs| ==> r.value.songs[i] == ordered[skip + i])
  {
    var limit := q.limit.GetOr(20);
    var page := q.page.GetOr(1);
    if page == 0 && limit > 0 then Err(BadRequest(Invalid))
    else
      var total := |ListMatches(songs, q.search, q.genre)|;
      var ordered := Ordered(songs, q.search, q.genre);
      if limit == 0 then Ok(SongPage(ordered, None, page, total))
      else Ok(SongPage(Window(ordered, Offset(page, limit), limit), Some(CeilDiv(total, limit)), page, total))
  }

  /** A listing page holds at most `limit` songs, each a published match of
      the filter, ordered by play count from highest to lowest. */
  lemma ListPageIsOrderedMatches(songs: map<Id, Song>, q: ListQuery)
    requires List(songs, q).Ok?
    ensures var page := List(songs, q).value.songs;
      && (q.limit.GetOr(20) > 0 ==> |page| <= q.limit.GetOr(20))
      && SortedDesc(page, ByPlays)
      && forall e :: e in page ==>
           e.id in songs && songs[e.id] == e.doc && e.doc.status == Published && Listed(e.doc, q.search, q.genre)
  {
    var limit := q.limit.GetOr(20);
    var ordered := Ordered(songs, q.search, q.genre);
    if limit > 0 {
      WindowOfSorted(ordered, ByPlays, Offset(q.page.GetOr(1), limit), limit);
    }
  }

  /** `total` is the number of matching documents in the store, not the size
      of the page. */
  lemma ListTotalCountsMatches(songs: map<Id, Song>, q: ListQuery)
    requires List(songs, q).Ok?
    ensures List(songs, q).value.total == |set k | k in songs && Listed(songs[k], q.search, q.genre)|
  {
    var matches := ListMatches(songs, q.search, q.genre);
    DistinctIdsCount(matches);
    assert IdSet(matches) == set k | k in songs && Listed(songs[k], q.search, q.genre) by {
      forall k | k in songs && Listed(songs[k], q.search, q.genre) ensures k in IdSet(matches) {
        assert Entry(k, songs[k]) in matches;
      }
    }
  }

  /** GET /songs/search: a missing or empty `q` is refused before any lookup;
      otherwise every published song whose title or artist matches, each once. */
  ghost function Search(songs: map<Id, Song>, q: Option<string>): (r: Result<seq<Entry<Song>>>)
    ensures r.Err? <==> !Given(q)
    ensures r.Err? ==> r.failure == BadRequest(QueryRequired)
    ensures r.Ok? ==> DistinctIds(r.value)
    ensures r.Ok? ==> forall e :: e in r.value <==>
      e.id in songs && songs[e.id] == e.doc && e.doc.status == Published
      && (MatchesCI(e.doc.title, q.value) || MatchesCI(e.doc.artist, q.value))
  {
    if !Given(q) then Err(BadRequest(QueryRequired))
    else
      var all := Scan(songs);
      var p := (e: Entry<Song>) => Searched(e.doc, q.value);
      FilterDistinct(all, p);
      Ok(Filter(all, p))
  }

  /** Every published song the store holds, each once. */
  ghost function PublishedSongs(songs: map<Id, Song>): (r: seq<Entry<Song>>)
    ensures forall e :: e in r <==> e.id in songs && songs[e.id] == e.doc && e.doc.status == Published
    ensures DistinctIds(r)
  {
    var all := Scan(songs);
    var p := (e: Entry<Song>) => e.doc.status == Published;
    FilterDistinct(all, p);
    Filter(all, p)
  }

  /** GET /songs/popular: the 20 published songs with the most plays, ties
      broken by likes. */
  ghost function Popular(songs: map<Id, Song>): (r: seq<Entry<Song>>)
    ensures |r| == Min(20, |PublishedSongs(songs)|)
    ensures SortedDesc(r, ByPopularity)
    ensures multiset(r) <= multiset(PublishedSongs(songs))
    ensures DistinctIds(r)
    ensures forall e :: e in r ==> e.id in songs && songs[e.id] == e.doc && e.doc.status == Published
    ensures forall e, d :: e in r && d in PublishedSongs(songs) && d !in r ==>
      RankLe(ByPopularity(d), ByPopularity(e))
  {
    var published := PublishedSongs(songs);
    TopK(published, ByPopularity, 20);
    TopKDistinct(published, ByPopularity, 20);
    var top := Take(SortDesc(published, ByPopularity), 20);
    assert forall e :: e in top ==> e in published by {
      forall e | e in top ensures e in published {
        assert e in multiset(top);
      }
    }
    top
  }

  /** GET /songs/:id: found whatever its status; 404 only when absent. */
  function GetById(songs: map<Id, Song>, id: Id): (r: Result<Entry<Song>>)
    ensures r.Err? <==> id !in songs
    ensures r.Err? ==> r.failure == NotFound(SongNotFound)
    ensures r.Ok? ==> r.value == Entry(id, songs[id])
  {
    if id !in songs then Err(NotFound(SongNotFound)) else Ok(Entry(id, songs[id]))
  }

  // ================================================================ engagement

  /** One more play of a song; nothing else about it changes. */
  function CountPlay(s: Song): (r: Song)
    ensures r.playCount == s.playCount + 1
    ensures r.(playCount := s.playCount) == s
  {
    s.(playCount := s.playCount + 1)
  }

  /** One more entry at the end of a user's history; nothing else changes. */
  function AddToHistory(u: User, song: Id, at: nat): (r: User)
    ensures r.recentlyPlayed == u.recentlyPlayed + [PlayEvent(song, at)]
    ensures r.(recentlyPlayed := u.recentlyPlayed) == u
  {
    u.(recentlyPlayed := u.recentlyPlayed + [PlayEvent(song, at)])
  }

  /** The caller's account and the song after a like or unlike, and the
      `liked` flag of the reply. */
  datatype LikeOutcome = LikeOutcome(user: User, song: Song, liked: bool)

  /** POST /songs/:id/like: like the song if the caller has not, otherwise
      take the like back; the counter never falls below 0 on the way down. */
  function ToggleLike(u: User, s: Song, id: Id): (o: LikeOutcome)
    ensures o.liked == (id !in u.likedSongs)
    ensures o.user.(likedSongs := u.likedSongs) == u && o.song.(likes := s.likes) == s
    ensures o.liked ==> o.user.likedSongs == u.likedSongs + [id] && o.song.likes == s.likes + 1
    ensures !o.liked ==> o.user.likedSongs == RemoveAll(u.likedSongs, id) && o.song.likes == Max(0, s.likes - 1)
  {
    var isLiked := id in u.likedSongs;
    if isLiked then
      LikeOutcome(u.(likedSongs := RemoveAll(u.likedSongs, id)), s.(likes := Max(0, s.likes - 1)), !isLiked)
    else
      LikeOutcome(u.(likedSongs := u.likedSongs + [id]), s.(likes := s.likes + 1), !isLiked)
  }

  /** DELETE /songs/:id/like: drop the song from the caller's likes (if it is
      there) and decrement the counter down to 0 in any case. */
  function Unlike(u: User, s: Song, id: Id): (o: LikeOutcome)
    ensures !o.liked
    ensures o.user.(likedSongs := u.likedSongs) == u && o.song.(likes := s.likes) == s
    ensures id !in o.user.likedSongs
    ensures forall y :: y != id ==> (y in o.user.likedSongs <==> y in u.likedSongs)
    ensures o.song.likes == Max(0, s.likes - 1)
  {
    LikeOutcome(u.(likedSongs := RemoveAll(u.likedSongs, id)), s.(likes := Max(0, s.likes - 1)), false)
  }

  /** Liking and then toggling again restores both the caller's likes (order
      included) and the song's counter. */
  lemma ToggleLikeTwiceRestores(u: User, s: Song, id: Id)
    requires id !in u.likedSongs && s.likes >= 0
    ensures var once := ToggleLike(u, s, id);
      var twice := ToggleLike(once.user, once.song, id);
      once.liked && !twice.liked && twice.user == u && twice.song == s
  {
    AppendThenRemove(u.likedSongs, id);
  }

  /** Taking a like back keeps the other liked songs in their order. */
  lemma ToggleLikeKeepsOrder(u: User, s: Song, id: Id, before: seq<Id>, after: seq<Id>)
    requires u.likedSongs == before + [id] + after && id !in before && id !in after
    ensures ToggleLike(u, s, id).user.likedSongs == before + after
  {
    var front := before + [id];
    RemoveAllAppend(front, after, id);
    RemoveAllAppend(before, [id], id);
    RemoveAllAbsent(before, id);
    RemoveAllAbsent(after, id);
    assert RemoveAll([id], id) == [];
    assert RemoveAll(front, id) == before;
    assert id in u.likedSongs by {
      assert u.likedSongs[|before|] == id;
    }
  }

  /** Toggling keeps a user's likes free of duplicates and a non-negative
      counter non-negative. */
  lemma ToggleLikeKeepsInvariants(u: User, s: Song, id: Id)
    ensures NoDup(u.likedSongs) ==> NoDup(ToggleLike(u, s, id).user.likedSongs)
    ensures s.likes >= 0 ==> ToggleLike(u, s, id).song.likes >= 0
  {
    if NoDup(u.likedSongs) {
      if id in u.likedSongs {
        RemoveAllNoDup(u.likedSongs, id);
      } else {
        NoDupAppend(u.likedSongs, id);
      }
    }
  }

  /** Unliking keeps a user's likes free of duplicates and a non-negative
      counter non-negative. */
  lemma UnlikeKeepsInvariants(u: User, s: Song, id: Id)
    ensures NoDup(u.likedSongs) ==> NoDup(Unlike(u, s, id).user.likedSongs)
    ensures s.likes >= 0 ==> Unlike(u, s, id).song.likes >= 0
  {
    if NoDup(u.likedSongs) {
      RemoveAllNoDup(u.likedSongs, id);
    }
  }

  /** Unliking a song the caller never liked leaves the account as it was,
      yet still takes one from a positive counter. */
  lemma UnlikeWithoutLikeStillDecrements(u: User, s: Song, id: Id)
    requires id !in u.likedSongs && s.likes > 0
    ensures Unlike(u, s, id).user == u
    ensures Unlike(u, s, id).song.likes == s.likes - 1
  {
    RemoveAllAbsent(u.likedSongs, id);
  }

  // ================================================================ updates

  /** The body of PUT /songs/:id, written over the stored song field by
      field; absent fields keep their value. */
  datatype SongPatch = SongPatch(
    title: Option<string>,
    artist: Option<string>,
    album: Option<string>,
    duration: Option<int>,
    genre: Option<string>,
    albumArt: Option<string>,
    audioFile: Option<string>,
    fileUrl: Option<string>,
    coverArt: Option<string>,
    playCount: Option<int>,
    likes: Option<int>,
    createdBy: Option<Id>,
    status: Option<Status>)

  function Overwrite<T>(old_: T, patch: Option<T>): T {
    if patch.Some? then patch.value else old_
  }

  function ApplyPatch(s: Song, p: SongPatch): Song {
    Song(
      Overwrite(s.title, p.title),
      Overwrite(s.artist, p.artist),
      if p.album.Some? then p.album else s.album,
      Overwrite(s.duration, p.duration),
      if p.genre.Some? then p.genre else s.genre,
      if p.albumArt.Some? then p.albumArt else s.albumArt,
      if p.audioFile.Some? then p.audioFile else s.audioFile,
      if p.fileUrl.Some? then p.fileUrl else s.fileUrl,
      if p.coverArt.Some? then p.coverArt else s.coverArt,
      Overwrite(s.playCount, p.playCount),
      Overwrite(s.likes, p.likes),
      Overwrite(s.createdBy, p.createdBy),
      Overwrite(s.status, p.status))
  }

  const EmptyPatch := SongPatch(None, None, None, None, None, None, None, None, None, None, None, None, None)

  /** A patch writes exactly the fields it carries: an empty body changes
      nothing, applying the same body twice is applying it once, every field
      the body carries ends up with the body's value, and every field it
      lacks keeps the stored one. */
  lemma ApplyPatchOverwrites(s: Song, p: SongPatch)
    ensures ApplyPatch(s, EmptyPatch) == s
    ensures ApplyPatch(ApplyPatch(s, p), p) == ApplyPatch(s, p)
    ensures var r := ApplyPatch(s, p);
      && r.title == (if p.title.Some? then p.title.value else s.title)
      && r.artist == (if p.artist.Some? then p.artist.value else s.artist)
      && r.album == (if p.album.Some? then p.album else s.album)
      && r.duration == (if p.duration.Some? then p.duration.value else s.duration)
      && r.genre == (if p.genre.Some? then p.genre else s.genre)
      && r.albumArt == (if p.albumArt.Some? then p.albumArt else s.albumArt)
      && r.audioFile == (if p.audioFile.Some? then p.audioFile else s.audioFile)
      && r.fileUrl == (if p.fileUrl.Some? then p.fileUrl else s.fileUrl)
      && r.coverArt == (if p.coverArt.Some? then p.coverArt else s.coverArt)
      && r.playCount == (if p.playCount.Some? then p.playCount.value else s.playCount)
      && r.likes == (if p.likes.Some? then p.likes.value else s.likes)
      && r.createdBy == (if p.createdBy.Some? then p.createdBy.value else s.createdBy)
      && r.status == (if p.status.Some? then p.status.value else s.status)
  {
  }

  /** The update writes the body wholesale, so it can hand a song to another
      owner or set its counters below zero. */
  lemma PatchCanReassignOwner(s: Song, other: Id)
    ensures ApplyPatch(s, EmptyPatch.(createdBy := Some(other))).createdBy == other
    ensures ApplyPatch(s, EmptyPatch.(likes := Some(-1))).likes < 0
  {
  }

  /** The update runs the schema's validators on the fields it writes: a
      required string may not be set to the empty string. */
  predicate KeepsRequired(p: SongPatch) {
    p.title != Some("") && p.artist != Some("")
  }

  /** A patch leaves a valid song valid exactly when it passes the
      validators. */
  lemma PatchKeepsRequired(s: Song, p: SongPatch)
    requires SongRequired(s)
    ensures SongRequired(ApplyPatch(s, p)) <==> KeepsRequired(p)
  {
  }

  /** The body of POST /songs. */
  datatype SongBody = SongBody(
    title: Option<string>,
    artist: Option<string>,
    duration: Option<int>,
    genre: Option<string>,
    coverArt: Option<string>,
    fileUrl: Option<string>)

  /** The fields the create route passes to the schema: those of the body,
      with the caller as `createdBy`. */
  function CreationFields(b: SongBody, caller: Id): (f: SongFields)
    ensures NewSong(f).Some? <==> Given(b.title) && Given(b.artist) && b.duration.Some?
    ensures NewSong(f).Some? ==>
      && NewSong(f).value.createdBy == caller && NewSong(f).value.status == Published
      && NewSong(f).value.genre == b.genre && NewSong(f).value.fileUrl == b.fileUrl
      && NewSong(f).value.coverArt == b.coverArt
      && NewSong(f).value.album.None? && NewSong(f).value.albumArt.None? && NewSong(f).value.audioFile.None?
  {
    SongFields(b.title, b.artist, None, b.duration, b.genre, None, None, b.fileUrl, b.coverArt, Some(caller), None)
  }

  // ================================================================ handlers

  /** POST /songs/:id/play. */
  method PlaySong(store: Database, caller: Id, id: Id, now: nat) returns (r: Result<int>)
    requires store.Valid()
    modifies store
    ensures store.Valid()
    ensures id !in old(store.songs) ==> r == Err(NotFound(SongNotFound)) && unchanged(store)
    ensures id in old(store.songs) ==>
      && store.songs == old(store.songs)[id := CountPlay(old(store.songs[id]))]
      && store.users == (if caller in old(store.users)
                         then old(store.users)[caller := AddToHistory(old(store.users[caller]), id, now)]
                         else old(store.users))
      && store.playlists == old(store.playlists) && store.nextId == old(store.nextId)
      && r == Ok(store.songs[id].playCount)
  {
    if id !in store.songs {
      return Err(NotFound(SongNotFound));
    }
    var song := store.songs[id];
    song := song.(playCount := song.playCount + 1);
    store.PutSong(id, song);
    if caller in store.users {
      var user := store.users[caller];
      user := user.(recentlyPlayed := user.recentlyPlayed + [PlayEvent(id, now)]);
      store.PutUser(caller, user);
    }
    r := Ok(song.playCount);
  }

  datatype LikeReply = LikeReply(liked: bool, likes: int, likedSongs: seq<Id>)

  /** POST /songs/:id/like. A missing song is a 404 whatever the caller; a
      caller whose account is gone makes the handler fail with a 400. */
  method ToggleLikeSong(store: Database, caller: Id, id: Id) returns (r: Result<LikeReply>)
    requires store.Valid()
    modifies store
    ensures store.Valid()
    ensures id !in old(store.songs) ==> r == Err(NotFound(SongNotFound)) && unchanged(store)
    ensures id in old(store.songs) && caller !in old(store.users) ==>
      r == Err(BadRequest(Invalid)) && unchanged(store)
    ensures id in old(store.songs) && caller in old(store.users) ==>
      var o := ToggleLike(old(store.users[caller]), old(store.songs[id]), id);
      && store.users == old(store.users)[caller := o.user]
      && store.songs == old(store.songs)[id := o.song]
      && store.playlists == old(store.playlists) && store.nextId == old(store.nextId)
      && r == Ok(LikeReply(o.liked, o.song.likes, o.user.likedSongs))
  {
    if id !in store.songs {
      return Err(NotFound(SongNotFound));
    }
    if caller !in store.users {
      return Err(BadRequest(Invalid));
    }
    var user := store.users[caller];
    var song := store.songs[id];
    var isLiked := id in user.likedSongs;
    if isLiked {
      user := user.(likedSongs := RemoveAll(user.likedSongs, id));
      song := song.(likes := Max(0, song.likes - 1));
    } else {
      user := user.(likedSongs := user.likedSongs + [id]);
      song := song.(likes := song.likes + 1);
    }
    ToggleLikeKeepsInvariants(store.users[caller], store.songs[id], id);
    store.PutUser(caller, user);
    store.PutSong(id, song);
    r := Ok(LikeReply(!isLiked, song.likes, user.likedSongs));
  }

  /** DELETE /songs/:id/like. */
  method UnlikeSong(store: Database, caller: Id, id: Id) returns (r: Result<int>)
    requires store.Valid()
    modifies store
    ensures store.Valid()
    ensures id !in old(store.songs) ==> r == Err(NotFound(SongNotFound)) && unchanged(store)
    ensures id in old(store.songs) && caller !in old(store.users) ==>
      r == Err(BadRequest(Invalid)) && unchanged(store)
    ensures id in old(store.songs) && caller in old(store.users) ==>
      var o := Unlike(old(store.users[caller]), old(store.songs[id]), id);
      && store.users == old(store.users)[caller := o.user]
      && store.songs == old(store.songs)[id := o.song]
      && store.playlists == old(store.playlists) && store.nextId == old(store.nextId)
      && r == Ok(o.song.likes)
  {
    if id !in store.songs {
      return Err(NotFound(SongNotFound));
    }
    if caller !in store.users {
      return Err(BadRequest(Invalid));
    }
    var user := store.users[caller];
    var song := store.songs[id];
    user := user.(likedSongs := RemoveAll(user.likedSongs, id));
    song := song.(likes := Max(0, song.likes - 1));
    UnlikeKeepsInvariants(store.users[caller], store.songs[id], id);
    store.PutUser(caller, user);
    store.PutSong(id, song);
    r := Ok(song.likes);
  }

  /** POST /songs, behind `requireArtist`. The new song belongs to the caller. */
  method CreateSong(store: Database, caller: Id, body: SongBody) returns (r: Result<Entry<Song>>)
    requires store.Valid()
    modifies store
    ensures store.Valid()
    ensures ArtistAuth.RequireArtist(LookupUser(old(store.users), caller)).Respond? ==>
      r == Err(ArtistAuth.RequireArtist(LookupUser(old(store.users), caller)).failure) && unchanged(store)
    ensures ArtistAuth.RequireArtist(LookupUser(old(store.users), caller)).Next? ==>
      if NewSong(CreationFields(body, caller)).None? then
        r == Err(BadRequest(Invalid)) && unchanged(store)
      else
        && r.Ok? && r.value.doc == NewSong(CreationFields(body, caller)).value
        && r.value.doc.createdBy == caller
        && r.value.id !in old(store.songs)
        && store.songs == old(store.songs)[r.value.id := r.value.doc]
        && store.users == old(store.users) && store.playlists == old(store.playlists)
  {
    var gate := ArtistAuth.RequireArtist(LookupUser(store.users, caller));
    if gate.Respond? {
      return Err(gate.failure);
    }
    var song := NewSong(CreationFields(body, caller));
    if song.None? {
      return Err(BadRequest(Invalid));
    }
    var id := store.FreshId();
    store.PutSong(id, song.value);
    r := Ok(Entry(id, song.value));
  }

  /** PUT /songs/:id, behind `requireArtist`. A song that is absent and one
      that another artist created give the same 404 and change nothing. */
  method UpdateSong(store: Database, caller: Id, id: Id, patch: SongPatch) returns (r: Result<Entry<Song>>)
    requires store.Valid()
    modifies store
    ensures store.Valid()
    ensures ArtistAuth.RequireArtist(LookupUser(old(store.users), caller)).Respond? ==>
      r == Err(ArtistAuth.RequireArtist(LookupUser(old(store.users), caller)).failure) && unchanged(store)
    ensures ArtistAuth.RequireArtist(LookupUser(old(store.users), caller)).Next? ==>
      if !(id in old(store.songs) && old(store.songs[id]).createdBy == caller) then
        r == Err(NotFound(SongNotFound)) && unchanged(store)
      else if !KeepsRequired(patch) then
        r == Err(BadRequest(Invalid)) && unchanged(store)
      else
        && store.songs == old(store.songs)[id := ApplyPatch(old(store.songs[id]), patch)]
        && store.users == old(store.users) && store.playlists == old(store.playlists)
        && store.nextId == old(store.nextId)
        && r == Ok(Entry(id, store.songs[id]))
  {
    var gate := ArtistAuth.RequireArtist(LookupUser(store.users, caller));
    if gate.Respond? {
      return Err(gate.failure);
    }
    if !(id in store.songs && store.songs[id].createdBy == caller) {
      return Err(NotFound(SongNotFound));
    }
    if !KeepsRequired(patch) {
      return Err(BadRequest(Invalid));
    }
    PatchKeepsRequired(store.songs[id], patch);
    var updated := ApplyPatch(store.songs[id], patch);
    store.PutSong(id, updated);
    r := Ok(Entry(id, updated));
  }

  /** DELETE /songs/:id, behind `requireArtist`: removes that one song of the
      caller's, and nothing else; absent and not-yours are the same 404. */
  method DeleteSong(store: Database, caller: Id, id: Id) returns (r: Result<()>)
    requires store.Valid()
    modifies store
    ensures store.Valid()
    ensures ArtistAuth.RequireArtist(LookupUser(old(store.users), caller)).Respond? ==>
      r == Err(ArtistAuth.RequireArtist(LookupUser(old(store.users), caller)).failure) && unchanged(store)
    ensures ArtistAuth.RequireArtist(LookupUser(old(store.users), caller)).Next? ==>
      if !(id in old(store.songs) && old(store.songs[id]).createdBy == caller) then
        r == Err(NotFound(SongNotFound)) && unchanged(store)
      else
        && store.songs == old(store.songs) - {id}
        && store.users == old(store.users) && store.playlists == old(store.playlists)
        && store.nextId == old(store.nextId)
        && r == Ok(())
  {
    var gate := ArtistAuth.RequireArtist(LookupUser(store.users, caller));
    if gate.Respond? {
      return Err(gate.failure);
    }
    if !(id in store.songs && store.songs[id].createdBy == caller) {
      return Err(NotFound(SongNotFound));
    }
    store.DeleteSong(id);
    r := Ok(());
  }
}
