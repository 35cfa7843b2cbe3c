/** The user routes: the caller's history and likes, and the public page of
    an artist. Song references are resolved against the song
    collection the way `populate` resolves them. */
module Users {
  import opened Common
  import opened Collections
  import opened Models
  import Songs

  // ================================================================ populate

  function IdOf(e: Entry<Song>): Id {
    e.id
  }

  /** Whether a reference still names a stored song. */
  function InStore(songs: map<Id, Song>): Id -> bool {
    k => k in songs
  }

  /** `populate` of an array of song references: the referenced songs in the
      array's order, with references to songs no longer stored dropped. */
  function Populate(ids: seq<Id>, songs: map<Id, Song>): (r: seq<Entry<Song>>)
    ensures MapSeq(r, IdOf) == Filter(ids, InStore(songs))
    ensures forall e :: e in r <==> e.id in ids && e.id in songs && e.doc == songs[e.id]
    ensures |r| <= |ids|
  {
    if ids == [] then []
    else
      assert ids == [ids[0]] + ids[1..];
      var rest := Populate(ids[1..], songs);
      if ids[0] in songs then
        var r := [Entry(ids[0], songs[ids[0]])] + rest;
        assert MapSeq(r, IdOf) == [ids[0]] + MapSeq(rest, IdOf);
        r
      else rest
  }

  /** When every reference is still stored, nothing is dropped and the order
      is the array's. */
  lemma {:induction false} PopulateAllPresent(ids: seq<Id>, songs: map<Id, Song>)
    requires forall i :: 0 <= i < |ids| ==> ids[i] in songs
    ensures MapSeq(Populate(ids, songs), IdOf) == ids
  {
    if ids != [] {
      PopulateAllPresent(ids[1..], songs);
      assert MapSeq(Populate(ids, songs), IdOf) == [ids[0]] + MapSeq(Populate(ids[1..], songs), IdOf);
    }
  }

  /** References without repeats resolve to songs without repeats. */
  lemma {:induction false} PopulateDistinct(ids: seq<Id>, songs: map<Id, Song>)
    requires NoDup(ids)
    ensures DistinctIds(Populate(ids, songs))
  {
    if ids != [] {
      assert ids == [ids[0]] + ids[1..];
      NoDupCons(ids[0], ids[1..]);
      PopulateDistinct(ids[1..], songs);
      if ids[0] in songs {
        DistinctIdsCons(Entry(ids[0], songs[ids[0]]), Populate(ids[1..], songs));
      }
    }
  }

  /** `populate` of a single song reference: null once the song is gone. */
  function PopulateOne(id: Id, songs: map<Id, Song>): (r: Option<Entry<Song>>)
    ensures r.Some? <==> id in songs
    ensures r.Some? ==> r.value == Entry(id, songs[id])
  {
    if id in songs then Some(Entry(id, songs[id])) else None
  }

  // ================================================================ own account

  /** Sort key of a history: most recent first. */
  function ByPlayedAt(ev: PlayEvent): Rank {
    (ev.playedAt, 0)
  }

  function SongOf(ev: PlayEvent): Id {
    ev.song
  }

  /** The 20 most recent entries of a history, newest first. */
  function Latest(history: seq<PlayEvent>): (r: seq<PlayEvent>)
    ensures |r| == Min(20, |history|)
    ensures SortedDesc(r, ByPlayedAt)
    ensures multiset(r) <= multiset(history)
    ensures forall x, y :: x in r && y in history && y !in r ==> y.playedAt <= x.playedAt
  {
    TopK(history, ByPlayedAt, 20);
    Take(SortDesc(history, ByPlayedAt), 20)
  }

  /** A history of at most 20 entries is shown whole: every play, every
      song as many times as it was played. */
  lemma ShortHistoryShownWhole(history: seq<PlayEvent>)
    requires |history| <= 20
    ensures multiset(Latest(history)) == multiset(history)
    ensures multiset(MapSeq(Latest(history), SongOf)) == multiset(MapSeq(history, SongOf))
  {
    TakeAll(SortDesc(history, ByPlayedAt), 20);
    MapSortPermutes(history, ByPlayedAt, SongOf);
  }

  /** GET /users/recently-played: the songs of the 20 latest plays, newest
      first, a deleted song as null. A caller without an account makes the
      handler fail with a 400. */
  function RecentlyPlayed(users: map<Id, User>, songs: map<Id, Song>, caller: Id): (r: Result<seq<Option<Entry<Song>>>>)
    ensures r.Err? <==> caller !in users
    ensures r.Err? ==> r.failure == BadRequest(Invalid)
    ensures r.Ok? ==>
      var latest := Latest(users[caller].recentlyPlayed);
      && |r.value| == |latest|
      && forall i :: 0 <= i < |latest| ==> r.value[i] == PopulateOne(latest[i].song, songs)
  {
    if caller !in users then Err(BadRequest(Invalid))
    else
      var latest := Latest(users[caller].recentlyPlayed);
      Ok(seq(|latest|, i requires 0 <= i < |latest| => PopulateOne(latest[i].song, songs)))
  }

  /** GET /users/likes and GET /users/liked-songs: the caller's liked songs
      that are still stored, in the order they were liked. */
  function LikedSongs(users: map<Id, User>, songs: map<Id, Song>, caller: Id): (r: Result<seq<Entry<Song>>>)
    ensures r.Err? <==> caller !in users
    ensures r.Err? ==> r.failure == BadRequest(Invalid)
    ensures r.Ok? ==> r.value == Populate(users[caller].likedSongs, songs)
    ensures r.Ok? ==> MapSeq(r.value, IdOf) == Filter(users[caller].likedSongs, InStore(songs))
    ensures r.Ok? ==> forall e :: e in r.value <==>
      e.id in users[caller].likedSongs && e.id in songs && e.doc == songs[e.id]
  {
    if caller !in users then Err(BadRequest(Invalid))
    else Ok(Populate(users[caller].likedSongs, songs))
  }

  /** With no repeated likes, as the store keeps them, the liked songs are
      listed once each. */
  lemma LikedSongsDistinct(users: map<Id, User>, songs: map<Id, Song>, caller: Id)
    requires caller in users && NoDup(users[caller].likedSongs)
    ensures LikedSongs(users, songs, caller).Ok?
    ensures DistinctIds(LikedSongs(users, songs, caller).value)
  {
    PopulateDistinct(users[caller].likedSongs, songs);
  }

  // ================================================================ artist page

  /** What the artist page shows of the account: no password and no email. */
  datatype ArtistView = ArtistView(id: Id, username: string, role: Role, likedSongs: seq<Id>, recentlyPlayed: seq<PlayEvent>)

  datatype Stats = Stats(totalSongs: nat, totalPlays: int, totalLikes: int)

  datatype ArtistPage = ArtistPage(artist: ArtistView, songs: seq<Entry<Song>>, playlists: seq<Entry<Playlist>>, stats: Stats)

  function PlaysOf(e: Entry<Song>): int {
    e.doc.playCount
  }

  function LikesOf(e: Entry<Song>): int {
    e.doc.likes
  }

  /** The artist's published songs, each once, in store order. */
  ghost function PublishedBy(songs: map<Id, Song>, id: Id): (r: seq<Entry<Song>>)
    ensures forall e :: e in r <==>
      e.id in songs && songs[e.id] == e.doc && e.doc.createdBy == id && e.doc.status == Published
    ensures DistinctIds(r)
  {
    var all := Scan(songs);
    var p := (e: Entry<Song>) => e.doc.createdBy == id && e.doc.status == Published;
    FilterDistinct(all, p);
    Filter(all, p)
  }

  /** The artist's public playlists, each once. */
  ghost function PublicPlaylistsOf(playlists: map<Id, Playlist>, id: Id): (r: seq<Entry<Playlist>>)
    ensures forall e :: e in r <==>
      e.id in playlists && playlists[e.id] == e.doc && e.doc.owner == id && e.doc.isPublic
    ensures DistinctIds(r)
  {
    var all := Scan(playlists);
    var p := (e: Entry<Playlist>) => e.doc.owner == id && e.doc.isPublic;
    FilterDistinct(all, p);
    Filter(all, p)
  }

  /** GET /users/artist/:id. Any account can be looked up this way, whatever
      its role. Its published songs come most played first; the totals are
      taken over exactly those songs. */
  ghost function ArtistProfile(users: map<Id, User>, songs: map<Id, Song>, playlists: map<Id, Playlist>, id: Id): (r: Result<ArtistPage>)
    ensures r.Err? <==> id !in users
    ensures r.Err? ==> r.failure == NotFound(ArtistNotFound)
    ensures r.Ok? ==>
      var u := users[id];
      && r.value.artist == ArtistView(id, u.username, u.role, u.likedSongs, u.recentlyPlayed)
      && SortedDesc(r.value.songs, Songs.ByPlays)
      && multiset(r.value.songs) == multiset(PublishedBy(songs, id))
      && (forall e :: e in r.value.playlists <==>
            e.id in playlists && playlists[e.id] == e.doc && e.doc.owner == id && e.doc.isPublic)
      && DistinctIds(r.value.playlists)
      && r.value.stats.totalSongs == |r.value.songs|
      && r.value.stats.totalPlays == SumOf(r.value.songs, PlaysOf)
      && r.value.stats.totalLikes == SumOf(r.value.songs, LikesOf)
  {
    if id !in users then Err(NotFound(ArtistNotFound))
    else
      var u := users[id];
      var mine := SortDesc(PublishedBy(songs, id), Songs.ByPlays);
      Ok(ArtistPage(ArtistView(id, u.username, u.role, u.likedSongs, u.recentlyPlayed),
                    mine, PublicPlaylistsOf(playlists, id),
                    Stats(|mine|, SumOf(mine, PlaysOf), SumOf(mine, LikesOf))))
  }

  /** One entry for every published song of the artist in the store. */
  lemma PublishedByCounts(songs: map<Id, Song>, id: Id)
    ensures |PublishedBy(songs, id)| == |set k | k in songs && songs[k].createdBy == id && songs[k].status == Published|
  {
    var published := PublishedBy(songs, id);
    DistinctIdsCount(published);
    assert IdSet(published) == set k | k in songs && songs[k].createdBy == id && songs[k].status == Published by {
      forall k | k in songs && songs[k].createdBy == id && songs[k].status == Published ensures k in IdSet(published) {
        assert Entry(k, songs[k]) in published;
      }
    }
  }

  /** The page lists exactly the artist's published songs, and its totals
      are their counters summed, whatever order the page shows them in. */
  lemma ArtistStatsCountPublished(users: map<Id, User>, songs: map<Id, Song>, playlists: map<Id, Playlist>, id: Id)
    requires id in users
    ensures var page := ArtistProfile(users, songs, playlists, id).value;
      && (forall e :: e in page.songs <==>
            e.id in songs && songs[e.id] == e.doc && e.doc.createdBy == id && e.doc.status == Published)
      && page.stats.totalSongs == |set k | k in songs && songs[k].createdBy == id && songs[k].status == Published|
      && page.stats.totalPlays == SumOf(PublishedBy(songs, id), PlaysOf)
      && page.stats.totalLikes == SumOf(PublishedBy(songs, id), LikesOf)
  {
    var published := PublishedBy(songs, id);
    var sorted := SortDesc(published, Songs.ByPlays);
    assert ArtistProfile(users, songs, playlists, id).value.songs == sorted;
    PublishedByCounts(songs, id);
    SumSortInvariant(published, Songs.ByPlays, PlaysOf);
    SumSortInvariant(published, Songs.ByPlays, LikesOf);
  }

  /** Counters never driven below zero give totals that are not negative. */
  lemma ArtistStatsNonNegative(users: map<Id, User>, songs: map<Id, Song>, playlists: map<Id, Playlist>, id: Id)
    requires id in users
    requires forall k :: k in songs ==> songs[k].playCount >= 0 && songs[k].likes >= 0
    ensures ArtistProfile(users, songs, playlists, id).value.stats.totalPlays >= 0
    ensures ArtistProfile(users, songs, playlists, id).value.stats.totalLikes >= 0
  {
    var page := ArtistProfile(users, songs, playlists, id).value;
    forall i | 0 <= i < |page.songs| ensures PlaysOf(page.songs[i]) >= 0 && LikesOf(page.songs[i]) >= 0 {
      assert page.songs[i] in multiset(PublishedBy(songs, id));
    }
    SumNonNegative(page.songs, PlaysOf);
    SumNonNegative(page.songs, LikesOf);
  }

  /** The route does not check the role: a listener's id yields a page too. */
  lemma ListenerHasArtistPage(users: map<Id, User>, songs: map<Id, Song>, playlists: map<Id, Playlist>, id: Id)
    requires id in users && users[id].role == Listener
    ensures ArtistProfile(users, songs, playlists, id).Ok?
    ensures ArtistProfile(users, songs, playlists, id).value.artist.role == Listener
  {
  }
}
