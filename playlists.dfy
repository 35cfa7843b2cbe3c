/** The playlist routes. Every route acts only on the caller's own playlists:
    one that is absent and one that belongs to someone else give the same 404
    and leave the store as it was. */
module Playlists {
  import opened Common
  import opened Collections
  import opened Models
  import opened Store

  // ================================================================ queries

  /** The owner-scoped lookup `findOne({ _id: id, owner: caller })`. */
  function FindOwned(playlists: map<Id, Playlist>, id: Id, caller: Id): (r: Result<Playlist>)
    ensures r.Ok? <==> id in playlists && playlists[id].owner == caller
    ensures r.Ok? ==> r.value == playlists[id]
    ensures r.Err? ==> r.failure == NotFound(PlaylistNotFound)
  {
    if id in playlists && playlists[id].owner == caller then Ok(playlists[id])
    else Err(NotFound(PlaylistNotFound))
  }

  /** Another user's playlist is indistinguishable from a missing one: the
      lookup answers the same as if it were not in the store at all. */
  lemma OwnershipMasked(playlists: map<Id, Playlist>, id: Id, caller: Id)
    requires id in playlists && playlists[id].owner != caller
    ensures FindOwned(playlists, id, caller) == FindOwned(playlists - {id}, id, caller)
  {
  }

  /** Sort key of the caller's playlists: newest first. */
  function ByCreation(e: Entry<Playlist>): Rank {
    (e.doc.createdAt, 0)
  }

  /** GET /playlists: exactly the caller's playlists, each once, newest first.
      Member songs are given as ids. */
  ghost function ListOwned(playlists: map<Id, Playlist>, caller: Id): (r: seq<Entry<Playlist>>)
    ensures forall e :: e in r <==> e.id in playlists && playlists[e.id] == e.doc && e.doc.owner == caller
    ensures SortedDesc(r, ByCreation)
    ensures |r| == |set k | k in playlists && playlists[k].owner == caller|
  {
    var all := Scan(playlists);
    var p := (e: Entry<Playlist>) => e.doc.owner == caller;
    var mine := Filter(all, p);
    FilterDistinct(all, p);
    DistinctIdsCount(mine);
    assert IdSet(mine) == set k | k in playlists && playlists[k].owner == caller by {
      forall k | k in playlists && playlists[k].owner == caller ensures k in IdSet(mine) {
        assert Entry(k, playlists[k]) in mine;
      }
    }
    SortDesc(mine, ByCreation)
  }

  /** GET /playlists/:id. */
  function GetPlaylist(playlists: map<Id, Playlist>, caller: Id, id: Id): (r: Result<Entry<Playlist>>)
    ensures r.Ok? <==> id in playlists && playlists[id].owner == caller
    ensures r.Ok? ==> r.value == Entry(id, playlists[id])
    ensures r.Err? ==> r.failure == NotFound(PlaylistNotFound)
  {
    var found := FindOwned(playlists, id, caller);
    if found.Err? then Err(found.failure) else Ok(Entry(id, found.value))
  }

  // ================================================================ records

  /** Append a song unless it is already there; the existing songs stay as
      they were. */
  function AddSongTo(p: Playlist, song: Id): (r: Result<Playlist>)
    ensures r.Err? <==> song in p.songs
    ensures r.Err? ==> r.failure == BadRequest(AlreadyInPlaylist)
    ensures r.Ok? ==>
      && r.value.songs == p.songs + [song]
      && |r.value.songs| == |p.songs| + 1 && r.value.songs[..|p.songs|] == p.songs
      && r.value.(songs := p.songs) == p
  {
    if song in p.songs then Err(BadRequest(AlreadyInPlaylist))
    else
      var q := p.(songs := p.songs + [song]);
      assert q.songs[..|p.songs|] == p.songs;
      Ok(q)
  }

  /** Remove every occurrence of a song (MongooseArray.pull). */
  function RemoveSongFrom(p: Playlist, song: Id): (r: Playlist)
    ensures song !in r.songs
    ensures forall s :: s != song ==> (s in r.songs <==> s in p.songs)
    ensures r.(songs := p.songs) == p
  {
    p.(songs := RemoveAll(p.songs, song))
  }

  /** Adding a song that was absent and then removing it gives back the
      playlist, member order included. */
  lemma AddThenRemoveRestores(p: Playlist, song: Id)
    requires song !in p.songs
    ensures AddSongTo(p, song).Ok?
    ensures RemoveSongFrom(AddSongTo(p, song).value, song) == p
  {
    AppendThenRemove(p.songs, song);
  }

  /** Adding the same song a second time is refused and leaves the songs as
      the first add left them. */
  lemma SecondAddConflicts(p: Playlist, song: Id)
    requires AddSongTo(p, song).Ok?
    ensures AddSongTo(AddSongTo(p, song).value, song) == Err(BadRequest(AlreadyInPlaylist))
  {
    assert AddSongTo(p, song).value.songs[|p.songs|] == song;
  }

  /** Removing a song that is not there changes nothing, and removing twice is
      removing once. */
  lemma RemoveIsIdempotent(p: Playlist, song: Id)
    ensures song !in p.songs ==> RemoveSongFrom(p, song) == p
    ensures RemoveSongFrom(RemoveSongFrom(p, song), song) == RemoveSongFrom(p, song)
  {
    if song !in p.songs {
      RemoveAllAbsent(p.songs, song);
    }
    RemoveAllAbsent(RemoveAll(p.songs, song), song);
  }

  /** Neither add nor remove lets a song appear twice in a playlist. */
  lemma MembershipKeepsNoDup(p: Playlist, song: Id)
    requires NoDup(p.songs)
    ensures AddSongTo(p, song).Ok? ==> NoDup(AddSongTo(p, song).value.songs)
    ensures NoDup(RemoveSongFrom(p, song).songs)
  {
    if song !in p.songs {
      NoDupAppend(p.songs, song);
    }
    RemoveAllNoDup(p.songs, song);
  }

  /** One more play of the playlist; nothing else about it changes. */
  function CountPlay(p: Playlist): (r: Playlist)
    ensures r.playCount == p.playCount + 1
    ensures r.(playCount := p.playCount) == p
  {
    p.(playCount := p.playCount + 1)
  }

  /** The body of PUT /playlists/:id. Only these three fields are written;
      an absent one keeps its value. */
  datatype PlaylistPatch = PlaylistPatch(name: Option<string>, description: Option<string>, isPublic: Option<bool>)

  function ApplyUpdate(p: Playlist, patch: PlaylistPatch): (r: Playlist)
    ensures r.owner == p.owner && r.songs == p.songs && r.playCount == p.playCount && r.createdAt == p.createdAt
    ensures r.name == patch.name.GetOr(p.name)
    ensures r.isPublic == patch.isPublic.GetOr(p.isPublic)
    ensures r.description == (if patch.description.Some? then patch.description else p.description)
  {
    p.(name := if patch.name.Some? then patch.name.value else p.name,
       description := if patch.description.Some? then patch.description else p.description,
       isPublic := if patch.isPublic.Some? then patch.isPublic.value else p.isPublic)
  }

  /** The update runs the schema's validators: the name may not be set to
      the empty string. */
  predicate KeepsRequired(patch: PlaylistPatch) {
    patch.name != Some("")
  }

  /** An update leaves a valid playlist valid exactly when it passes the
      validators. */
  lemma UpdateKeepsRequired(p: Playlist, patch: PlaylistPatch)
    requires PlaylistRequired(p)
    ensures PlaylistRequired(ApplyUpdate(p, patch)) <==> KeepsRequired(patch)
  {
  }

  /** The body of POST /playlists. */
  datatype PlaylistBody = PlaylistBody(name: Option<string>, description: Option<string>, isPublic: Option<bool>)

  // ================================================================ handlers

  /** POST /playlists: a new, empty playlist owned by the caller. */
  method CreatePlaylist(store: Database, caller: Id, body: PlaylistBody, now: nat) returns (r: Result<Entry<Playlist>>)
    requires store.Valid()
    modifies store
    ensures store.Valid()
    ensures !Given(body.name) ==> r == Err(BadRequest(Invalid)) && unchanged(store)
    ensures Given(body.name) ==>
      && r.Ok? && r.value.id !in old(store.playlists)
      && r.value.doc == Playlist(body.name.value, body.description, caller, [], body.isPublic.GetOr(true), 0, now)
      && store.playlists == old(store.playlists)[r.value.id := r.value.doc]
      && store.songs == old(store.songs) && store.users == old(store.users)
  {
    var isPublic := if body.isPublic.Some? then body.isPublic.value else true;
    var playlist := NewPlaylist(PlaylistFields(body.name, body.description, Some(caller), Some(isPublic)), now);
    if playlist.None? {
      return Err(BadRequest(Invalid));
    }
    var id := store.FreshId();
    store.PutPlaylist(id, playlist.value);
    r := Ok(Entry(id, playlist.value));
  }

  /** PUT /playlists/:id. The validators run on the update before it is
      matched against a document, so an invalid body is a 400 even for a
      playlist that is not the caller's. */
  method UpdatePlaylist(store: Database, caller: Id, id: Id, patch: PlaylistPatch) returns (r: Result<Entry<Playlist>>)
    requires store.Valid()
    modifies store
    ensures store.Valid()
    ensures !KeepsRequired(patch) ==> r == Err(BadRequest(Invalid)) && unchanged(store)
    ensures KeepsRequired(patch) && FindOwned(old(store.playlists), id, caller).Err? ==>
      r == Err(NotFound(PlaylistNotFound)) && unchanged(store)
    ensures KeepsRequired(patch) && FindOwned(old(store.playlists), id, caller).Ok? ==>
      && store.playlists == old(store.playlists)[id := ApplyUpdate(old(store.playlists[id]), patch)]
      && store.songs == old(store.songs) && store.users == old(store.users) && store.nextId == old(store.nextId)
      && r == Ok(Entry(id, store.playlists[id]))
  {
    if !KeepsRequired(patch) {
      return Err(BadRequest(Invalid));
    }
    var found := FindOwned(store.playlists, id, caller);
    if found.Err? {
      return Err(found.failure);
    }
    UpdateKeepsRequired(found.value, patch);
    var updated := ApplyUpdate(found.value, patch);
    store.PutPlaylist(id, updated);
    r := Ok(Entry(id, updated));
  }

  /** DELETE /playlists/:id: removes that playlist only; its songs stay. */
  method DeletePlaylist(store: Database, caller: Id, id: Id) returns (r: Result<()>)
    requires store.Valid()
    modifies store
    ensures store.Valid()
    ensures FindOwned(old(store.playlists), id, caller).Err? ==>
      r == Err(NotFound(PlaylistNotFound)) && unchanged(store)
    ensures FindOwned(old(store.playlists), id, caller).Ok? ==>
      && store.playlists == old(store.playlists) - {id}
      && store.songs == old(store.songs) && store.users == old(store.users) && store.nextId == old(store.nextId)
      && r == Ok(())
  {
    var found := FindOwned(store.playlists, id, caller);
    if found.Err? {
      return Err(found.failure);
    }
    store.DeletePlaylist(id);
    r := Ok(());
  }

  /** POST /playlists/:id/songs. The song is looked up first, in the whole
      catalogue and whatever its status, so a missing song is reported even
      when the playlist is missing too. */
  method AddSong(store: Database, caller: Id, id: Id, song: Id) returns (r: Result<Entry<Playlist>>)
    requires store.Valid()
    modifies store
    ensures store.Valid()
    ensures song !in old(store.songs) ==> r == Err(NotFound(SongNotFound)) && unchanged(store)
    ensures song in old(store.songs) && FindOwned(old(store.playlists), id, caller).Err? ==>
      r == Err(NotFound(PlaylistNotFound)) && unchanged(store)
    ensures song in old(store.songs) && FindOwned(old(store.playlists), id, caller).Ok? ==>
      var added := AddSongTo(old(store.playlists[id]), song);
      && (added.Err? ==> r == Err(added.failure) && unchanged(store))
      && (added.Ok? ==>
            && store.playlists == old(store.playlists)[id := added.value]
            && store.songs == old(store.songs) && store.users == old(store.users)
            && store.nextId == old(store.nextId)
            && r == Ok(Entry(id, added.value)))
  {
    if song !in store.songs {
      return Err(NotFound(SongNotFound));
    }
    var found := FindOwned(store.playlists, id, caller);
    if found.Err? {
      return Err(found.failure);
    }
    var playlist := found.value;
    if song in playlist.songs {
      return Err(BadRequest(AlreadyInPlaylist));
    }
    playlist := playlist.(songs := playlist.songs + [song]);
    MembershipKeepsNoDup(found.value, song);
    store.PutPlaylist(id, playlist);
    r := Ok(Entry(id, playlist));
  }

  /** DELETE /playlists/:id/songs/:songId. */
  method RemoveSong(store: Database, caller: Id, id: Id, song: Id) returns (r: Result<Entry<Playlist>>)
    requires store.Valid()
    modifies store
    ensures store.Valid()
    ensures FindOwned(old(store.playlists), id, caller).Err? ==>
      r == Err(NotFound(PlaylistNotFound)) && unchanged(store)
    ensures FindOwned(old(store.playlists), id, caller).Ok? ==>
      && store.playlists == old(store.playlists)[id := RemoveSongFrom(old(store.playlists[id]), song)]
      && store.songs == old(store.songs) && store.users == old(store.users) && store.nextId == old(store.nextId)
      && r == Ok(Entry(id, store.playlists[id]))
  {
    var found := FindOwned(store.playlists, id, caller);
    if found.Err? {
      return Err(found.failure);
    }
    var playlist := found.value;
    playlist := playlist.(songs := RemoveAll(playlist.songs, song));
    MembershipKeepsNoDup(found.value, song);
    store.PutPlaylist(id, playlist);
    r := Ok(Entry(id, playlist));
  }

  /** POST /playlists/:id/play: only the owner's plays are counted. */
  method PlayPlaylist(store: Database, caller: Id, id: Id) returns (r: Result<int>)
    requires store.Valid()
    modifies store
    ensures store.Valid()
    ensures FindOwned(old(store.playlists), id, caller).Err? ==>
      r == Err(NotFound(PlaylistNotFound)) && unchanged(store)
    ensures FindOwned(old(store.playlists), id, caller).Ok? ==>
      && store.playlists == old(store.playlists)[id := CountPlay(old(store.playlists[id]))]
      && store.songs == old(store.songs) && store.users == old(store.users) && store.nextId == old(store.nextId)
      && r == Ok(store.playlists[id].playCount)
  {
    var found := FindOwned(store.playlists, id, caller);
    if found.Err? {
      return Err(found.failure);
    }
    var playlist := found.value;
    playlist := playlist.(playCount := playlist.playCount + 1);
    store.PutPlaylist(id, playlist);
    r := Ok(playlist.playCount);
  }
}
