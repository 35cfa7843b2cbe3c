/** The document store: the three collections as maps from ids to records,
    and the source of fresh ids. Handlers load a record, change their copy and
    save it by reassigning the map. */
module Store {
  import opened Common
  import opened Collections
  import opened Models

  class Database {
    var songs: map<Id, Song>
    var users: map<Id, User>
    var playlists: map<Id, Playlist>
    /** Every id in use is below `nextId`; creating a document takes it. */
    var nextId: Id

    /** The store's invariants: ids are fresh when handed out, no user likes
        a song twice, no playlist holds a song twice, emails and usernames
        are unique, and every song and playlist has its required strings. */
    ghost predicate Valid()
      reads this
    {
      && (forall k :: k in songs ==> k < nextId)
      && (forall k :: k in users ==> k < nextId)
      && (forall k :: k in playlists ==> k < nextId)
      && (forall k :: k in users ==> NoDup(users[k].likedSongs))
      && (forall k :: k in playlists ==> NoDup(playlists[k].songs))
      && UniqueAccounts(users)
      && (forall k :: k in songs ==> SongRequired(songs[k]))
      && (forall k :: k in playlists ==> PlaylistRequired(playlists[k]))
    }

    constructor ()
      ensures Valid()
      ensures songs == map[] && users == map[] && playlists == map[]
    {
      songs, users, playlists := map[], map[], map[];
      nextId := 0;
    }

    /** Saves a song under an id already handed out. */
    method PutSong(id: Id, s: Song)
      requires Valid() && id < nextId && SongRequired(s)
      modifies this`songs
      ensures Valid()
      ensures songs == old(songs)[id := s]
    {
      songs := songs[id := s];
    }

    method DeleteSong(id: Id)
      requires Valid()
      modifies this`songs
      ensures Valid()
      ensures songs == old(songs) - {id}
    {
      songs := songs - {id};
    }

    /** Saves a user whose email and username are those of the stored
        account, so uniqueness is kept. */
    method PutUser(id: Id, u: User)
      requires Valid() && id in users && NoDup(u.likedSongs)
      requires u.email == users[id].email && u.username == users[id].username
      modifies this`users
      ensures Valid()
      ensures users == old(users)[id := u]
    {
      users := users[id := u];
    }

    /** Stores a new account whose email and username no account has. */
    method AddUser(id: Id, u: User)
      requires Valid() && id < nextId && id !in users && NoDup(u.likedSongs)
      requires forall k :: k in users ==> users[k].email != u.email && users[k].username != u.username
      modifies this`users
      ensures Valid()
      ensures users == old(users)[id := u]
    {
      users := users[id := u];
    }

    /** Saves a playlist under an id already handed out. */
    method PutPlaylist(id: Id, p: Playlist)
      requires Valid() && id < nextId && NoDup(p.songs) && PlaylistRequired(p)
      modifies this`playlists
      ensures Valid()
      ensures playlists == old(playlists)[id := p]
    {
      playlists := playlists[id := p];
    }

    method DeletePlaylist(id: Id)
      requires Valid()
      modifies this`playlists
      ensures Valid()
      ensures playlists == old(playlists) - {id}
    {
      playlists := playlists - {id};
    }

    /** Hands out an id no collection uses. */
    method FreshId() returns (id: Id)
      requires Valid()
      modifies this`nextId
      ensures Valid()
      ensures id == old(nextId) && nextId == id + 1
      ensures id !in songs && id !in users && id !in playlists
    {
      id := nextId;
      nextId := nextId + 1;
    }
  }

  /** `User.findById` answered from the store. */
  function LookupUser(users: map<Id, User>, id: Id): (r: Lookup<User>)
    ensures r.Found? <==> id in users
    ensures r.Found? ==> r.record == users[id]
    ensures !r.LookupFailed?
  {
    if id in users then Found(users[id]) else Missing
  }
}
