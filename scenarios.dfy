/** Request sequences run against a fresh store, with the outcome of every
    step asserted from the handlers' contracts alone. */
module Scenarios {
  import opened Common
  import opened Collections
  import opened Models
  import opened Store
  import Auth
  import Songs
  import Playlists
  import ArtistAuth

  function Hash(p: string): string {
    "h:" + p
  }

  /** A store holding two fresh accounts: the artist A and the listener B. */
  method SetUp() returns (store: Database, a: Id, b: Id)
    ensures fresh(store) && store.Valid()
    ensures a != b && a in store.users && b in store.users
    ensures store.users[a].role == Artist && store.users[a].username == "A"
    ensures store.users[b].role == Listener
    ensures store.users[b].likedSongs == [] && store.users[b].recentlyPlayed == []
    ensures store.songs == map[] && store.playlists == map[]
  {
    store := new Database();
    var artist := Auth.Register(store, Auth.RegisterBody(Some("mail-a"), Some("secret"), Some("A"), Some(Artist)), Hash);
    a := artist.value.token.subject;
    var listener := Auth.Register(store, Auth.RegisterBody(Some("mail-b"), Some("secret"), Some("B"), None), Hash);
    b := listener.value.token.subject;
  }

  /** A second account may not take a username already in use. */
  method DuplicateUsernameRefused() {
    var store, a, b := SetUp();
    var taken := Auth.RegisterBody(Some("mail-c"), Some("other"), Some("A"), None);
    assert Auth.Clashes(store.users[a], taken);
    var again := Auth.Register(store, taken, Hash);
    assert again == Err(BadRequest(UserExists));
  }

  /** The artist publishes a song and returns it with fresh counters. */
  method Publish() returns (store: Database, a: Id, b: Id, s: Id)
    ensures fresh(store) && store.Valid()
    ensures a != b && a in store.users && b in store.users
    ensures store.users[a].role == Artist && store.users[b].role == Listener
    ensures store.users[b].likedSongs == [] && store.users[b].recentlyPlayed == []
    ensures s in store.songs && store.songs[s].createdBy == a && store.songs[s].status == Published
    ensures store.songs[s].playCount == 0 && store.songs[s].likes == 0
  {
    store, a, b := SetUp();
    assert ArtistAuth.RequireArtist(LookupUser(store.users, a)).Next?;
    var created := Songs.CreateSong(store, a, Songs.SongBody(Some("X"), Some("A"), Some(180), None, None, None));
    s := created.value.id;
  }

  /** The listener plays the song: one play, one history entry. */
  method PlayOnce() {
    var store, a, b, s := Publish();
    var plays := Songs.PlaySong(store, b, s, 1);
    assert plays == Ok(1);
    assert store.users[b].recentlyPlayed == [PlayEvent(s, 1)];
  }

  /** The listener likes the song and toggles the like off again. */
  method LikeThenToggleOff() {
    var store, a, b, s := Publish();
    var liked := Songs.ToggleLikeSong(store, b, s);
    assert liked.Ok? && liked.value.liked && liked.value.likes == 1;
    assert store.users[b].likedSongs == [s] && store.songs[s].likes == 1;

    assert RemoveAll([s], s) == [];
    var unliked := Songs.ToggleLikeSong(store, b, s);
    assert unliked.Ok? && !unliked.value.liked && unliked.value.likes == 0;
    assert store.users[b].likedSongs == [];
  }

  /** The artist cannot delete the listener's playlist, and the listener
      cannot publish. */
  method OwnershipAndRole() {
    var store, a, b := SetUp();
    var mix := Playlists.CreatePlaylist(store, b, Playlists.PlaylistBody(Some("Mix"), None, None), 2);
    assert mix.Ok? && mix.value.doc.isPublic;
    var p := mix.value.id;

    var stolen := Playlists.DeletePlaylist(store, a, p);
    assert stolen == Err(NotFound(PlaylistNotFound));
    assert p in store.playlists;

    assert ArtistAuth.RequireArtist(LookupUser(store.users, b)) == ArtistAuth.Respond(Forbidden(ArtistRequired));
    var refused := Songs.CreateSong(store, b, Songs.SongBody(Some("Y"), Some("B"), Some(60), None, None, None));
    assert refused == Err(Forbidden(ArtistRequired));
  }
}
