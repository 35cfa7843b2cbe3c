/** The stored records: Song and Playlist as their schemas declare them, and
    User as the handlers use it. Each schema's required fields and defaults
    are a constructor function that fails exactly when a required field is
    missing. */
module Models {
  import opened Common

  datatype Status = Draft | Published

  datatype Role = Listener | Artist

  /** A song document. `duration` is an integer number of seconds; the
      counters are plain integers because an update may write any number. */
  datatype Song = Song(
    title: string,
    artist: string,
    album: Option<string>,
    duration: int,
    genre: Option<string>,
    albumArt: Option<string>,
    audioFile: Option<string>,
    fileUrl: Option<string>,
    coverArt: Option<string>,
    playCount: int,
    likes: int,
    createdBy: Id,
    status: Status)

  /** The fields a Song may be created from; absent ones are `None`. */
  datatype SongFields = SongFields(
    title: Option<string>,
    artist: Option<string>,
    album: Option<string>,
    duration: Option<int>,
    genre: Option<string>,
    albumArt: Option<string>,
    audioFile: Option<string>,
    fileUrl: Option<string>,
    coverArt: Option<string>,
    createdBy: Option<Id>,
    status: Option<Status>)

  /** The required strings of a stored song are non-empty. */
  predicate SongRequired(s: Song) {
    s.title != "" && s.artist != ""
  }

  /** The Song schema: title, artist, duration and createdBy are required;
      both counters start at 0 and the status defaults to published. */
  function NewSong(f: SongFields): (r: Option<Song>)
    ensures r.Some? <==> Given(f.title) && Given(f.artist) && f.duration.Some? && f.createdBy.Some?
    ensures r.Some? ==>
      && r.value.title == f.title.value && r.value.artist == f.artist.value
      && r.value.duration == f.duration.value && r.value.createdBy == f.createdBy.value
      && r.value.album == f.album && r.value.genre == f.genre
      && r.value.albumArt == f.albumArt && r.value.audioFile == f.audioFile
      && r.value.fileUrl == f.fileUrl && r.value.coverArt == f.coverArt
      && r.value.playCount == 0 && r.value.likes == 0
      && r.value.status == f.status.GetOr(Published)
    ensures r.Some? ==> SongRequired(r.value)
  {
    if Given(f.title) && Given(f.artist) && f.duration.Some? && f.createdBy.Some? then
      Some(Song(f.title.value, f.artist.value, f.album, f.duration.value, f.genre,
                f.albumArt, f.audioFile, f.fileUrl, f.coverArt, 0, 0, f.createdBy.value,
                if f.status.Some? then f.status.value else Published))
    else None
  }

  /** A playlist document; `createdAt` is the creation timestamp the schema's
      `timestamps` option records. */
  datatype Playlist = Playlist(
    name: string,
    description: Option<string>,
    owner: Id,
    songs: seq<Id>,
    isPublic: bool,
    playCount: int,
    createdAt: nat)

  /** The required name of a stored playlist is non-empty. */
  predicate PlaylistRequired(p: Playlist) {
    p.name != ""
  }

  datatype PlaylistFields = PlaylistFields(
    name: Option<string>,
    description: Option<string>,
    owner: Option<Id>,
    isPublic: Option<bool>)

  /** The Playlist schema: name and owner are required; a new playlist has no
      songs, is public unless told otherwise, and has been played 0 times. */
  function NewPlaylist(f: PlaylistFields, now: nat): (r: Option<Playlist>)
    ensures r.Some? <==> Given(f.name) && f.owner.Some?
    ensures r.Some? ==>
      && r.value.name == f.name.value && r.value.owner == f.owner.value
      && r.value.description == f.description
      && r.value.songs == [] && r.value.playCount == 0
      && r.value.isPublic == f.isPublic.GetOr(true)
      && r.value.createdAt == now
    ensures r.Some? ==> PlaylistRequired(r.value)
  {
    if Given(f.name) && f.owner.Some? then
      Some(Playlist(f.name.value, f.description, f.owner.value, [],
                    if f.isPublic.Some? then f.isPublic.value else true, 0, now))
    else None
  }

  /** One play in a user's history. */
  datatype PlayEvent = PlayEvent(song: Id, playedAt: nat)

  /** A user document. `password` holds the stored (hashed) form. */
  datatype User = User(
    email: string,
    username: string,
    password: string,
    role: Role,
    likedSongs: seq<Id>,
    recentlyPlayed: seq<PlayEvent>)

  /** What register and login reveal of an account: never the password. */
  datatype PublicUser = PublicUser(id: Id, email: string, username: string, role: Role)

  function Profile(id: Id, u: User): PublicUser {
    PublicUser(id, u.email, u.username, u.role)
  }

  /** No two accounts share an email or a username. */
  ghost predicate UniqueAccounts(users: map<Id, User>) {
    forall j, k :: j in users && k in users && j != k ==>
      users[j].email != users[k].email && users[j].username != users[k].username
  }
}
