# Music-streaming backend: a verified model of its request handlers

This project models the request handlers of a music-streaming backend in
Dafny. The backend is an Express service over a Mongoose document store.
It keeps songs, playlists and user accounts, and serves these routes:

- the song catalogue: listing, search, popular songs, lookup by id;
- engagement: plays that count and enter the caller's history, likes and
  unlikes with a counter that stops at zero;
- an artist's publishing: create, update and delete of their own songs,
  behind the `requireArtist` role gate;
- playlists: fully owner-scoped, with membership add and remove, and a
  play counter;
- read-side views: recently played, liked songs, and an artist's public
  page with totals;
- registration and login.

The store is a class `Store.Database` with one map per collection and a
source of fresh ids. Its invariant `Valid()` says:

- every id is below `nextId`;
- no user likes a song twice;
- no playlist holds a song twice;
- emails and usernames are unique;
- every stored song and playlist has its required strings.

The handlers look like this:

- **State-changing handlers** (play, like, unlike, create, update, delete,
  playlist membership, register) are methods that `modify` the store.
  Each one preserves `Valid()` and states the whole new state. The new
  state is given through record-level functions (`Songs.ToggleLike`,
  `Playlists.AddSongTo`, …). The lemmas are proved about those functions.
- **Read-only handlers** (listing, search, popular, the user views, login)
  are functions of the store's maps.
- **Failures** are the `Common.Failure` constructors (400, 401, 403, 404,
  500). A 400 to 404 carries the handler's fixed message; a 500 carries the
  text of the error the store raised, as the middleware sends
  `error.message`.

Some values come from outside the handlers, and are parameters here:

- the caller's identity, which the session middleware resolves;
- the current time;
- the password hash and its check;
- the token, modelled as `Auth.Token(subject)`, the id of the account it
  was issued to.

Where the store's order is unspecified, the model enumerates a map in an
arbitrary fixed order (`Collections.Scan`). This covers a query without a
sort, and ties within a sort.

The module `Scenarios` replays the documented flow against a fresh store:

1. An artist registers and publishes a song.
2. A listener plays it.
3. The listener likes it and toggles the like off again.
4. Ownership masking and the role gate refuse the other party.

Each step's outcome is asserted from the handlers' contracts alone.

Where the code departs from the behaviour described for it, the model
follows the code:

- Unlike decrements the counter even when the caller had not liked the
  song (`Songs.UnlikeWithoutLikeStillDecrements`).
- The song update writes its body wholesale. It can reassign `createdBy`
  and set the counters to any value (`Songs.PatchCanReassignOwner`). So
  the owner is not immutable, and the counters are not kept non-negative
  across updates.
- Adding a song already in a playlist is a 400, not an idempotent no-op.
- A song's duration is not checked to be positive.
- The artist page answers for any account, whatever its role
  (`Users.ListenerHasArtistPage`).
- No invariant ties a song's `likes` to the number of users who like it.
  Unlike and update both break that tie.

## Model

| member | source | states |
|---|---|---|
| Models.NewSong | models/Song.js:3-54 | a song is created exactly when title, artist, duration and createdBy are given; optional fields are copied, both counters start at 0, status defaults to published, and title and artist are non-empty |
| Models.NewPlaylist | models/Playlist.js:3-30 | a playlist is created exactly when name and owner are given; it starts with no songs and 0 plays, is public unless told otherwise, and has a non-empty name |
| Store.LookupUser | middleware/artistAuth.js:5 | the store finds the caller's record exactly when the id is in the user map |
| ArtistAuth.RequireArtist | middleware/artistAuth.js:3-20 | four exclusive outcomes: 401 iff no record, 403 iff a non-artist record, 500 iff the lookup failed, carrying the store's error message, and otherwise `next` with `req.artist` set to that record |
| Collections.RemoveAll | routes/playlists.js:137 | `pull` drops every occurrence of the value (its count becomes 0) and keeps every other element with its multiplicity |
| Collections.SortDesc | routes/songs.js:29 | the result is ordered from highest to lowest key and is a permutation of the input |
| Collections.Window | routes/songs.js:27-28 | skip/limit returns `min(limit, n - skip)` elements (none past the end), the i-th being element `skip + i` |
| Collections.Scan | routes/songs.js:52-58 | a query without a sort yields every document once, in an order the store chooses |
| Collections.SumOf | routes/users.js:87-88 | the `reduce` from 0 over one counter; its sum does not depend on the order (`Collections.SumSortInvariant`) and is non-negative over non-negative values (`Collections.SumNonNegative`) |
| Collections.SumSortInvariant | routes/users.js:87-88 | summing a counter over a sorted copy gives the same total as over the original |
| Collections.TopK | routes/songs.js:69-70 | sort then limit k gives `min(k, n)` elements, ordered, drawn from the input, and no element left out ranks above any element kept |
| Songs.CeilDiv | routes/songs.js:36 | `Math.ceil(n / d)` is the least q with `n <= q * d` |
| Songs.ListMatches | routes/songs.js:12-24 | the listing filter selects exactly the published songs matching the optional search (title, artist or album, case-insensitively) and the optional exact genre, each once |
| Songs.Listed | routes/songs.js:12-24 | the listing filter: published; a non-empty search must match title, artist or album case-insensitively; a non-empty genre must equal the song's |
| Songs.Searched | routes/songs.js:52-58 | the search filter: published, and q matches title or artist case-insensitively |
| Songs.MatchIgnoresCase | routes/songs.js:16-18 | the `$regex` with option `i` ignores case on both sides, and an empty pattern matches every field |
| Songs.UnfilteredListingIsPublished | routes/songs.js:12-24 | without a search or genre, or with empty ones, the listing shows every published song |
| Songs.SearchIsListingWithoutAlbum | routes/songs.js:15-19 | whatever the search route finds the listing finds for the same text; what only the listing finds matches in its album alone |
| Songs.Offset | routes/songs.js:28 | the skip of page p passes over p-1 full pages, so the window ends at `p * limit` |
| Songs.List | routes/songs.js:9-43 | defaults limit 20 and page 1; page 0 with a positive limit is a 400; total counts every match; totalPages is ceil(total/limit), or null for limit 0; the page is the `limit`-window at offset `(page-1)*limit` of the matches ordered by play count |
| Songs.ListPageIsOrderedMatches | routes/songs.js:26-29 | every song on a page is a stored, published match; the page is ordered by play count, highest first, and holds at most `limit` songs |
| Songs.ListTotalCountsMatches | routes/songs.js:32 | total equals the number of matching documents in the store, not the page size |
| Songs.Search | routes/songs.js:45-64 | a missing or empty q is a 400 before any lookup; otherwise exactly the published songs whose title or artist matches, each once (album not searched) |
| Songs.PublishedSongs | routes/songs.js:68 | exactly the published songs, each once |
| Songs.Popular | routes/songs.js:66-76 | `min(20, #published)` distinct published songs, drawn from the published ones without repeats, ordered by play count then likes, and no published song left out ranks above one shown |
| Songs.GetById | routes/songs.js:78-88 | 404 exactly when the id is absent; otherwise that song, whatever its status |
| Songs.CountPlay | routes/songs.js:97 | play count rises by exactly 1; nothing else changes |
| Songs.AddToHistory | routes/songs.js:100-107 | exactly one `{song, playedAt}` entry is appended at the end of the history; nothing else changes |
| Songs.ToggleLike | routes/songs.js:124-132 | `liked` is `!isLiked`; when not liked the id is appended and likes rise by 1, otherwise every occurrence is removed and likes become `max(0, likes-1)`; nothing else changes |
| Songs.Unlike | routes/songs.js:156-157 | the id is no longer liked, other likes are kept, and likes become `max(0, likes-1)` in every case |
| Songs.ToggleLikeTwiceRestores | routes/songs.js:124-141 | starting from "not liked" with a non-negative counter, two toggles restore the user (order included) and the song |
| Songs.ToggleLikeKeepsOrder | routes/songs.js:126-128 | taking a like back leaves the other liked songs in their order |
| Songs.ToggleLikeKeepsInvariants | routes/songs.js:124-132 | toggling keeps the likes free of duplicates and a non-negative counter non-negative |
| Songs.UnlikeKeepsInvariants | routes/songs.js:155-157 | unliking keeps the likes free of duplicates and a non-negative counter non-negative |
| Songs.UnlikeWithoutLikeStillDecrements | routes/songs.js:156-157 | unliking a song not liked leaves the account unchanged but still decrements a positive counter |
| Songs.ApplyPatchOverwrites | routes/songs.js:214-216 | an empty body changes nothing, applying a body twice is applying it once, and each field given takes the body's value while absent ones keep theirs |
| Songs.ApplyPatch | routes/songs.js:214-216 | the wholesale update `findByIdAndUpdate(id, req.body)`: each body field overwrites the stored one, absent fields are kept; specified by `Songs.ApplyPatchOverwrites` |
| Songs.PatchCanReassignOwner | routes/songs.js:214-216 | the update can set `createdBy` to another user and drive likes below 0 |
| Songs.PatchKeepsRequired | routes/songs.js:214-218 | with validators on, an update leaves a valid song valid exactly when it does not blank title or artist |
| Songs.CreationFields | routes/songs.js:174-184 | the schema accepts the body exactly when title, artist and duration are given; the song is then the caller's, published, with genre, fileUrl and coverArt from the body and no album, album art or audio file |
| Songs.PlaySong | routes/songs.js:90-113 | unknown id: 404, store unchanged; otherwise the song's play count rises by 1, one history entry is appended for an existing caller, nothing else changes, and the reply is the new count |
| Songs.ToggleLikeSong | routes/songs.js:115-145 | 404 for an absent song, checked before the caller's account; then the toggle applied to both documents and the reply `{liked, likes, likedSongs}` |
| Songs.UnlikeSong | routes/songs.js:147-170 | 404 for an absent song; otherwise the unlike applied to both documents and the new count returned |
| Songs.CreateSong | routes/songs.js:172-192 | gate failure answered unchanged; a body missing a required field is a 400; otherwise a new song under a fresh id with `createdBy` the caller |
| Songs.UpdateSong | routes/songs.js:203-224 | gate first; a song absent or not the caller's is the same 404, store unchanged; an update blanking a required field is a 400; otherwise only that song is patched |
| Songs.DeleteSong | routes/songs.js:226-241 | gate first; absent and not-yours are the same 404, store unchanged; otherwise exactly that song is removed |
| Playlists.FindOwned | routes/playlists.js:24-31 | the owner-scoped lookup succeeds exactly for a stored playlist of the caller's; otherwise a 404 |
| Playlists.OwnershipMasked | routes/playlists.js:24-31 | another user's playlist answers exactly as if it were not stored |
| Playlists.ListOwned | routes/playlists.js:11-20 | exactly the caller's playlists, each once, newest `createdAt` first |
| Playlists.GetPlaylist | routes/playlists.js:22-37 | the caller's playlist, or the same 404 for absent and not-owned |
| Playlists.AddSongTo | routes/playlists.js:111-116 | 400 exactly when the song is already there; otherwise appended: length +1, prefix unchanged, other fields unchanged |
| Playlists.RemoveSongFrom | routes/playlists.js:137 | no occurrence of the song is left, every other song stays, other fields unchanged |
| Playlists.AddThenRemoveRestores | routes/playlists.js:111-137 | from a playlist without the song, add then remove gives back the playlist, order included |
| Playlists.SecondAddConflicts | routes/playlists.js:111-113 | adding the same song again is the 400 "already in playlist" |
| Playlists.RemoveIsIdempotent | routes/playlists.js:137 | removing an absent song changes nothing; removing twice is removing once |
| Playlists.MembershipKeepsNoDup | routes/playlists.js:111-137 | neither add nor remove lets a song appear twice |
| Playlists.CountPlay | routes/playlists.js:159 | play count rises by exactly 1; nothing else changes |
| Playlists.ApplyUpdate | routes/playlists.js:58-63 | only name, description and isPublic change, each to the given value or kept; owner, songs, play count and createdAt untouched |
| Playlists.UpdateKeepsRequired | routes/playlists.js:60-64 | with validators on, an update leaves a valid playlist valid exactly when it does not blank the name |
| Playlists.CreatePlaylist | routes/playlists.js:39-54 | missing name: 400, store unchanged; otherwise a new playlist under a fresh id, owned by the caller, empty, 0 plays, public by default |
| Playlists.UpdatePlaylist | routes/playlists.js:56-74 | 400 for a blanking body; then absent and not-owned are the same 404, store unchanged; otherwise only that playlist is updated |
| Playlists.DeletePlaylist | routes/playlists.js:76-91 | absent and not-owned are the same 404, store unchanged; otherwise exactly that playlist is removed |
| Playlists.AddSong | routes/playlists.js:93-124 | a missing song is a 404 before the playlist is looked up (any status accepted); then the owner-scoped 404; then the duplicate 400; otherwise the song is appended |
| Playlists.RemoveSong | routes/playlists.js:126-146 | owner-scoped 404 with no change; otherwise every occurrence is pulled |
| Playlists.PlayPlaylist | routes/playlists.js:148-166 | owner-scoped 404 with no change; otherwise the owner's playlist count rises by 1 and is returned |
| Users.Populate | routes/users.js:43 | the ids of the result are the references that still name a stored song, in reference order and with their multiplicity; each entry carries the stored song |
| Users.PopulateAllPresent | routes/users.js:43 | when every reference is stored, the resolved list has exactly the references' ids in order |
| Users.PopulateDistinct | routes/users.js:43 | references without repeats resolve to songs without repeats |
| Users.PopulateOne | routes/users.js:26 | a single reference resolves to its song, or null once the song is gone |
| Users.Latest | routes/users.js:29-31 | `min(20, n)` history entries, newest first, drawn from the history, and no entry left out is newer than one kept |
| Users.ShortHistoryShownWhole | routes/users.js:29-32 | a history of at most 20 entries is returned whole: every play and every song with its multiplicity |
| Users.RecentlyPlayed | routes/users.js:23-38 | a missing account is a 400; otherwise the songs of the latest 20 plays, newest first, a deleted song as null |
| Users.LikedSongs | routes/users.js:40-62 | both routes answer the same: a missing account is a 400; otherwise the liked songs still stored, in liked order: their ids are the likes with deleted songs filtered out |
| Users.LikedSongsDistinct | routes/users.js:40-62 | with the store's no-duplicate likes, the view lists each song once |
| Users.PublishedBy | routes/users.js:71-74 | exactly the songs created by the id that are published, each once |
| Users.PublicPlaylistsOf | routes/users.js:76-79 | exactly the public playlists owned by the id, each once |
| Users.ArtistProfile | routes/users.js:64-94 | 404 exactly when the id has no account; the artist record carries no password and no email; songs are a permutation of that artist's published songs ordered by play count; playlists are exactly the public ones it owns, each once; stats are the count, the sum of plays and the sum of likes of the listed songs |
| Users.PublishedByCounts | routes/users.js:86 | the number of listed songs is the number of that artist's published songs in the store |
| Users.ArtistStatsCountPublished | routes/users.js:85-88 | the page lists exactly the artist's published songs, and its totals do not depend on the order shown |
| Users.ArtistStatsNonNegative | routes/users.js:87-88 | when no counter is negative, neither total is negative |
| Users.ListenerHasArtistPage | routes/users.js:66-69 | no role check: a listener's id yields a page as well |
| Auth.Clashes | routes/auth.js:11 | the `$or` lookup: an existing account clashes when it has the body's email or the body's username |
| Auth.NewAccount | routes/auth.js:16 | an account is created exactly when email, password and username are given; role defaults to listener, password stored hashed, no likes or history |
| Auth.Register | routes/auth.js:7-32 | any existing account with the same email or username gives 400 and an unchanged store, checked first; missing fields give 400 unchanged; otherwise one new account under a fresh id, token for that id, reply without the password |
| Auth.FindByEmail | routes/auth.js:42 | an account with that email is found if and only if one exists |
| Auth.Login | routes/auth.js:34-63 | 400 exactly when email or password is missing; unknown email and wrong password give the same 401; on success the token is the matched account's and the reply carries no password |
| Auth.LoginSucceedsExactly | routes/auth.js:42-48 | with unique emails, login succeeds exactly when the password verifies against that account's stored hash, and the token names that account |
| Auth.RegisterThenLogin | routes/auth.js:16-48 | a freshly registered account keeps emails and usernames unique and can log in with its own password, receiving a token for its id |
| Auth.Me | routes/auth.js:65-76 | the current account's id, email, username and role, with likes and history as stored references, and no password |
| Auth.MeAgreesWithLikedSongs | routes/auth.js:72 | while every liked song is stored, `/me` and the liked-songs route list the same likes in the same order |
| Auth.MeShowsLoggedInAccount | routes/auth.js:65-76 | after a successful login, `/me` for the token's account shows the account the login answered with |

## Left out

- HTTP framing and bootstrap (server.js): routing, CORS, logging, static files, database connection. A status is a `Failure` constructor; `Common.StatusCode` gives its number.
- Session tokens: signing and verifying is not modelled. A token is the id it names, and the session middleware's resolved caller is a parameter. The middleware is not part of this model.
- Password hashing: `hash` and `verify` are parameters; `correctPassword` is the uninterpreted `verify`.
- Search patterns: user input is matched as a case-insensitive substring with ASCII case folding. Regular-expression metacharacters are not interpreted. So a pattern that is an invalid regular expression, which the store rejects, is not modelled.
- Joins: the user views resolve song references against the song map. Elsewhere `populate` is omitted: the `createdBy` username on song replies, and the songs of playlists in playlist replies and on the artist page. Those replies carry ids.
- Casting and validation errors: an id that is not a valid ObjectId, and every other cast or validation failure, are the single 400 `Invalid`. Ids are naturals.
- Query strings: limit and page are naturals. Non-numeric strings are not modelled, and `currentPage` is returned as a number.
- Concurrency: the handlers read, modify and save without atomic updates. The model treats each request as one indivisible step. A failure between the two saves of a like is not modelled.
- GET /songs/my-songs is declared after GET /songs/:id, which takes the path first; route matching is not modelled.
- GET /users/profile is a plain read of the caller's document and is not modelled.
- POST /auth/logout answers a fixed message and changes nothing; tokens are never revoked.
- The clock: `createdAt` and `playedAt` are naturals passed in. `updatedAt` and the song timestamps are not modelled.
- models/User.js is not part of this model. `Models.User` is inferred from its uses: email, username and password required, password stored hashed, role one of listener or artist. Any index or string options it has are not modelled, and a role outside the enum cannot be written.
- Auth.Register: a missing email or username matches no existing account in the duplicate lookup. How the store treats an undefined filter value is not modelled.
- Durations are integers, not floating-point numbers.
- Songs.UpdateSong: a body field set to `null` is not modelled. Each field either carries a value or is absent and left as it was. Validators are modelled only for required strings; the status enum is enforced by its type.
- Playlists.UpdatePlaylist: likewise for `null`. An absent field is not written, as with current Mongoose, which drops undefined update keys.
- Sort ties: for the store's sorts, the order among equal keys is unspecified; the model fixes one arbitrary order. The contracts state sortedness and permutation, not which tie comes first.
- Users.Latest: the history sort is JavaScript's stable in-memory sort, so equal play times keep their stored order. The model's insertion sort also keeps earlier equal entries first, but no contract states this.
- Store failures: every lookup and write in the model succeeds (`Store.LookupUser` never answers `LookupFailed`). So the gate's 500 (`ArtistAuth.RequireArtist` states it for a failed lookup) and each route's catch-all 500 for a failed store call are not reached by any handler.
- Counters are unbounded integers, like the JavaScript numbers they stand for within the safe range.
