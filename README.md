# spotify-playlistinator core, modelled in Dafny

This project models the sequential core of the `spotify-playlistinator` command-line tool
(package `cmd`):

- **PKCE** (`Pkce`, pkce.dfy): `generateCodeChallenge` fills an `l`-byte buffer from the
  66-character unreserved alphabet of section 4.1 of RFC 7636, one random draw per byte;
  `authenticate` derives the S256 challenge of section 4.2 of RFC 7636 (SHA-256, base64url, trailing
  `=` trimmed). Random draws are an oracle sequence; SHA-256 and base64url are function parameters.
- **Authentication flow** (`Auth`, auth.dfy): the steps of `authenticate` after the authorization
  URL is built: listener error, close error, state check, code exchange; any failure ends the flow.
  The callback listener's outcome is an input.
- **Client provider** (`ClientProvider`, client.dfy): `getClient` as a class `Process` holding the
  package-level client, `cfg.ClientID` and the token cache file, with a ghost trace of the steps
  that reach outside the process. A published client never changes and is published at most once.
- **Listing and purging** (`Paging`, `Purge`, `Text`, `Commands`, `LikedTracks`, `Playlists`):
  page joining until `ErrNoMorePages`, CSV row projection (artist names sorted and joined by `"; "`),
  the delete filter, the dry-run exit, 50-ID batching and the task loop with its progress count.
  Each command is a method whose inputs are its flags and the outcomes of `getClient`, the file
  reads and writes and the remote calls. It returns the command's error together with its effects:
  whether `getClient` was called, the tasks submitted, the progress bar and the errors logged.

Behaviour of the code worth noting:

- The token cache is written only after a fresh authentication. A token refreshed from the cache
  is not written back (cmd/auth.go:48-75, 77-114).
- A dry run returns before any batch is built and reports no plan (cmd/likedtracks.go:171-174).
- A purge returns nil even when some removals or unfollows fail (cmd/likedtracks.go:205,
  cmd/playlists.go:185).
- The callback handler sends on an unbuffered channel, so a second callback would block
  (cmd/auth.go:159).
- `generateCodeChallenge` does not check that its length is positive.

The code exchange sends the literal `client_id` `60212408a4914e6da50e448a73fbe4ac`
(cmd/auth.go:190), not the `SPOTIFY_CLIENT_ID` the authorization URL carries. The model keeps the
literal as `Auth.ExchangeClientId`. Whether the token endpoint sees it depends on how the oauth2
library merges parameters, and that library is not part of this model.

## Model

| member | source | states |
|---|---|---|
| `Pkce.CharSetTextLiteral` | cmd/auth.go:200 | the alphabet, written as its four runs, is the source's 66-character literal |
| `Pkce.CharSetByte` | cmd/auth.go:208 | `charSet[i]` is an unreserved byte for every index in range |
| `Pkce.CharSetIsUnreservedSet` | cmd/auth.go:200 | a byte is unreserved (RFC 7636 section 4.1) exactly when it is in the alphabet, and it sits at exactly one index, so the alphabet has no repeats |
| `Pkce.Verifier` | cmd/auth.go:202-209 | the verifier spelled by a run of draws has one byte per draw and every byte is unreserved |
| `Pkce.GenerateCodeChallenge` | cmd/auth.go:199-212 | the buffer is returned exactly when no draw failed (a failed draw panics); it is `l` bytes long, every byte unreserved, byte `i` taken from draw `i` |
| `Pkce.TrimPadding` | cmd/auth.go:146 | the result is a prefix of the input, does not end in `=`, and only `=` characters were removed |
| `Pkce.TrimPaddingUnique` | cmd/auth.go:146 | any prefix with those three properties is the trimmed string, so they define it |
| `Pkce.TrimPaddingIdempotent` | cmd/auth.go:146 | trimming twice is trimming once |
| `Pkce.S256Challenge` | cmd/auth.go:143-146 | the challenge is the base64url encoding of the SHA-256 of the verifier, without its trailing `=` padding |
| `Auth.Authenticate` | cmd/auth.go:140-197 | the URL carries the configured client ID, the fresh state, `S256` and the challenge of the verifier; the code is exchanged exactly when the listener stopped with `ErrServerClosed`, the close reported no error and the state matched; the verifier sent is the one that was hashed; a token comes only from a successful exchange; each failing step returns its own error |
| `ClientProvider.LoadToken` | cmd/auth.go:48-75 | a load hits exactly when the file holds a JSON token and refreshing it succeeds, and a hit yields the refreshed token; no home directory, an unreadable or malformed file, or a failed refresh is a miss |
| `ClientProvider.StoreToken` | cmd/auth.go:83-113 | after a best-effort write the file holds a token exactly when the write completed (it then holds the new token) or nothing was touched and it held one before; a truncating open followed by a failed write leaves a file that does not parse |
| `ClientProvider.StoreThenLoad` | cmd/auth.go:48-113 | the next load after a completed write yields the written token refreshed; after a truncated failed write it misses; when nothing was written it finds what it found before |
| `ClientProvider.Process.constructor` | cmd/auth.go:26 | a process starts with no client, no client ID set and nothing in its trace |
| `ClientProvider.Process.GetClient` | cmd/auth.go:29-122 | a published client is returned unchanged and nothing is consulted; a missing `SPOTIFY_CLIENT_ID` fails and sets nothing; a cache hit publishes the cached token's client and writes nothing; a cache miss authenticates; an authentication failure publishes nothing; a success writes the cache (best effort) and publishes and returns the new client; at most one client is ever published |
| `ClientProvider.Process.CreateClient` | cmd/auth.go:48-121 | with the client ID set and nothing published: a usable cached token is published as a retrying client without authenticating or writing the cache; otherwise authentication runs, and its failure publishes nothing and leaves the cache alone, while its success writes the cache and publishes the new token's client |
| `ClientProvider.Process.AuthenticateAndStore` | cmd/auth.go:75-114 | the token is exactly what the authentication flow yields; the cache is written only after a successful authentication, and nothing is published here |
| `Sequences.SelectAppend` | cmd/likedtracks.go:162-167 | filtering rows keeps their order: filtering a concatenation concatenates the filtered parts |
| `Sequences.SelectMembers` | cmd/playlists.go:153-158 | an ID is selected exactly when some row marked `Delete` carries it |
| `Paging.CollectPages` | cmd/likedtracks.go:65-83 | the listed items are the first page followed by each later page, in order, when the loop stops on `ErrNoMorePages`; any other error aborts with that error |
| `Purge.BatchesFlatten` | cmd/likedtracks.go:176-185 | the batches put back together are `toPurge` |
| `Purge.BatchesSizes` | cmd/likedtracks.go:178-184 | every batch has 1 to 50 IDs and only the last may be shorter than 50 |
| `Purge.BatchesCount` | cmd/likedtracks.go:178 | there are ceil(n / 50) batches, none for no IDs |
| `Purge.BatchesBoundary` | cmd/likedtracks.go:179-182 | 50 IDs make one batch; 51 make a batch of 50 and a batch of 1 |
| `Purge.Partition` | cmd/likedtracks.go:176-185 | the loop with `i += 50` builds exactly those batches |
| `Purge.CollectMarked` | cmd/likedtracks.go:162-167 | `toPurge` is the IDs of the rows marked `Delete`, in row order |
| `Purge.FailuresMembers` | cmd/likedtracks.go:196-199 | an error is logged exactly when a submitted task failed with it |
| `Purge.RunTasks` | cmd/likedtracks.go:187-203 | every task is submitted once; the bar's total is the number of tasks and it advances once per task, whether the task fails or not; the log holds one entry per failed task |
| `Text.SortStrings` | cmd/likedtracks.go:107 | the result is in ascending order and is a permutation of the input |
| `Text.SortedUnique` | cmd/likedtracks.go:107 | two ascending arrangements of the same strings are equal, so the sorted order does not depend on the sorting algorithm |
| `Text.JoinLength` | cmd/likedtracks.go:112 | the joined length is the parts' total length plus one separator length between each two parts |
| `Text.JoinSpelledOut` | cmd/likedtracks.go:112 | the joined string is the first part followed, in order, by each later part behind exactly one separator |
| `Text.JoinAppend` | cmd/likedtracks.go:112 | joining two non-empty runs of parts puts one separator between their joins |
| `LikedTracks.ArtistsCellIsSortedJoin` | cmd/likedtracks.go:107-112 | the artists column is the ascending arrangement of the names joined by `"; "` |
| `LikedTracks.ArtistsCellIgnoresOrder` | cmd/likedtracks.go:102-112 | the artists column does not depend on the order of the artists |
| `LikedTracks.TrackRows` | cmd/likedtracks.go:100-114 | one row per track, in order, with `ID` and `Name` copied, the sorted joined artist names and `Delete` false |
| `LikedTracks.ListLiked` | cmd/likedtracks.go:56-130 | a `getClient` or listing error is returned and nothing is written; the JSON output is the joined pages; the CSV output is their rows; success exactly when every step succeeded |
| `LikedTracks.PurgeLiked` | cmd/likedtracks.go:136-206 | without `--csv`: an error and `getClient` is never called; `toPurge` is the marked IDs in order; a dry run succeeds and removes nothing; otherwise each 50-ID batch is submitted once, the bar counts every batch, errors are logged and nil is returned |
| `Playlists.PlaylistRows` | cmd/playlists.go:98-105 | one row per playlist, in order, with `ID`, `Name` and owner ID copied and `Delete` false |
| `Playlists.ListPlaylists` | cmd/playlists.go:54-121 | a `getClient` or listing error is returned and nothing is written; the JSON output is the joined pages; the CSV output is their rows; success exactly when every step succeeded |
| `Playlists.PurgePlaylists` | cmd/playlists.go:127-186 | without `--csv`: an error and `getClient` is never called; `toPurge` is the marked IDs in order; a dry run succeeds and unfollows nothing; otherwise one unfollow per ID, the bar counts every ID, errors are logged and nil is returned |

## Left out

- The `sync.RWMutex` around `getClient` (cmd/auth.go:27-39): concurrency. Calls are modelled one after another.
- The HTTP server, router and channel handshake of `authenticate` (cmd/auth.go:150-184): I/O and concurrency. Their outcome is the `Callback` input.
- The worker pool and the progress bar's rendering: concurrency and terminal output. Tasks run one after another in submission order, and the bar is a counter.
- `crypto/rand`, SHA-256, base64url and `uuid`: library internals. Draws are an oracle, the hash and the encoder are parameters, and the state is an input string. Nothing is claimed about randomness, uniformity or collisions.
- The oauth2 library's code exchange, token refresh and HTTP client: the exchange and the refresh are function parameters.
- All Spotify API calls (listing, paging, removal, unfollow): each is an input outcome.
- JSON and CSV encoding, file opening, the token file's path and permissions, and `defer f.Close()`: file I/O and foreign serialisers. The cache file is a `CacheFile` (unreadable, malformed, or holding a token); the lists handed to the writers are outputs.
- Logging through `zap`, except the purge errors, which are modelled as log entries; cobra commands, flags, `init` functions and cmd/root.go: wiring with no logic.
- ClientProvider.StoreThenLoad: the JSON round trip of the token is assumed, not proved. A completed write is modelled as a file holding the token, and `json.Marshal`/`json.Unmarshal` are not modelled.
- Paging.CollectPages: requires that the remote listing ends (some `NextPage` call does not return a page); an endless listing is not modelled.
- Pkce.GenerateCodeChallenge: the length is a natural number, so the panic of `make` on a negative length is not modelled; the only caller passes 100.
- Auth.Authenticate: the panic of a failed random draw ends the process; the model returns the error `RandomSourceFailed` instead.
- Text.SortStrings: strings are sequences of code points, and Go compares bytes; the two orders agree on UTF-8 text.
