# Music-sharing REST backend: request handling, verified

This project models the request-handling core of a Symfony/Doctrine REST backend for sharing music. It covers users, albums, artists, playlists, songs and record labels. Each controller action is a chain of guard checks, where the first failing check decides the HTTP status, followed by a change to a keyed table. The model states every such outcome exactly and proves the properties the controllers promise.

- `php.dfy` (module `Php`): the PHP semantics the controllers depend on.
  - Request values are byte strings, and a request is a map from field name to value. A field that is absent or null is not a key.
  - `isset`, `empty`, truthiness and `strlen` are small predicates and functions.
  - The two required-field scans: album `add` collects every missing field, while artist `add` stops at the first.
  - Each regular expression becomes a byte predicate. This includes PCRE's rule that `$` without the `D` modifier also matches just before a final newline.
- `store.dfy` (modules `Http`, `Store`): status codes, the entity rows as datatypes, and the database as one class `Store.Database` with a map per table.
  - Users are keyed by e-mail address.
  - The other tables are keyed by auto-increment primary keys drawn from counters.
  - `Database.Valid()` keeps every key below its counter and keeps the user e-mail, `idPlaylist` and `idSong` unique, which the create operations enforce.
- `users.dfy` (module `Users`): `createUser`, `login` with its attempt counter and cooldown, and `deleteUser`.
  - Registration checks are one function, `CheckRegistration`, with an if-and-only-if for each status. `CreateUser` persists exactly what that function decides.
  - One login request is a function `LoginStep` on the cache state. The imperative `Login`, working on the `LoginCache` class, is proved equal to it.
  - Lemmas replay a sequence of requests and prove the throttling behaviour over several requests.
- `albums.dfy`, `artists.dfy`, `playlists.dfy`, `songs.dfy`: the CRUD actions of the four resource controllers.
  - Each create, update, edit and delete is a method on the database that states its whole new state, the key counters included.
  - Partial updates are specified by a `Patched` function, with lemmas about it.
- `label.dfy` (module `Labels`): the `Label` entity as a class.
  - Its artist collection is an insertion-ordered sequence of artist keys.
  - It is specified by `Added` and `Removed`, with lemmas that do not depend on the class.

The model follows the code, including where its behaviour is not what one would expect:

- **Login counter after the cooldown.** The counter is meant to reset once the cooldown is over. The code deletes the stored counter but keeps the value it already read. One more wrong password in the same request therefore stores that value plus one (at least 6) and re-arms the cooldown. `Users.ExpiredCooldownRearms` proves this.
- **Playlist edit with an unknown `idPlaylist`** calls a setter on null. That raises a PHP `Error`, which the `catch (\Exception)` block does not catch, so the model answers 500 and changes nothing.
- **`deleteUser` with no matching user** passes null to `remove`, which is a `TypeError` that is not caught either. The model answers 500 for it as well.

The following are parameters of the model rather than parts of it:

- the current time and today's date;
- date parsing (`new DateTime`);
- password hashing and checking;
- the entity validator;
- the conversion of a request's `artistId` into a primary key.

## Model

| member | source | states |
|---|---|---|
| Php.EmptyCases | src/Controller/AlbumController.php:40 | `!isset($x) or empty($x)` holds exactly for an absent field, "" and "0" |
| Php.EmptyFields | src/Controller/AlbumController.php:37-44 | the collected fields are exactly the required fields that are `empty`, and none are collected iff all are filled |
| Php.FirstEmptyIndex | src/Controller/ArtistController.php:38-43 | the reported field is the first `empty` one: every earlier field is filled, and it is past the end iff all are filled |
| Php.AcceptedPhone | src/Controller/UserController.php:95-104 | a phone number that passes is ten ASCII digits, possibly followed by a single newline |
| Php.AcceptedEmail | src/Controller/UserController.php:84-93 | an e-mail that passes has an `@` that is neither its first nor its last byte |
| Php.EmailMatches | src/Controller/UserController.php:84-85 | `^\S+@\S+\.\S+$` on bytes, with the final-newline case of `$`; a passing address has at least five bytes |
| Php.PhoneMatches | src/Controller/UserController.php:95-96 | `^\d{10}$` on bytes, with the final-newline case of `$`; a passing number has 10 or 11 bytes |
| Php.CoverMatches | src/Controller/AlbumController.php:48-49 | a name ending in `.jpeg`, `.jpg` or `.png`, or in one of them and a final newline; anchored only at the end and case-sensitive; a passing cover has at least four bytes |
| Php.AcceptedCover | src/Controller/AlbumController.php:48-49 | a passing cover has the dot of its extension among its last six bytes |
| Php.CoverCaseAndNewline | src/Controller/AlbumController.php:48-49 | an upper-case `.JPG` is refused, and `.png` followed by a newline passes |
| Php.NameMatches | src/Controller/ArtistController.php:46 | `^[a-zA-Z\s]+$` on bytes; a passing name is non-empty |
| Php.NameMatchesIsNameShape | src/Controller/ArtistController.php:46 | the name pattern accepts exactly the non-empty strings of ASCII letters and white space |
| Users.Age | src/Controller/UserController.php:106-108 | the whole years of the unsigned interval: for a past birth date, the age-th anniversary is on or before today and the next one is after it; for a future one, today plus the age in years is still before the birth date and one more year is not |
| Users.AgeOnBirthday | src/Controller/UserController.php:106-109 | on the n-th birthday the computed age is exactly n, so a user who is exactly 12 passes |
| Users.AgeBeforeBirthday | src/Controller/UserController.php:106-109 | the day before the n-th birthday the age is n - 1 |
| Users.FutureBirthPasses | src/Controller/UserController.php:106-109 | the interval is unsigned: a birth date at least 13 years ahead passes the age check |
| Users.CheckRegistration | src/Controller/UserController.php:59-133 | 400 iff a mandatory field is null; 409 iff a length bound, the e-mail pattern or the phone pattern fails, or every check passes and the e-mail is taken; 404 iff the birth date does not parse; 406 iff the age is below 12; a user is registered iff every check passes and the e-mail is new, and it then holds exactly the request's fields, the hashed password, a conforming e-mail and phone number, and an age of at least 12 |
| Users.RegisteredPhone | src/Controller/UserController.php:95-104 | every registered user's phone number is ten digits, possibly followed by one newline |
| Users.CreateUser | src/Controller/UserController.php:46-156 | a refusal answers its status and leaves the users unchanged; success answers 200 and adds exactly the one new user under its e-mail |
| Users.LoginStep | src/Controller/UserController.php:162-222 | 400 for a missing field or a bad e-mail; 429 iff the count is at least 5 and the cooldown is active, with the cache unchanged; for an unknown e-mail, 400 and only the expired-cooldown clean-up; 401 iff the password is wrong, storing the count plus one and arming a 120-second cooldown at 5; 200 iff the password is right, deleting the count; entries for other e-mails are untouched |
| Users.FailedLoginsCount | src/Controller/UserController.php:205-214 | after k ≤ 5 wrong passwords from no stored count, exactly k attempts are stored, and the fifth sets the cooldown to expire 120 seconds later |
| Users.SixthLoginThrottled | src/Controller/UserController.php:188-192 | after five wrong passwords, any request for that e-mail within 120 seconds gets 429, whatever its password and without a password check |
| Users.ExpiredCooldownRearms | src/Controller/UserController.php:193-214 | once the cooldown expires, a wrong password stores a count above 5 and makes the e-mail throttled again immediately |
| Users.AfterExpiry | src/Controller/UserController.php:193-195 | a stored count of 5 or more is deleted and a lower one kept; other e-mails' counts and every cooldown are untouched |
| Users.LoginCache.constructor | src/Controller/UserController.php:182-186 | a new cache holds no counter and no cooldown |
| Users.Login | src/Controller/UserController.php:158-241 | the status and the new cache state are exactly those given by `LoginStep` on the old cache state |
| Users.DeleteUser | src/Controller/UserController.php:297-322 | the current user's row is removed and nothing else changes; with no such user the answer is 500 and nothing changes |
| Albums.CollectMissing | src/Controller/AlbumController.php:37-43 | the loop collects exactly `EmptyFields` of the required fields, in their order |
| Albums.FoundArtist | src/Controller/AlbumController.php:60-63 | an artist is found iff the request's `artistId` reads as a key that is in the artist table |
| Albums.NewAlbum | src/Controller/AlbumController.php:53-58 | the album built by the setters: `idAlbum` is taken from `fullname`, and the artist is the one found |
| Albums.Add | src/Controller/AlbumController.php:33-80 | 400 with every missing field listed; then 400 for a non-image cover; 404 iff the fields and cover pass and the artist is unknown; 201 iff the artist is found and the validator accepts, adding exactly one album with a fresh key holding the request's values and the found artist; otherwise the albums are unchanged |
| Albums.CreatedAlbumFromRequest | src/Controller/AlbumController.php:53-58 | a created album holds the request's own values, none of them "", "0" or null, and its cover names a jpeg, jpg or png image |
| Albums.Detail | src/Controller/AlbumController.php:82-104 | 200 with the stored album, or 404 with none |
| Albums.Delete | src/Controller/AlbumController.php:106-120 | 404 with no change, or 200 with exactly that album removed |
| Albums.Patched | src/Controller/AlbumController.php:134-145 | each of nom, categ, cover and year is replaced iff supplied and not `empty`; `idAlbum` and the artist never change |
| Albums.PatchIdempotent | src/Controller/AlbumController.php:134-145 | applying the same update twice equals applying it once |
| Albums.EmptyPatchKeeps | src/Controller/AlbumController.php:134-145 | an update that supplies none of the four fields leaves the album unchanged |
| Albums.Update | src/Controller/AlbumController.php:122-150 | 404 with no change, or 200 and the album replaced by its patched version, with every other album unchanged |
| Artists.FindFirstMissing | src/Controller/ArtistController.php:38-43 | the early-return loop stops at exactly `FirstEmptyIndex` |
| Artists.NewArtist | src/Controller/ArtistController.php:50-53 | the artist built by the setters: the description is null exactly when it is absent, and otherwise the given one |
| Artists.Add | src/Controller/ArtistController.php:34-68 | 400 naming a missing field iff some required field is `empty`, and the field named is the first `empty` one of `fullname`, `label`; 201 iff the fields are filled, the name matches and the validator accepts, adding exactly one artist with a fresh key and the description, or null when absent; otherwise no change |
| Artists.CreatedNameIsLetters | src/Controller/ArtistController.php:45-51 | a created artist's name is non-empty and made only of ASCII letters and white space |
| Artists.Detail | src/Controller/ArtistController.php:70-87 | 200 with the stored artist, or 404 with none |
| Artists.Patched | src/Controller/ArtistController.php:100-114 | each of fullname, label and description is replaced iff it is set, even to "" or "0" |
| Artists.PatchIdempotent | src/Controller/ArtistController.php:100-114 | applying the same update twice equals applying it once |
| Artists.Update | src/Controller/ArtistController.php:89-119 | 404 iff the id is unknown; 400 iff the name is set and fails the pattern, with nothing changed; otherwise 200 and the artist replaced by its patched version |
| Artists.UpdatedNameMatches | src/Controller/ArtistController.php:100-106 | an update that passes keeps the stored name within the name pattern |
| Artists.Delete | src/Controller/ArtistController.php:121-135 | 404 with no change, or 200 with exactly that artist removed |
| Playlists.PlaylistFrom | src/Controller/PlaylistController.php:69-72 | the written row holds the request's `idPlaylist`, title and public flag |
| Playlists.Get | src/Controller/PlaylistController.php:29-50 | 200 with the stored playlist, or 404 with none |
| Playlists.Create | src/Controller/PlaylistController.php:52-91 | 200 iff no field is null and the `idPlaylist` is new, adding exactly one row with those values; otherwise 400 and no change; `idPlaylist` stays unique |
| Playlists.Edit | src/Controller/PlaylistController.php:93-124 | 400 iff a field is null; 500 iff the `idPlaylist` is unknown; otherwise 200 and that one row's title and public flag replaced, keeping its `idPlaylist`; no change on failure |
| Playlists.EditKeepsIdentity | src/Controller/PlaylistController.php:105-110 | an edit keeps `idPlaylist` unique and keeps the same set of `idPlaylist` values findable |
| Playlists.Delete | src/Controller/PlaylistController.php:126-147 | 404 with no change, or 200 with exactly that playlist removed |
| Songs.SongFrom | src/Controller/SongController.php:73-78 | the written row holds the request's five values |
| Songs.CreateGuardImpliesEditGuard | src/Controller/SongController.php:64-66 | every request `createSong` accepts also passes the edit's null check |
| Songs.VisibilityZeroOnlyOnEdit | src/Controller/SongController.php:106-108 | a visibility of "0" is written by the edit but always refused by `createSong` |
| Songs.Get | src/Controller/SongController.php:29-52 | 200 with the stored song, or 404 with none |
| Songs.Create | src/Controller/SongController.php:54-94 | 200 iff all five fields are truthy and the `idSong` is new, adding exactly one row with those values; otherwise 400 and no change; `idSong` stays unique |
| Songs.Edit | src/Controller/SongController.php:96-136 | 200 iff no field is null and the `idSong` exists, overwriting that row's title, url, cover and visibility and keeping its `idSong`; otherwise 400 and no change |
| Songs.Delete | src/Controller/SongController.php:138-159 | 400, not 404, with no change for an unknown id; otherwise 200 with exactly that song removed |
| Labels.Added | src/Entity/Label.php:54-61 | the artist is contained afterwards; the members are the old ones plus it; the old order is a prefix; adding a member changes nothing; duplicate-freedom is kept |
| Labels.Removed | src/Entity/Label.php:63-68 | removing a non-member changes nothing; other members are kept; the length drops by one iff it was a member; in a duplicate-free collection the artist is gone afterwards and duplicate-freedom is kept |
| Labels.AddIdempotent | src/Entity/Label.php:54-61 | adding twice equals adding once |
| Labels.RemovedSplice | src/Entity/Label.php:63-68 | removal cuts out exactly the first occurrence and keeps the order of the rest |
| Labels.RemoveUndoesAdd | src/Entity/Label.php:54-68 | removing an artist just added to a collection that lacked it restores the collection |
| Labels.Label.constructor | src/Entity/Label.php:24-27 | a new label has an empty artist collection and no name |
| Labels.Label.GetName | src/Entity/Label.php:34-37 | returns the stored name |
| Labels.Label.SetName | src/Entity/Label.php:39-44 | the stored name becomes the given one, so a following `GetName` returns it |
| Labels.Label.GetArtists | src/Entity/Label.php:49-52 | returns the stored collection |
| Labels.Label.AddArtist | src/Entity/Label.php:54-61 | the collection becomes `Added` of the old one: the artist is contained, the old order is a prefix, and it stays duplicate-free |
| Labels.Label.RemoveArtist | src/Entity/Label.php:63-68 | the collection becomes `Removed` of the old one: the artist is gone, all other members are kept, and it stays duplicate-free |

## Left out

- Response bodies: JSON serialisation, messages, error flags, date formatting and the serializer's ignored attributes. Only status codes and state are modelled.
- Request decoding. JSON and form values are taken as byte strings in PHP's string form. Nested arrays, and values of other JSON types that setters would coerce or reject, are not modelled.
- Password hashing, password checking and JWT creation: these are function parameters.
- `new DateTime` parsing and the clock: a parsing function parameter, a calendar `today` and a seconds clock `now`. Time of day is not modelled; the current moment counts as any time after midnight of `today`.
- Cache keys built with `md5` become a per-e-mail map, so hash collisions between e-mail addresses are not modelled. Cache persistence, eviction and concurrency are not modelled either.
- The Symfony validator's constraints are not visible and are a predicate parameter.
- The route table, HTTP methods, the `/playlist/{x}` routes that shadow each other, and `getUser()`: the signed-in e-mail is a parameter of `DeleteUser`.
- The `index` list actions of each controller, `getPlaylistSongs`, `LoginController`, commented-out `editUser`, and the database migration: none of these is part of this model.
- `createAt` and `updateAt` timestamps; `Label.getId`; the fluent `return $this` of the setters.
- Foreign-key integrity: deleting an artist or a user still referenced by other rows, and `detail` reporting the album's artist id and name. The model does not track references between tables.
- Database errors and the generic `catch (\Exception)` answers they would produce. `flush` is taken to succeed.
- `Users.CheckRegistration`, `Users.LoginStep`, `Playlists.Create`, `Playlists.Edit`, `Songs.Create` and `Songs.Edit` compare e-mail addresses, `idPlaylist` and `idSong` as exact bytes. The database's `utf8mb4_unicode_ci` collation makes `findOneBy` ignore letter case. So the model misses three things: registering "A@x.fr" after "a@x.fr" answers 409; a login under a case variant finds the user while counting its attempts under a different `md5` key; and create/edit match an `idPlaylist` or `idSong` that differs only in case. The collation's rules are out of reach of a byte model.
- `Labels.Label.GetArtists` returns a copy of the collection. The source returns the live `Collection`, and a caller could `add` to it around the `contains` guard. Duplicate-freedom (`Label.Valid`) is proved only for changes made through `AddArtist` and `RemoveArtist`; that aliasing is not modelled.
- Text is bytes. There is no multi-byte character handling, which matches PCRE without the `u` modifier and `strlen`.
- The 500 answers of `deleteUser` and playlist `editPlaylist` assume that an uncaught `Error` becomes a server error. The `TypeError` from `remove(null)` depends on the Doctrine version.
