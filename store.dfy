/** HTTP status codes the controllers answer with. */
module Http {
  const Ok := 200
  const Created := 201
  const BadRequest := 400
  const Unauthorized := 401
  const NotFound := 404
  const NotAcceptable := 406
  const Conflict := 409
  const TooManyRequests := 429
  /** An uncaught PHP `Error` (a method called on null, a `TypeError`). */
  const InternalServerError := 500
}

/** The database behind the Doctrine entity manager, as in-memory tables.
    Entity rows are values; a table maps a primary key to its row. */
module Store {
  import opened Php

  /** A calendar day, as `DateTime` holds it after parsing. */
  datatype Date = Date(year: int, month: int, day: int)

  /** A registered user. `tel` always holds a string that passed the phone pattern. */
  datatype User = User(
    idUser: Option<Bytes>,
    firstName: Bytes,
    lastName: Bytes,
    email: Bytes,
    passwordHash: Bytes,
    tel: Bytes,
    sexe: Option<Bytes>,
    birth: Date)

  /** An album; `artist` is the primary key of its artist. */
  datatype Album = Album(idAlbum: Bytes, nom: Bytes, categ: Bytes, cover: Bytes, year: Bytes, artist: int)

  /** `labelName` holds the `label` field (`label` is a Dafny keyword). */
  datatype Artist = Artist(fullname: Bytes, labelName: Bytes, description: Option<Bytes>)

  datatype Playlist = Playlist(idPlaylist: Bytes, title: Bytes, public: Bytes)

  datatype Song = Song(idSong: Bytes, title: Bytes, url: Bytes, cover: Bytes, visibility: Bytes)

  /** `findOneBy(['idPlaylist' => id])` finds a row. */
  predicate HasIdPlaylist(m: map<int, Playlist>, id: Bytes) {
    exists k :: k in m && m[k].idPlaylist == id
  }

  /** `findOneBy(['idSong' => id])` finds a row. */
  predicate HasIdSong(m: map<int, Song>, id: Bytes) {
    exists k :: k in m && m[k].idSong == id
  }

  ghost predicate UniqueIdPlaylist(m: map<int, Playlist>) {
    forall j, k :: j in m && k in m && m[j].idPlaylist == m[k].idPlaylist ==> j == k
  }

  ghost predicate UniqueIdSong(m: map<int, Song>) {
    forall j, k :: j in m && k in m && m[j].idSong == m[k].idSong ==> j == k
  }

  /** The tables. Auto-increment primary keys are taken from the `next…Id` counters. */
  class Database {
    var users: map<Bytes, User>
    var albums: map<int, Album>
    var artists: map<int, Artist>
    var playlists: map<int, Playlist>
    var songs: map<int, Song>
    var nextAlbumId: int
    var nextArtistId: int
    var nextPlaylistId: int
    var nextSongId: int

    /** Users are found by e-mail, so the table is keyed by it; every primary
        key is below its counter; `idPlaylist` and `idSong` identify one row,
        as the create operations keep them. */
    ghost predicate Valid()
      reads this
    {
      && (forall e :: e in users ==> users[e].email == e)
      && (forall k :: k in albums ==> k < nextAlbumId)
      && (forall k :: k in artists ==> k < nextArtistId)
      && (forall k :: k in playlists ==> k < nextPlaylistId)
      && (forall k :: k in songs ==> k < nextSongId)
      && UniqueIdPlaylist(playlists)
      && UniqueIdSong(songs)
    }

    constructor ()
      ensures Valid()
      ensures users == map[] && albums == map[] && artists == map[]
      ensures playlists == map[] && songs == map[]
    {
      users, albums, artists, playlists, songs := map[], map[], map[], map[], map[];
      nextAlbumId, nextArtistId, nextPlaylistId, nextSongId := 1, 1, 1, 1;
    }
  }
}
