/** `SongController`: `getSong`, `createSong`, the song edit (named
    `editPlaylist` in the controller) and `deleteSong`. Request fields are
    form parameters. */
module Songs {
  import opened Php
  import opened Http
  import opened Store

  /** `createSong`'s guard: every field is truthy, so "" and "0" are refused. */
  predicate CreateFieldsPresent(data: Request) {
    && Truthy(data, "idSong") && Truthy(data, "title") && Truthy(data, "url")
    && Truthy(data, "cover") && Truthy(data, "visibility")
  }

  /** The edit's guard: no field is null, so "" and "0" are accepted. */
  predicate EditFieldsPresent(data: Request) {
    && Isset(data, "idSong") && Isset(data, "title") && Isset(data, "url")
    && Isset(data, "cover") && Isset(data, "visibility")
  }

  /** The row `createSong` writes and the edit writes over the found row. */
  function SongFrom(data: Request): (s: Song)
    requires EditFieldsPresent(data)
    ensures s.idSong == data["idSong"] && s.title == data["title"] && s.url == data["url"]
    ensures s.cover == data["cover"] && s.visibility == data["visibility"]
  {
    Song(data["idSong"], data["title"], data["url"], data["cover"], data["visibility"])
  }

  /** The create guard is the stricter one. */
  lemma CreateGuardImpliesEditGuard(data: Request)
    requires CreateFieldsPresent(data)
    ensures EditFieldsPresent(data)
  {
  }

  /** A song whose visibility is "0" can be written by the edit and never by
      `createSong`. */
  lemma VisibilityZeroOnlyOnEdit(data: Request)
    requires EditFieldsPresent(data) && SongFrom(data).visibility == [Zero]
    ensures !CreateFieldsPresent(data)
  {
  }

  /** `getSong`: the song with primary key `id`. */
  method Get(db: Database, id: int) returns (status: int, song: Option<Song>)
    ensures id in db.songs ==> status == Ok && song == Some(db.songs[id])
    ensures id !in db.songs ==> status == NotFound && song == None
  {
    if id !in db.songs {
      return NotFound, None;
    }
    status, song := Ok, Some(db.songs[id]);
  }

  /** `createSong`: refuses a falsy field and an `idSong` already in use,
      which keeps `idSong` unique. */
  method Create(db: Database, data: Request) returns (status: int)
    requires db.Valid()
    modifies db`songs, db`nextSongId
    ensures db.Valid()
    ensures status in {Ok, BadRequest}
    ensures status == Ok <==> CreateFieldsPresent(data) && !HasIdSong(old(db.songs), data["idSong"])
    ensures status == Ok ==>
              && old(db.nextSongId) !in old(db.songs) && db.nextSongId == old(db.nextSongId) + 1
              && db.songs == old(db.songs)[old(db.nextSongId) := SongFrom(data)]
    ensures status == BadRequest ==> db.songs == old(db.songs) && db.nextSongId == old(db.nextSongId)
  {
    if !Truthy(data, "idSong") || !Truthy(data, "title") || !Truthy(data, "url")
       || !Truthy(data, "cover") || !Truthy(data, "visibility") {
      return BadRequest;
    }
    var id := data["idSong"];
    if exists k :: k in db.songs && db.songs[k].idSong == id {
      return BadRequest;
    }
    db.songs := db.songs[db.nextSongId := SongFrom(data)];
    db.nextSongId := db.nextSongId + 1;
    status := Ok;
  }

  /** The edit: overwrites title, url, cover and visibility of the song with
      the given `idSong`; a null field or an unknown `idSong` is a 400. */
  method Edit(db: Database, data: Request) returns (status: int)
    requires db.Valid()
    modifies db`songs
    ensures db.Valid()
    ensures status in {Ok, BadRequest}
    ensures status == Ok <==> EditFieldsPresent(data) && HasIdSong(old(db.songs), data["idSong"])
    ensures status == Ok ==>
              forall k :: k in old(db.songs) && old(db.songs)[k].idSong == data["idSong"] ==>
                db.songs == old(db.songs)[k := SongFrom(data)]
    ensures status == BadRequest ==> db.songs == old(db.songs)
  {
    if !("idSong" in data && "title" in data && "url" in data && "cover" in data && "visibility" in data) {
      return BadRequest;
    }
    var id := data["idSong"];
    if !exists k :: k in db.songs && db.songs[k].idSong == id {
      return BadRequest;
    }
    var k :| k in db.songs && db.songs[k].idSong == id;
    db.songs := db.songs[k := db.songs[k].(title := data["title"], url := data["url"],
                                           cover := data["cover"], visibility := data["visibility"])];
    status := Ok;
  }

  /** `deleteSong`: removes exactly the song with primary key `id`; an unknown
      id is a 400 here, not a 404. */
  method Delete(db: Database, id: int) returns (status: int)
    requires db.Valid()
    modifies db`songs
    ensures db.Valid()
    ensures id in old(db.songs) ==> status == Ok && db.songs == old(db.songs) - {id}
    ensures id !in old(db.songs) ==> status == BadRequest && db.songs == old(db.songs)
  {
    if id !in db.songs {
      return BadRequest;
    }
    db.songs := db.songs - {id};
    status := Ok;
  }
}
