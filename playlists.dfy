/** `PlaylistController`: `getPlaylist`, `createPlaylist`, `editPlaylist` and
    `deletePlaylist`. Request fields are form parameters. */
module Playlists {
  import opened Php
  import opened Http
  import opened Store

  /** None of `idPlaylist`, `title` and `public` is null. */
  predicate HasPlaylistFields(data: Request) {
    "idPlaylist" in data && "title" in data && "public" in data
  }

  /** The row `createPlaylist` and `editPlaylist` write. */
  function PlaylistFrom(data: Request): (p: Playlist)
    requires HasPlaylistFields(data)
    ensures p.idPlaylist == data["idPlaylist"] && p.title == data["title"] && p.public == data["public"]
  {
    Playlist(data["idPlaylist"], data["title"], data["public"])
  }

  /** `getPlaylist`: the playlist with primary key `id`. */
  method Get(db: Database, id: int) returns (status: int, playlist: Option<Playlist>)
    ensures id in db.playlists ==> status == Ok && playlist == Some(db.playlists[id])
    ensures id !in db.playlists ==> status == NotFound && playlist == None
  {
    if id !in db.playlists {
      return NotFound, None;
    }
    status, playlist := Ok, Some(db.playlists[id]);
  }

  /** `createPlaylist`: refuses a null field and an `idPlaylist` already in
      use, which keeps `idPlaylist` unique. Any value, even "", is accepted. */
  method Create(db: Database, data: Request) returns (status: int)
    requires db.Valid()
    modifies db`playlists, db`nextPlaylistId
    ensures db.Valid()
    ensures status in {Ok, BadRequest}
    ensures status == Ok <==> HasPlaylistFields(data) && !HasIdPlaylist(old(db.playlists), data["idPlaylist"])
    ensures status == Ok ==>
              && old(db.nextPlaylistId) !in old(db.playlists) && db.nextPlaylistId == old(db.nextPlaylistId) + 1
              && db.playlists == old(db.playlists)[old(db.nextPlaylistId) := PlaylistFrom(data)]
    ensures status == BadRequest ==> db.playlists == old(db.playlists) && db.nextPlaylistId == old(db.nextPlaylistId)
  {
    if !HasPlaylistFields(data) {
      return BadRequest;
    }
    var id := data["idPlaylist"];
    if exists k :: k in db.playlists && db.playlists[k].idPlaylist == id {
      return BadRequest;
    }
    db.playlists := db.playlists[db.nextPlaylistId := PlaylistFrom(data)];
    db.nextPlaylistId := db.nextPlaylistId + 1;
    status := Ok;
  }

  /** `editPlaylist`: replaces the title and the visibility of the playlist
      with the given `idPlaylist`. A null field is refused with 400; an
      unknown `idPlaylist` calls a method on null, which is not an
      `Exception` and escapes the handler as a 500. */
  method Edit(db: Database, data: Request) returns (status: int)
    requires db.Valid()
    modifies db`playlists
    ensures db.Valid()
    ensures status in {Ok, BadRequest, InternalServerError}
    ensures status == BadRequest <==> !HasPlaylistFields(data)
    ensures status == InternalServerError <==>
              HasPlaylistFields(data) && !HasIdPlaylist(old(db.playlists), data["idPlaylist"])
    ensures status == Ok ==>
              forall k :: k in old(db.playlists) && old(db.playlists)[k].idPlaylist == data["idPlaylist"] ==>
                db.playlists == old(db.playlists)[k := PlaylistFrom(data)]
    ensures status != Ok ==> db.playlists == old(db.playlists)
  {
    if !HasPlaylistFields(data) {
      return BadRequest;
    }
    var id := data["idPlaylist"];
    if !exists k :: k in db.playlists && db.playlists[k].idPlaylist == id {
      return InternalServerError;
    }
    var k :| k in db.playlists && db.playlists[k].idPlaylist == id;
    db.playlists := db.playlists[k := db.playlists[k].(title := data["title"], public := data["public"])];
    status := Ok;
  }

  /** A playlist stays findable by its `idPlaylist` after an edit. */
  lemma EditKeepsIdentity(m: map<int, Playlist>, k: int, data: Request)
    requires HasPlaylistFields(data) && k in m && m[k].idPlaylist == data["idPlaylist"]
    requires UniqueIdPlaylist(m)
    ensures UniqueIdPlaylist(m[k := PlaylistFrom(data)])
    ensures forall id :: HasIdPlaylist(m[k := PlaylistFrom(data)], id) <==> HasIdPlaylist(m, id)
  {
    var m' := m[k := PlaylistFrom(data)];
    forall id
      ensures HasIdPlaylist(m', id) <==> HasIdPlaylist(m, id)
    {
      if HasIdPlaylist(m', id) {
        var j :| j in m' && m'[j].idPlaylist == id;
        assert m[j].idPlaylist == id;
      }
      if HasIdPlaylist(m, id) {
        var j :| j in m && m[j].idPlaylist == id;
        assert m'[j].idPlaylist == id;
      }
    }
  }

  /** `deletePlaylist`: removes exactly the playlist with primary key `id`. */
  method Delete(db: Database, id: int) returns (status: int)
    requires db.Valid()
    modifies db`playlists
    ensures db.Valid()
    ensures id in old(db.playlists) ==> status == Ok && db.playlists == old(db.playlists) - {id}
    ensures id !in old(db.playlists) ==> status == NotFound && db.playlists == old(db.playlists)
  {
    if id !in db.playlists {
      return NotFound;
    }
    db.playlists := db.playlists - {id};
    status := Ok;
  }
}
