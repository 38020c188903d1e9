/** `AlbumController`: `add`, `detail`, `delete` and `update` over the album table. */
module Albums {
  import opened Php
  import opened Http
  import opened Store

  /** The fields `add` requires, in the order it reports them. */
  const AlbumFields: seq<string> := ["fullname", "nom", "categ", "cover", "year", "artistId"]

  /** The loop of `add` that collects every field that is missing or `empty`. */
  method CollectMissing(fields: seq<string>, data: Request) returns (missing: seq<string>)
    ensures missing == EmptyFields(fields, data)
  {
    missing := [];
    var i := 0;
    while i < |fields|
      invariant 0 <= i <= |fields|
      invariant missing == EmptyFields(fields[..i], data)
    {
      assert fields[..i + 1][..i] == fields[..i];
      if Empty(data, fields[i]) {
        missing := missing + [fields[i]];
      }
      i := i + 1;
    }
    assert fields[..i] == fields;
  }

  /** What `find($data['artistId'])` returns, as a primary key; `primaryKey`
      is how Doctrine and the database read the request value as a key. */
  function FoundArtist(artists: map<int, Artist>, data: Request, primaryKey: Bytes -> Option<int>): (r: Option<int>)
    ensures r.Some? ==> r.value in artists && primaryKey(StringValue(data, "artistId")) == r
    ensures r.None? ==> match primaryKey(StringValue(data, "artistId"))
                        case None => true
                        case Some(k) => k !in artists
  {
    match primaryKey(StringValue(data, "artistId"))
    case None => None
    case Some(k) => if k in artists then Some(k) else None
  }

  /** The album `add` builds with its setters: `idAlbum` is taken from `fullname`. */
  function NewAlbum(data: Request, artist: int): (a: Album)
    ensures a.idAlbum == StringValue(data, "fullname") && a.nom == StringValue(data, "nom")
    ensures a.cover == StringValue(data, "cover") && a.artist == artist
  {
    Album(StringValue(data, "fullname"), StringValue(data, "nom"), StringValue(data, "categ"),
          StringValue(data, "cover"), StringValue(data, "year"), artist)
  }

  /** `add`. `constraintsHold` is the entity validator. */
  method Add(db: Database, data: Request, primaryKey: Bytes -> Option<int>, constraintsHold: Album -> bool)
    returns (status: int, missing: seq<string>)
    requires db.Valid()
    modifies db`albums, db`nextAlbumId
    ensures db.Valid()
    ensures missing == EmptyFields(AlbumFields, data)
    ensures status in {Created, BadRequest, NotFound}
    ensures missing != [] ==> status == BadRequest
    ensures missing == [] && !CoverMatches(StringValue(data, "cover")) ==> status == BadRequest
    ensures status == NotFound <==>
              && missing == [] && CoverMatches(StringValue(data, "cover"))
              && FoundArtist(db.artists, data, primaryKey).None?
    ensures status == Created <==>
              && missing == [] && CoverMatches(StringValue(data, "cover"))
              && FoundArtist(db.artists, data, primaryKey).Some?
              && constraintsHold(NewAlbum(data, FoundArtist(db.artists, data, primaryKey).value))
    ensures status == Created ==>
              && old(db.nextAlbumId) !in old(db.albums) && db.nextAlbumId == old(db.nextAlbumId) + 1
              && db.albums == old(db.albums)[old(db.nextAlbumId) := NewAlbum(data, FoundArtist(db.artists, data, primaryKey).value)]
    ensures status != Created ==> db.albums == old(db.albums) && db.nextAlbumId == old(db.nextAlbumId)
  {
    missing := CollectMissing(AlbumFields, data);
    if missing != [] {
      return BadRequest, missing;
    }
    assert "cover" in AlbumFields && "artistId" in AlbumFields;
    if !CoverMatches(data["cover"]) {
      return BadRequest, missing;
    }
    var key := primaryKey(data["artistId"]);
    if key.None? || key.value !in db.artists {
      return NotFound, missing;
    }
    var album := NewAlbum(data, key.value);
    if !constraintsHold(album) {
      return BadRequest, missing;
    }
    db.albums := db.albums[db.nextAlbumId := album];
    db.nextAlbumId := db.nextAlbumId + 1;
    status := Created;
  }

  /** An album `add` creates holds the request's own values, none of them
      "" or "0", and a cover that names an image. */
  lemma CreatedAlbumFromRequest(data: Request, artist: int)
    requires EmptyFields(AlbumFields, data) == [] && CoverMatches(StringValue(data, "cover"))
    ensures Truthy(data, "fullname") && Truthy(data, "nom") && Truthy(data, "categ")
    ensures Truthy(data, "cover") && Truthy(data, "year") && Truthy(data, "artistId")
    ensures NewAlbum(data, artist) == Album(data["fullname"], data["nom"], data["categ"], data["cover"], data["year"], artist)
    ensures CoverMatches(NewAlbum(data, artist).cover)
  {
    assert !Empty(data, AlbumFields[0]) && !Empty(data, AlbumFields[1]) && !Empty(data, AlbumFields[2]);
    assert !Empty(data, AlbumFields[3]) && !Empty(data, AlbumFields[4]) && !Empty(data, AlbumFields[5]);
  }

  /** `detail`: the album with primary key `id`. */
  method Detail(db: Database, id: int) returns (status: int, album: Option<Album>)
    ensures id in db.albums ==> status == Ok && album == Some(db.albums[id])
    ensures id !in db.albums ==> status == NotFound && album == None
  {
    if id !in db.albums {
      return NotFound, None;
    }
    status, album := Ok, Some(db.albums[id]);
  }

  /** `delete`: removes exactly the album with primary key `id`. */
  method Delete(db: Database, id: int) returns (status: int)
    requires db.Valid()
    modifies db`albums
    ensures db.Valid()
    ensures id in old(db.albums) ==> status == Ok && db.albums == old(db.albums) - {id}
    ensures id !in old(db.albums) ==> status == NotFound && db.albums == old(db.albums)
  {
    if id !in db.albums {
      return NotFound;
    }
    db.albums := db.albums - {id};
    status := Ok;
  }

  /** The partial update of `update`: a field is replaced only when it is
      supplied and not `empty`; `idAlbum` and the artist never change, and the
      cover is not checked against the image pattern. */
  function Patched(a: Album, data: Request): (r: Album)
    ensures r.idAlbum == a.idAlbum && r.artist == a.artist
    ensures r.nom == (if Empty(data, "nom") then a.nom else data["nom"])
    ensures r.categ == (if Empty(data, "categ") then a.categ else data["categ"])
    ensures r.cover == (if Empty(data, "cover") then a.cover else data["cover"])
    ensures r.year == (if Empty(data, "year") then a.year else data["year"])
  {
    var a := if !Empty(data, "nom") then a.(nom := data["nom"]) else a;
    var a := if !Empty(data, "categ") then a.(categ := data["categ"]) else a;
    var a := if !Empty(data, "cover") then a.(cover := data["cover"]) else a;
    if !Empty(data, "year") then a.(year := data["year"]) else a
  }

  /** Sending the same update twice has the effect of sending it once. */
  lemma PatchIdempotent(a: Album, data: Request)
    ensures Patched(Patched(a, data), data) == Patched(a, data)
  {
  }

  /** A request that supplies none of the four fields changes nothing. */
  lemma EmptyPatchKeeps(a: Album, data: Request)
    requires Empty(data, "nom") && Empty(data, "categ") && Empty(data, "cover") && Empty(data, "year")
    ensures Patched(a, data) == a
  {
  }

  /** `update`: runs the setters of the supplied fields on the found album. */
  method Update(db: Database, id: int, data: Request) returns (status: int)
    requires db.Valid()
    modifies db`albums
    ensures db.Valid()
    ensures id !in old(db.albums) ==> status == NotFound && db.albums == old(db.albums)
    ensures id in old(db.albums) ==> status == Ok && db.albums == old(db.albums)[id := Patched(old(db.albums)[id], data)]
  {
    if id !in db.albums {
      return NotFound;
    }
    var album := db.albums[id];
    if !Empty(data, "nom") {
      album := album.(nom := data["nom"]);
    }
    if !Empty(data, "categ") {
      album := album.(categ := data["categ"]);
    }
    if !Empty(data, "cover") {
      album := album.(cover := data["cover"]);
    }
    if !Empty(data, "year") {
      album := album.(year := data["year"]);
    }
    db.albums := db.albums[id := album];
    status := Ok;
  }
}
