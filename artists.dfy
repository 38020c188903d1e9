/** `ArtistController`: `add`, `detail`, `update` and `delete` over the artist table. */
module Artists {
  import opened Php
  import opened Http
  import opened Store

  /** The fields `add` requires, in the order it checks them. */
  const ArtistFields: seq<string> := ["fullname", "label"]

  /** The loop of `add` that stops at the first field that is missing or `empty`. */
  method FindFirstMissing(fields: seq<string>, data: Request) returns (k: nat)
    ensures k == FirstEmptyIndex(fields, data)
  {
    k := 0;
    while k < |fields|
      invariant k <= |fields|
      invariant FirstEmptyIndex(fields, data) == k + FirstEmptyIndex(fields[k..], data)
    {
      if Empty(data, fields[k]) {
        return;
      }
      assert fields[k..][1..] == fields[k + 1..];
      k := k + 1;
    }
  }

  /** The artist `add` builds; `description` is optional. */
  function NewArtist(data: Request): (a: Artist)
    ensures a.description.None? <==> "description" !in data
    ensures a.description.Some? ==> a.description.value == data["description"]
    ensures a.fullname == StringValue(data, "fullname") && a.labelName == StringValue(data, "label")
  {
    Artist(StringValue(data, "fullname"), StringValue(data, "label"), OptionalValue(data, "description"))
  }

  /** `add`: answers for the first empty required field, then checks the
      name pattern, then the entity validator `constraintsHold`. */
  method Add(db: Database, data: Request, constraintsHold: Artist -> bool)
    returns (status: int, missing: Option<string>)
    requires db.Valid()
    modifies db`artists, db`nextArtistId
    ensures db.Valid()
    ensures status in {Created, BadRequest}
    ensures missing.Some? <==> exists f :: f in ArtistFields && Empty(data, f)
    ensures missing.Some? ==>
              && FirstEmptyIndex(ArtistFields, data) < |ArtistFields|
              && missing.value == ArtistFields[FirstEmptyIndex(ArtistFields, data)]
    ensures missing.Some? ==> Empty(data, missing.value) && (missing.value == "label" ==> !Empty(data, "fullname"))
    ensures missing.Some? ==> status == BadRequest
    ensures status == Created <==>
              && missing.None? && NameMatches(StringValue(data, "fullname"))
              && constraintsHold(NewArtist(data))
    ensures status == Created ==>
              && old(db.nextArtistId) !in old(db.artists) && db.nextArtistId == old(db.nextArtistId) + 1
              && db.artists == old(db.artists)[old(db.nextArtistId) := NewArtist(data)]
    ensures status != Created ==> db.artists == old(db.artists) && db.nextArtistId == old(db.nextArtistId)
  {
    var k := FindFirstMissing(ArtistFields, data);
    if k < |ArtistFields| {
      return BadRequest, Some(ArtistFields[k]);
    }
    assert !Empty(data, ArtistFields[0]) && !Empty(data, ArtistFields[1]);
    missing := None;
    if !NameMatches(data["fullname"]) {
      return BadRequest, missing;
    }
    var artist := NewArtist(data);
    if !constraintsHold(artist) {
      return BadRequest, missing;
    }
    db.artists := db.artists[db.nextArtistId := artist];
    db.nextArtistId := db.nextArtistId + 1;
    status := Created;
  }

  /** An artist `add` creates has a name of ASCII letters and white space only. */
  lemma CreatedNameIsLetters(data: Request)
    requires NameMatches(StringValue(data, "fullname"))
    ensures |NewArtist(data).fullname| > 0
    ensures forall i :: 0 <= i < |NewArtist(data).fullname| ==>
              IsAsciiLetter(NewArtist(data).fullname[i]) || IsSpace(NewArtist(data).fullname[i])
  {
    NameMatchesIsNameShape(StringValue(data, "fullname"));
  }

  /** `detail`: the artist with primary key `id`. */
  method Detail(db: Database, id: int) returns (status: int, artist: Option<Artist>)
    ensures id in db.artists ==> status == Ok && artist == Some(db.artists[id])
    ensures id !in db.artists ==> status == NotFound && artist == None
  {
    if id !in db.artists {
      return NotFound, None;
    }
    status, artist := Ok, Some(db.artists[id]);
  }

  /** The partial update of `update`: a field is replaced when it is set
      (`isset`), even to "" or "0". */
  function Patched(a: Artist, data: Request): (r: Artist)
    ensures r.fullname == (if Isset(data, "fullname") then data["fullname"] else a.fullname)
    ensures r.labelName == (if Isset(data, "label") then data["label"] else a.labelName)
    ensures r.description == (if Isset(data, "description") then Some(data["description"]) else a.description)
  {
    var a := if "fullname" in data then a.(fullname := data["fullname"]) else a;
    var a := if "label" in data then a.(labelName := data["label"]) else a;
    if "description" in data then a.(description := Some(data["description"])) else a
  }

  /** Sending the same update twice has the effect of sending it once. */
  lemma PatchIdempotent(a: Artist, data: Request)
    ensures Patched(Patched(a, data), data) == Patched(a, data)
  {
  }

  /** `update`: a name that is set but fails the pattern rejects the whole
      request, before any field is changed; otherwise the set fields are written. */
  method Update(db: Database, id: int, data: Request) returns (status: int)
    requires db.Valid()
    modifies db`artists
    ensures db.Valid()
    ensures status in {Ok, BadRequest, NotFound}
    ensures status == NotFound <==> id !in old(db.artists)
    ensures status == BadRequest <==>
              id in old(db.artists) && Isset(data, "fullname") && !NameMatches(data["fullname"])
    ensures status == Ok ==> db.artists == old(db.artists)[id := Patched(old(db.artists)[id], data)]
    ensures status != Ok ==> db.artists == old(db.artists)
  {
    if id !in db.artists {
      return NotFound;
    }
    var artist := db.artists[id];
    if "fullname" in data {
      var fullname := data["fullname"];
      if !NameMatches(fullname) {
        return BadRequest;
      }
      artist := artist.(fullname := fullname);
    }
    if "label" in data {
      artist := artist.(labelName := data["label"]);
    }
    if "description" in data {
      artist := artist.(description := Some(data["description"]));
    }
    db.artists := db.artists[id := artist];
    status := Ok;
  }

  /** Every artist name `update` writes passes the name pattern. */
  lemma UpdatedNameMatches(a: Artist, data: Request)
    requires Isset(data, "fullname") ==> NameMatches(data["fullname"])
    requires NameMatches(a.fullname)
    ensures NameMatches(Patched(a, data).fullname)
  {
  }

  /** `delete`: removes exactly the artist with primary key `id`. */
  method Delete(db: Database, id: int) returns (status: int)
    requires db.Valid()
    modifies db`artists
    ensures db.Valid()
    ensures id in old(db.artists) ==> status == Ok && db.artists == old(db.artists) - {id}
    ensures id !in old(db.artists) ==> status == NotFound && db.artists == old(db.artists)
  {
    if id !in db.artists {
      return NotFound;
    }
    db.artists := db.artists - {id};
    status := Ok;
  }
}
