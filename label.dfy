/** The `Label` entity: a name and an insertion-ordered, duplicate-free
    collection of artists (a Doctrine `ArrayCollection`). */
module Labels {
  import opened Php

  /** An artist, by primary key. Doctrine's identity map keeps one object
      per key, so the collection's identity comparison is key equality. */
  type ArtistKey = int

  predicate NoDuplicates(s: seq<ArtistKey>) {
    forall i, j :: 0 <= i < j < |s| ==> s[i] != s[j]
  }

  /** `add` guarded by `contains`, as `addArtistIdArtist` does it. */
  function Added(s: seq<ArtistKey>, a: ArtistKey): (r: seq<ArtistKey>)
    ensures a in r
    ensures forall x :: x in r <==> x in s || x == a
    ensures |s| <= |r| <= |s| + 1
    ensures r[..|s|] == s
    ensures a in s ==> r == s
    ensures NoDuplicates(s) ==> NoDuplicates(r)
  {
    if a in s then s else s + [a]
  }

  /** `ArrayCollection::removeElement`: drops the first occurrence and keeps
      the order of the rest. */
  function Removed(s: seq<ArtistKey>, a: ArtistKey): (r: seq<ArtistKey>)
    ensures a !in s ==> r == s
    ensures forall x :: x != a ==> (x in r <==> x in s)
    ensures |r| == if a in s then |s| - 1 else |s|
    ensures NoDuplicates(s) ==> a !in r && NoDuplicates(r)
  {
    if s == [] then []
    else if s[0] == a then
      assert NoDuplicates(s) ==> a !in s[1..] by {
        if NoDuplicates(s) {
          forall j | 0 <= j < |s[1..]| ensures s[1..][j] != a {
            assert s[1..][j] == s[j + 1];
          }
        }
      }
      s[1..]
    else
      var rest := Removed(s[1..], a);
      assert NoDuplicates(s) ==> NoDuplicates(s[1..]) && s[0] !in s[1..] by {
        if NoDuplicates(s) {
          forall i, j | 0 <= i < j < |s[1..]| ensures s[1..][i] != s[1..][j] {
            assert s[1..][i] == s[i + 1] && s[1..][j] == s[j + 1];
          }
          forall j | 0 <= j < |s[1..]| ensures s[1..][j] != s[0] {
            assert s[1..][j] == s[j + 1];
          }
        }
      }
      [s[0]] + rest
  }

  /** Adding an artist that is already there changes nothing. */
  lemma AddIdempotent(s: seq<ArtistKey>, a: ArtistKey)
    ensures Added(Added(s, a), a) == Added(s, a)
  {
  }

  /** Removing the first occurrence at position `i` is splicing that position out. */
  lemma {:induction false} RemovedSplice(s: seq<ArtistKey>, a: ArtistKey, i: nat)
    requires i < |s| && s[i] == a && a !in s[..i]
    ensures Removed(s, a) == s[..i] + s[i + 1..]
  {
    if i > 0 {
      assert s[0] in s[..i];
      assert s[1..][..i - 1] == s[1..i];
      RemovedSplice(s[1..], a, i - 1);
      assert s[1..][i..] == s[i + 1..];
    }
  }

  /** Removing an artist just added to a collection that lacked it restores the collection. */
  lemma {:induction false} RemoveUndoesAdd(s: seq<ArtistKey>, a: ArtistKey)
    requires a !in s
    ensures Removed(Added(s, a), a) == s
  {
    RemovedSplice(s + [a], a, |s|);
    assert (s + [a])[..|s|] == s;
  }

  class Label {
    var name: Option<Bytes>
    var artists: seq<ArtistKey>

    ghost predicate Valid()
      reads this
    {
      NoDuplicates(artists)
    }

    constructor ()
      ensures Valid()
      ensures name == None && artists == []
    {
      name := None;
      artists := [];
    }

    method GetName() returns (n: Option<Bytes>)
      ensures n == name
    {
      n := name;
    }

    method SetName(n: Bytes)
      modifies this`name
      ensures name == Some(n)
    {
      name := Some(n);
    }

    method GetArtists() returns (s: seq<ArtistKey>)
      ensures s == artists
    {
      s := artists;
    }

    method AddArtist(a: ArtistKey)
      requires Valid()
      modifies this`artists
      ensures Valid()
      ensures artists == Added(old(artists), a)
      ensures a in artists && artists[..|old(artists)|] == old(artists)
    {
      if a !in artists {
        artists := artists + [a];
      }
    }

    method RemoveArtist(a: ArtistKey)
      requires Valid()
      modifies this`artists
      ensures Valid()
      ensures artists == Removed(old(artists), a)
      ensures a !in artists
      ensures forall x :: x != a ==> (x in artists <==> x in old(artists))
    {
      artists := Removed(artists, a);
    }
  }
}
