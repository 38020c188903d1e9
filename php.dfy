/** PHP value semantics the controllers rely on: request values are byte
    strings, `isset`, `empty` and truthiness are small predicates, `strlen`
    counts bytes, and each regular expression becomes a byte predicate. */
module Php {

  /** One byte of a PHP string. PHP strings are byte strings. */
  type Byte = b: int | 0 <= b < 256
  type Bytes = seq<Byte>

  datatype Option<T> = None | Some(value: T)

  /** A decoded request. A field that is absent or null is not a key. */
  type Request = map<string, Bytes>

  const Newline: Byte := '\n' as int
  const Zero: Byte := '0' as int
  const At: Byte := '@' as int
  const Dot: Byte := '.' as int

  // ---------------------------------------------------------------------
  // isset, empty, truthiness, strlen

  /** `isset($x)`: present and not null. */
  predicate Isset(req: Request, f: string) {
    f in req
  }

  /** The two falsy strings of PHP: "" and "0". */
  predicate Falsy(v: Bytes) {
    v == [] || v == [Zero]
  }

  /** `(bool) $x` for a field that may be absent. */
  predicate Truthy(req: Request, f: string) {
    f in req && !Falsy(req[f])
  }

  /** `empty($x)`, which is also `!isset($x) || empty($x)`. */
  predicate Empty(req: Request, f: string) {
    !Truthy(req, f)
  }

  /** `(string) $x`: null converts to the empty string. */
  function StringValue(req: Request, f: string): Bytes {
    if f in req then req[f] else []
  }

  /** `$x ?? null`: the value, or null when absent. */
  function OptionalValue(req: Request, f: string): Option<Bytes> {
    if f in req then Some(req[f]) else None
  }

  /** `strlen($x)`, where `strlen(null)` is 0. */
  function Strlen(req: Request, f: string): nat {
    |StringValue(req, f)|
  }

  lemma EmptyCases(req: Request, f: string)
    ensures Empty(req, f) <==> f !in req || req[f] == [] || req[f] == [Zero]
  {
  }

  // ---------------------------------------------------------------------
  // Required-field scans

  /** The fields of `fields` that are `empty` in `req`, in the order of `fields`. */
  function EmptyFields(fields: seq<string>, req: Request): (r: seq<string>)
    ensures forall f :: f in r <==> f in fields && Empty(req, f)
    ensures |r| <= |fields|
    ensures r == [] <==> forall i :: 0 <= i < |fields| ==> !Empty(req, fields[i])
  {
    if fields == [] then []
    else
      var init, last := fields[..|fields| - 1], fields[|fields| - 1];
      assert fields == init + [last];
      var r := EmptyFields(init, req);
      if Empty(req, last) then r + [last] else r
  }

  /** The position of the first `empty` field of `fields`, or `|fields|` when there is none. */
  function FirstEmptyIndex(fields: seq<string>, req: Request): (k: nat)
    ensures k <= |fields|
    ensures forall i :: 0 <= i < k ==> !Empty(req, fields[i])
    ensures k < |fields| ==> Empty(req, fields[k])
  {
    if fields == [] then 0
    else if Empty(req, fields[0]) then 0
    else 1 + FirstEmptyIndex(fields[1..], req)
  }

  // ---------------------------------------------------------------------
  // Character classes (PCRE without the u modifier, default tables)

  /** `\s`: tab, line feed, vertical tab, form feed, carriage return, space. */
  predicate IsSpace(b: Byte) {
    9 <= b <= 13 || b == 32
  }

  /** `\d`: an ASCII digit. */
  predicate IsDigit(b: Byte) {
    '0' as int <= b <= '9' as int
  }

  /** `[a-zA-Z]` */
  predicate IsAsciiLetter(b: Byte) {
    'a' as int <= b <= 'z' as int || 'A' as int <= b <= 'Z' as int
  }

  predicate EndsWith(s: Bytes, suffix: Bytes) {
    |suffix| <= |s| && s[|s| - |suffix|..] == suffix
  }

  /** `$` without the D modifier matches at the end and also just before a
      final newline; `Chomp` drops that newline. */
  predicate EndsInNewline(s: Bytes) {
    |s| > 0 && s[|s| - 1] == Newline
  }

  function Chomp(s: Bytes): Bytes
    requires EndsInNewline(s)
  {
    s[..|s| - 1]
  }

  // ---------------------------------------------------------------------
  // The regular expressions

  /** `\S+@\S+\.\S+` over the whole string. */
  predicate EmailShape(s: Bytes) {
    && (forall i :: 0 <= i < |s| ==> !IsSpace(s[i]))
    && exists i, j :: 0 < i && i + 1 < j && j + 1 < |s| && s[i] == At && s[j] == Dot
  }

  /** `preg_match('/^\S+@\S+\.\S+$/', $s)` */
  predicate EmailMatches(s: Bytes)
    ensures EmailMatches(s) ==> |s| >= 5
  {
    EmailShape(s) || (EndsInNewline(s) && EmailShape(Chomp(s)))
  }

  /** `\d{10}` over the whole string. */
  predicate TenDigits(s: Bytes) {
    |s| == 10 && forall i :: 0 <= i < |s| ==> IsDigit(s[i])
  }

  /** `preg_match('/^\d{10}$/', $s)` */
  predicate PhoneMatches(s: Bytes)
    ensures PhoneMatches(s) ==> |s| == 10 || |s| == 11
  {
    TenDigits(s) || (EndsInNewline(s) && TenDigits(Chomp(s)))
  }

  const DotJpeg: Bytes := ['.' as int, 'j' as int, 'p' as int, 'e' as int, 'g' as int]
  const DotJpg: Bytes := ['.' as int, 'j' as int, 'p' as int, 'g' as int]
  const DotPng: Bytes := ['.' as int, 'p' as int, 'n' as int, 'g' as int]

  predicate ImageSuffix(s: Bytes) {
    EndsWith(s, DotJpeg) || EndsWith(s, DotJpg) || EndsWith(s, DotPng)
  }

  /** `preg_match('/\.(jpeg|jpg|png)$/', $s)`: unanchored at the start, case-sensitive. */
  predicate CoverMatches(s: Bytes)
    ensures CoverMatches(s) ==> |s| >= 4
  {
    ImageSuffix(s) || (EndsInNewline(s) && ImageSuffix(Chomp(s)))
  }

  /** `[a-zA-Z\s]+` over the whole string. */
  predicate NameShape(s: Bytes) {
    |s| > 0 && forall i :: 0 <= i < |s| ==> IsAsciiLetter(s[i]) || IsSpace(s[i])
  }

  /** `preg_match('/^[a-zA-Z\s]+$/', $s)` */
  predicate NameMatches(s: Bytes)
    ensures NameMatches(s) ==> |s| > 0
  {
    NameShape(s) || (EndsInNewline(s) && NameShape(Chomp(s)))
  }

  /** A phone number that passes is ten digits, possibly followed by one newline. */
  lemma AcceptedPhone(s: Bytes)
    requires PhoneMatches(s)
    ensures forall i :: 0 <= i < 10 ==> IsDigit(s[i])
    ensures |s| == 10 || (|s| == 11 && s[10] == Newline)
  {
    if !TenDigits(s) {
      assert s[..10] == Chomp(s);
    }
  }

  /** A name with an image extension has the extension's dot among its last five bytes. */
  lemma ImageSuffixDot(t: Bytes) returns (i: nat)
    requires ImageSuffix(t)
    ensures i + 4 <= |t| <= i + 5 && t[i] == Dot
  {
    if EndsWith(t, DotJpeg) {
      i := |t| - 5;
      assert t[i..][0] == DotJpeg[0];
    } else if EndsWith(t, DotJpg) {
      i := |t| - 4;
      assert t[i..][0] == DotJpg[0];
    } else {
      i := |t| - 4;
      assert t[i..][0] == DotPng[0];
    }
  }

  /** A passing cover name has a dot among its last six bytes, followed by
      at least three more: the dot of its extension. */
  lemma AcceptedCover(s: Bytes)
    requires CoverMatches(s)
    ensures exists i :: 0 <= i && i + 4 <= |s| <= i + 6 && s[i] == Dot
  {
    if ImageSuffix(s) {
      var i := ImageSuffixDot(s);
    } else {
      var i := ImageSuffixDot(Chomp(s));
      assert s[i] == Chomp(s)[i];
    }
  }

  /** The extension check is case-sensitive: an upper-case `.JPG` is refused,
      while a final newline after `.png` is let through. */
  lemma CoverCaseAndNewline()
    ensures !CoverMatches(['.' as int, 'J' as int, 'P' as int, 'G' as int])
    ensures CoverMatches(DotPng + [Newline])
  {
    assert Chomp(DotPng + [Newline]) == DotPng;
  }

  /** Since `\s` contains the newline, the final-newline case of the name
      pattern adds nothing: the pattern means exactly `NameShape`. */
  lemma NameMatchesIsNameShape(s: Bytes)
    ensures NameMatches(s) <==> NameShape(s)
  {
    if EndsInNewline(s) && NameShape(Chomp(s)) {
      forall i | 0 <= i < |s|
        ensures IsAsciiLetter(s[i]) || IsSpace(s[i])
      {
        if i < |s| - 1 {
          assert s[i] == Chomp(s)[i];
        }
      }
    }
  }

  /** A passing e-mail address has an `@` that is neither its first nor its
      last byte. */
  lemma AcceptedEmail(s: Bytes)
    requires EmailMatches(s)
    ensures exists i :: 0 < i < |s| - 1 && s[i] == At
  {
    var t := if EmailShape(s) then s else Chomp(s);
    assert EmailShape(t);
    var i, j :| 0 < i && i + 1 < j && j + 1 < |t| && t[i] == At && t[j] == Dot;
    assert s[i] == t[i];
  }
}
