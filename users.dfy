/** `UserController`: registration (`createUser`), login with a per-e-mail
    attempt counter and cooldown (`login`), and account deletion (`deleteUser`). */
module Users {
  import opened Php
  import opened Http
  import opened Store

  // ---------------------------------------------------------------------
  // Age, as `DateInterval::y`

  predicate MonthDayBefore(a: Date, b: Date) {
    a.month < b.month || (a.month == b.month && a.day < b.day)
  }

  predicate DayBefore(a: Date, b: Date) {
    a.year < b.year || (a.year == b.year && MonthDayBefore(a, b))
  }

  /** `$now->diff(new DateTime($birth))->y`: the whole years between the
      current moment, some time after midnight of `today`, and midnight of
      the day of birth. The interval is unsigned, so a birth date in the
      future counts its distance too. */
  function Age(birth: Date, today: Date): (n: nat)
    ensures !DayBefore(today, birth) ==>
              !DayBefore(today, birth.(year := birth.year + n)) && DayBefore(today, birth.(year := birth.year + n + 1))
    ensures DayBefore(today, birth) ==>
              DayBefore(today.(year := today.year + n), birth) && !DayBefore(today.(year := today.year + n + 1), birth)
  {
    if !DayBefore(today, birth) then
      today.year - birth.year - (if MonthDayBefore(today, birth) then 1 else 0)
    else
      birth.year - today.year - (if MonthDayBefore(today, birth) then 0 else 1)
  }

  /** On the n-th birthday the age is exactly n: a twelve-year-old passes. */
  lemma AgeOnBirthday(birth: Date, n: nat)
    ensures Age(birth, birth.(year := birth.year + n)) == n
  {
  }

  /** The day before the n-th birthday the age is n - 1. */
  lemma AgeBeforeBirthday(birth: Date, today: Date, n: nat)
    requires n >= 1 && today.year == birth.year + n && MonthDayBefore(today, birth)
    ensures Age(birth, today) == n - 1
  {
  }

  /** A birth date at least thirteen years in the future passes the age check. */
  lemma FutureBirthPasses(birth: Date, today: Date)
    requires birth.year >= today.year + 13
    ensures Age(birth, today) >= MinimumAge
  {
  }

  // ---------------------------------------------------------------------
  // Registration

  const MinimumAge := 12

  /** The fields compared with `=== null`; `tel` and `sexe` are not among them. */
  predicate HasMandatory(req: Request) {
    "firstName" in req && "lastName" in req && "email" in req && "password" in req && "birth" in req
  }

  /** The `strlen` bounds; an absent field has length 0. */
  predicate WithinLengths(req: Request) {
    && Strlen(req, "idUser") <= 90
    && Strlen(req, "firstName") <= 55
    && Strlen(req, "lastName") <= 55
    && Strlen(req, "email") <= 80
    && Strlen(req, "password") <= 90
    && Strlen(req, "tel") <= 15
    && Strlen(req, "sexe") <= 30
  }

  /** The e-mail and phone patterns; an absent `tel` is matched as "" and fails. */
  predicate WellFormed(req: Request) {
    EmailMatches(StringValue(req, "email")) && PhoneMatches(StringValue(req, "tel"))
  }

  predicate BirthParses(req: Request, parseDate: Bytes -> Option<Date>) {
    parseDate(StringValue(req, "birth")).Some?
  }

  predicate OldEnough(req: Request, today: Date, parseDate: Bytes -> Option<Date>) {
    match parseDate(StringValue(req, "birth"))
    case None => false
    case Some(birth) => Age(birth, today) >= MinimumAge
  }

  /** Every check before the e-mail lookup passes. */
  predicate PassesFieldChecks(req: Request, today: Date, parseDate: Bytes -> Option<Date>) {
    HasMandatory(req) && WithinLengths(req) && WellFormed(req) && BirthParses(req, parseDate) && OldEnough(req, today, parseDate)
  }

  datatype Registration = Refused(status: int) | Registered(user: User)

  /** The checks of `createUser`, in order, the first failure deciding the
      status; `parseDate` is `new DateTime($birth)` (None when it throws, which
      the catch block answers with 404) and `hash` is the password hasher. */
  function CheckRegistration(req: Request, users: map<Bytes, User>, today: Date,
                             parseDate: Bytes -> Option<Date>, hash: Bytes -> Bytes): (r: Registration)
    ensures r.Refused? ==> r.status in {BadRequest, Conflict, NotFound, NotAcceptable}
    ensures r == Refused(BadRequest) <==> !HasMandatory(req)
    ensures r == Refused(Conflict) <==>
              && HasMandatory(req)
              && (|| !WithinLengths(req)
                  || !WellFormed(req)
                  || (PassesFieldChecks(req, today, parseDate) && req["email"] in users))
    ensures r == Refused(NotFound) <==>
              HasMandatory(req) && WithinLengths(req) && WellFormed(req) && !BirthParses(req, parseDate)
    ensures r == Refused(NotAcceptable) <==>
              && HasMandatory(req) && WithinLengths(req) && WellFormed(req) && BirthParses(req, parseDate)
              && !OldEnough(req, today, parseDate)
    ensures r.Registered? <==> PassesFieldChecks(req, today, parseDate) && req["email"] !in users
    ensures r.Registered? ==>
              && "tel" in req
              && r.user.idUser == OptionalValue(req, "idUser")
              && r.user.firstName == req["firstName"]
              && r.user.lastName == req["lastName"]
              && r.user.email == req["email"]
              && r.user.passwordHash == hash(req["password"])
              && r.user.tel == req["tel"]
              && r.user.sexe == OptionalValue(req, "sexe")
              && parseDate(req["birth"]) == Some(r.user.birth)
              && Age(r.user.birth, today) >= MinimumAge
              && EmailMatches(r.user.email) && PhoneMatches(r.user.tel)
  {
    if !HasMandatory(req) then Refused(BadRequest)
    else if !WithinLengths(req) then Refused(Conflict)
    else if !EmailMatches(req["email"]) then Refused(Conflict)
    else if !PhoneMatches(StringValue(req, "tel")) then Refused(Conflict)
    else
      match parseDate(req["birth"])
      case None => Refused(NotFound)
      case Some(birth) =>
        if Age(birth, today) < MinimumAge then Refused(NotAcceptable)
        else if req["email"] in users then Refused(Conflict)
        else
          Registered(User(OptionalValue(req, "idUser"), req["firstName"], req["lastName"], req["email"],
                          hash(req["password"]), req["tel"], OptionalValue(req, "sexe"), birth))
  }

  /** A registered user's phone number is ten digits, possibly followed by a newline. */
  lemma RegisteredPhone(req: Request, users: map<Bytes, User>, today: Date,
                        parseDate: Bytes -> Option<Date>, hash: Bytes -> Bytes)
    requires CheckRegistration(req, users, today, parseDate, hash).Registered?
    ensures var tel := CheckRegistration(req, users, today, parseDate, hash).user.tel;
            (forall i :: 0 <= i < 10 ==> IsDigit(tel[i])) && (|tel| == 10 || (|tel| == 11 && tel[10] == Newline))
  {
    AcceptedPhone(CheckRegistration(req, users, today, parseDate, hash).user.tel);
  }

  /** `createUser`: run the checks, then persist the new user. */
  method CreateUser(db: Database, req: Request, today: Date,
                    parseDate: Bytes -> Option<Date>, hash: Bytes -> Bytes) returns (status: int)
    requires db.Valid()
    modifies db`users
    ensures db.Valid()
    ensures var r := CheckRegistration(req, old(db.users), today, parseDate, hash);
            && (r.Refused? ==> status == r.status && db.users == old(db.users))
            && (r.Registered? ==> status == Ok && db.users == old(db.users)[r.user.email := r.user])
    ensures status == Ok ==>
              db.users.Keys == old(db.users).Keys + {req["email"]} && |db.users| == |old(db.users)| + 1
  {
    var outcome := CheckRegistration(req, db.users, today, parseDate, hash);
    match outcome
    case Refused(s) =>
      status := s;
    case Registered(user) =>
      db.users := db.users[user.email := user];
      status := Ok;
  }

  // ---------------------------------------------------------------------
  // Login throttling

  const MaxAttempts := 5
  const CooldownSeconds := 120

  /** The two cache entries per e-mail: the failed-attempt count and the
      expiry time of the cooldown flag. A missing count reads as 0. */
  datatype Throttle = Throttle(attempts: map<Bytes, nat>, cooldownUntil: map<Bytes, nat>)

  function Attempts(t: Throttle, email: Bytes): nat {
    if email in t.attempts then t.attempts[email] else 0
  }

  /** `isHit()` on the cooldown item: it was saved and has not expired. */
  predicate CooldownActive(t: Throttle, email: Bytes, now: nat) {
    email in t.cooldownUntil && now < t.cooldownUntil[email]
  }

  predicate Throttled(t: Throttle, email: Bytes, now: nat) {
    Attempts(t, email) >= MaxAttempts && CooldownActive(t, email, now)
  }

  /** Both fields are present and the e-mail has the expected shape. */
  predicate LoginWellFormed(req: Request) {
    "email" in req && "password" in req && EmailMatches(req["email"])
  }

  /** The attempt entry after the expired-cooldown branch, which deletes a count
      of 5 or more when the cooldown is over. */
  function AfterExpiry(t: Throttle, email: Bytes): (r: Throttle)
    ensures Attempts(r, email) == if Attempts(t, email) >= MaxAttempts then 0 else Attempts(t, email)
    ensures r.attempts - {email} == t.attempts - {email}
    ensures r.cooldownUntil == t.cooldownUntil
  {
    if Attempts(t, email) >= MaxAttempts then t.(attempts := t.attempts - {email}) else t
  }

  datatype LoginResult = LoginResult(status: int, after: Throttle)

  /** One `login` request against the cache `t` at time `now` (seconds);
      `passwordValid` is `isPasswordValid`. */
  function LoginStep(t: Throttle, users: map<Bytes, User>, req: Request, now: nat,
                     passwordValid: (User, Bytes) -> bool): (r: LoginResult)
    ensures r.status in {Ok, BadRequest, Unauthorized, TooManyRequests}
    ensures !LoginWellFormed(req) ==> r == LoginResult(BadRequest, t)
    ensures r.status == TooManyRequests <==> LoginWellFormed(req) && Throttled(t, req["email"], now)
    ensures r.status == TooManyRequests ==> r.after == t
    ensures LoginWellFormed(req) && !Throttled(t, req["email"], now) && req["email"] !in users ==>
              && r.status == BadRequest
              && r.after == AfterExpiry(t, req["email"])
    ensures r.status == Unauthorized <==>
              && LoginWellFormed(req) && !Throttled(t, req["email"], now) && req["email"] in users
              && !passwordValid(users[req["email"]], req["password"])
    ensures r.status == Unauthorized ==>
              var email, n := req["email"], Attempts(t, req["email"]) + 1;
              && r.after.attempts == t.attempts[email := n]
              && r.after.cooldownUntil ==
                   (if n >= MaxAttempts then t.cooldownUntil[email := now + CooldownSeconds] else t.cooldownUntil)
    ensures r.status == Ok <==>
              && LoginWellFormed(req) && !Throttled(t, req["email"], now) && req["email"] in users
              && passwordValid(users[req["email"]], req["password"])
    ensures r.status == Ok ==> r.after == t.(attempts := t.attempts - {req["email"]})
    ensures LoginWellFormed(req) ==>
              && r.after.attempts - {req["email"]} == t.attempts - {req["email"]}
              && r.after.cooldownUntil - {req["email"]} == t.cooldownUntil - {req["email"]}
  {
    if !LoginWellFormed(req) then LoginResult(BadRequest, t)
    else
      var email := req["email"];
      if Throttled(t, email, now) then LoginResult(TooManyRequests, t)
      else
        var t1 := AfterExpiry(t, email);
        if email !in users then LoginResult(BadRequest, t1)
        else if !passwordValid(users[email], req["password"]) then
          var n := Attempts(t, email) + 1;
          var t2 := t1.(attempts := t1.attempts[email := n]);
          if n >= MaxAttempts then
            LoginResult(Unauthorized, t2.(cooldownUntil := t2.cooldownUntil[email := now + CooldownSeconds]))
          else LoginResult(Unauthorized, t2)
        else LoginResult(Ok, t1.(attempts := t1.attempts - {email}))
  }

  /** The request names a registered user and carries the wrong password. */
  predicate WrongPassword(users: map<Bytes, User>, req: Request, passwordValid: (User, Bytes) -> bool) {
    LoginWellFormed(req) && req["email"] in users && !passwordValid(users[req["email"]], req["password"])
  }

  /** The cache after the same request is sent at each of `times` in turn. */
  function Replay(t: Throttle, users: map<Bytes, User>, req: Request, times: seq<nat>,
                  passwordValid: (User, Bytes) -> bool): Throttle
  {
    if times == [] then t
    else
      var before := Replay(t, users, req, times[..|times| - 1], passwordValid);
      LoginStep(before, users, req, times[|times| - 1], passwordValid).after
  }

  /** Up to five wrong passwords in a row, from no stored count, leave exactly
      that many attempts counted, and the fifth arms the cooldown. */
  lemma {:induction false} FailedLoginsCount(t: Throttle, users: map<Bytes, User>, req: Request, times: seq<nat>,
                                             passwordValid: (User, Bytes) -> bool)
    requires WrongPassword(users, req, passwordValid)
    requires req["email"] !in t.attempts
    requires |times| <= MaxAttempts
    ensures Attempts(Replay(t, users, req, times, passwordValid), req["email"]) == |times|
    ensures |times| == MaxAttempts ==>
              Replay(t, users, req, times, passwordValid).cooldownUntil[req["email"]] == times[MaxAttempts - 1] + CooldownSeconds
  {
    if times != [] {
      FailedLoginsCount(t, users, req, times[..|times| - 1], passwordValid);
    }
  }

  /** After five wrong passwords from no stored count, any login for that
      e-mail within 120 seconds of the fifth is refused with 429, whatever
      its password. */
  lemma SixthLoginThrottled(t: Throttle, users: map<Bytes, User>, req: Request, times: seq<nat>,
                            passwordValid: (User, Bytes) -> bool, next: Request, now: nat,
                            nextValid: (User, Bytes) -> bool)
    requires WrongPassword(users, req, passwordValid)
    requires req["email"] !in t.attempts
    requires |times| == MaxAttempts && now < times[MaxAttempts - 1] + CooldownSeconds
    requires LoginWellFormed(next) && next["email"] == req["email"]
    ensures LoginStep(Replay(t, users, req, times, passwordValid), users, next, now, nextValid).status == TooManyRequests
  {
    FailedLoginsCount(t, users, req, times, passwordValid);
  }

  /** Once the cooldown has expired the counter is deleted, but the count read
      in the same request is not reset: one more wrong password stores at
      least 6 and throttles again at once. */
  lemma ExpiredCooldownRearms(t: Throttle, users: map<Bytes, User>, req: Request, now: nat,
                              passwordValid: (User, Bytes) -> bool)
    requires WrongPassword(users, req, passwordValid)
    requires Attempts(t, req["email"]) >= MaxAttempts && !CooldownActive(t, req["email"], now)
    ensures var r := LoginStep(t, users, req, now, passwordValid);
            && r.status == Unauthorized
            && Attempts(r.after, req["email"]) == Attempts(t, req["email"]) + 1 > MaxAttempts
            && Throttled(r.after, req["email"], now)
  {
  }

  /** The cache behind `login`. */
  class LoginCache {
    var attempts: map<Bytes, nat>
    var cooldownUntil: map<Bytes, nat>

    function Snapshot(): Throttle
      reads this
    {
      Throttle(attempts, cooldownUntil)
    }

    constructor ()
      ensures attempts == map[] && cooldownUntil == map[]
    {
      attempts, cooldownUntil := map[], map[];
    }
  }

  /** `login`: read the counter and the cooldown flag, refuse while throttled,
      then count a wrong password or clear the counter on success. */
  method Login(db: Database, cache: LoginCache, req: Request, now: nat,
               passwordValid: (User, Bytes) -> bool) returns (status: int)
    modifies cache
    ensures var r := LoginStep(old(cache.Snapshot()), db.users, req, now, passwordValid);
            status == r.status && cache.Snapshot() == r.after
  {
    if "email" !in req || "password" !in req {
      return BadRequest;
    }
    var email, password := req["email"], req["password"];
    if !EmailMatches(email) {
      return BadRequest;
    }
    var attempts: nat := if email in cache.attempts then cache.attempts[email] else 0;
    var cooldownActive := email in cache.cooldownUntil && now < cache.cooldownUntil[email];
    if attempts >= MaxAttempts && cooldownActive {
      return TooManyRequests;
    } else if attempts >= MaxAttempts && !cooldownActive {
      cache.attempts := cache.attempts - {email};
    }
    if email !in db.users {
      return BadRequest;
    }
    if !passwordValid(db.users[email], password) {
      attempts := attempts + 1;
      cache.attempts := cache.attempts[email := attempts];
      if attempts >= MaxAttempts {
        cache.cooldownUntil := cache.cooldownUntil[email := now + CooldownSeconds];
      }
      return Unauthorized;
    }
    cache.attempts := cache.attempts - {email};
    status := Ok;
  }

  // ---------------------------------------------------------------------
  // Deletion

  /** `deleteUser` for the signed-in user's e-mail `current`. With no such
      user, `remove(null)` raises a `TypeError` that the catch block does not
      handle. */
  method DeleteUser(db: Database, current: Bytes) returns (status: int)
    requires db.Valid()
    modifies db`users
    ensures db.Valid()
    ensures current in old(db.users) ==> status == Ok && db.users == old(db.users) - {current}
    ensures current !in old(db.users) ==> status == InternalServerError && db.users == old(db.users)
  {
    if current !in db.users {
      return InternalServerError;
    }
    db.users := db.users - {current};
    status := Ok;
  }
}
