/** Registration and KYC submission of end users
    (app/services/user_service.py). */
module UserService {
  import opened Common
  import opened Records
  import opened Db

  /** find_by_phone finds a document. */
  predicate PhoneTaken(users: map<UserId, User>, phone: string)
  {
    exists id :: id in users && users[id].phone == phone
  }

  /** No two users share a phone number. */
  predicate PhonesUnique(users: map<UserId, User>)
  {
    forall a, b :: a in users && b in users && users[a].phone == users[b].phone ==> a == b
  }

  /** The document register_user inserts: both lifecycles PENDING and not a
      minor until KYC says otherwise. */
  function Registered(name: string, phone: string, passwordHash: string, now: Time): User
  {
    User(name, phone, passwordHash, KycPending, ApprovalPending, Some(false), None, None, None, None, now, now)
  }

  /** Inserting a user whose phone is free keeps phones unique, and the phone
      is taken from then on. */
  lemma RegisterKeepsPhonesUnique(users: map<UserId, User>, id: UserId, u: User)
    requires PhonesUnique(users) && id !in users && !PhoneTaken(users, u.phone)
    ensures PhonesUnique(users[id := u])
    ensures PhoneTaken(users[id := u], u.phone)
  {
    assert users[id := u][id].phone == u.phone;
  }

  /** register_user: a taken phone fails and inserts nothing; otherwise the
      new user is stored under a fresh id, which is returned. */
  method RegisterUser(db: Database, newId: UserId, name: string, phone: string, passwordHash: string, now: Time)
    returns (r: Result<UserId, Error>)
    requires newId !in db.users
    modifies db`users
    ensures PhoneTaken(old(db.users), phone) ==> r == Failure(UserAlreadyExists) && db.users == old(db.users)
    ensures !PhoneTaken(old(db.users), phone) ==>
      r == Success(newId) && db.users == old(db.users)[newId := Registered(name, phone, passwordHash, now)]
    ensures PhonesUnique(old(db.users)) ==> PhonesUnique(db.users)
    ensures PhoneTaken(db.users, phone)
  {
    if PhoneTaken(db.users, phone) {
      return Failure(UserAlreadyExists);
    }
    var u := Registered(name, phone, passwordHash, now);
    if PhonesUnique(db.users) {
      RegisterKeepsPhonesUnique(db.users, newId, u);
    }
    assert db.users[newId := u][newId].phone == phone;
    db.users := db.users[newId := u];
    return Success(newId);
  }

  /** Calendar order on dates: by year, then month, then day. */
  predicate DateLeq(a: Date, b: Date)
  {
    a.year < b.year || (a.year == b.year && (a.month < b.month || (a.month == b.month && a.day <= b.day)))
  }

  /** The n-th anniversary of a date. */
  function Anniversary(d: Date, n: int): Date
  {
    Date(d.year + n, d.month, d.day)
  }

  /** The age computation of submit_kyc: the difference of the years, less
      one when today's (month, day) comes before the birthday's. */
  function Age(today: Date, dob: Date): int
  {
    today.year - dob.year - (if today.month < dob.month || (today.month == dob.month && today.day < dob.day) then 1 else 0)
  }

  /** The age is the number of birthdays already reached: it is at least n
      exactly when the n-th anniversary of the birth date is not after today. */
  lemma AgeCountsAnniversaries(today: Date, dob: Date, n: int)
    ensures Age(today, dob) >= n <==> DateLeq(Anniversary(dob, n), today)
  {
  }

  /** is_minor: the eighteenth birthday is still to come. */
  lemma MinorIffBeforeEighteenthBirthday(today: Date, dob: Date)
    ensures Age(today, dob) < 18 <==> !DateLeq(Anniversary(dob, 18), today)
  {
    AgeCountsAnniversaries(today, dob, 18);
  }

  /** The guard of submit_kyc: unknown user, then a KYC already completed. */
  function KycError(users: map<UserId, User>, userId: UserId): (e: Option<Error>)
    ensures e == Some(UserNotFound) <==> userId !in users
    ensures e == Some(KycAlreadyCompleted) <==> userId in users && users[userId].kycStatus == KycCompleted
    ensures e == None <==> userId in users && users[userId].kycStatus != KycCompleted
  {
    if userId !in users then Some(UserNotFound)
    else if users[userId].kycStatus == KycCompleted then Some(KycAlreadyCompleted)
    else None
  }

  /** The user after a successful KYC submission: details stored, KYC
      COMPLETED, minor exactly when the eighteenth birthday has not come,
      stamped with the time of the write, and every other field untouched. */
  function WithKyc(u: User, details: KycDetails, today: Date, now: Time): (v: User)
    ensures v.kycStatus == KycCompleted && v.kyc == Some(details)
    ensures v.isMinor == Some(!DateLeq(Anniversary(details.dob, 18), today))
    ensures v.updatedAt == now
    ensures v.(kyc := u.kyc, isMinor := u.isMinor, kycStatus := u.kycStatus, updatedAt := u.updatedAt) == u
  {
    MinorIffBeforeEighteenthBirthday(today, details.dob);
    u.(kyc := Some(details), isMinor := Some(Age(today, details.dob) < 18), kycStatus := KycCompleted, updatedAt := now)
  }

  /** A second submission after a successful one fails. */
  lemma KycNotRepeatable(users: map<UserId, User>, userId: UserId, details: KycDetails, today: Date, now: Time)
    requires KycError(users, userId) == None
    ensures KycError(users[userId := WithKyc(users[userId], details, today, now)], userId) == Some(KycAlreadyCompleted)
  {
  }

  /** submit_kyc: on a failed guard nothing changes; otherwise the user gets
      the KYC details and the computed minor flag. Phones are untouched, so
      their uniqueness is kept. */
  method SubmitKyc(db: Database, userId: UserId, details: KycDetails, today: Date, now: Time)
    returns (failure: Option<Error>)
    modifies db`users
    ensures failure == KycError(old(db.users), userId)
    ensures failure.Some? ==> db.users == old(db.users)
    ensures failure.None? ==> db.users == old(db.users)[userId := WithKyc(old(db.users)[userId], details, today, now)]
    ensures PhonesUnique(old(db.users)) ==> PhonesUnique(db.users)
  {
    failure := KycError(db.users, userId);
    if failure.Some? {
      return;
    }
    var u := db.users[userId];
    var isMinor := Age(today, details.dob) < 18;
    db.users := db.users[userId := u.(kyc := Some(details), isMinor := Some(isMinor), kycStatus := KycCompleted, updatedAt := now)];
  }
}
