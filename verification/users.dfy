/** The `user` package: the `User` struct as a value, its validating
    constructor `NewUser`, and the body shared by the two name-clearing
    mutators. How a record is reached (through a pointer or as a copy) is
    the business of the `Receivers` and `Objects` modules. */
module Users {

  /** Go's `time.Time`. The model only carries it and compares it for
      equality, so its representation does not matter. */
  datatype Instant = Instant(ticks: int)

  /** The `User` struct with its four exported fields. */
  datatype User = User(firstName: string, lastName: string, birthDate: string, createdAt: Instant)

  /** The one error `NewUser` reports (`errors.New("wrong input")`). */
  datatype Error = WrongInput

  datatype Option<+T> = None | Some(value: T)

  datatype Result<+T> = Ok(value: T) | Err(error: Error)

  /** The only check `NewUser` makes of its inputs: none of the three texts
      is empty. Format and length are not looked at. */
  predicate AcceptedInput(firstName: string, lastName: string, birthDate: string) {
    firstName != "" && lastName != "" && birthDate != ""
  }

  /** A record `NewUser` can produce: the construction-time invariant.
      Nothing enforces it afterwards. */
  predicate Constructible(u: User) {
    AcceptedInput(u.firstName, u.lastName, u.birthDate)
  }

  /** The validating constructor. `now` stands for the `time.Now()` read. */
  function NewUser(firstName: string, lastName: string, birthDate: string, now: Instant): (r: Result<User>)
    ensures r.Err? <==> firstName == "" || lastName == "" || birthDate == ""
    ensures r.Err? ==> r.error == WrongInput
    ensures r.Ok? ==> r.value.firstName == firstName && r.value.lastName == lastName
    ensures r.Ok? ==> r.value.birthDate == birthDate && r.value.createdAt == now
    ensures r.Ok? ==> Constructible(r.value)
  {
    if firstName == "" || lastName == "" || birthDate == "" then
      Err(WrongInput)
    else
      Ok(User(firstName, lastName, birthDate, now))
  }

  /** The record a constructible user was built from can be rebuilt from
      its own fields: the field projections invert `NewUser`. */
  lemma NewUserRoundTrip(u: User)
    ensures Constructible(u) <==> NewUser(u.firstName, u.lastName, u.birthDate, u.createdAt) == Ok(u)
  {
  }

  /** The records `NewUser` can return are exactly the constructible ones. */
  lemma NewUserImage(u: User)
    ensures Constructible(u) <==>
      exists f: string, l: string, b: string, t: Instant :: NewUser(f, l, b, t) == Ok(u)
  {
    if Constructible(u) {
      assert NewUser(u.firstName, u.lastName, u.birthDate, u.createdAt) == Ok(u);
    }
  }

  /** Two successful constructions give the same record only from the same
      arguments: nothing is normalised or dropped. */
  lemma NewUserInjective(f1: string, l1: string, b1: string, t1: Instant,
                         f2: string, l2: string, b2: string, t2: Instant)
    requires NewUser(f1, l1, b1, t1).Ok?
    ensures NewUser(f1, l1, b1, t1) == NewUser(f2, l2, b2, t2) <==>
            f1 == f2 && l1 == l2 && b1 == b2 && t1 == t2
  {
  }

  /** The body of both mutators: the three text fields become empty, the
      creation time is kept. */
  function ClearedNames(u: User): (r: User)
    ensures r.firstName == "" && r.lastName == "" && r.birthDate == ""
    ensures r.createdAt == u.createdAt
  {
    u.(firstName := "", lastName := "", birthDate := "")
  }

  /** Clearing twice is clearing once. */
  lemma ClearedNamesIdempotent(u: User)
    ensures ClearedNames(ClearedNames(u)) == ClearedNames(u)
  {
  }

  /** What survives clearing is the creation time and nothing else: two
      records clear to the same record exactly when they were created at
      the same instant. */
  lemma ClearedNamesKeepsOnlyCreatedAt(u: User, v: User)
    ensures ClearedNames(u) == ClearedNames(v) <==> u.createdAt == v.createdAt
  {
  }

  /** A cleared record breaks the construction-time invariant: `NewUser`
      would refuse its fields. */
  lemma ClearedNamesNotConstructible(u: User)
    ensures !Constructible(ClearedNames(u))
  {
  }
}
