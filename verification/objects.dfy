/** The same `User` methods in Dafny's own reference semantics. A Dafny
    object plays the role of the record behind a `*User`: a mutator that may
    write it carries `modifies this` (Go's pointer receiver), and one without
    a `modifies` clause can only work on a copy (Go's value receiver), so the
    caller's object is left alone by the frame rule. */
module Objects {
  import Users

  class User {
    var firstName: string
    var lastName: string
    var birthDate: string
    var createdAt: Users.Instant

    /** The struct value this object currently holds. */
    function Value(): (u: Users.User)
      reads this
      ensures u.firstName == firstName && u.lastName == lastName
      ensures u.birthDate == birthDate && u.createdAt == createdAt
    {
      Users.User(firstName, lastName, birthDate, createdAt)
    }

    /** The composite literal `&User{...}`: fields set as given, no check. */
    constructor (u: Users.User)
      ensures Value() == u
    {
      firstName := u.firstName;
      lastName := u.lastName;
      birthDate := u.birthDate;
      createdAt := u.createdAt;
    }

    /** The pointer-receiver mutator: the text fields of the
        caller's record become empty and the creation time stays. */
    method ClearUserNameAsterisk()
      modifies this
      ensures firstName == "" && lastName == "" && birthDate == ""
      ensures createdAt == old(createdAt)
      ensures Value() == Users.ClearedNames(old(Value()))
    {
      var after := Users.ClearedNames(Value());
      firstName := after.firstName;
      lastName := after.lastName;
      birthDate := after.birthDate;
    }

    /** The value-receiver mutator: the receiver is a copy, which is
        cleared and handed back here only so that the contract can say so;
        without a `modifies` clause this object cannot change. */
    method ClearUserName() returns (receiver: Users.User)
      ensures receiver.firstName == "" && receiver.lastName == "" && receiver.birthDate == ""
      ensures receiver.createdAt == createdAt
      ensures receiver == Users.ClearedNames(Value())
    {
      receiver := Value();
      receiver := receiver.(firstName := "", lastName := "", birthDate := "");
    }
  }

  /** `NewUser`: a fresh object holding the inputs, or a nil user with the
      `wrong input` error when any of the three texts is empty. */
  method NewUser(firstName: string, lastName: string, birthDate: string, now: Users.Instant)
    returns (user: User?, err: Users.Option<Users.Error>)
    ensures user == null <==> err.Some?
    ensures err.Some? <==> !Users.AcceptedInput(firstName, lastName, birthDate)
    ensures err.Some? ==> err.value == Users.WrongInput
    ensures user != null ==> fresh(user)
    ensures user != null ==> user.Value() == Users.User(firstName, lastName, birthDate, now)
  {
    match Users.NewUser(firstName, lastName, birthDate, now)
    case Err(e) =>
      user, err := null, Users.Some(e);
    case Ok(u) =>
      user := new User(u);
      err := Users.None;
  }

  /** Calling both mutators on the record `NewUser` returned: the value
      receiver leaves it as constructed, the pointer receiver clears it. */
  method ClearBothWays(firstName: string, lastName: string, birthDate: string, now: Users.Instant)
    returns (afterValue: Users.Option<Users.User>, afterPointer: Users.Option<Users.User>)
    ensures afterValue.Some? <==> Users.AcceptedInput(firstName, lastName, birthDate)
    ensures afterPointer.Some? <==> afterValue.Some?
    ensures afterValue.Some? ==> afterValue.value == Users.User(firstName, lastName, birthDate, now)
    ensures afterPointer.Some? ==> afterPointer.value == Users.User("", "", "", now)
  {
    var user, _ := NewUser(firstName, lastName, birthDate, now);
    if user == null {
      return Users.None, Users.None;
    }
    // The cleared copy belongs to the callee and is dropped here: that is
    // all a value receiver can change.
    var _ := user.ClearUserName();
    afterValue := Users.Some(user.Value());
    user.ClearUserNameAsterisk();
    afterPointer := Users.Some(user.Value());
  }
}
