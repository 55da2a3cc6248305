# User record: value versus pointer receivers

A model of the `user` package of a Go teaching sample. The package defines
one struct, `User`, which holds a first name, a last name, a birth date (all
text) and a creation time. It has:

- a validating constructor, `NewUser`, which refuses any empty text input
  and otherwise returns a pointer to a fresh record stamped with the current
  time;
- two mutators with the same body, which blanks the three text fields.
  `ClearUserNameAsterisk` has a pointer receiver and changes the caller's
  record. `ClearUserName` has a value receiver and changes only the callee's
  copy.

The project has three modules:

- `Users` (users.dfy) holds the struct as a Dafny value, the `WrongInput` error,
  and the validation and construction logic of `NewUser`. It also holds
  `ClearedNames`, the body the two mutators share.
- `Receivers` (receivers.dfy) makes Go's memory explicit. Records live in the
  cells of a heap and a `*User` is a cell address. `NewUser` allocates a cell
  and returns the `(*User, error)` pair. `Invoke` calls a mutator through its
  receiver kind. `Run` executes a sequence of such calls. The lemmas say what
  any such program does to the caller's records.
- `Objects` (objects.dfy) is the same API over a Dafny `class User`. The
  pointer-receiver mutator is declared `modifies this`. The value-receiver
  mutator has no `modifies` clause, so by Dafny's frame rule it cannot change
  the caller's object.

The creation time is an `Instant` parameter (`now`) instead of a clock read.

## Model

| member | source | states |
|---|---|---|
| Users.NewUser | structs-and-custom-types/user/user.go:32-45 | fails with `WrongInput` exactly when the first name, last name or birth date is empty (no other check); on success the record holds the three inputs unchanged and the supplied creation time, and satisfies the construction invariant |
| Users.NewUserRoundTrip | structs-and-custom-types/user/user.go:40-45 | rebuilding a record from its own fields gives the same record back exactly when its three texts are non-empty |
| Users.NewUserImage | structs-and-custom-types/user/user.go:32-45 | the records `NewUser` can return are exactly those whose three texts are non-empty |
| Users.NewUserInjective | structs-and-custom-types/user/user.go:40-44 | two successful constructions give equal records only from equal arguments, so no input is dropped or normalised |
| Users.ClearedNames | structs-and-custom-types/user/user.go:76-80 | the mutators' body: first name, last name and birth date become empty and the creation time is kept |
| Users.ClearedNamesIdempotent | structs-and-custom-types/user/user.go:76-80 | clearing twice gives the same record as clearing once |
| Users.ClearedNamesKeepsOnlyCreatedAt | structs-and-custom-types/user/user.go:76-80 | two records clear to the same record exactly when they have the same creation time, so nothing but the creation time survives |
| Users.ClearedNamesNotConstructible | structs-and-custom-types/user/user.go:76-80 | a cleared record no longer meets the invariant `NewUser` enforces |
| Receivers.NewUser | structs-and-custom-types/user/user.go:32-45 | the returned pointer is nil exactly when the error is non-nil, and the error is set exactly when an input is empty; on failure memory is unchanged; on success the pointer is a fresh address and memory gains exactly the new record |
| Receivers.ReceiverOf | structs-and-custom-types/user/user.go:76-85 | `ClearUserNameAsterisk` is the one method with a pointer receiver and `ClearUserName` the one with a value receiver |
| Receivers.ClearUserNameAsteriskClearsCaller | structs-and-custom-types/user/user.go:76-80 | a `ClearUserNameAsterisk` call through a pointer leaves the caller's memory with exactly that record cleared (creation time kept) and every other record as it was |
| Receivers.ClearUserNameLeavesCaller | structs-and-custom-types/user/user.go:85-89 | a `ClearUserName` call leaves the caller's memory exactly as it was, while the callee's copy is the cleared record |
| Receivers.Invoke | structs-and-custom-types/user/user.go:74-89 | the callee always sees its receiver cleared with the creation time kept; no other record and no address changes; with a pointer receiver the caller's record is the cleared one; with a value receiver the caller's memory is entirely unchanged |
| Receivers.Run | structs-and-custom-types/user/user.go:74-89 | a sequence of mutator calls keeps the set of allocated records |
| Receivers.RunEffect | structs-and-custom-types/user/user.go:74-89 | after any sequence of calls, a record is cleared (creation time kept) if some pointer-receiver call reached it, and is otherwise exactly as before |
| Receivers.RunIdempotent | structs-and-custom-types/user/user.go:76-80 | running a sequence of mutator calls a second time changes nothing more |
| Receivers.RunKeepsCreatedAt | structs-and-custom-types/user/user.go:76-80 | no sequence of mutator calls changes any record's creation time |
| Receivers.ValueCallsErasable | structs-and-custom-types/user/user.go:82-89 | deleting every value-receiver call from a program leaves its effect on the caller's records unchanged |
| Receivers.ValueCallsOnlyNoEffect | structs-and-custom-types/user/user.go:85-89 | a program made only of value-receiver calls leaves memory exactly as it was |
| Objects.User.constructor | structs-and-custom-types/user/user.go:40-45 | the composite literal behind `&User{...}`: the new object holds exactly the given field values, with no check |
| Objects.User.ClearUserNameAsterisk | structs-and-custom-types/user/user.go:76-80 | the object's three text fields become empty and its creation time is unchanged |
| Objects.User.ClearUserName | structs-and-custom-types/user/user.go:85-89 | the callee's copy comes back cleared with the object's creation time; the method has no `modifies` clause, so the object itself cannot change |
| Objects.NewUser | structs-and-custom-types/user/user.go:32-45 | a nil user exactly when the error is non-nil, and the error is `WrongInput` exactly when an input is empty; otherwise a fresh object holding the inputs and the supplied time |
| Objects.ClearBothWays | structs-and-custom-types/user/user.go:32-89 | on a record `NewUser` just built, the value-receiver mutator leaves every field as constructed, and the pointer-receiver mutator then leaves only the creation time |

## Left out

- `OutputUserDetails` and `OutputUserDetailsAsterisk` (user.go:60-72) only print the fields to standard output. That is console I/O with no result to state.
- `time.Now()` (user.go:44) is a clock read. The constructor takes the instant as the parameter `now` instead, and `Instant` is compared only for equality.
- The text of the `"wrong input"` error message is not modelled. The error is the single variant `WrongInput`.
- The commented-out unexported fields and the commented-out by-value constructor (user.go:23-26, 50-55) are dead code.
- Calling a mutator through a nil pointer panics in Go. In `Receivers.Invoke` the target must be an allocated record, and a nil-pointer call is not modelled.
- Garbage collection is not modelled. Cells are never freed.
- Objects.User.ClearUserName: the contract does not state that the object is unchanged. It leaves that fact to the frame rule, since the method has no `modifies` clause.
- Go strings are byte sequences; the model uses Dafny strings (sequences of characters). Only emptiness tests and copying are performed on them, so no behaviour depends on the difference.
