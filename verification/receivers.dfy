/** Go's receiver semantics for the `User` methods, made explicit. Records
    live in the cells of a heap; a `*User` is the address of a cell. A
    pointer receiver aliases the caller's cell, so the method body's
    assignments land in it; a value receiver gets a copy of the cell in the
    callee's own frame, and the assignments are lost when the call returns.
    `ClearUserNameAsterisk` and `ClearUserName` have the same body and differ
    only in the receiver. */
module Receivers {
  import opened Users

  type Addr = nat

  /** Addressable cells and the next address never handed out. */
  datatype Memory = Memory(cells: map<Addr, User>, next: Addr)

  /** Every allocated address lies below `next`, so `next` is always free. */
  type Heap = m: Memory | forall p :: p in m.cells ==> p < m.next witness Memory(map[], 0)

  /** A `*User` value. */
  datatype Pointer = Nil | Ref(addr: Addr)

  /** The `(*User, error)` pair `NewUser` returns, with the heap after the call.
      A nil `error` is `None`. */
  datatype Created = Created(heap: Heap, user: Pointer, err: Option<Error>)

  /** `NewUser`: validate, then allocate the record and return its address. */
  function NewUser(h: Heap, firstName: string, lastName: string, birthDate: string, now: Instant): (r: Created)
    ensures r.user.Nil? <==> r.err.Some?
    ensures r.err.Some? <==> !AcceptedInput(firstName, lastName, birthDate)
    ensures r.err.Some? ==> r.err.value == WrongInput && r.heap == h
    ensures r.user.Ref? ==> r.user.addr !in h.cells
    ensures r.user.Ref? ==> r.heap.cells == h.cells[r.user.addr := User(firstName, lastName, birthDate, now)]
  {
    match Users.NewUser(firstName, lastName, birthDate, now)
    case Err(e) => Created(h, Nil, Some(e))
    case Ok(u) => Created(Memory(h.cells[h.next := u], h.next + 1), Ref(h.next), None)
  }

  /** The methods of `User` that change a record. */
  datatype Method = ClearUserNameAsterisk | ClearUserName

  datatype ReceiverKind = PointerReceiver | ValueReceiver

  /** `ClearUserNameAsterisk` is declared on `*User`, `ClearUserName` on `User`. */
  function ReceiverOf(m: Method): (r: ReceiverKind)
    ensures r == PointerReceiver <==> m == ClearUserNameAsterisk
    ensures r == ValueReceiver <==> m == ClearUserName
  {
    match m
    case ClearUserNameAsterisk => PointerReceiver
    case ClearUserName => ValueReceiver
  }

  /** The state when a call returns: the caller's heap, and the receiver as
      the callee last saw it. */
  datatype Return = Return(heap: Heap, receiver: User)

  /** Calls method `m` on the record at `p` (Go dereferences `p` for a value
      receiver and panics on nil, hence the precondition). */
  function Invoke(h: Heap, m: Method, p: Addr): (r: Return)
    requires p in h.cells
    ensures r.receiver.firstName == "" && r.receiver.lastName == "" && r.receiver.birthDate == ""
    ensures r.receiver.createdAt == h.cells[p].createdAt
    ensures r.heap.cells.Keys == h.cells.Keys && r.heap.next == h.next
    ensures forall q :: q in h.cells && q != p ==> r.heap.cells[q] == h.cells[q]
    ensures ReceiverOf(m) == PointerReceiver ==> r.heap.cells[p] == r.receiver
    ensures ReceiverOf(m) == ValueReceiver ==> r.heap == h
  {
    var receiver := h.cells[p];
    var after := ClearedNames(receiver);
    match ReceiverOf(m)
    case PointerReceiver => Return(Memory(h.cells[p := after], h.next), after)
    case ValueReceiver => Return(h, after)
  }

  /** Calling `ClearUserNameAsterisk` through `p` clears the caller's record
      at `p` and keeps its creation time. */
  lemma ClearUserNameAsteriskClearsCaller(h: Heap, p: Addr)
    requires p in h.cells
    ensures Invoke(h, ClearUserNameAsterisk, p).heap.cells == h.cells[p := ClearedNames(h.cells[p])]
  {
    var r := Invoke(h, ClearUserNameAsterisk, p);
    assert r.heap.cells[p] == ClearedNames(h.cells[p]);
  }

  /** Calling `ClearUserName` on the record at `p` leaves the caller's memory
      as it was, while the callee's copy is the cleared record. */
  lemma ClearUserNameLeavesCaller(h: Heap, p: Addr)
    requires p in h.cells
    ensures Invoke(h, ClearUserName, p).heap == h
    ensures Invoke(h, ClearUserName, p).receiver == ClearedNames(h.cells[p])
  {
  }

  /** One method call in a straight-line program. */
  datatype Call = Call(m: Method, target: Addr)

  /** Every call of `prog` goes to an allocated record of `h`. */
  predicate Targets(h: Heap, prog: seq<Call>) {
    forall i :: 0 <= i < |prog| ==> prog[i].target in h.cells
  }

  /** Some call of `prog` clears `q` through a pointer receiver. */
  predicate ClearedThroughPointer(prog: seq<Call>, q: Addr) {
    exists i :: 0 <= i < |prog| && prog[i].target == q && ReceiverOf(prog[i].m) == PointerReceiver
  }

  /** Runs the calls of `prog` in order. */
  function Run(h: Heap, prog: seq<Call>): (r: Heap)
    requires Targets(h, prog)
    ensures r.cells.Keys == h.cells.Keys && r.next == h.next
    decreases |prog|
  {
    if prog == [] then h
    else Run(Invoke(h, prog[0].m, prog[0].target).heap, prog[1..])
  }

  /** The effect of a program on each record: it is cleared (creation time
      kept) if a pointer-receiver call reaches it, and left exactly as it was
      otherwise. Value-receiver calls reach nothing. */
  lemma {:induction false} RunEffect(h: Heap, prog: seq<Call>)
    requires Targets(h, prog)
    ensures forall q :: q in h.cells ==>
      Run(h, prog).cells[q] == if ClearedThroughPointer(prog, q) then ClearedNames(h.cells[q]) else h.cells[q]
    decreases |prog|
  {
    if prog != [] {
      var c := prog[0];
      var h1 := Invoke(h, c.m, c.target).heap;
      var rest := prog[1..];
      assert Targets(h1, rest) by {
        forall i | 0 <= i < |rest| ensures rest[i].target in h1.cells {
          assert rest[i] == prog[i + 1];
        }
      }
      RunEffect(h1, rest);
      forall q | q in h.cells
        ensures Run(h, prog).cells[q] ==
          if ClearedThroughPointer(prog, q) then ClearedNames(h.cells[q]) else h.cells[q]
      {
        ClearedNamesIdempotent(h.cells[q]);
        if ClearedThroughPointer(rest, q) {
          var i :| 0 <= i < |rest| && rest[i].target == q && ReceiverOf(rest[i].m) == PointerReceiver;
          assert prog[i + 1] == rest[i];
        }
        if ClearedThroughPointer(prog, q) && !ClearedThroughPointer(rest, q) {
          var i :| 0 <= i < |prog| && prog[i].target == q && ReceiverOf(prog[i].m) == PointerReceiver;
          if i > 0 {
            assert rest[i - 1] == prog[i];
          }
        }
      }
    }
  }

  /** Running a program twice leaves the records as running it once. */
  lemma RunIdempotent(h: Heap, prog: seq<Call>)
    requires Targets(h, prog)
    ensures Targets(Run(h, prog), prog)
    ensures Run(Run(h, prog), prog) == Run(h, prog)
  {
    var h1 := Run(h, prog);
    var h2 := Run(h1, prog);
    RunEffect(h, prog);
    RunEffect(h1, prog);
    forall q | q in h.cells ensures h2.cells[q] == h1.cells[q] {
      ClearedNamesIdempotent(h.cells[q]);
    }
    assert h2.cells == h1.cells;
  }

  /** Every creation time survives any program. */
  lemma RunKeepsCreatedAt(h: Heap, prog: seq<Call>)
    requires Targets(h, prog)
    ensures forall q :: q in h.cells ==> Run(h, prog).cells[q].createdAt == h.cells[q].createdAt
  {
    RunEffect(h, prog);
  }

  /** The pointer-receiver calls of `prog`, in order. */
  function PointerCalls(prog: seq<Call>): (r: seq<Call>)
    ensures forall c :: c in r <==> c in prog && ReceiverOf(c.m) == PointerReceiver
    decreases |prog|
  {
    if prog == [] then []
    else if ReceiverOf(prog[0].m) == PointerReceiver then [prog[0]] + PointerCalls(prog[1..])
    else PointerCalls(prog[1..])
  }

  /** Dropping the value-receiver calls keeps every pointer-receiver call,
      so the same records are cleared. */
  lemma PointerCallsClearSame(prog: seq<Call>, q: Addr)
    ensures ClearedThroughPointer(PointerCalls(prog), q) <==> ClearedThroughPointer(prog, q)
  {
    var ptr := PointerCalls(prog);
    if ClearedThroughPointer(ptr, q) {
      var i :| 0 <= i < |ptr| && ptr[i].target == q && ReceiverOf(ptr[i].m) == PointerReceiver;
      assert ptr[i] in prog;
      var j :| 0 <= j < |prog| && prog[j] == ptr[i];
      assert prog[j].target == q;
    }
    if ClearedThroughPointer(prog, q) {
      var i :| 0 <= i < |prog| && prog[i].target == q && ReceiverOf(prog[i].m) == PointerReceiver;
      assert prog[i] in ptr;
      var j :| 0 <= j < |ptr| && ptr[j] == prog[i];
      assert ptr[j].target == q;
    }
  }

  /** Value-receiver calls can be deleted from any program without changing
      what it does to the caller's records. */
  lemma ValueCallsErasable(h: Heap, prog: seq<Call>)
    requires Targets(h, prog)
    ensures Targets(h, PointerCalls(prog))
    ensures Run(h, PointerCalls(prog)) == Run(h, prog)
  {
    var ptr := PointerCalls(prog);
    forall i | 0 <= i < |ptr| ensures ptr[i].target in h.cells {
      assert ptr[i] in prog;
    }
    var a := Run(h, ptr);
    var b := Run(h, prog);
    RunEffect(h, prog);
    RunEffect(h, ptr);
    forall q | q in h.cells ensures a.cells[q] == b.cells[q] {
      PointerCallsClearSame(prog, q);
    }
    assert a.cells == b.cells;
  }

  /** A program of value-receiver calls only changes nothing at all. */
  lemma ValueCallsOnlyNoEffect(h: Heap, prog: seq<Call>)
    requires Targets(h, prog)
    requires forall i :: 0 <= i < |prog| ==> ReceiverOf(prog[i].m) == ValueReceiver
    ensures Run(h, prog) == h
  {
    RunEffect(h, prog);
    assert Run(h, prog).cells == h.cells;
  }
}
