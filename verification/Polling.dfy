/**
 * The lists the polling loop keeps of its connections: the ones with reads outstanding, and the ones
 * put up for removal. Callbacks open new connections, ask for further reads and unregister connections;
 * a connection is released only behind all the callbacks of a round.
 */
module Polling {
  import opened PollingLists

  /** On: the callbacks are called. Shaking: only the one that takes the handshake further is. */
  datatype Status = Off | Shaking | On

  /** What the lists look at of a connection: its flag, and its status. */
  class Connection {
    var isOutstanding: bool
    var status: Status

    constructor ()
      ensures !isOutstanding && status == Off
    {
      isOutstanding, status := false, Off;
    }
  }

  /** What a callback does to the loop. */
  datatype Action =
    | Enter(connection: Connection)
    | Add(connection: Connection)
    | Unregister(connection: Connection, remove: bool)
    | Turn(connection: Connection, to: Status)

  /** A connection that is called if its status asks for it, and what its callback then does. */
  datatype Call = Call(connection: Connection, greeting: bool, actions: seq<Action>)

  /** A connection that may be read: what its handshake does, if it is still at it, and then what its read does. */
  datatype Reader = Reader(connection: Connection, greets: seq<Action>, reading: seq<Action>)

  /** A callback that was called, for a handshake or for data. */
  datatype Notice = Notice(connection: Connection, greeting: bool)

  /**
   * The connections by what they are to the loop: registered; not released yet; ever put up for removal;
   * with their callbacks on; at their handshake. The last are the ones with a read outstanding, in order.
   */
  datatype Members = Members(registered: set<Connection>, present: set<Connection>, marked: set<Connection>,
                             open: set<Connection>, shaking: set<Connection>, waiting: seq<Connection?>)

  // ---- What callbacks do ------------------------------------------------------------------------

  ghost function AfterAction(a: Action, m: Members): Members {
    match a
    case Enter(c) =>
      m.(registered := m.registered + {c}, present := m.present + {c}, open := m.open + {c}, shaking := m.shaking - {c})
    case Add(c) => if c in m.waiting then m else m.(waiting := m.waiting + [c])
    case Unregister(c, remove) =>
      m.(registered := m.registered - {c}, marked := if remove then m.marked + {c} else m.marked,
         waiting := Without<Connection?>(m.waiting, c))
    case Turn(c, to) =>
      m.(open := if to == On then m.open + {c} else m.open - {c},
         shaking := if to == Shaking then m.shaking + {c} else m.shaking - {c})
  }

  ghost function After(actions: seq<Action>, m: Members): Members
    decreases |actions|
  {
    if actions == [] then m else After(actions[1..], AfterAction(actions[0], m))
  }

  /**
   * A new connection is one the loop has never seen, and finds room. All others are not released yet, and
   * reads are asked for only of those that are registered.
   */
  ghost predicate Allowed(a: Action, m: Members, room: nat) {
    match a
    case Enter(c) => c !in m.present && c !in m.marked && |m.present| < room
    case Add(c) => c in m.registered
    case Unregister(c, _) => c in m.present
    case Turn(c, _) => c in m.present
  }

  ghost predicate Legal(actions: seq<Action>, m: Members, room: nat)
    decreases |actions|
  {
    actions == [] || (Allowed(actions[0], m, room) && Legal(actions[1..], AfterAction(actions[0], m), room))
  }

  /** The status of a connection asks for a call. */
  ghost predicate Due(call: Call, m: Members) {
    call.connection in if call.greeting then m.shaking else m.open
  }

  /** A list of calls: those that are not due by then are passed over. */
  ghost function AfterCalls(calls: seq<Call>, m: Members): Members
    decreases |calls|
  {
    if calls == [] then m else AfterCalls(calls[1..], if Due(calls[0], m) then After(calls[0].actions, m) else m)
  }

  ghost function Called(calls: seq<Call>, m: Members): seq<Notice>
    decreases |calls|
  {
    if calls == [] then []
    else if Due(calls[0], m)
    then [Notice(calls[0].connection, calls[0].greeting)] + Called(calls[1..], After(calls[0].actions, m))
    else Called(calls[1..], m)
  }

  /** Every connection of the list is known, and every callback that is called is legal. */
  ghost predicate LegalCalls(calls: seq<Call>, m: Members, room: nat)
    decreases |calls|
  {
    calls == [] ||
    (&& calls[0].connection in m.present
     && if Due(calls[0], m)
        then Legal(calls[0].actions, m, room) && LegalCalls(calls[1..], After(calls[0].actions, m), room)
        else LegalCalls(calls[1..], m, room))
  }

  // ---- Who is what behind a callback --------------------------------------------------------------

  datatype Aspect = Registered | Waiting | Open | AtHandshake

  ghost predicate Has(m: Members, aspect: Aspect, c: Connection) {
    match aspect
    case Registered => c in m.registered
    case Waiting => c in m.waiting
    case Open => c in m.open
    case AtHandshake => c in m.shaking
  }

  /** Becoming known registers a connection and turns its callbacks on. */
  ghost predicate Gives(a: Action, aspect: Aspect, c: Connection) {
    match aspect
    case Registered => a == Enter(c)
    case Waiting => a == Add(c)
    case Open => a == Enter(c) || a == Turn(c, On)
    case AtHandshake => a == Turn(c, Shaking)
  }

  ghost predicate Takes(a: Action, aspect: Aspect, c: Connection) {
    match aspect
    case Registered | Waiting => a == Unregister(c, true) || a == Unregister(c, false)
    case Open => a == Turn(c, Off) || a == Turn(c, Shaking)
    case AtHandshake => a == Enter(c) || a == Turn(c, Off) || a == Turn(c, On)
  }

  ghost predicate Kept(actions: seq<Action>, aspect: Aspect, c: Connection) {
    forall i :: 0 <= i < |actions| ==> !Takes(actions[i], aspect, c)
  }

  /** Some action gives it, and none behind that takes it back. */
  ghost predicate Given(actions: seq<Action>, aspect: Aspect, c: Connection) {
    exists i :: 0 <= i < |actions| && Gives(actions[i], aspect, c) && Kept(actions[i + 1..], aspect, c)
  }

  lemma GivenFirst(actions: seq<Action>, aspect: Aspect, c: Connection)
    requires actions != []
    ensures Given(actions, aspect, c) <==>
            Given(actions[1..], aspect, c) || (Gives(actions[0], aspect, c) && Kept(actions[1..], aspect, c))
    ensures Kept(actions, aspect, c) <==> !Takes(actions[0], aspect, c) && Kept(actions[1..], aspect, c)
  {
    hide Gives;
    hide Takes;
    var rest := actions[1..];
    if i :| 0 <= i < |actions| && Gives(actions[i], aspect, c) && Kept(actions[i + 1..], aspect, c) {
      if i > 0 { assert rest[i - 1] == actions[i] && rest[i..] == actions[i + 1..]; }
    }
    if i :| 0 <= i < |rest| && Gives(rest[i], aspect, c) && Kept(rest[i + 1..], aspect, c) {
      assert rest[i] == actions[i + 1] && rest[i + 1..] == actions[i + 2..];
    }
    if !Takes(actions[0], aspect, c) && Kept(rest, aspect, c) {
      forall i | 0 <= i < |actions| ensures !Takes(actions[i], aspect, c) {
        if i > 0 { assert actions[i] == rest[i - 1]; }
      }
    }
    if Kept(actions, aspect, c) { assert forall i :: 0 <= i < |rest| ==> rest[i] == actions[i + 1]; }
  }

  lemma ActionHas(a: Action, m: Members, aspect: Aspect, c: Connection)
    requires Distinct(m.waiting)
    ensures Distinct(AfterAction(a, m).waiting)
    ensures Has(AfterAction(a, m), aspect, c) <==>
            Gives(a, aspect, c) || (Has(m, aspect, c) && !Takes(a, aspect, c))
  {
    if a.Unregister? {
      WithoutDistinct<Connection?>(m.waiting, a.connection);
      assert forall x :: x in Without<Connection?>(m.waiting, a.connection) ==> x in m.waiting;
      assert forall x :: x in m.waiting && x != a.connection ==> x in Without<Connection?>(m.waiting, a.connection);
    }
    if a.Add? && a.connection !in m.waiting { DistinctNext<Connection?>(m.waiting, a.connection); }
  }

  /**
   * Behind any actions a connection is registered, open, at its handshake or waiting for a read exactly if one of
   * them made it so, or it was so before, and none since then undid it; and none waits twice.
   */
  lemma {:induction false} HasExactly(actions: seq<Action>, m: Members, aspect: Aspect, c: Connection)
    requires Distinct(m.waiting)
    ensures Distinct(After(actions, m).waiting)
    ensures Has(After(actions, m), aspect, c) <==>
            Given(actions, aspect, c) || (Has(m, aspect, c) && Kept(actions, aspect, c))
    decreases |actions|
  {
    hide Has;
    hide Gives;
    hide Takes;
    hide AfterAction;
    if actions == [] {
      NoActions(m);
    } else {
      ActionHas(actions[0], m, aspect, c);
      HasExactly(actions[1..], AfterAction(actions[0], m), aspect, c);
      GivenFirst(actions, aspect, c);
    }
  }

  /** The calls of connections that may be read: for each its handshake and then its read. */
  function Both(readers: seq<Reader>): seq<Call> {
    if readers == [] then []
    else
      var r := readers[0];
      [Call(r.connection, true, r.greets)] + ([Call(r.connection, false, r.reading)] + Both(readers[1..]))
  }

  /** One more action of a script that is at position index. */
  lemma ActionNext(actions: seq<Action>, index: nat, m: Members, room: nat)
    requires index < |actions| && Legal(actions[index..], m, room)
    ensures Allowed(actions[index], m, room) && Legal(actions[index + 1..], AfterAction(actions[index], m), room)
    ensures After(actions[index..], m) == After(actions[index + 1..], AfterAction(actions[index], m))
  {
    assert actions[index..][1..] == actions[index + 1..];
  }

  lemma NoActions(m: Members)
    ensures After([], m) == m
  {
  }

  /** The first call of a list. */
  lemma CallFirst(call: Call, rest: seq<Call>, m: Members, room: nat)
    requires LegalCalls([call] + rest, m, room)
    ensures call.connection in m.present
    ensures var next := if Due(call, m) then After(call.actions, m) else m;
            && (Due(call, m) ==> Legal(call.actions, m, room))
            && LegalCalls(rest, next, room)
            && AfterCalls([call] + rest, m) == AfterCalls(rest, next)
            && Called([call] + rest, m) ==
               (if Due(call, m) then [Notice(call.connection, call.greeting)] else []) + Called(rest, next)
  {
    assert ([call] + rest)[1..] == rest;
  }

  /** One more call of a list that is at position index. */
  lemma CallNext(calls: seq<Call>, index: nat, m: Members, room: nat)
    requires index < |calls| && LegalCalls(calls[index..], m, room)
    ensures calls[index].connection in m.present
    ensures var call := calls[index];
            var next := if Due(call, m) then After(call.actions, m) else m;
            && (Due(call, m) ==> Legal(call.actions, m, room))
            && LegalCalls(calls[index + 1..], next, room)
            && AfterCalls(calls[index..], m) == AfterCalls(calls[index + 1..], next)
            && Called(calls[index..], m) ==
               (if Due(call, m) then [Notice(call.connection, call.greeting)] else []) + Called(calls[index + 1..], next)
  {
    hide *;
    assert calls[index..] == [calls[index]] + calls[index + 1..];
    CallFirst(calls[index], calls[index + 1..], m, room);
  }

  lemma BothNext(readers: seq<Reader>, index: nat)
    requires index < |readers|
    ensures var r := readers[index];
            Both(readers[index..]) ==
            [Call(r.connection, true, r.greets)] + ([Call(r.connection, false, r.reading)] + Both(readers[index + 1..]))
  {
    assert readers[index..][1..] == readers[index + 1..];
  }

  lemma DueIs(call: Call, m: Members)
    ensures Due(call, m) <==> call.connection in if call.greeting then m.shaking else m.open
  {
  }

  lemma NoReaders()
    ensures Both([]) == []
  {
  }

  lemma NoCalls(m: Members)
    ensures AfterCalls([], m) == m && Called([], m) == []
  {
  }

  /** Two lists of calls, one after the other. */
  lemma {:induction false} CallsConcat(a: seq<Call>, b: seq<Call>, m: Members, room: nat)
    requires LegalCalls(a + b, m, room)
    ensures LegalCalls(a, m, room) && LegalCalls(b, AfterCalls(a, m), room)
    ensures AfterCalls(a + b, m) == AfterCalls(b, AfterCalls(a, m))
    ensures Called(a + b, m) == Called(a, m) + Called(b, AfterCalls(a, m))
    decreases |a|
  {
    if a == [] {
      assert a + b == b;
    } else {
      assert (a + b)[0] == a[0] && (a + b)[1..] == a[1..] + b;
      CallsConcat(a[1..], b, if Due(a[0], m) then After(a[0].actions, m) else m, room);
    }
  }

  class Loop {
    const readOutstanding: array<Connection?>
    const backup: array<Connection?>
    const removals: array<Connection?>
    var readOutstandingSize: nat
    var removalsSize: nat
    /** All the connections there ever are, the ones that are not released yet, the ones that are registered. */
    ghost const universe: set<Connection>
    ghost var present: set<Connection>
    ghost var registered: set<Connection>
    /** The connections that were put up for removal, and the ones released, in order. */
    ghost var marked: set<Connection>
    ghost var deleted: seq<Connection?>
    /** The callbacks that were called, in order. */
    ghost var called: seq<Notice>

    ghost function Outstanding(): seq<Connection?>
      requires readOutstandingSize <= readOutstanding.Length
      reads `readOutstandingSize, readOutstanding
    {
      readOutstanding[..readOutstandingSize]
    }

    ghost function Removals(): seq<Connection?>
      requires removalsSize <= removals.Length
      reads `removalsSize, removals
    {
      removals[..removalsSize]
    }

    /** The connections of a status. */
    ghost function At(status: Status): set<Connection>
      reads universe`status
    {
      set c | c in universe && c.status == status
    }

    ghost function Roll(): Members
      reads `registered, `present, `marked, `readOutstandingSize, readOutstanding, universe`status
    {
      Members(registered, present, marked, At(On), At(Shaking),
              if readOutstandingSize <= readOutstanding.Length then Outstanding() else [])
    }

    /** How many connections the arrays hold. */
    ghost function Room(): nat
    {
      removals.Length
    }

    /** The lists are within their arrays, which hold all the connections that can be in them. */
    ghost predicate Fits()
      reads `readOutstandingSize, `removalsSize, `registered, `present, `marked
    {
      && readOutstanding.Length == backup.Length == removals.Length
      && readOutstanding != backup && backup != removals && readOutstanding != removals
      && readOutstandingSize <= readOutstanding.Length && removalsSize <= removals.Length
      && |present| <= removals.Length
      && registered <= present <= universe && marked <= universe && registered !! marked
    }

    /** The flags say which connections are in the list of outstanding reads, each of them once. */
    ghost predicate FlagsAgree()
      requires Fits()
      reads `readOutstandingSize, `removalsSize, `registered, `present, `marked, readOutstanding, universe`isOutstanding
    {
      && Distinct(Outstanding())
      && (forall c :: c in Outstanding() ==> c != null && c in registered)
      && (forall c :: c in universe ==> (c.isOutstanding <==> c in Outstanding()))
    }

    /** What was put up for removal is either waiting for it or released, once. */
    ghost predicate RemovedOnce()
      requires Fits()
      reads `readOutstandingSize, `removalsSize, `registered, `present, `marked, `deleted, removals
    {
      && Distinct(Removals()) && Distinct(deleted)
      && (forall c :: c in Removals() ==> c in present)
      && (forall c :: c in deleted ==> c !in present)
      && (forall c :: c in marked ==> c in Removals() || c in deleted)
      && (forall c :: c in Removals() ==> c != null && c in marked)
      && (forall c :: c in deleted ==> c != null && c in marked)
    }

    ghost predicate Valid()
      reads `readOutstandingSize, `removalsSize, `registered, `present, `marked, `deleted
      reads readOutstanding, removals, universe`isOutstanding
    {
      Fits() && FlagsAgree() && RemovedOnce()
    }

    constructor (ghost universe: set<Connection>, capacity: nat)
      requires forall c :: c in universe ==> !c.isOutstanding
      ensures Valid() && this.universe == universe && Room() == capacity
      ensures present == registered == marked == {} && deleted == [] && called == []
      ensures fresh(readOutstanding) && fresh(backup) && fresh(removals)
    {
      this.universe := universe;
      readOutstanding := new Connection?[capacity];
      backup := new Connection?[capacity];
      removals := new Connection?[capacity];
      readOutstandingSize, removalsSize := 0, 0;
      present, registered, marked, deleted, called := {}, {}, {}, [], [];
    }

    /** A connection that is new to the loop, while there is room. */
    method Register(connection: Connection)
      requires Valid() && connection in universe && connection !in present && connection !in marked
      requires |present| < Room()
      modifies this`registered, this`present
      ensures Valid() && registered == old(registered) + {connection} && present == old(present) + {connection}
    {
      registered, present := registered + {connection}, present + {connection};
    }

    /** Asks for a further read of a connection, unless it is asked for already. */
    method AddOutstanding(connection: Connection)
      requires Valid() && connection in registered
      modifies this`readOutstandingSize, readOutstanding, connection`isOutstanding
      ensures Valid()
      ensures Outstanding() ==
              if connection in old(Outstanding()) then old(Outstanding()) else old(Outstanding()) + [connection]
      ensures connection in Outstanding()
    {
      if connection.isOutstanding { return; }
      ghost var was := Outstanding();
      ListFits(was, connection, present);
      DistinctNext(was, connection);
      readOutstanding[readOutstandingSize] := connection;
      readOutstandingSize := readOutstandingSize + 1;
      connection.isOutstanding := true;
      assert Outstanding() == was + [connection];
    }

    /** Takes a connection out of the list of outstanding reads. */
    method TakeOut(connection: Connection)
      requires Valid() && connection in present
      modifies this`readOutstandingSize, this`registered, readOutstanding, connection`isOutstanding
      ensures Valid() && registered == old(registered) - {connection}
      ensures Outstanding() == Without(old(Outstanding()), connection) && connection !in Outstanding()
    {
      ghost var was, others := Outstanding(), Without<Connection?>(Outstanding(), connection);
      WithoutDistinct<Connection?>(was, connection);
      assert forall c :: c in others ==> c in was && c != connection;
      assert forall c :: c in was && c != connection ==> c in others;
      readOutstandingSize := Discard<Connection?>(readOutstanding, readOutstandingSize, connection);
      connection.isOutstanding := false;
      registered := registered - {connection};
      assert Outstanding() == others;
    }

    /** Puts a connection that is no longer registered up for removal, once. */
    method PutUp(connection: Connection)
      requires Valid() && connection in present && connection !in registered
      modifies this`removalsSize, this`marked, removals
      ensures Valid() && marked == old(marked) + {connection}
    {
      ghost var waiting := Removals();
      if connection !in waiting {
        ListFits(waiting, connection, present);
        DistinctNext<Connection?>(waiting, connection);
      }
      removalsSize := Remove<Connection?>(removals, removalsSize, connection);
      marked := marked + {connection};
    }

    /** A connection that is no longer polled leaves the lists, and may be put up for removal. */
    method UnregisterConnection(connection: Connection, remove: bool)
      requires Valid() && connection in present
      modifies this`readOutstandingSize, this`removalsSize, this`registered, this`marked
      modifies readOutstanding, removals, connection`isOutstanding
      ensures Valid() && registered == old(registered) - {connection}
      ensures Outstanding() == Without(old(Outstanding()), connection) && connection !in Outstanding()
      ensures marked == old(marked) + if remove then {connection} else {}
    {
      TakeOut(connection);
      if remove { PutUp(connection); }
    }

    // ---- Callbacks ------------------------------------------------------------------------------

    /** Gives a connection a status. */
    method Set(connection: Connection, to: Status)
      requires connection in universe
      modifies connection`status
      ensures forall s :: At(s) == if s == to then old(At(s)) + {connection} else old(At(s)) - {connection}
    {
      connection.status := to;
    }

    /** A new connection comes in with its callbacks on. */
    method Open(connection: Connection)
      requires Valid() && Allowed(Enter(connection), Roll(), Room()) && connection in universe
      modifies this`registered, this`present, connection`status
      ensures Valid() && Roll() == AfterAction(Enter(connection), old(Roll()))
    {
      hide At;
      hide FlagsAgree;
      hide RemovedOnce;
      Set(connection, On);
      Register(connection);
    }

    method SetStatus(connection: Connection, to: Status)
      requires Valid() && connection in universe
      modifies connection`status
      ensures Valid() && Roll() == AfterAction(Turn(connection, to), old(Roll()))
    {
      hide At;
      hide FlagsAgree;
      hide RemovedOnce;
      Set(connection, to);
    }

    /** One thing a callback does. */
    method Act(action: Action)
      requires Valid() && Allowed(action, Roll(), Room()) && action.connection in universe
      modifies this`readOutstandingSize, this`removalsSize, this`registered, this`present, this`marked
      modifies readOutstanding, removals, universe
      ensures Valid() && Roll() == AfterAction(action, old(Roll()))
    {
      hide At;
      hide FlagsAgree;
      hide RemovedOnce;
      match action {
        case Enter(c) => Open(c);
        case Add(c) => AddOutstanding(c);
        case Unregister(c, remove) => UnregisterConnection(c, remove);
        case Turn(c, to) => SetStatus(c, to);
      }
    }

    /** All that a callback does. */
    method Perform(actions: seq<Action>)
      requires Valid() && Legal(actions, Roll(), Room()) && Within(actions, universe)
      modifies this`readOutstandingSize, this`removalsSize, this`registered, this`present, this`marked
      modifies readOutstanding, removals, universe
      ensures Valid() && Roll() == After(actions, old(Roll()))
    {
      hide *;
      assert actions[0..] == actions;
      for index := 0 to |actions|
        invariant Valid() && Legal(actions[index..], Roll(), Room())
        invariant After(actions[index..], Roll()) == After(actions, old(Roll()))
      {
        ActionNext(actions, index, Roll(), Room());
        WithinAt(actions, universe, index);
        Act(actions[index]);
      }
      NoActions(Roll());
      assert actions[|actions|..] == [];
    }

    /** Calls a connection that is not released. */
    method Callback(connection: Connection, greeting: bool, actions: seq<Action>)
      requires Valid() && connection in present && Legal(actions, Roll(), Room()) && Within(actions, universe)
      modifies this`readOutstandingSize, this`removalsSize, this`registered, this`present, this`marked, this`called
      modifies readOutstanding, removals, universe
      ensures Valid() && called == old(called) + [Notice(connection, greeting)]
      ensures Roll() == After(actions, old(Roll()))
    {
      hide *;
      called := called + [Notice(connection, greeting)];
      Perform(actions);
    }

    // ---- The round of outstanding reads ---------------------------------------------------------

    /** Copies the list of outstanding reads aside, and takes back its flags. */
    method CopyAside(size: nat)
      requires readOutstanding != backup && size <= readOutstanding.Length == backup.Length
      requires Distinct(readOutstanding[..size])
      requires forall c :: c in readOutstanding[..size] ==> c != null && c in universe
      requires forall c :: c in universe ==> (c.isOutstanding <==> c in readOutstanding[..size])
      modifies backup, universe`isOutstanding
      ensures backup[..size] == readOutstanding[..size]
      ensures forall c :: c in universe ==> !c.isOutstanding
    {
      ghost var was := readOutstanding[..size];
      assert was[0..] == was;
      for index := 0 to size
        invariant backup[..index] == was[..index]
        invariant forall c :: c in universe ==> (c.isOutstanding <==> c in was[index..])
      {
        var c := readOutstanding[index];
        assert c == was[index] && c in was;
        assert was[index..] == [c] + was[index + 1..];
        c.isOutstanding := false;
        backup[index] := c;
      }
    }

    /** Starts a fresh list of outstanding reads, and keeps the one there was aside. */
    method SetAside() returns (size: nat)
      requires Valid()
      modifies this`readOutstandingSize, backup, universe`isOutstanding
      ensures Valid() && Outstanding() == []
      ensures size == old(readOutstandingSize) && backup[..size] == old(Outstanding())
    {
      size := readOutstandingSize;
      readOutstandingSize := 0;
      CopyAside(size);
    }

    /**
     * Calls the connections with reads outstanding, in their order and each once, unless its callbacks are
     * off by then. Callbacks may ask for further reads, which wait for the next round, and may open new
     * connections.
     */
    method CallOutstanding(calls: seq<Call>)
      requires Valid() && LegalCalls(calls, Roll().(waiting := []), Room()) && AllWithin(calls, universe)
      requires |calls| == readOutstandingSize
      requires forall k :: 0 <= k < |calls| ==> calls[k].connection == Outstanding()[k] && !calls[k].greeting
      modifies this`readOutstandingSize, this`removalsSize, this`registered, this`present, this`marked, this`called
      modifies readOutstanding, backup, removals, universe
      ensures Valid() && Roll() == AfterCalls(calls, old(Roll().(waiting := [])))
      ensures called == old(called) + Called(calls, old(Roll().(waiting := [])))
    {
      hide *;
      OutstandingKnown();
      RollIs();
      ghost var was, start := Outstanding(), Roll().(waiting := []);
      var size := SetAside();
      RollIs();
      assert Roll() == start;
      assert calls[0..] == calls;
      for index := 0 to size
        invariant Valid() && LegalCalls(calls[index..], Roll(), Room())
        invariant backup[..size] == was
        invariant AfterCalls(calls[index..], Roll()) == AfterCalls(calls, start)
        invariant called + Called(calls[index..], Roll()) == old(called) + Called(calls, start)
      {
        var c := backup[index];
        assert c == was[index] && c in was;
        CallNext(calls, index, Roll(), Room());
        AllWithinAt(calls, universe, index);
        StatusIs(c);
        DueIs(calls[index], Roll());
        if c.status == On { Callback(c, false, calls[index].actions); }
      }
      assert calls[|calls|..] == [];
      NoCalls(Roll());
    }

    // ---- The round of callbacks -----------------------------------------------------------------

    /**
     * Calls the connections that may be read, in their order: those that are at their handshake by then, and then
     * those that are open by then, be it since their handshake.
     */
    method RunReaders(readers: seq<Reader>)
      requires Valid() && LegalCalls(Both(readers), Roll(), Room()) && ReadersWithin(readers, universe)
      modifies this`readOutstandingSize, this`removalsSize, this`registered, this`present, this`marked, this`called
      modifies readOutstanding, removals, universe
      ensures Valid() && Roll() == AfterCalls(Both(readers), old(Roll()))
      ensures called == old(called) + Called(Both(readers), old(Roll()))
    {
      hide *;
      assert readers[0..] == readers;
      for index := 0 to |readers|
        invariant Valid() && LegalCalls(Both(readers[index..]), Roll(), Room())
        invariant AfterCalls(Both(readers[index..]), Roll()) == AfterCalls(Both(readers), old(Roll()))
        invariant called + Called(Both(readers[index..]), Roll()) == old(called) + Called(Both(readers), old(Roll()))
      {
        BothNext(readers, index);
        ReadersWithinAt(readers, universe, index);
        Read(readers[index], Both(readers[index + 1..]));
      }
      assert readers[|readers|..] == [];
      NoReaders();
      NoCalls(Roll());
    }

    /** One connection that may be read, with other calls to come. */
    method Read(reader: Reader, ghost rest: seq<Call>)
      requires Valid() && Within(reader.greets, universe) && Within(reader.reading, universe)
      requires LegalCalls([Call(reader.connection, true, reader.greets)]
                          + ([Call(reader.connection, false, reader.reading)] + rest), Roll(), Room())
      modifies this`readOutstandingSize, this`removalsSize, this`registered, this`present, this`marked, this`called
      modifies readOutstanding, removals, universe
      ensures Valid() && LegalCalls(rest, Roll(), Room())
      ensures var all := [Call(reader.connection, true, reader.greets)]
                         + ([Call(reader.connection, false, reader.reading)] + rest);
              && AfterCalls(rest, Roll()) == AfterCalls(all, old(Roll()))
              && called + Called(rest, Roll()) == old(called) + Called(all, old(Roll()))
    {
      hide *;
      var c := reader.connection;
      ghost var greet, read := Call(c, true, reader.greets), Call(c, false, reader.reading);
      CallFirst(greet, [read] + rest, Roll(), Room());
      PresentKnown();
      StatusIs(c);
      DueIs(greet, Roll());
      if c.status == Shaking { Callback(c, true, reader.greets); }
      CallFirst(read, rest, Roll(), Room());
      StatusIs(c);
      DueIs(read, Roll());
      if c.status == On { Callback(c, false, reader.reading); }
    }

    /** Calls the connections of a list, in their order, whose callbacks are on by then. */
    method RunCalls(calls: seq<Call>)
      requires Valid() && LegalCalls(calls, Roll(), Room()) && AllWithin(calls, universe)
      requires forall k :: 0 <= k < |calls| ==> !calls[k].greeting
      modifies this`readOutstandingSize, this`removalsSize, this`registered, this`present, this`marked, this`called
      modifies readOutstanding, removals, universe
      ensures Valid() && Roll() == AfterCalls(calls, old(Roll())) && called == old(called) + Called(calls, old(Roll()))
    {
      hide *;
      assert calls[0..] == calls;
      for index := 0 to |calls|
        invariant Valid() && LegalCalls(calls[index..], Roll(), Room())
        invariant AfterCalls(calls[index..], Roll()) == AfterCalls(calls, old(Roll()))
        invariant called + Called(calls[index..], Roll()) == old(called) + Called(calls, old(Roll()))
      {
        var c := calls[index].connection;
        CallNext(calls, index, Roll(), Room());
        AllWithinAt(calls, universe, index);
        PresentKnown();
        StatusIs(c);
        DueIs(calls[index], Roll());
        if c.status == On { Callback(c, false, calls[index].actions); }
      }
      assert calls[|calls|..] == [];
      NoCalls(Roll());
    }

    /** Releases a connection: it is not released already, and the list of reads does not lead to it. */
    method Delete(connection: Connection)
      requires Fits() && connection in present && connection !in registered
      requires connection !in deleted && connection !in Outstanding()
      modifies this`deleted, this`present
      ensures deleted == old(deleted) + [connection] && present == old(present) - {connection}
    {
      deleted := deleted + [connection];
      present := present - {connection};
    }

    /** Releases all the connections that were put up for removal, in their order. */
    method DeleteRemovals()
      requires Valid()
      modifies this`deleted, this`present, this`removalsSize
      ensures Valid() && removalsSize == 0 && deleted == old(deleted) + old(Removals())
      ensures forall c :: c in marked ==> c in deleted
    {
      ghost var was, waiting := deleted, Removals();
      for index := 0 to removalsSize
        invariant Fits() && FlagsAgree() && removalsSize == old(removalsSize)
        invariant deleted == was + waiting[..index] && Distinct(deleted)
        invariant forall k :: index <= k < |waiting| ==> waiting[k] in present && waiting[k] !in deleted
        invariant forall c :: c in deleted ==> c !in present
      {
        var c := removals[index];
        assert c == waiting[index] && c in waiting;
        Delete(c);
        DistinctNext<Connection?>(was + waiting[..index], c);
        assert was + waiting[..index + 1] == was + waiting[..index] + [c];
      }
      assert waiting[..removalsSize] == waiting;
      removalsSize := 0;
    }

    /**
     * The callbacks of a round, and then the release of every connection that was put up for removal
     * before or by one of them, each exactly once.
     */
    method CallRound(readers: seq<Reader>, writers: seq<Call>, failed: seq<Call>)
      requires Valid() && LegalCalls(Both(readers) + writers + failed, Roll(), Room())
      requires ReadersWithin(readers, universe) && AllWithin(writers + failed, universe)
      requires forall k :: 0 <= k < |writers + failed| ==> !(writers + failed)[k].greeting
      modifies this, readOutstanding, removals, universe
      ensures var all := Both(readers) + writers + failed;
              && Valid() && removalsSize == 0 && old(deleted) <= deleted
              && called == old(called) + Called(all, old(Roll()))
              && registered == AfterCalls(all, old(Roll())).registered
              && marked == AfterCalls(all, old(Roll())).marked
              && Outstanding() == AfterCalls(all, old(Roll())).waiting
      ensures forall c :: c in marked ==> c in deleted
      ensures forall c :: c in Outstanding() ==> c !in deleted
    {
      hide *;
      CallsConcat(Both(readers) + writers, failed, Roll(), Room());
      CallsConcat(Both(readers), writers, Roll(), Room());
      AllWithinParts(writers, failed, universe);
      RunReaders(readers);
      RunCalls(writers);
      RunCalls(failed);
      RollIs();
      DeleteRemovals();
      OutstandingAlive();
    }

    /** What is left is released when the loop is closed. */
    method Close()
      requires Valid()
      modifies this`deleted, this`present, this`removalsSize
      ensures Valid() && forall c :: c in marked ==> c in deleted
    {
      DeleteRemovals();
    }

    lemma OutstandingKnown()
      requires Valid()
      ensures readOutstandingSize <= readOutstanding.Length == backup.Length
      ensures backup != readOutstanding && backup != removals && |Outstanding()| == readOutstandingSize
      ensures forall c :: c in Outstanding() ==> c != null && c in universe
    {
    }

    lemma PresentKnown()
      requires Valid()
      ensures present == Roll().present <= universe
    {
    }

    lemma StatusIs(c: Connection)
      requires c in universe
      ensures c in Roll().open <==> c.status == On
      ensures c in Roll().shaking <==> c.status == Shaking
      ensures Roll().present == present
    {
    }

    lemma RollIs()
      requires Valid()
      ensures readOutstandingSize <= readOutstanding.Length
      ensures Roll() == Members(registered, present, marked, At(On), At(Shaking), Outstanding())
    {
    }

    lemma OutstandingAlive()
      requires Valid()
      ensures readOutstandingSize <= readOutstanding.Length
      ensures forall c :: c in Outstanding() ==> c !in deleted
    {
    }
  }

  ghost predicate AllWithin(calls: seq<Call>, universe: set<Connection>) {
    forall k :: 0 <= k < |calls| ==> Within(calls[k].actions, universe)
  }

  lemma AllWithinAt(calls: seq<Call>, universe: set<Connection>, index: nat)
    requires AllWithin(calls, universe) && index < |calls|
    ensures Within(calls[index].actions, universe)
  {
  }

  lemma AllWithinParts(a: seq<Call>, b: seq<Call>, universe: set<Connection>)
    requires AllWithin(a + b, universe) && forall k :: 0 <= k < |a + b| ==> !(a + b)[k].greeting
    ensures AllWithin(a, universe) && AllWithin(b, universe)
    ensures forall k :: 0 <= k < |a| ==> !a[k].greeting
    ensures forall k :: 0 <= k < |b| ==> !b[k].greeting
  {
    assert forall k :: 0 <= k < |a| ==> (a + b)[k] == a[k];
    assert forall k :: 0 <= k < |b| ==> (a + b)[|a| + k] == b[k];
  }

  ghost predicate ReadersWithin(readers: seq<Reader>, universe: set<Connection>) {
    forall k :: 0 <= k < |readers| ==> Within(readers[k].greets, universe) && Within(readers[k].reading, universe)
  }

  lemma ReadersWithinAt(readers: seq<Reader>, universe: set<Connection>, index: nat)
    requires ReadersWithin(readers, universe) && index < |readers|
    ensures Within(readers[index].greets, universe) && Within(readers[index].reading, universe)
  {
  }

  /** All connections there ever are. */
  ghost predicate Within(actions: seq<Action>, universe: set<Connection>) {
    forall i :: 0 <= i < |actions| ==> actions[i].connection in universe
  }

  lemma WithinAt(actions: seq<Action>, universe: set<Connection>, index: nat)
    requires Within(actions, universe) && index < |actions|
    ensures actions[index].connection in universe
  {
  }

  lemma ListFits(s: seq<Connection?>, c: Connection, all: set<Connection>)
    requires Distinct(s) && c in all && c !in s && forall x :: x in s ==> x in all
    ensures |s| < |all|
  {
    DistinctFits(s, all - {c});
  }
}
