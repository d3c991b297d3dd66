/**
 * The cache of open files. A path falls on one slot of a table by its hash. A slot keeps the file open
 * and is trusted for a few seconds; past them the path is opened again.
 */
module FileCache {
  import opened Common
  import opened FileSystem

  const SIZE := 128
  const VALID_FOR := 4

  /** A slot; a descriptor of -1 says that it holds no file. */
  datatype Slot = Slot(path: Path, descriptor: int, size: nat, written: nat, checked: nat)

  const EMPTY := Slot("", -1, 0, 0, 0)

  /** A slot that gives up its file. */
  function Emptied(e: Slot): Slot {
    if e.descriptor == -1 then e else e.(descriptor := -1, path := "")
  }

  /** A slot with what another one says of its file. */
  function Seen(e: Slot, described: Slot): Slot {
    e.(size := described.size, written := described.written)
  }

  /** The test of the source on the seconds of the clock, in the arithmetic of an unsigned int. */
  predicate Trusted(now: nat, checked: nat) {
    (now - checked) % CLOCK_WIDTH < VALID_FOR
  }

  /** The test trusts what is less than four seconds old, and again whenever the clock has gone round. */
  lemma TrustedExactly(asked: nat, since: nat)
    requires since <= asked
    ensures Trusted(asked % 0x1_0000_0000, since % 0x1_0000_0000) <==> (asked - since) % 0x1_0000_0000 < 4
    ensures asked - since < 0x1_0000_0000 ==>
              (Trusted(asked % 0x1_0000_0000, since % 0x1_0000_0000) <==> asked - since < 4)
  {
    var a, b := asked / CLOCK_WIDTH, since / CLOCK_WIDTH;
    Rounds(asked % CLOCK_WIDTH - since % CLOCK_WIDTH, a - b);
    assert asked - since == asked % CLOCK_WIDTH - since % CLOCK_WIDTH + (a - b) * CLOCK_WIDTH;
  }

  lemma Rounds(x: int, k: int)
    ensures (x + k * CLOCK_WIDTH) % CLOCK_WIDTH == x % CLOCK_WIDTH
  {
  }

  /**
   * The bound of four seconds holds of what the test trusts exactly when the entry is younger than one round of
   * the clock, or else stands at four seconds or more within its round.
   */
  lemma FourSecondsExactly(asked: nat, since: nat)
    requires since <= asked
    ensures (Trusted(asked % 0x1_0000_0000, since % 0x1_0000_0000) ==> asked - since < 4) <==>
            (asked - since < 0x1_0000_0000 || (asked - since) % 0x1_0000_0000 >= 4)
  {
    TrustedExactly(asked, since);
  }

  // ---- What a slot says -------------------------------------------------------------------------

  /** A path named a file at some moment that was not before the clock showed from. */
  ghost predicate NamedSince(past: seq<World>, path: Path, file: nat, from: nat) {
    exists k :: 0 <= k < |past| && path in past[k].names && past[k].names[path] == file && from <= past[k].clock
  }

  /** A path named a file less than four seconds before the clock showed asked, or later. */
  ghost predicate NamedLately(past: seq<World>, path: Path, file: nat, asked: nat) {
    exists k :: 0 <= k < |past| && path in past[k].names && past[k].names[path] == file && asked < past[k].clock + VALID_FOR
  }

  lemma NamedRecently(past: seq<World>, path: Path, file: nat, since: nat, asked: nat)
    requires NamedSince(past, path, file, since) && asked < since + VALID_FOR
    ensures NamedLately(past, path, file, asked)
  {
  }

  lemma NamedNow(past: seq<World>, path: Path, file: nat, from: nat)
    requires past != [] && path in past[|past| - 1].names && past[|past| - 1].names[path] == file
    requires from <= past[|past| - 1].clock
    ensures NamedSince(past, path, file, from)
  {
  }

  lemma NamedLater(past: seq<World>, more: seq<World>, path: Path, file: nat, from: nat)
    requires past <= more && NamedSince(past, path, file, from)
    ensures NamedSince(more, path, file, from)
  {
    var k :| 0 <= k < |past| && path in past[k].names && past[k].names[path] == file && from <= past[k].clock;
    assert more[k] == past[k];
  }

  /** A slot reaches a file that its path named no earlier than the slot was checked. */
  ghost predicate Holds(e: Slot, since: nat, files: map<int, nat>, past: seq<World>, clock: nat) {
    && e.descriptor in files && since <= clock && e.checked == since % CLOCK_WIDTH
    && NamedSince(past, e.path, files[e.descriptor], since)
  }

  lemma HoldsLater(e: Slot, since: nat, files: map<int, nat>, past: seq<World>, clock: nat, more: seq<World>, later: nat)
    requires Holds(e, since, files, past, clock) && past <= more && clock <= later
    ensures Holds(e, since, files, more, later)
  {
    NamedLater(past, more, e.path, files[e.descriptor], since);
  }

  /** Every slot that holds a file is the one its path falls on. */
  ghost predicate AllHold(slots: seq<Slot>, since: seq<nat>, files: map<int, nat>, past: seq<World>, clock: nat,
                          slotOf: Path -> nat, maxPath: nat) {
    && |slots| == |since|
    && forall i :: 0 <= i < |slots| && slots[i].descriptor != -1 ==>
         slotOf(slots[i].path) == i && |slots[i].path| < maxPath && Holds(slots[i], since[i], files, past, clock)
  }

  /** How many slots hold a file. */
  function Count(slots: seq<Slot>): nat {
    if slots == [] then 0 else (if slots[0].descriptor != -1 then 1 else 0) + Count(slots[1..])
  }

  ghost function Descriptors(slots: seq<Slot>): set<int> {
    set i | 0 <= i < |slots| && slots[i].descriptor != -1 :: slots[i].descriptor
  }

  ghost predicate Apart(slots: seq<Slot>) {
    forall i, j :: 0 <= i < j < |slots| && slots[i].descriptor != -1 ==> slots[i].descriptor != slots[j].descriptor
  }

  lemma {:induction false} CountDescriptors(slots: seq<Slot>)
    requires Apart(slots)
    ensures |Descriptors(slots)| == Count(slots)
  {
    if slots != [] {
      var rest, d := slots[1..], slots[0].descriptor;
      CountDescriptors(rest);
      assert forall i :: 0 <= i < |rest| ==> rest[i] == slots[i + 1];
      if d != -1 {
        assert d !in Descriptors(rest);
        assert Descriptors(slots) == Descriptors(rest) + {d} by {
          assert forall i :: 0 < i < |slots| ==> slots[i] == rest[i - 1];
        }
      } else {
        assert Descriptors(slots) == Descriptors(rest) by {
          assert forall i :: 0 < i < |slots| ==> slots[i] == rest[i - 1];
        }
      }
    }
  }

  /** Slots that are apart stay apart when one is emptied, and lose just its descriptor. */
  lemma WithoutSlot(slots: seq<Slot>, i: nat, now: seq<Slot>)
    requires i < |slots| && Apart(slots) && slots[i].descriptor != -1
    requires now == slots[i := slots[i].(descriptor := -1, path := "")]
    ensures Apart(now) && Descriptors(now) == Descriptors(slots) - {slots[i].descriptor}
  {
    forall d | d in Descriptors(slots) && d != slots[i].descriptor ensures d in Descriptors(now) {
      var j :| 0 <= j < |slots| && slots[j].descriptor == d;
      assert now[j] == slots[j];
    }
  }

  /** An empty slot that takes a descriptor no other one has. */
  lemma WithSlot(slots: seq<Slot>, i: nat, now: seq<Slot>, e: Slot)
    requires i < |slots| && Apart(slots) && slots[i].descriptor == -1 && now == slots[i := e]
    requires e.descriptor != -1 && e.descriptor !in Descriptors(slots)
    ensures Apart(now) && Descriptors(now) == Descriptors(slots) + {e.descriptor}
  {
    assert now[i] == e;
    forall d | d in Descriptors(slots) ensures d in Descriptors(now) {
      var j :| 0 <= j < |slots| && slots[j].descriptor == d && d != -1;
      assert now[j] == slots[j];
    }
  }

  /** The slots as they should be: their descriptors are the open ones, each its own. */
  ghost predicate Coherent(slots: seq<Slot>, since: seq<nat>, files: map<int, nat>, past: seq<World>, clock: nat,
                           slotOf: Path -> nat, maxPath: nat) {
    && AllHold(slots, since, files, past, clock, slotOf, maxPath)
    && Apart(slots) && Descriptors(slots) == files.Keys
  }

  lemma CoherentLater(slots: seq<Slot>, since: seq<nat>, files: map<int, nat>, past: seq<World>, clock: nat,
                      slotOf: Path -> nat, maxPath: nat, more: seq<World>, later: nat)
    requires Coherent(slots, since, files, past, clock, slotOf, maxPath) && past <= more && clock <= later
    ensures Coherent(slots, since, files, more, later, slotOf, maxPath)
  {
    forall i | 0 <= i < |slots| && slots[i].descriptor != -1 ensures Holds(slots[i], since[i], files, more, later) {
      HoldsLater(slots[i], since[i], files, past, clock, more, later);
    }
  }

  /** Emptying a slot and closing its descriptor, which no other slot has. */
  lemma CoherentWithout(slots: seq<Slot>, since: seq<nat>, files: map<int, nat>, past: seq<World>, clock: nat,
                        slotOf: Path -> nat, maxPath: nat, i: nat)
    requires Coherent(slots, since, files, past, clock, slotOf, maxPath)
    requires i < |slots| && slots[i].descriptor != -1
    ensures slots[i].descriptor in files
    ensures Coherent(slots[i := Emptied(slots[i])], since, files - {slots[i].descriptor}, past, clock, slotOf, maxPath)
  {
    WithoutSlot(slots, i, slots[i := Emptied(slots[i])]);
    forall j | 0 <= j < |slots| && j != i && slots[j].descriptor != -1
      ensures Holds(slots[j], since[j], files - {slots[i].descriptor}, past, clock)
    {
      assert slots[j].descriptor != slots[i].descriptor;
    }
  }

  /** Filling an empty slot with a file through a descriptor that is new. */
  lemma CoherentWith(slots: seq<Slot>, since: seq<nat>, files: map<int, nat>, past: seq<World>, clock: nat,
                     slotOf: Path -> nat, maxPath: nat, i: nat, e: Slot, asked: nat, file: nat)
    requires Coherent(slots, since, files, past, clock, slotOf, maxPath)
    requires i < |slots| && slots[i].descriptor == -1 && slotOf(e.path) == i && |e.path| < maxPath
    requires e.descriptor >= 0 && e.descriptor !in files && e.checked == asked % CLOCK_WIDTH && asked <= clock
    requires NamedSince(past, e.path, file, asked)
    ensures Coherent(slots[i := e], since[i := asked], files[e.descriptor := file], past, clock, slotOf, maxPath)
  {
    WithSlot(slots, i, slots[i := e], e);
    forall j | 0 <= j < |slots| && j != i && slots[j].descriptor != -1
      ensures Holds(slots[j], since[j], files[e.descriptor := file], past, clock)
    {
      assert slots[j].descriptor in files;
    }
  }

  /** What is known of the size and the time of a file does not matter to that. */
  lemma CoherentRefreshed(slots: seq<Slot>, since: seq<nat>, files: map<int, nat>, past: seq<World>, clock: nat,
                          slotOf: Path -> nat, maxPath: nat, i: nat, e: Slot)
    requires Coherent(slots, since, files, past, clock, slotOf, maxPath)
    requires i < |slots| && e == slots[i].(size := e.size, written := e.written)
    ensures Coherent(slots[i := e], since, files, past, clock, slotOf, maxPath)
  {
    forall d | d in files ensures d in Descriptors(slots[i := e]) {
      var j :| 0 <= j < |slots| && slots[j].descriptor == d && d != -1;
      assert slots[i := e][j].descriptor == d;
    }
  }

  /** A slot that holds a file, in a coherent table. */
  lemma CoherentHeld(slots: seq<Slot>, since: seq<nat>, files: map<int, nat>, past: seq<World>, clock: nat,
                     slotOf: Path -> nat, maxPath: nat, i: nat)
    requires Coherent(slots, since, files, past, clock, slotOf, maxPath)
    requires i < |slots| && slots[i].descriptor != -1
    ensures |since| == |slots| && slotOf(slots[i].path) == i && Holds(slots[i], since[i], files, past, clock)
  {
  }

  /** Opens less closes are the slots that hold a file. */
  lemma CoherentCount(slots: seq<Slot>, since: seq<nat>, files: map<int, nat>, past: seq<World>, clock: nat,
                      slotOf: Path -> nat, maxPath: nat)
    requires Coherent(slots, since, files, past, clock, slotOf, maxPath)
    ensures |files| == Count(slots)
  {
    CountDescriptors(slots);
    assert |files.Keys| == |files|;
  }

  /** How an acquisition ends. */
  datatype Outcome = Found(index: nat) | TooLong | CannotOpen | CannotDescribe | IsDirectory

  /** Why an acquisition failed: what is the case now, of a file that the path named at some moment. */
  ghost predicate Explained(outcome: Outcome, path: Path, past: seq<World>, now: World, maxPath: nat) {
    match outcome
    case Found(_) => true
    case TooLong => |path| >= maxPath
    case CannotOpen => !now.working || path !in now.names
    case CannotDescribe => !now.working || exists file :: NamedSince(past, path, file, 0) && file !in now.info
    case IsDirectory =>
      exists file :: NamedSince(past, path, file, 0) && file in now.info && now.info[file].directory
  }

  lemma NamedAtAll(past: seq<World>, path: Path, file: nat, from: nat)
    requires NamedSince(past, path, file, from)
    ensures NamedSince(past, path, file, 0)
  {
  }

  datatype Opening = Opened(d: int, info: Info) | Refused(outcome: Outcome)

  class Cache {
    const system: System
    const hash: Path -> nat
    const maxPath: nat
    const entries: array<Slot>
    /** When each slot was last checked, by a clock that does not go round. */
    ghost var since: seq<nat>

    function SlotOf(path: Path): (i: nat)
      ensures i < SIZE
    {
      hash(path) % SIZE
    }

    ghost predicate Valid()
      reads this, entries, system
    {
      && entries.Length == SIZE == |since| && system.Valid()
      && Coherent(entries[..], since, system.files, system.past, system.now.clock, SlotOf, maxPath)
    }

    constructor (system: System, hash: Path -> nat, maxPath: nat)
      requires system.Valid() && system.files == map[]
      ensures Valid() && this.system == system && fresh(entries) && Count(entries[..]) == 0
      ensures this.hash == hash && this.maxPath == maxPath
    {
      this.system, this.hash, this.maxPath := system, hash, maxPath;
      entries := new Slot[SIZE](_ => EMPTY);
      since := seq(SIZE, _ => 0);
      new;
      CountDescriptors(entries[..]);
      assert Descriptors(entries[..]) == {};
    }

    /** Opens less closes are the slots that hold a file. */
    lemma OpensLessCloses()
      requires Valid()
      ensures system.opens - system.closes == Count(entries[..])
    {
      CoherentCount(entries[..], since, system.files, system.past, system.now.clock, SlotOf, maxPath);
    }

    lemma HeldOpen(i: nat)
      requires Valid() && i < SIZE && entries[i].descriptor != -1
      ensures entries[i].descriptor in system.files
    {
      CoherentHeld(entries[..], since, system.files, system.past, system.now.clock, SlotOf, maxPath, i);
    }

    /** The seconds of the clock. */
    method AskTime() returns (seconds: nat)
      requires Valid()
      modifies system
      ensures Valid() && seconds == system.now.clock % CLOCK_WIDTH && old(system.now.clock) <= system.now.clock
      ensures system.now == old(system.Next())
      ensures system.files == old(system.files) && system.opens == old(system.opens) && system.handed == old(system.handed)
      ensures system.closes == old(system.closes)
      ensures old(system.past) <= system.past && system.Story() == old(system.Story())
    {
      hide Coherent;
      ghost var past, clock := system.past, system.now.clock;
      seconds := system.Time();
      CoherentLater(entries[..], since, system.files, past, clock, SlotOf, maxPath, system.past, system.now.clock);
    }

    /** What is to be known of the file a slot holds. */
    method Describe(i: nat) returns (info: Option<Info>)
      requires Valid() && i < SIZE && entries[i].descriptor != -1
      modifies system
      ensures Valid() && old(system.now.clock) <= system.now.clock
      ensures system.files == old(system.files) && system.opens == old(system.opens) && system.handed == old(system.handed)
      ensures system.closes == old(system.closes)
      ensures old(system.past) <= system.past && system.Story() == old(system.Story())
      ensures var file := system.files[entries[i].descriptor];
              info == if system.now.working && file in system.now.info then Some(system.now.info[file]) else None
    {
      hide Coherent;
      ghost var past, clock := system.past, system.now.clock;
      HeldOpen(i);
      info := system.Stat(entries[i].descriptor);
      CoherentLater(entries[..], since, system.files, past, clock, SlotOf, maxPath, system.past, system.now.clock);
    }

    /** Closes the file a slot holds, and empties the slot. */
    method Empty(i: nat)
      requires Valid() && i < SIZE && entries[i].descriptor != -1
      modifies entries, system
      ensures Valid() && entries[..] == old(entries[..])[i := Emptied(old(entries[i]))]
      ensures system.opens == old(system.opens) && system.past == old(system.past) && system.now == old(system.now)
      ensures system.handed == old(system.handed) && system.Story() == old(system.Story())
    {
      ghost var was := entries[..];
      hide Coherent;
      CoherentWithout(was, since, system.files, system.past, system.now.clock, SlotOf, maxPath, i);
      system.Close(entries[i].descriptor);
      entries[i] := entries[i].(descriptor := -1, path := "");
      assert entries[..] == was[i := Emptied(was[i])];
    }

    /** Closes every file. */
    method Clear()
      requires Valid()
      modifies entries, system
      ensures Valid() && system.files == map[] && Count(entries[..]) == 0
      ensures system.opens == old(system.opens) == system.closes
      ensures forall i :: 0 <= i < SIZE ==> entries[i] == Emptied(old(entries[i]))
    {
      hide Coherent;
      ghost var was := entries[..];
      for index := 0 to SIZE
        invariant Valid() && system.opens == old(system.opens)
        invariant forall i :: 0 <= i < index ==> entries[i] == Emptied(was[i])
        invariant forall i :: index <= i < SIZE ==> entries[i] == was[i]
      {
        if entries[index].descriptor == -1 { continue; }
        ghost var before := entries[..];
        Empty(index);
        assert forall i :: 0 <= i < SIZE && i != index ==> entries[..][i] == before[i];
        assert entries[..][index] == Emptied(before[index]);
      }
      NothingHeld();
    }

    lemma NothingHeld()
      requires Valid() && forall i :: 0 <= i < SIZE ==> entries[i].descriptor == -1
      ensures system.files == map[] && Count(entries[..]) == 0 && system.opens == system.closes
    {
      CoherentCount(entries[..], since, system.files, system.past, system.now.clock, SlotOf, maxPath);
      assert Descriptors(entries[..]) == {};
    }

    // ---- Acquiring ------------------------------------------------------------------------------

    /** Opens a path and describes the file through the descriptor just obtained; what fails is closed again. */
    method OpenPath(path: Path, ghost asked: nat) returns (opening: Opening)
      requires Valid() && asked <= system.now.clock
      modifies system
      ensures old(system.now.clock) <= system.now.clock && old(system.past) <= system.past && system.Valid()
      ensures system.Story() == old(system.Story())
      ensures system.handed == old(system.handed)
      ensures !opening.Opened? ==> Valid() && system.files == old(system.files)
      ensures opening.Refused? ==> Explained(opening.outcome, path, system.past, system.now, maxPath)
      ensures opening.Refused? ==>
                opening.outcome == CannotOpen || opening.outcome == CannotDescribe || opening.outcome == IsDirectory
      ensures opening.Opened? ==>
                && opening.d >= 0 && opening.d !in old(system.files) && !opening.info.directory
                && opening.d in system.files
                && var file := system.files[opening.d];
                   && system.files == old(system.files)[opening.d := file]
                   && file in system.now.info && opening.info == system.now.info[file]
                   && NamedSince(system.past, path, file, asked)
                   && Coherent(entries[..], since, old(system.files), system.past, system.now.clock, SlotOf, maxPath)
    {
      hide Coherent;
      hide NamedSince;
      hide Ordered;
      ghost var files, past, clock := system.files, system.past, system.now.clock;
      var d := system.Open(path);
      CoherentLater(entries[..], since, files, past, clock, SlotOf, maxPath, system.past, system.now.clock);
      if d == -1 { return Refused(CannotOpen); }
      ghost var mid, openedAt := system.past, system.now.clock;
      NamedNow(mid, path, system.files[d], asked);
      var info := system.Stat(d);
      CoherentLater(entries[..], since, files, mid, openedAt, SlotOf, maxPath, system.past, system.now.clock);
      NamedLater(mid, system.past, path, system.files[d], asked);
      NamedAtAll(system.past, path, system.files[d], asked);
      if info == None || info.value.directory {
        system.Close(d);
        assert system.files == files;
        return Refused(if info == None then CannotDescribe else IsDirectory);
      }
      return Opened(d, info.value);
    }

    /** Opens a path into an empty slot. */
    method Renew(i: nat, path: Path, seconds: nat, ghost asked: nat) returns (outcome: Outcome)
      requires Valid() && i == SlotOf(path) && |path| < maxPath && entries[i].descriptor == -1
      requires seconds == asked % CLOCK_WIDTH && asked <= system.now.clock
      modifies entries, system, this`since
      ensures Valid() && old(system.now.clock) <= system.now.clock && old(system.past) <= system.past
      ensures system.Story() == old(system.Story())
      ensures system.handed == old(system.handed)
      ensures outcome == Found(i) || outcome == CannotOpen || outcome == CannotDescribe || outcome == IsDirectory
      ensures outcome != Found(i) ==> entries[..] == old(entries[..]) && since == old(since)
      ensures Explained(outcome, path, system.past, system.now, maxPath)
      ensures outcome == Found(i) ==>
                && entries[i].path == path && since == old(since)[i := asked]
                && entries[..] == old(entries[..])[i := entries[i]]
                && Current(i)
    {
      hide Coherent;
      hide NamedSince;
      hide Ordered;
      ghost var was, files := entries[..], system.files;
      var opening := OpenPath(path, asked);
      if opening.Refused? { return opening.outcome; }
      var d, info := opening.d, opening.info;
      entries[i] := Slot(path, d, info.size, info.written, seconds);
      CoherentWith(was, since, files, system.past, system.now.clock, SlotOf, maxPath, i, entries[i], asked,
                   system.files[d]);
      since := since[i := asked];
      assert entries[..] == was[i := entries[i]];
      return Found(i);
    }

    /** A slot that holds a file says of it what there is to be known now. */
    ghost predicate Current(i: nat)
      requires i < entries.Length
      reads this, entries, system
    {
      && entries[i].descriptor in system.files
      && var file := system.files[entries[i].descriptor];
         && file in system.now.info
         && entries[i].size == system.now.info[file].size && entries[i].written == system.now.info[file].written
    }

    /** The file a slot holds. */
    ghost function FileOf(i: nat): nat
      requires i < entries.Length && entries[i].descriptor in system.files
      reads this, entries, system
    {
      system.files[entries[i].descriptor]
    }

    lemma HeldNamed(i: nat)
      requires Valid() && i < SIZE && entries[i].descriptor != -1
      ensures entries[i].descriptor in system.files
      ensures NamedSince(system.past, entries[i].path, FileOf(i), 0)
    {
      hide Coherent;
      hide NamedSince;
      CoherentHeld(entries[..], since, system.files, system.past, system.now.clock, SlotOf, maxPath, i);
      NamedAtAll(system.past, entries[i].path, FileOf(i), since[i]);
    }

    /** Asks the descriptor of a slot about itself, and makes the slot say what it answers. */
    method Refresh(i: nat) returns (done: bool)
      requires Valid() && i < SIZE && entries[i].descriptor != -1
      modifies entries, system
      ensures Valid() && old(system.now.clock) <= system.now.clock && old(system.past) <= system.past
      ensures system.Story() == old(system.Story())
      ensures system.files == old(system.files) && system.opens == old(system.opens) && system.handed == old(system.handed)
      ensures system.closes == old(system.closes)
      ensures entries[..] == old(entries[..])[i := entries[i]]
      ensures entries[i] == Seen(old(entries[i]), entries[i])
      ensures if done then Current(i)
              else entries[..] == old(entries[..]) && (!system.now.working || FileOf(i) !in system.now.info)
    {
      hide Coherent;
      hide Ordered;
      var info := Describe(i);
      if info == None { return false; }
      HeldOpen(i);
      ghost var was := entries[..];
      var e := entries[i].(size := info.value.size, written := info.value.written);
      CoherentRefreshed(was, since, system.files, system.past, system.now.clock, SlotOf, maxPath, i, e);
      entries[i] := e;
      assert entries[..] == was[i := e];
      return true;
    }

    /** A slot that is trusted reaches the file that its path named a short while ago. */
    lemma TrustedLately(i: nat, seconds: nat, asked: nat)
      requires Valid() && i < SIZE && entries[i].descriptor != -1
      requires seconds == asked % CLOCK_WIDTH && asked <= system.now.clock && since[i] <= asked
      ensures entries[i].descriptor in system.files
      ensures Trusted(seconds, entries[i].checked) <==> (asked - since[i]) % CLOCK_WIDTH < VALID_FOR
      ensures asked - since[i] < CLOCK_WIDTH && Trusted(seconds, entries[i].checked) ==>
                NamedLately(system.past, entries[i].path, FileOf(i), asked)
    {
      hide Coherent;
      CoherentHeld(entries[..], since, system.files, system.past, system.now.clock, SlotOf, maxPath, i);
      TrustedExactly(asked, since[i]);
      if asked - since[i] < VALID_FOR {
        NamedRecently(system.past, entries[i].path, FileOf(i), since[i], asked);
      }
    }

    lemma SinceBefore(i: nat)
      requires Valid() && i < SIZE && entries[i].descriptor != -1
      ensures since[i] <= system.now.clock && |entries[i].path| < maxPath
    {
    }

    /**
     * A slot holds the file that a path named less than four seconds ago, with its size and its time as
     * they are now. The clock of an unsigned int tells an age up to whole rounds, so that much is said of
     * what was checked less than one round ago.
     */
    ghost predicate Answers(i: nat, path: Path, asked: nat)
      requires i < entries.Length && i < |since|
      reads this, entries, system
    {
      && entries[i].path == path && Current(i) && since[i] <= asked
      && (asked - since[i]) % CLOCK_WIDTH < VALID_FOR
      && (asked - since[i] < CLOCK_WIDTH ==> NamedLately(system.past, path, FileOf(i), asked))
    }

    /** A slot that holds a path is brought up to date, and handed back while it is trusted. */
    method Recall(index: nat, path: Path, seconds: nat, ghost asked: nat) returns (outcome: Option<Outcome>)
      requires Valid() && index == SlotOf(path) && entries[index].descriptor != -1 && entries[index].path == path
      requires seconds == asked % CLOCK_WIDTH && asked <= system.now.clock && since[index] <= asked
      modifies entries, system
      ensures Valid() && old(system.now.clock) <= system.now.clock && old(system.past) <= system.past
      ensures system.Story() == old(system.Story())
      ensures system.handed == old(system.handed)
      ensures system.opens == old(system.opens) && system.closes == old(system.closes)
      ensures outcome == None || outcome == Some(CannotDescribe) || outcome == Some(Found(index))
      ensures system.files == old(system.files) && entries[index] == Seen(old(entries[index]), entries[index])
      ensures outcome == None ==> (asked - since[index]) % CLOCK_WIDTH >= VALID_FOR
      ensures outcome == Some(Found(index)) ==> Answers(index, path, asked)
      ensures outcome == Some(CannotDescribe) ==> entries[..] == old(entries[..])
      ensures outcome == Some(Found(index)) ==> (asked - since[index]) % CLOCK_WIDTH < VALID_FOR
      ensures outcome.Some? ==> Explained(outcome.value, path, system.past, system.now, maxPath)
      ensures forall i :: 0 <= i < SIZE && i != index ==> entries[i] == old(entries[i])
    {
      hide Coherent;
      hide Ordered;
      hide NamedSince;
      hide NamedLately;
      hide Trusted;
      var done := Refresh(index);
      if !done {
        HeldNamed(index);
        return Some(CannotDescribe);
      }
      TrustedLately(index, seconds, asked);
      if Trusted(seconds, entries[index].checked) { return Some(Found(index)); }
      return None;
    }

    /** Whatever a slot holds makes room for a path. */
    method Replace(index: nat, path: Path, seconds: nat, ghost asked: nat) returns (outcome: Outcome)
      requires Valid() && index == SlotOf(path) && seconds == asked % CLOCK_WIDTH && asked <= system.now.clock
      modifies entries, system, this`since
      ensures Valid() && old(system.now.clock) <= system.now.clock && old(system.past) <= system.past
      ensures system.Story() == old(system.Story())
      ensures system.handed == old(system.handed)
      ensures outcome.Found? ==> outcome.index == index && since[index] == asked && Answers(index, path, asked)
      ensures outcome == TooLong <==> |path| >= maxPath
      ensures Explained(outcome, path, system.past, system.now, maxPath)
      ensures !outcome.Found? ==> entries[index].descriptor == -1
      ensures forall i :: 0 <= i < SIZE && i != index ==> entries[i] == old(entries[i]) && since[i] == old(since[i])
    {
      hide Coherent;
      hide Ordered;
      hide NamedSince;
      hide NamedLately;
      hide Trusted;
      if entries[index].descriptor != -1 { Empty(index); }
      if |path| >= maxPath { return TooLong; }
      outcome := Renew(index, path, seconds, asked);
      if outcome.Found? {
        HeldOpen(index);
        TrustedLately(index, seconds, asked);
        TrustedNow(asked);
      }
    }

    /** The slot of a path, from what is known of it or by opening the path. */
    method Acquire(path: Path) returns (outcome: Outcome, ghost asked: nat)
      requires Valid()
      modifies entries, system, this`since
      ensures Valid() && old(system.now.clock) <= asked <= system.now.clock && old(system.past) <= system.past
      ensures system.Story() == old(system.Story())
      ensures system.handed == old(system.handed)
      ensures outcome.Found? ==> outcome.index == SlotOf(path) && Answers(outcome.index, path, asked)
      ensures asked == old(system.Next().clock)
      ensures old(entries[SlotOf(path)].descriptor != -1 && entries[SlotOf(path)].path == path)
              && (asked - old(since[SlotOf(path)])) % CLOCK_WIDTH < VALID_FOR ==>
                && system.opens == old(system.opens) && system.closes == old(system.closes)
                && system.files == old(system.files) && since == old(since)
                && entries[SlotOf(path)] == Seen(old(entries[SlotOf(path)]), entries[SlotOf(path)])
                && (outcome == Found(SlotOf(path)) || outcome == CannotDescribe)
      ensures outcome.Found? && !(old(entries[SlotOf(path)].descriptor != -1 && entries[SlotOf(path)].path == path)
                                  && (asked - old(since[SlotOf(path)])) % CLOCK_WIDTH < VALID_FOR) ==>
                since[SlotOf(path)] == asked
      ensures !outcome.Found? ==>
                || entries[SlotOf(path)].descriptor == -1
                || (outcome == CannotDescribe && entries[..] == old(entries[..]) && system.files == old(system.files))
      ensures outcome == TooLong <==> |path| >= maxPath
      ensures Explained(outcome, path, system.past, system.now, maxPath)
      ensures forall i :: 0 <= i < SIZE && i != SlotOf(path) ==> entries[i] == old(entries[i]) && since[i] == old(since[i])
    {
      hide Coherent;
      hide Ordered;
      hide Answers;
      var seconds := AskTime();
      asked := system.now.clock;
      var index := SlotOf(path);
      if entries[index].descriptor != -1 {
        SinceBefore(index);
        if entries[index].path == path {
          var recalled := Recall(index, path, seconds, asked);
          if recalled.Some? { return recalled.value, asked; }
        }
      }
      outcome := Replace(index, path, seconds, asked);
    }

    /**
     * Hands out a duplicate of the descriptor for a path, to the file that the path named a short while
     * ago; the cache keeps its own.
     */
    method OpenFile(path: Path) returns (done: bool, ghost asked: nat)
      requires Valid()
      modifies entries, system, this`since
      ensures Valid()
      ensures !done ==>
                && system.handed == old(system.handed)
                && (!system.now.working || exists outcome: Outcome ::
                      !outcome.Found? && Explained(outcome, path, system.past, system.now, maxPath))
      ensures asked == old(system.Next().clock)
      ensures forall i :: 0 <= i < SIZE && i != SlotOf(path) ==> entries[i] == old(entries[i]) && since[i] == old(since[i])
      ensures done ==>
                && since[SlotOf(path)] <= asked && (asked - since[SlotOf(path)]) % CLOCK_WIDTH < VALID_FOR
                && entries[SlotOf(path)].descriptor in system.files && entries[SlotOf(path)].path == path
                && system.handed == old(system.handed) + [FileOf(SlotOf(path))]
                && (asked - since[SlotOf(path)] < CLOCK_WIDTH ==>
                      NamedLately(system.past, path, FileOf(SlotOf(path)), asked))
    {
      hide Coherent;
      hide Ordered;
      hide NamedLately;
      var outcome;
      outcome, asked := Acquire(path);
      if !outcome.Found? { return false, asked; }
      var i := outcome.index;
      ghost var past, clock, file := system.past, system.now.clock, FileOf(i);
      done := system.Duplicate(entries[i].descriptor);
      CoherentLater(entries[..], since, system.files, past, clock, SlotOf, maxPath, system.past, system.now.clock);
      LatelyLater(past, system.past, path, file, asked);
    }
  }

  lemma LatelyLater(past: seq<World>, more: seq<World>, path: Path, file: nat, asked: nat)
    requires past <= more
    ensures NamedLately(past, path, file, asked) ==> NamedLately(more, path, file, asked)
  {
    if k :| 0 <= k < |past| && path in past[k].names && past[k].names[path] == file && asked < past[k].clock + VALID_FOR {
      assert more[k] == past[k];
    }
  }

  lemma TrustedNow(asked: nat)
    ensures Trusted(asked % CLOCK_WIDTH, asked % CLOCK_WIDTH)
  {
  }

  // ---- A stale answer ---------------------------------------------------------------------------

  /** A moment at which a path names a file, and that file and another one are plain files. */
  function Naming(path: Path, clock: nat, file: nat, other: nat): World {
    World(clock, map[path := file], map[file := Info(0, 0, false), other := Info(0, 0, false)], true)
  }

  /** The path names one file while the clock shows zero, and another one a round of the clock later. */
  ghost predicate Swapped(worlds: seq<World>, path: Path, one: nat, two: nat) {
    forall k :: 0 <= k < |worlds| ==>
      worlds[k] == Naming(path, 0, one, two) || worlds[k] == Naming(path, CLOCK_WIDTH, two, one)
  }

  ghost predicate Steady(worlds: seq<World>, path: Path, one: nat, two: nat) {
    forall k :: 0 <= k < |worlds| ==> worlds[k] == Naming(path, 0, one, two)
  }

  /** Whatever was named at such moments is there to be described, and is no directory. */
  lemma NamedThen(past: seq<World>, path: Path, one: nat, two: nat, file: nat)
    requires Swapped(past, path, one, two) && NamedSince(past, path, file, 0)
    ensures file == one || file == two
  {
  }

  lemma NothingExplains(outcome: Outcome, path: Path, past: seq<World>, one: nat, two: nat, maxPath: nat)
    requires past != [] && Swapped(past, path, one, two) && |path| < maxPath
    requires Explained(outcome, path, past, past[|past| - 1], maxPath)
    ensures outcome.Found?
  {
    forall file | NamedSince(past, path, file, 0) ensures file == one || file == two {
      NamedThen(past, path, one, two, file);
    }
  }

  lemma NotLately(past: seq<World>, path: Path, one: nat, two: nat)
    requires one != two && Swapped(past, path, one, two)
    ensures !NamedLately(past, path, one, CLOCK_WIDTH)
  {
  }

  lemma SteadyLately(past: seq<World>, path: Path, one: nat, two: nat, file: nat)
    requires Steady(past, path, one, two) && NamedLately(past, path, file, 0)
    ensures file == one
  {
  }

  /** The slot of a path holds a file since the clock showed zero. */
  ghost predicate HeldFromZero(cache: Cache, path: Path, one: nat)
    requires cache.Valid()
    reads cache, cache.entries, cache.system
  {
    var i := cache.SlotOf(path);
    && cache.entries[i].descriptor in cache.system.files && cache.entries[i].descriptor != -1
    && cache.FileOf(i) == one && cache.entries[i].path == path && cache.since[i] == 0
  }

  /** A cache that got to know the file a path names. */
  method Acquainted(hash: Path -> nat, maxPath: nat, path: Path, one: nat, two: nat) returns (cache: Cache)
    requires |path| < maxPath && one != two
    ensures fresh(cache) && fresh(cache.entries) && fresh(cache.system) && cache.Valid()
    ensures cache.maxPath == maxPath && Steady(cache.system.past, path, one, two) && HeldFromZero(cache, path, one)
  {
    hide Coherent;
    hide Ordered;
    hide NamedSince;
    hide NamedLately;
    OrderedOne(Naming(path, 0, one, two));
    var system := new System(Naming(path, 0, one, two), []);
    cache := new Cache(system, hash, maxPath);
    assert Steady(system.Story(), path, one, two);
    var outcome;
    ghost var asked;
    outcome, asked := cache.Acquire(path);
    SteadyPast(system.past, system.future, path, one, two);
    NothingExplains(outcome, path, system.past, one, two, maxPath);
    SteadyLately(system.past, path, one, two, cache.FileOf(cache.SlotOf(path)));
  }

  lemma OrderedOne(w: World)
    ensures Ordered([w] + [])
  {
  }

  lemma SteadyPast(past: seq<World>, future: seq<World>, path: Path, one: nat, two: nat)
    requires Steady(past + future, path, one, two)
    ensures Steady(past, path, one, two) && Swapped(past, path, one, two)
  {
    assert forall k :: 0 <= k < |past| ==> past[k] == (past + future)[k];
  }

  lemma SwappedPast(past: seq<World>, future: seq<World>, path: Path, one: nat, two: nat)
    requires Swapped(past + future, path, one, two)
    ensures Swapped(past, path, one, two)
  {
    assert forall k :: 0 <= k < |past| ==> past[k] == (past + future)[k];
  }

  /** The world after it has stayed the same for a round of the clock. */
  lemma RoundLater(past: seq<World>, path: Path, one: nat, two: nat)
    requires Steady(past, path, one, two)
    ensures var all := past + [Naming(path, CLOCK_WIDTH, two, one)];
            Ordered(all) && Swapped(all, path, one, two)
  {
  }

  /** The moment that shows a round of the clock later. */
  lemma SwappedNow(past: seq<World>, path: Path, one: nat, two: nat)
    requires past != [] && Swapped(past, path, one, two) && CLOCK_WIDTH <= past[|past| - 1].clock
    ensures past[|past| - 1].clock == CLOCK_WIDTH && past[|past| - 1].names == map[path := two]
  {
  }

  lemma RoundTrusted()
    ensures (CLOCK_WIDTH - 0) % CLOCK_WIDTH < VALID_FOR && Naming("", CLOCK_WIDTH, 0, 0).clock == CLOCK_WIDTH
  {
  }

  /** The path is acquired a round of the clock later. */
  method AskedAgain(cache: Cache, path: Path, one: nat, two: nat)
    requires cache.Valid() && HeldFromZero(cache, path, one) && |path| < cache.maxPath
    requires Swapped(cache.system.Story(), path, one, two) && cache.system.Next().clock == CLOCK_WIDTH
    modifies cache`since, cache.entries, cache.system
    ensures cache.Valid() && HeldFromZero(cache, path, one)
    ensures cache.system.past != [] && Swapped(cache.system.past, path, one, two)
    ensures cache.system.now == cache.system.past[|cache.system.past| - 1] && CLOCK_WIDTH <= cache.system.now.clock
  {
    hide Coherent;
    hide Ordered;
    hide NamedSince;
    hide NamedLately;
    hide Swapped;
    hide Explained;
    ghost var asked;
    var outcome;
    RoundTrusted();
    outcome, asked := cache.Acquire(path);
    SwappedPast(cache.system.past, cache.system.future, path, one, two);
    NothingExplains(outcome, path, cache.system.past, one, two, cache.maxPath);
  }

  /**
   * A run in which the bound of four seconds fails: a path is acquired when the clock shows zero, the file behind
   * it is replaced, and when the path is acquired again one round of the clock later the cache hands out the
   * old file. At no moment of the last four seconds did the path name it.
   */
  method RoundTheClock(hash: Path -> nat, maxPath: nat, path: Path, one: nat, two: nat)
    returns (cache: Cache, i: nat, asked: nat)
    requires |path| < maxPath && one != two
    ensures fresh(cache) && cache.Valid() && i == cache.SlotOf(path) && cache.entries[i].path == path
    ensures cache.entries[i].descriptor in cache.system.files && cache.FileOf(i) == one
    ensures asked == cache.system.now.clock == CLOCK_WIDTH && cache.system.now.names == map[path := two]
    ensures !NamedLately(cache.system.past, path, cache.FileOf(i), asked)
  {
    hide Coherent;
    hide Ordered;
    hide NamedSince;
    hide NamedLately;
    hide Swapped;
    cache := Acquainted(hash, maxPath, path, one, two);
    RoundLater(cache.system.past, path, one, two);
    cache.system.future := [Naming(path, CLOCK_WIDTH, two, one)];
    AskedAgain(cache, path, one, two);
    SwappedNow(cache.system.past, path, one, two);
    NotLately(cache.system.past, path, one, two);
    i, asked := cache.SlotOf(path), cache.system.now.clock;
  }
}
