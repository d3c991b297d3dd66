/**
 * What the open-file cache sees of the operating system. The world goes on between any two calls: a
 * script says what it comes to, with a clock that never goes back.
 */
module FileSystem {
  import opened Common

  type Path = string

  datatype Info = Info(size: nat, written: nat, directory: bool)

  /**
   * A moment: the seconds of the clock, the file each path names, what there is to be known about
   * the files, and whether the call that is made then works.
   */
  datatype World = World(clock: nat, names: map<Path, nat>, info: map<nat, Info>, working: bool)

  /** The seconds are kept in an unsigned int. */
  const CLOCK_WIDTH := 0x1_0000_0000

  ghost predicate Ordered(worlds: seq<World>) {
    forall i, j :: 0 <= i <= j < |worlds| ==> worlds[i].clock <= worlds[j].clock
  }

  class System {
    var now: World
    var future: seq<World>
    /** The open descriptors, each with the file it reaches. */
    var files: map<int, nat>
    var opens: nat
    var closes: nat
    /** The files that were handed out through duplicates, which their takers close. */
    var handed: seq<nat>
    /** All the moments there have been, this one included. */
    ghost var past: seq<World>

    /** All the moments there have been and all that the script still holds. */
    ghost function Story(): seq<World>
      reads this
    {
      past + future
    }

    ghost predicate Valid()
      reads this
    {
      && past != [] && past[|past| - 1] == now && Ordered(past + future)
      && opens == closes + |files|
      && forall d :: d in files ==> d >= 0
    }

    constructor (now: World, future: seq<World>)
      requires Ordered([now] + future)
      ensures Valid() && files == map[] && opens == closes == 0 && past == [now]
      ensures this.now == now && this.future == future
    {
      this.now, this.future := now, future;
      files, opens, closes, handed := map[], 0, 0, [];
      past := [now];
    }

    /** The moment that comes next: the last one of a script goes on. */
    ghost function Next(): World
      reads this
    {
      if future == [] then now else future[0]
    }

    /** Time goes by. */
    method Advance()
      requires Valid()
      modifies this`now, this`future, this`past
      ensures Valid() && old(past) <= past && old(now.clock) <= now.clock && Story() == old(Story())
      ensures now == old(Next())
    {
      if future != [] {
        assert past + future == (past + [future[0]]) + future[1..];
        assert (past + future)[|past| - 1] == now && (past + future)[|past|] == future[0];
        now := future[0];
        future := future[1..];
        past := past + [now];
      }
    }

    method Time() returns (seconds: nat)
      requires Valid()
      modifies this`now, this`future, this`past
      ensures Valid() && old(past) <= past && old(now.clock) <= now.clock && Story() == old(Story())
      ensures seconds == now.clock % CLOCK_WIDTH && now == old(Next())
    {
      Advance();
      seconds := now.clock % CLOCK_WIDTH;
    }

    /** The lowest descriptor that is not open. */
    method LowestFree() returns (d: nat)
      ensures d !in files && forall k :: 0 <= k < d ==> k in files
    {
      d := 0;
      while d in files
        invariant d <= |files| && forall k :: 0 <= k < d ==> k in files
        decreases |files| - d
      {
        LowerDescriptors(files, d + 1);
        d := d + 1;
      }
    }

    /** Opens the file that a path names now, through a descriptor that was not open. */
    method Open(path: Path) returns (d: int)
      requires Valid()
      modifies this
      ensures Valid() && old(past) <= past && old(now.clock) <= now.clock && Story() == old(Story())
      ensures closes == old(closes) && handed == old(handed)
      ensures d != -1 <==> path in now.names && now.working
      ensures if d == -1 then files == old(files) && opens == old(opens)
              else d >= 0 && d !in old(files) && files == old(files)[d := now.names[path]] && opens == old(opens) + 1
    {
      Advance();
      if path !in now.names || !now.working { return -1; }
      d := LowestFree();
      files := files[d := now.names[path]];
      opens := opens + 1;
    }

    /** Closes a descriptor that is open. */
    method Close(d: int)
      requires Valid() && d in files
      modifies this`files, this`closes
      ensures Valid() && files == old(files) - {d} && closes == old(closes) + 1
    {
      RemoveOne(files, d);
      files := files - {d};
      closes := closes + 1;
    }

    /** A duplicate of a descriptor for somebody else. */
    method Duplicate(d: int) returns (done: bool)
      requires Valid() && d in files
      modifies this`now, this`future, this`past, this`handed
      ensures Valid() && old(past) <= past && old(now.clock) <= now.clock && Story() == old(Story())
      ensures done == now.working && handed == if done then old(handed) + [files[d]] else old(handed)
    {
      Advance();
      done := now.working;
      if done { handed := handed + [files[d]]; }
    }

    /** What is to be known now about the file that a descriptor reaches. */
    method Stat(d: int) returns (info: Option<Info>)
      requires Valid() && d in files
      modifies this`now, this`future, this`past
      ensures Valid() && old(past) <= past && old(now.clock) <= now.clock && Story() == old(Story())
      ensures info == if now.working && files[d] in now.info then Some(now.info[files[d]]) else None
    {
      Advance();
      if !now.working || files[d] !in now.info { return None; }
      return Some(now.info[files[d]]);
    }
  }

  lemma RemoveOne(m: map<int, nat>, d: int)
    requires d in m
    ensures |m - {d}| == |m| - 1
  {
    assert (m - {d}).Keys == m.Keys - {d};
    assert |m.Keys| == |m| && |(m - {d}).Keys| == |m - {d}|;
  }

  /** The lowest descriptor that is not open is found among as many numbers as there are open ones. */
  lemma LowerDescriptors(m: map<int, nat>, n: nat)
    requires forall k :: 0 <= k < n ==> k in m
    ensures n <= |m|
  {
    Below(n, m.Keys);
    assert |m.Keys| == |m|;
  }

  lemma {:induction false} Below(n: nat, keys: set<int>)
    requires forall k :: 0 <= k < n ==> k in keys
    ensures n <= |keys|
  {
    if n > 0 { Below(n - 1, keys - {n - 1}); }
  }
}
