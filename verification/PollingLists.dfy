/** The lists of connections of the polling loop: arrays that are appended to and closed up in place. */
module PollingLists {

  predicate Distinct<T(==)>(s: seq<T>) {
    forall i, j :: 0 <= i < j < |s| ==> s[i] != s[j]
  }

  /** A list with the first of its elements that is x taken out. */
  function Without<T(==)>(s: seq<T>, x: T): (r: seq<T>)
    ensures |r| <= |s|
    ensures |r| == |s| <==> x !in s
  {
    if s == [] then [] else if s[0] == x then s[1..] else [s[0]] + Without(s[1..], x)
  }

  lemma {:induction false} WithoutAbsent<T>(s: seq<T>, x: T)
    requires x !in s
    ensures Without(s, x) == s
  {
    if s != [] { WithoutAbsent(s[1..], x); }
  }

  lemma {:induction false} WithoutAt<T>(s: seq<T>, x: T, k: nat)
    requires k < |s| && s[k] == x && x !in s[..k]
    ensures Without(s, x) == s[..k] + s[k + 1..]
  {
    if k > 0 {
      assert s[0] in s[..k] && s[1..][..k - 1] == s[..k][1..];
      WithoutAt(s[1..], x, k - 1);
    }
  }

  /** Taking x out of a list without repetitions leaves all the others, in order, and no x. */
  lemma {:induction false} WithoutDistinct<T>(s: seq<T>, x: T)
    requires Distinct(s)
    ensures var r := Without(s, x);
            && Distinct(r) && x !in r
            && (forall k :: 0 <= k < |r| ==> r[k] in s)
            && (forall k :: 0 <= k < |s| && s[k] != x ==> s[k] in r)
  {
    if s != [] {
      var r := Without(s, x);
      WithoutDistinct(s[1..], x);
      if s[0] == x {
        assert forall k :: 0 < k < |s| ==> s[k] == r[k - 1];
      } else {
        var rest := Without(s[1..], x);
        assert r == [s[0]] + rest;
        assert forall k :: 0 <= k < |rest| ==> rest[k] in s[1..];
        assert forall k :: 0 < k < |s| ==> s[k] == s[1..][k - 1];
      }
    }
  }

  lemma {:induction false} DistinctFits<T>(s: seq<T>, universe: set<T>)
    requires Distinct(s) && forall x :: x in s ==> x in universe
    ensures |s| <= |universe|
  {
    if s != [] {
      assert s[0] !in s[1..];
      DistinctFits(s[1..], universe - {s[0]});
    }
  }

  lemma DistinctNext<T>(s: seq<T>, x: T)
    requires Distinct(s) && x !in s
    ensures Distinct(s + [x])
  {
  }

  // ---- The operations of the source -------------------------------------------------------------

  /** Puts a connection up for removal, unless it already is. */
  method Remove<T(==)>(connections: array<T>, size: nat, connection: T) returns (newSize: nat)
    requires size <= connections.Length && (connection !in connections[..size] ==> size < connections.Length)
    modifies connections
    ensures newSize <= connections.Length
    ensures connections[..newSize] ==
            if connection in old(connections[..size]) then old(connections[..size])
            else old(connections[..size]) + [connection]
  {
    for index := 0 to size
      invariant connection !in connections[..index] && connections[..] == old(connections[..])
    {
      if connections[index] == connection { return size; }
    }
    connections[size] := connection;
    return size + 1;
  }

  /** Pulls what lies behind a position one position back. */
  method CloseGap<T>(connections: array<T>, index: nat, size: nat)
    requires index < size <= connections.Length
    modifies connections
    ensures connections[..size - 1] == old(connections[..index] + connections[index + 1..size])
    ensures connections[size..] == old(connections[size..])
  {
    var position := index;
    while position + 1 < size
      invariant index <= position < size
      invariant forall k :: 0 <= k < index ==> connections[k] == old(connections[k])
      invariant forall k :: index <= k < position ==> connections[k] == old(connections[k + 1])
      invariant forall k :: position <= k < connections.Length ==> connections[k] == old(connections[k])
    {
      connections[position] := connections[position + 1];
      position := position + 1;
    }
  }

  /** Takes a connection out of an array, closing the gap. */
  method Discard<T(==)>(connections: array<T>, size: nat, connection: T) returns (newSize: nat)
    requires size <= connections.Length
    modifies connections
    ensures newSize <= size && connections[..newSize] == Without(old(connections[..size]), connection)
    ensures connections[size..] == old(connections[size..])
  {
    ghost var was := connections[..size];
    for index := 0 to size
      invariant connection !in connections[..index] && connections[..] == old(connections[..])
    {
      if connections[index] == connection {
        assert was[..index] == connections[..index] && was[index + 1..] == connections[index + 1..size];
        WithoutAt(was, connection, index);
        CloseGap(connections, index, size);
        return size - 1;
      }
    }
    assert connections[..size] == was;
    WithoutAbsent(was, connection);
    return size;
  }
}
