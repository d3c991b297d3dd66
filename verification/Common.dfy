/** Vocabulary shared by every component: bytes, optional values and results that carry an error. */
module Common {

  type byte = b: int | 0 <= b < 256

  datatype Option<+T> = None | Some(value: T)

  datatype Result<+T, +E> = Ok(value: T) | Err(error: E)

  /** The bytes of a string literal of the source. */
  function Ascii(s: string): (r: seq<byte>)
    ensures |r| == |s|
  {
    seq(|s|, i requires 0 <= i < |s| => s[i] as int % 256)
  }

  /** Parts put together. */
  function Concat(parts: seq<seq<byte>>): seq<byte> {
    if parts == [] then [] else parts[0] + Concat(parts[1..])
  }

  /** A buffer that held was now holds out at start and is otherwise as before. */
  ghost predicate Written(now: seq<byte>, was: seq<byte>, start: nat, out: seq<byte>) {
    && |now| == |was| && start + |out| <= |was|
    && now[..start] == was[..start]
    && now[start..start + |out|] == out
    && now[start + |out|..] == was[start + |out|..]
  }

  lemma WrittenNothing(was: seq<byte>, start: nat)
    requires start <= |was|
    ensures Written(was, was, start, [])
  {
  }

  /** Storing one more byte behind what is written. */
  lemma WrittenNext(now: seq<byte>, was: seq<byte>, start: nat, out: seq<byte>, b: byte)
    requires Written(now, was, start, out) && start + |out| < |was|
    ensures Written(now[start + |out| := b], was, start, out + [b])
  {
  }

  lemma WrittenPrefix(now: seq<byte>, was: seq<byte>, start: nat, out: seq<byte>)
    requires Written(now, was, start, out)
    ensures |now| == |was| && start <= |was| && now[..start] == was[..start]
  {
  }
}
