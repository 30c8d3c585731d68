/** The last bytes of a child's error output, kept while any amount of it is written. */
module TailBuffer {
  import opened Common

  const MAX_STDERR_TAIL_BYTES: nat := 8 * 1024

  function Last(s: Bytes, max: nat): Bytes {
    if |s| > max then s[|s| - max..] else s
  }

  /** All of it while it fits, and otherwise a suffix of exactly max bytes. */
  lemma LastIsSuffix(s: Bytes, max: nat)
    ensures |Last(s, max)| == if |s| <= max then |s| else max
    ensures Last(s, max) == s[|s| - |Last(s, max)|..]
  {
  }

  class Tail {
    const max: nat
    var buf: Bytes

    constructor (max: int)
      ensures buf == [] && this.max == (if max <= 0 then MAX_STDERR_TAIL_BYTES else max)
    {
      this.max := if max <= 0 then MAX_STDERR_TAIL_BYTES else max;
      buf := [];
    }

    method Write(p: Bytes) returns (n: nat)
      modifies this
      ensures n == |p| && buf == Last(old(buf) + p, max)
    {
      buf := buf + p;
      if |buf| > max {
        buf := buf[|buf| - max..];
      }
      return |p|;
    }
  }

  function Joined(writes: seq<Bytes>): Bytes {
    if writes == [] then [] else Joined(writes[..|writes| - 1]) + writes[|writes| - 1]
  }

  /** What a new tail holds after these writes, each as Write leaves it. */
  function AfterWrites(writes: seq<Bytes>, max: nat): Bytes {
    if writes == [] then [] else Last(AfterWrites(writes[..|writes| - 1], max) + writes[|writes| - 1], max)
  }

  lemma TailOfTail(a: Bytes, b: Bytes, max: nat)
    ensures Last(Last(a, max) + b, max) == Last(a + b, max)
  {
    if |a| > max {
      assert Last(a, max) + b == (a + b)[|a| - max..];
    }
  }

  /** Trimming on every write loses nothing that trimming once at the end would keep. */
  lemma {:induction false} TailOfEverything(writes: seq<Bytes>, max: nat)
    ensures AfterWrites(writes, max) == Last(Joined(writes), max)
  {
    if writes != [] {
      var front, last := writes[..|writes| - 1], writes[|writes| - 1];
      TailOfEverything(front, max);
      hide Last;
      TailOfTail(Joined(front), last, max);
    } else {
      assert Last([], max) == [];
    }
  }
}
