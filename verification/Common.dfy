/** Shared by the other modules. */
module Common {

  datatype Option<T> = None | Some(value: T)

  /** uint64_t values are below this. */
  const U64: nat := 0x1_0000_0000_0000_0000

  const PGSIZE: nat := 4096

  /** What an address index (tracerv_processing.h) says of an instruction. */
  datatype Instr = Instr(functionName: string, isFnEntry: bool, isCallsite: bool, inAsmSequence: bool)

  lemma Regroup<T>(a: seq<T>, b: seq<T>, c: seq<T>)
    ensures a + (b + c) == (a + b) + c
  {
  }

  /** The pieces one after the other. */
  function Flat<T>(pieces: seq<seq<T>>): seq<T> {
    if pieces == [] then [] else Flat(pieces[..|pieces| - 1]) + pieces[|pieces| - 1]
  }

  lemma FlatPush<T>(pieces: seq<seq<T>>, last: seq<T>)
    ensures Flat(pieces + [last]) == Flat(pieces) + last
  {
    assert (pieces + [last])[..|pieces|] == pieces;
  }

  lemma {:induction false} FlatAppend<T>(a: seq<seq<T>>, b: seq<seq<T>>)
    ensures Flat(a + b) == Flat(a) + Flat(b)
  {
    if b == [] {
      assert a + b == a;
    } else {
      var front, last := b[..|b| - 1], b[|b| - 1];
      FlatAppend(a, front);
      assert a + b == (a + front) + [last];
      FlatPush(a + front, last);
      Regroup(Flat(a), Flat(front), last);
    }
  }
}
