/** What any sequence of calls on the ring leaves of the stream of characters written to it. */
module CharRingbufferRuns {
  import opened CharRingbuffer

  datatype Op = Write(text: string) | Get(keep: bool) | SetSize(size: nat, enough: bool)

  /** What the methods of the class do to the ring. */
  function Do(q: Ring, op: Op): (q': Ring)
    requires q.Valid() && (op.Write? ==> q.size > 0)
    ensures q'.Valid()
  {
    match op
    case Write(text) => Written(q, text)
    case Get(keep) => if keep then q else Ring(q.size, "", q.at)
    case SetSize(size, enough) => if enough then Ring(size, "", 0) else q
  }

  /** No write on a ring of size 0, which would not come back. */
  predicate Callable(q: Ring, ops: seq<Op>)
    requires q.Valid()
    decreases |ops|
  {
    ops != [] ==> (ops[0].Write? ==> q.size > 0) && Callable(Do(q, ops[0]), ops[1..])
  }

  function Run(q: Ring, ops: seq<Op>): (q': Ring)
    requires q.Valid() && Callable(q, ops)
    ensures q'.Valid()
    decreases |ops|
  {
    if ops == [] then q else Run(Do(q, ops[0]), ops[1..])
  }

  /** All that was written since the ring was last emptied. */
  function StreamAfter(stream: string, op: Op): string {
    match op
    case Write(text) => stream + text
    case Get(keep) => if keep then stream else ""
    case SetSize(size, enough) => if enough then "" else stream
  }

  function Stream(stream: string, ops: seq<Op>): string
    decreases |ops|
  {
    if ops == [] then stream else Stream(StreamAfter(stream, ops[0]), ops[1..])
  }

  /** The ring holds the end of the stream, and all of it if it fits. */
  predicate HoldsEndOf(q: Ring, stream: string) {
    && |q.contents| <= |stream|
    && q.contents == Last(stream, |q.contents|)
    && (|stream| <= q.size ==> q.contents == stream)
  }

  lemma WriteHoldsEnd(q: Ring, stream: string, text: string)
    requires q.Valid() && q.size > 0 && HoldsEndOf(q, stream)
    ensures HoldsEndOf(Written(q, text), stream + text)
  {
    hide Last, Written;
    WrittenContents(q, text);
    LastOfEnd(stream, q.contents, text, Kept(q, |text|));
    if |stream + text| <= q.size {
      LastIsAll(stream + text);
    }
  }

  lemma WrittenContents(q: Ring, text: string)
    requires q.size > 0
    ensures var q' := Written(q, text);
            q'.size == q.size && q'.contents == Last(q.contents + text, Kept(q, |text|))
                && |q'.contents| == Kept(q, |text|)
  {
  }

  lemma LastOfEnd(stream: string, end: string, text: string, k: nat)
    requires |end| <= |stream| && end == Last(stream, |end|) && k <= |end| + |text|
    ensures Last(stream + text, k) == Last(end + text, k)
  {
    hide Last;
    LastIsSplit(stream, |end|);
    var before := stream[..|stream| - |end|];
    assert stream + text == before + (end + text);
    LastOfShorter(before, end + text, k);
  }

  lemma LastIsSplit(s: string, k: nat)
    requires k <= |s|
    ensures s == s[..|s| - k] + Last(s, k)
  {
  }

  /** Over any calls: get gives back a suffix of what was written since the ring was last emptied,
      and all of it while that fits into the ring. */
  lemma {:induction false} GetsTheEndOfTheStream(q: Ring, stream: string, ops: seq<Op>)
    requires q.Valid() && Callable(q, ops) && HoldsEndOf(q, stream)
    ensures HoldsEndOf(Run(q, ops), Stream(stream, ops))
    decreases |ops|
  {
    hide HoldsEndOf, Written, Last;
    if ops != [] {
      var op := ops[0];
      match op {
        case Write(text) => WriteHoldsEnd(q, stream, text);
        case _ => EmptyHoldsEnd(Do(q, op));
      }
      GetsTheEndOfTheStream(Do(q, op), StreamAfter(stream, op), ops[1..]);
    }
  }

  lemma EmptyHoldsEnd(q: Ring)
    ensures q.contents == "" ==> HoldsEndOf(q, "")
  {
  }

  /** The length of the last write since the ring was last emptied. */
  function LastWrite(n: nat, ops: seq<Op>): nat
    decreases |ops|
  {
    if ops == [] then n
    else
      var next := match ops[0]
        case Write(text) => |text|
        case Get(keep) => if keep then n else 0
        case SetSize(size, enough) => if enough then 0 else n;
      LastWrite(next, ops[1..])
  }

  /** At every moment at least the last write, as far as it fits, is still there. */
  lemma {:induction false} LastWriteIsKept(q: Ring, n: nat, ops: seq<Op>)
    requires q.Valid() && Callable(q, ops) && |q.contents| >= Min(q.size, n)
    ensures var q' := Run(q, ops); Min(q'.size, LastWrite(n, ops)) <= |q'.contents| <= q'.size
    decreases |ops|
  {
    hide Last;
    if ops != [] {
      var q1, rest := Do(q, ops[0]), ops[1..];
      match ops[0] {
        case Write(text) => LastWriteIsKept(q1, |text|, rest);
        case Get(keep) => LastWriteIsKept(q1, if keep then n else 0, rest);
        case SetSize(size, enough) => LastWriteIsKept(q1, if enough then 0 else n, rest);
      }
    }
  }

  /** A write leaves as many characters as fit, except in one case, in which it leaves only its own. */
  lemma KeepsAllThatFitsIff(q: Ring, text: string)
    requires q.Valid() && q.size > 0
    ensures |Written(q, text).contents| == Min(q.size, |q.contents| + |text|) <==> !DropsTooMuch(q, |text|)
    ensures DropsTooMuch(q, |text|) ==> Written(q, text).contents == text
  {
    hide Last;
    LastOfShorter(q.contents, text, |text|);
    LastIsAll(text);
  }

  /** No write of the sequence is of the kind that drops too much. */
  predicate NeverDropsTooMuch(q: Ring, ops: seq<Op>)
    requires q.Valid() && Callable(q, ops)
    decreases |ops|
  {
    ops != [] ==>
      && !(ops[0].Write? && DropsTooMuch(q, |ops[0].text|))
      && NeverDropsTooMuch(Do(q, ops[0]), ops[1..])
  }

  /** Without such writes, the ring always holds as much of the stream as fits. */
  lemma {:induction false} HoldsAllThatFits(q: Ring, stream: string, ops: seq<Op>)
    requires q.Valid() && Callable(q, ops) && NeverDropsTooMuch(q, ops)
    requires HoldsEndOf(q, stream) && |q.contents| == Min(q.size, |stream|)
    ensures var (q', all) := (Run(q, ops), Stream(stream, ops));
            |q'.contents| == Min(q'.size, |all|) && q'.contents == Last(all, Min(q'.size, |all|))
    decreases |ops|
  {
    hide HoldsEndOf, Last;
    if ops == [] {
      HoldsTheLast(q, stream);
    } else {
      var op, rest := ops[0], ops[1..];
      match op {
        case Write(text) => WriteHoldsEnd(q, stream, text);
        case _ => EmptyHoldsEnd(Do(q, op));
      }
      HoldsAllThatFits(Do(q, op), StreamAfter(stream, op), rest);
    }
  }

  lemma HoldsTheLast(q: Ring, stream: string)
    requires HoldsEndOf(q, stream)
    ensures |q.contents| <= |stream| && q.contents == Last(stream, |q.contents|)
  {
  }

  /** The ring holds as much of the stream as fits, after every call. */
  predicate AlwaysHoldsAllThatFits(q: Ring, stream: string, ops: seq<Op>)
    requires q.Valid() && Callable(q, ops)
    decreases |ops|
  {
    && |q.contents| == Min(q.size, |stream|)
    && (ops != [] ==> AlwaysHoldsAllThatFits(Do(q, ops[0]), StreamAfter(stream, ops[0]), ops[1..]))
  }

  /** It does exactly if no such write is among the calls. */
  lemma {:induction false} AlwaysHoldsAllIff(q: Ring, stream: string, ops: seq<Op>)
    requires q.Valid() && Callable(q, ops) && |q.contents| == Min(q.size, |stream|)
    ensures AlwaysHoldsAllThatFits(q, stream, ops) <==> NeverDropsTooMuch(q, ops)
    decreases |ops|
  {
    hide Last, Written;
    if ops != [] {
      var op := ops[0];
      var q', all := Do(q, op), StreamAfter(stream, op);
      if op.Write? {
        KeepsAllThatFitsIff(q, op.text);
        SizeStays(q, op.text);
      }
      if |q'.contents| == Min(q'.size, |all|) {
        AlwaysHoldsAllIff(q', all, ops[1..]);
      }
    }
  }

  lemma SizeStays(q: Ring, text: string)
    requires q.size > 0
    ensures Written(q, text).size == q.size
  {
  }

  /** Such writes happen: a new ring of 4, a write of 6 and a write of 2 leave 2 characters. */
  lemma TwoOfFourRemain()
    ensures var ops := [Write("abcdef"), Write("gh")];
            Callable(Ring(4, "", 0), ops) && Run(Ring(4, "", 0), ops).contents == "gh"
  {
    var q := Ring(4, "", 0);
    var ops := [Write("abcdef"), Write("gh")];
    assert ops[1..] == [Write("gh")] && ops[1..][1..] == [];
    assert Written(q, "abcdef") == Ring(4, "cdef", 2);
    assert Written(Ring(4, "cdef", 2), "gh").contents == "gh";
  }
}
