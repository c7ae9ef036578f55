/** The overwriting byte ring: in-place writes of any length, against the stream of all bytes written. */
module CharRingbuffer {

  /** The last k characters. */
  function Last(s: string, k: nat): (r: string)
    requires k <= |s|
    ensures |r| == k
  {
    s[|s| - k..]
  }

  function Min(a: int, b: int): int {
    if a <= b then a else b
  }

  /** A ring of some size: the characters it can give back, and where the next one goes. */
  datatype Ring = Ring(size: nat, contents: string, at: nat) {
    predicate Valid() {
      |contents| <= size && (at < size || at == 0)
    }
  }

  /** The one case in which a write drops more than it has to: the ring is exactly full, its start is
      not 0, and the write passes the end of the ring without filling all of it. */
  predicate DropsTooMuch(q: Ring, n: nat) {
    |q.contents| == q.size && q.at > 0 && q.size - q.at <= n < q.size
  }

  /** How many characters remain after a write of n. */
  function Kept(q: Ring, n: nat): (k: nat)
    ensures k <= |q.contents| + n
  {
    if DropsTooMuch(q, n) then n else Min(q.size, |q.contents| + n)
  }

  function Written(q: Ring, text: string): Ring
    requires q.size > 0
  {
    Ring(q.size, Last(q.contents + text, Kept(q, |text|)), (q.at + |text|) % q.size)
  }

  /** The ring's fields: its memory, write_start, read_start and buffer_full. */
  datatype Cells = Cells(data: string, w: nat, r: nat, full: bool) {
    predicate Valid() {
      if full then w <= r < |data| else r <= w && (w < |data| || w == 0)
    }

    function Contents(): (s: string)
      requires Valid()
      ensures |s| <= |data|
    {
      if full then data[r..] + data[..w] else data[r..w]
    }

    function AsRing(): (q: Ring)
      requires Valid()
      ensures q.Valid()
    {
      Ring(|data|, Contents(), w)
    }
  }

  /** One turn of the loop in write, filling the memory from write_start to its end. */
  function Turn(c: Cells, text: string): (c': Cells)
    requires c.w <= |c.data| && |text| == |c.data| - c.w
    ensures |c'.data| == |c.data| && c'.w == 0 && (c.Valid() && |c.data| > 0 ==> c'.Valid())
  {
    Cells(c.data[..c.w] + text, 0, if c.r > c.w then 0 else c.r, true)
  }

  /** What comes after the loop, for text that does not reach the end of the memory. */
  function Rest(c: Cells, text: string): (c': Cells)
    requires c.Valid() && c.w + |text| < |c.data|
    ensures c'.Valid() && |c'.data| == |c.data|
  {
    var end := c.w + |text|;
    Cells(c.data[..c.w] + text + c.data[end..],
          end,
          if text != "" && ((c.full && c.w == c.r) || (c.r > c.w && end > c.r)) then end else c.r,
          c.full)
  }

  function WriteAll(c: Cells, text: string): (c': Cells)
    requires c.Valid() && |c.data| > 0
    ensures c'.Valid() && |c'.data| == |c.data|
    decreases |text|
  {
    var first := |c.data| - c.w;
    if c.w + |text| >= |c.data| then WriteAll(Turn(c, text[..first]), text[first..])
    else Rest(c, text)
  }

  /** The loop in write ends after at most that many turns. */
  predicate EndsIn(c: Cells, text: string, turns: nat)
    requires c.w <= |c.data|
    decreases turns
  {
    var first := |c.data| - c.w;
    c.w + |text| < |c.data| || (turns > 0 && EndsIn(Turn(c, text[..first]), text[first..], turns - 1))
  }

  /** It ends exactly if the ring has a size: on a ring of size 0 it takes nothing and goes on. */
  lemma LoopEndsIff(c: Cells, text: string)
    requires c.Valid()
    ensures (exists turns :: EndsIn(c, text, turns)) <==> |c.data| > 0
  {
    if |c.data| > 0 {
      LoopEnds(c, text, |text| + 1);
    } else {
      forall turns ensures !EndsIn(c, text, turns) {
        LoopGoesOn(c, text, turns);
      }
    }
  }

  /** Every turn from the second on takes as much as the ring holds. */
  lemma {:induction false} LoopEnds(c: Cells, text: string, turns: nat)
    requires c.w < |c.data| && |text| < turns
    ensures EndsIn(c, text, turns)
    decreases turns
  {
    hide Turn;
    var first := |c.data| - c.w;
    if c.w + |text| >= |c.data| {
      LoopEnds(Turn(c, text[..first]), text[first..], turns - 1);
    }
  }

  lemma {:induction false} LoopGoesOn(c: Cells, text: string, turns: nat)
    requires |c.data| == 0 && c.w == 0
    ensures !EndsIn(c, text, turns)
    decreases turns
  {
    hide Turn;
    if turns > 0 {
      LoopGoesOn(Turn(c, text[..0]), text[0..], turns - 1);
    }
  }

  lemma LastOfLast(a: string, b: string, d: string, k: nat, m: nat)
    requires k <= |a| + |b| && m <= k + |d|
    requires k == |a| + |b| || m <= k
    ensures Last(Last(a + b, k) + d, m) == Last(a + (b + d), m)
  {
    var x, y := Last(Last(a + b, k) + d, m), Last(a + (b + d), m);
    assert a + (b + d) == (a + b) + d;
    assert |x| == m == |y|;
  }

  lemma RestKeeps(c: Cells, text: string)
    requires c.Valid() && c.w + |text| < |c.data|
    ensures Rest(c, text).AsRing() == Written(c.AsRing(), text)
  {
    hide Last;
    var c' := Rest(c, text);
    RestContents(c, text);
    ModSmall(c.w + |text|, |c.data|);
    LastIsAll(c.Contents() + text);
  }

  lemma ModSmall(n: nat, size: nat)
    requires n < size
    ensures n % size == n
  {
  }

  lemma RestContents(c: Cells, text: string)
    requires c.Valid() && c.w + |text| < |c.data|
    ensures Rest(c, text).Contents() == Last(c.Contents() + text, Min(|c.data|, |c.Contents()| + |text|))
    ensures !DropsTooMuch(c.AsRing(), |text|)
  {
    hide Last, Rest;
    var c', all := Rest(c, text), c.Contents() + text;
    if c.full {
      var tail, front := c.data[c.r..], c.data[..c.w] + text;
      assert all == tail + front;
      RestFull(c, text);
      if c'.r != c.r {
        LastCut(tail, front, c'.r - c.r);
      } else {
        LastIsAll(all);
      }
    } else {
      RestNotFull(c, text);
      LastIsAll(all);
    }
  }

  lemma LastCut(tail: string, front: string, k: nat)
    requires k <= |tail|
    ensures Last(tail + front, |tail| - k + |front|) == tail[k..] + front
  {
  }

  lemma RestFull(c: Cells, text: string)
    requires c.Valid() && c.w + |text| < |c.data| && c.full
    ensures var (c', end) := (Rest(c, text), c.w + |text|);
            && c'.Contents() == c.data[c.r..][c'.r - c.r..] + (c.data[..c.w] + text)
            && c'.r == (if end > c.r then end else c.r)
  {
    hide Rest;
    RestFields(c, text);
    var c', front := Rest(c, text), c.data[..c.w] + text;
    TailKept(front, c.data, c.r, c'.r);
  }

  lemma RestFields(c: Cells, text: string)
    requires c.Valid() && c.w + |text| < |c.data| && c.full
    ensures var (c', front) := (Rest(c, text), c.data[..c.w] + text);
            && c'.full && c'.w == |front| && c'.data == front + c.data[|front|..]
            && c'.r == (if |front| > c.r then |front| else c.r)
  {
  }

  lemma TailKept(front: string, d: string, j: nat, k: nat)
    requires |front| <= k <= |d| && j <= k
    ensures (front + d[|front|..])[..|front|] == front
    ensures (front + d[|front|..])[k..] == d[j..][k - j..]
  {
  }

  lemma RestNotFull(c: Cells, text: string)
    requires c.Valid() && c.w + |text| < |c.data| && !c.full
    ensures Rest(c, text).Contents() == c.Contents() + text
  {
  }

  lemma TurnKeeps(c: Cells, text: string)
    requires c.Valid() && |c.data| > 0 && |text| == |c.data| - c.w
    ensures var (q, c') := (c.AsRing(), Turn(c, text));
            && c'.Contents() == Last(q.contents + text,
                                     if |q.contents| == q.size && c.w > 0 then |text|
                                     else Min(q.size, |q.contents| + |text|))
  {
    hide Last, Turn;
    var held, front := c.Contents(), c.data[..c.w] + text;
    TurnContents(c, text);
    if c.full && c.r > c.w {
      Regroup(c.data[c.r..], c.data[..c.w], text);
      LastOfShorter(c.data[c.r..], front, |front|);
      LastIsAll(front);
    } else if c.full {
      LastOfShorter(held, text, |text|);
      LastIsAll(text);
    } else {
      LastIsAll(held + text);
    }
  }

  lemma Regroup(a: string, b: string, d: string)
    ensures (a + b) + d == a + (b + d)
  {
  }

  lemma TurnContents(c: Cells, text: string)
    requires c.Valid() && |c.data| > 0 && |text| == |c.data| - c.w
    ensures Turn(c, text).Contents() ==
            if c.full then (if c.r > c.w then c.data[..c.w] + text else text) else c.Contents() + text
  {
    var c', front := Turn(c, text), c.data[..c.w] + text;
    assert c'.Contents() == front[c'.r..];
  }

  /** The loop, however often it turns, leaves the last characters of what the ring held and was
      given. */
  lemma {:induction false} WriteKeeps(c: Cells, text: string)
    requires c.Valid() && |c.data| > 0
    ensures WriteAll(c, text).AsRing() == Written(c.AsRing(), text)
    decreases |text|
  {
    hide WriteAll, Turn, Rest, Written, Last, Cells.Contents, Cells.AsRing;
    var first := |c.data| - c.w;
    if c.w + |text| >= |c.data| {
      var a, b := text[..first], text[first..];
      var c' := Turn(c, a);
      TurnNext(c, text, a, b);
      TurnKeeps(c, a);
      WriteKeeps(c', b);
      TurnRing(c, a);
      TurnThenWritten(c.AsRing(), a, b, c'.AsRing());
      assert a + b == text;
    } else {
      RestLast(c, text);
      RestKeeps(c, text);
    }
  }

  lemma TurnRing(c: Cells, text: string)
    requires c.Valid() && |c.data| > 0 && |text| == |c.data| - c.w
    ensures var (q, q') := (c.AsRing(), Turn(c, text).AsRing());
            q.size == |c.data| == q'.size && q.at == c.w && q'.at == 0 && q'.contents == Turn(c, text).Contents()
  {
  }

  lemma TurnThenWritten(q: Ring, a: string, b: string, q': Ring)
    requires q.Valid() && q.size > 0 && |a| == q.size - q.at && q'.size == q.size && q'.at == 0
    requires q'.contents == Last(q.contents + a,
                                 if |q.contents| == q.size && q.at > 0 then |a| else Min(q.size, |q.contents| + |a|))
    ensures Written(q', b) == Written(q, a + b)
  {
    hide Last;
    ModOnce(q.size, |b|);
    var m := Kept(q', |b|);
    assert m == Kept(q, |a + b|);
    if |q.contents| == q.size && q.at > 0 {
      LastOfShorter(q.contents, a, |a|);
      LastIsAll(a);
      assert q.contents + (a + b) == (q.contents + a) + b;
      LastOfShorter(q.contents, a + b, m);
    } else {
      LastOfLast(q.contents, a, b, |q'.contents|, m);
    }
  }

  lemma ModOnce(size: nat, n: nat)
    requires size > 0
    ensures (size + n) % size == n % size
  {
    var p, q := (size + n) / size, n / size;
    assert size * p + (size + n) % size == size * (q + 1) + n % size;
    if p < q + 1 {
      Monotone(size, p + 1, q + 1);
    } else if p > q + 1 {
      Monotone(size, q + 2, p);
    }
  }

  lemma Monotone(size: nat, a: nat, b: nat)
    requires a <= b
    ensures size * a <= size * b
  {
  }

  lemma LastIsAll(s: string)
    ensures Last(s, |s|) == s
  {
  }

  lemma LastOfShorter(a: string, b: string, k: nat)
    requires k <= |b|
    ensures Last(a + b, k) == Last(b, k)
  {
  }

  class CharRingbuffer {
    var size: nat
    var data: array<char>
    var writeStart: nat
    var readStart: nat
    var bufferFull: bool

    ghost predicate Valid()
      reads this, data
    {
      data.Length == size && AsCells().Valid()
    }

    ghost function Contents(): string
      requires Valid()
      reads this, data
    {
      AsCells().Contents()
    }

    ghost function AsCells(): Cells
      reads this, data
    {
      Cells(data[..], writeStart, readStart, bufferFull)
    }

    ghost function AsRing(): (q: Ring)
      requires Valid()
      reads this, data
      ensures q.Valid()
    {
      AsCells().AsRing()
    }

    constructor (size: nat)
      ensures Valid() && fresh(data) && AsRing() == Ring(size, "", 0)
    {
      this.size := size;
      data := new char[size](i => '\0');
      writeStart, readStart, bufferFull := 0, 0, false;
    }

    /** Empties the ring and gives it a new size, unless there is no memory for it. */
    method SetSize(newSize: nat, enough: bool)
      requires Valid()
      modifies this
      ensures Valid() && (data == old(data) || fresh(data))
      ensures AsRing() == if enough then Ring(newSize, "", 0) else old(AsRing())
    {
      if enough {
        data := new char[newSize](i => '\0');
        size := newSize;
        writeStart, readStart, bufferFull := 0, 0, false;
      }
    }

    /** Everything held, oldest first; the ring is empty afterwards unless keep is set. */
    method Get(keep: bool) returns (text: string)
      requires Valid()
      modifies this`readStart, this`bufferFull
      ensures Valid()
      ensures text == old(Contents())
      ensures AsRing() == Ring(size, if keep then text else "", old(writeStart))
    {
      var from := readStart;
      text := "";
      if bufferFull {
        text := text + data[from..];
        from := 0;
      }
      text := text + data[from..writeStart];
      if !keep {
        readStart := writeStart;
        bufferFull := false;
      }
    }

    method HasData() returns (b: bool)
      requires Valid()
      ensures b <==> Contents() != ""
    {
      b := readStart != writeStart || bufferFull;
    }

    method GetDataLen() returns (n: nat)
      requires Valid()
      ensures n == |Contents()|
    {
      var from := readStart;
      n := 0;
      if bufferFull {
        n := size - readStart;
        from := 0;
      }
      n := n + writeStart - from;
    }

    /** memcpy of text into the ring's memory. */
    method Copy(start: nat, text: string)
      requires start + |text| <= data.Length
      modifies data
      ensures data[..] == old(data[..start]) + text + old(data[start + |text|..])
    {
      ghost var was := data[..];
      forall i | 0 <= i < |text| {
        data[start + i] := text[i];
      }
      assert data[..] == was[..start] + text + was[start + |text|..];
    }

    /** The part of write after its loop. */
    method WriteRest(text: string)
      requires Valid() && writeStart + |text| < size
      modifies this`writeStart, this`readStart, data
      ensures Valid() && AsCells() == Rest(old(AsCells()), text)
    {
      hide Rest, Cells.Contents;
      ghost var c := AsCells();
      var n := |text|;
      if n > 0 {
        Copy(writeStart, text);
        if bufferFull && writeStart == readStart {
          readStart := readStart + n;
        } else if readStart > writeStart && writeStart + n > readStart {
          readStart := writeStart + n;
        }
        writeStart := writeStart + n;
      } else {
        NothingLeft(c, text);
      }
      RestIs(c, text, AsCells());
    }

    /** Writes text of any length over the oldest characters. On a ring of size 0 the loop would not
        end (LoopEndsIff). */
    method Write(text: string)
      requires Valid() && size > 0
      modifies this`writeStart, this`readStart, this`bufferFull, data
      ensures Valid()
      ensures AsRing() == Written(old(AsRing()), text)
    {
      hide Turn, Rest, Written, WriteAll, Cells.Contents;
      ghost var c := AsCells();
      var i: nat := 0;
      while writeStart + (|text| - i) >= size
        invariant i <= |text| && Valid()
        invariant WriteAll(AsCells(), text[i..]) == WriteAll(c, text)
        decreases |text| - i
      {
        ghost var now := AsCells();
        bufferFull := true;
        var first := size - writeStart;
        Copy(writeStart, text[i..i + first]);
        if readStart > writeStart {
          readStart := 0;
        }
        writeStart := 0;
        TurnIs(now, text[i..], AsCells());
        i := i + first;
      }
      ghost var now := AsCells();
      WriteRest(text[i..]);
      RestLast(now, text[i..]);
      WriteKeeps(c, text);
    }
  }

  lemma TurnIs(c: Cells, text: string, c': Cells)
    requires c.Valid() && |c.data| > 0 && c.w + |text| >= |c.data|
    requires var first := |c.data| - c.w;
             c' == Cells(c.data[..c.w] + text[..first] + c.data[c.w + first..], 0, if c.r > c.w then 0 else c.r, true)
    ensures var first := |c.data| - c.w;
            c' == Turn(c, text[..first]) && c'.Valid() && WriteAll(c', text[first..]) == WriteAll(c, text)
  {
    hide WriteAll;
    assert c.data[c.w + (|c.data| - c.w)..] == "";
    TurnNext(c, text, text[..|c.data| - c.w], text[|c.data| - c.w..]);
  }

  lemma TurnNext(c: Cells, text: string, a: string, b: string)
    requires c.Valid() && |c.data| > 0 && 0 <= |c.data| - c.w <= |text| && a == text[..|c.data| - c.w]
             && b == text[|c.data| - c.w..]
    ensures WriteAll(c, text) == WriteAll(Turn(c, a), b)
  {
    hide Turn, Rest, Cells.Contents, Cells.Valid;
  }

  lemma NothingLeft(c: Cells, text: string)
    requires c.Valid() && text == ""
    ensures c.data[..c.w] + text + c.data[c.w + |text|..] == c.data
  {
  }

  lemma RestIs(c: Cells, text: string, c': Cells)
    requires c.Valid() && c.w + |text| < |c.data|
    requires c'.data == c.data[..c.w] + text + c.data[c.w + |text|..] && c'.w == c.w + |text| && c'.full == c.full
    requires c'.r == if text != "" && ((c.full && c.w == c.r) || (c.r > c.w && c'.w > c.r)) then c'.w else c.r
    ensures c' == Rest(c, text)
  {
  }

  lemma RestLast(c: Cells, text: string)
    requires c.Valid() && c.w + |text| < |c.data|
    ensures Rest(c, text) == WriteAll(c, text)
  {
    hide Turn, Rest;
  }
}
