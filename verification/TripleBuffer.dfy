/** The lock-free triple buffer as a step system: one producer and one consumer, interleaved at every
    load, every compare-and-swap and every byte, with compare-and-swap free to fail without cause.
    Its runs refine an atomic register that holds every content published so far. */
module TripleBuffer {
  import opened Lists
  import opened Injection

  /** The packed index byte: front 0x03, back 0x0C, flip 0x30, written flag 0x80. */
  type Indices = bv8

  function Front(x: Indices): Indices {
    x & 0x03
  }

  function Back(x: Indices): Indices {
    (x & 0x0C) >> 2
  }

  function Flip(x: Indices): Indices {
    (x & 0x30) >> 4
  }

  predicate Written(x: Indices) {
    x & 0x80 != 0
  }

  const START: Indices := 0x00 | (0x01 << 2) | (0x02 << 4)

  function SwapFront(x: Indices): Indices {
    ((x & 0x03) << 4) | (x & 0x0C) | ((x & 0x30) >> 4)
  }

  function SwapBack(x: Indices): Indices {
    ((x & 0x80) | 0x80) | (x & 0x03) | ((x & 0x0C) << 2) | ((x & 0x30) >> 2)
  }

  predicate IsBuffer(i: Indices) {
    i == 0 || i == 1 || i == 2
  }

  predicate Permuted(x: Indices) {
    && IsBuffer(Front(x)) && IsBuffer(Back(x)) && IsBuffer(Flip(x))
    && Front(x) != Back(x) && Front(x) != Flip(x) && Back(x) != Flip(x)
  }

  /** swap_front exchanges front and flip and clears the flag. */
  lemma SwapFrontExchanges(x: Indices)
    ensures var y := SwapFront(x);
            Front(y) == Flip(x) && Flip(y) == Front(x) && Back(y) == Back(x) && !Written(y)
            && (Permuted(x) ==> Permuted(y))
  {
  }

  /** swap_back exchanges back and flip and sets the flag. */
  lemma SwapBackExchanges(x: Indices)
    ensures var y := SwapBack(x);
            Back(y) == Flip(x) && Flip(y) == Back(x) && Front(y) == Front(x) && Written(y)
            && (Permuted(x) ==> Permuted(y))
  {
  }

  /** Where the provider's thread stands: not in a call; storing bytes into the back buffer b it was
      given (was: what it held then); storing injected bytes in push (base: what the back buffer held
      when push was called); or in the compare-and-swap loop of swap_back. */
  datatype Producer =
    | Idle
    | Writing(b: Indices, was: seq<Byte>, stores: seq<Store>, done: nat)
    | Injecting(b: Indices, base: seq<Byte>, patches: seq<Patch>, done: nat)
    | SwappingBack(seen: Indices, base: seq<Byte>, patches: seq<Patch>)

  /** Where the consumer's thread stands: not in a call; in the loop of swap_front; about to load the
      front index; or copying bytes out of the front buffer f. */
  datatype Consumer =
    | Resting
    | SwappingFront(seen: Indices, offset: nat, len: nat)
    | Fetching(offset: nat, len: nat)
    | Copying(f: Indices, offset: nat, len: nat, got: seq<Byte>)

  /** The three buffers. */
  datatype Buffers = Buffers(zero: seq<Byte>, one: seq<Byte>, two: seq<Byte>) {
    function At(i: Indices): seq<Byte>
      requires IsBuffer(i)
    {
      if i == 0 then zero else if i == 1 then one else two
    }

    function With(i: Indices, d: seq<Byte>): Buffers
      requires IsBuffer(i)
    {
      if i == 0 then this.(zero := d) else if i == 1 then this.(one := d) else this.(two := d)
    }

    predicate Sized(length: nat) {
      |zero| == length && |one| == length && |two| == length
    }
  }

  datatype State = State(indices: Indices, data: Buffers, producer: Producer, consumer: Consumer)

  function Zeros(length: nat): (zeros: seq<Byte>)
    ensures |zeros| == length && forall i :: 0 <= i < length ==> zeros[i] == 0
  {
    seq(length, i => 0)
  }

  function Start(length: nat): State {
    State(START, Buffers(Zeros(length), Zeros(length), Zeros(length)), Idle, Resting)
  }

  /** One atomic step of either thread. */
  datatype Action =
    | BeginWrite(stores: seq<Store>)
    | StoreByte
    | EndWrite
    | BeginPush(patches: seq<Patch>)
    | InjectByte
    | AbandonPush
    | LoadForSwap
    | CasBack(spurious: bool)
    | BeginRead(offset: nat, len: nat, doPop: bool)
    | CasFront(spurious: bool)
    | LoadFront
    | CopyByte
    | EndRead
    | AskNew

  predicate ByProducer(a: Action) {
    a.BeginWrite? || a.StoreByte? || a.EndWrite? || a.BeginPush? || a.InjectByte? || a.AbandonPush?
      || a.LoadForSwap? || a.CasBack?
  }

  predicate CanStore(b: Indices, stores: seq<Store>, done: nat, length: nat) {
    IsBuffer(b) && done < |stores| && stores[done].pos < length
  }

  /** Writes and reads beyond the length throw before they touch a buffer, so they are no steps. */
  predicate Enabled(s: State, a: Action, length: nat)
    requires s.data.Sized(length)
  {
    match a
    case BeginWrite(stores) => s.producer.Idle? && InBounds(stores, length) && IsBuffer(Back(s.indices))
    case StoreByte => s.producer.Writing? && CanStore(s.producer.b, s.producer.stores, s.producer.done, length)
    case EndWrite => s.producer.Writing? && s.producer.done == |s.producer.stores|
    case BeginPush(patches) => s.producer.Idle? && InBounds(AllStores(patches), length) && IsBuffer(Back(s.indices))
    case InjectByte =>
      s.producer.Injecting? && CanStore(s.producer.b, AllStores(s.producer.patches), s.producer.done, length)
    case AbandonPush => s.producer.Injecting?
    case LoadForSwap => s.producer.Injecting? && s.producer.done == |AllStores(s.producer.patches)|
    case CasBack(spurious) => s.producer.SwappingBack?
    case BeginRead(offset, len, doPop) => s.consumer.Resting? && offset + len <= length
    case CasFront(spurious) => s.consumer.SwappingFront?
    case LoadFront => s.consumer.Fetching?
    case CopyByte =>
      s.consumer.Copying? && |s.consumer.got| < s.consumer.len && IsBuffer(s.consumer.f)
      && s.consumer.offset + s.consumer.len <= length
    case EndRead => s.consumer.Copying? && |s.consumer.got| == s.consumer.len
    case AskNew => true
  }

  function Poke(data: Buffers, b: Indices, st: Store): Buffers
    requires IsBuffer(b) && st.pos < |data.At(b)|
  {
    data.With(b, data.At(b)[st.pos := st.byte])
  }

  /** The step itself. A failed compare-and-swap loads the indices it saw. */
  function Do(s: State, a: Action, length: nat): State
    requires s.data.Sized(length) && Enabled(s, a, length)
  {
    var p, c := s.producer, s.consumer;
    match a
    case BeginWrite(stores) => s.(producer := Writing(Back(s.indices), s.data.At(Back(s.indices)), stores, 0))
    case StoreByte =>
      s.(data := Poke(s.data, p.b, p.stores[p.done]), producer := Writing(p.b, p.was, p.stores, p.done + 1))
    case EndWrite => s.(producer := Idle)
    case BeginPush(patches) => s.(producer := Injecting(Back(s.indices), s.data.At(Back(s.indices)), patches, 0))
    case InjectByte =>
      s.(data := Poke(s.data, p.b, AllStores(p.patches)[p.done]), producer := Injecting(p.b, p.base, p.patches,
          p.done + 1))
    case AbandonPush => s.(producer := Idle)
    case LoadForSwap => s.(producer := SwappingBack(s.indices, p.base, p.patches))
    case CasBack(spurious) =>
      if !spurious && s.indices == p.seen then s.(indices := SwapBack(p.seen), producer := Idle)
      else s.(producer := p.(seen := s.indices))
    case BeginRead(offset, len, doPop) =>
      if doPop && Written(s.indices) then s.(consumer := SwappingFront(s.indices, offset, len))
      else s.(consumer := Fetching(offset, len))
    case CasFront(spurious) =>
      if !spurious && s.indices == c.seen then s.(indices := SwapFront(c.seen), consumer := Fetching(c.offset, c.len))
      else if Written(s.indices) then s.(consumer := c.(seen := s.indices))
      else s.(consumer := Fetching(c.offset, c.len))
    case LoadFront => s.(consumer := Copying(Front(s.indices), c.offset, c.len, []))
    case CopyByte => s.(consumer := c.(got := c.got + [s.data.At(c.f)[c.offset + |c.got|]]))
    case EndRead => s.(consumer := Resting)
    case AskNew => s
  }

  /** What a step means to a caller. */
  datatype Event =
    | Quiet
    | Publishes(base: seq<Byte>, patches: seq<Patch>)
    | Takes
    | Delivers(offset: nat, bytes: seq<Byte>)
    | Answers(isNew: bool)

  function EventOf(s: State, a: Action, length: nat): Event
    requires s.data.Sized(length) && Enabled(s, a, length)
  {
    match a
    case CasBack(spurious) =>
      if !spurious && s.indices == s.producer.seen then Publishes(s.producer.base, s.producer.patches) else Quiet
    case BeginRead(offset, len, doPop) => if doPop && !Written(s.indices) then Takes else Quiet
    case CasFront(spurious) =>
      if (!spurious && s.indices == s.consumer.seen) || !Written(s.indices) then Takes else Quiet
    case EndRead => Delivers(s.consumer.offset, s.consumer.got)
    case AskNew => Answers(Written(s.indices))
    case _ => Quiet
  }

  /** The atomic register: everything published, oldest first, and the version the consumer took. */
  datatype Register = Register(log: seq<seq<Byte>>, held: nat)

  function Newest(r: Register): int {
    |r.log| - 1
  }

  ghost predicate Allowed(r: Register, e: Event, length: nat) {
    match e
    case Quiet => true
    case Publishes(base, patches) => |base| == length && InBounds(AllStores(patches), length)
    case Takes => true
    case Delivers(offset, bytes) =>
      r.held < |r.log| && offset + |bytes| <= |r.log[r.held]| && bytes == r.log[r.held][offset..offset + |bytes|]
    case Answers(isNew) => isNew <==> r.held < Newest(r)
  }

  ghost function After(r: Register, e: Event, length: nat): Register
    requires r.log != [] && Allowed(r, e, length)
  {
    match e
    case Publishes(base, patches) => Register(r.log + [Apply(base, AllStores(patches))], r.held)
    case Takes => Register(r.log, Newest(r))
    case _ => r
  }

  /** What holds of the three buffers whatever the threads are doing. */
  ghost predicate Holding(s: State, r: Register, length: nat) {
    && s.data.Sized(length) && Permuted(s.indices)
    && r.held < |r.log|
    && s.data.At(Front(s.indices)) == r.log[r.held]
    && (Written(s.indices) <==> r.held < Newest(r))
    && (Written(s.indices) ==> s.data.At(Flip(s.indices)) == r.log[Newest(r)])
  }

  /** What the producer knows: the buffer it stores into is the back buffer, and its loaded indices
      are current but for at most one swap by the consumer. */
  ghost predicate ProducerKnows(s: State, length: nat)
    requires s.data.Sized(length) && Permuted(s.indices)
  {
    match s.producer
    case Idle => true
    case Writing(b, was, stores, done) => b == Back(s.indices) && HasStored(s.data.At(b), was, stores, done, length)
    case Injecting(b, base, patches, done) =>
      b == Back(s.indices) && HasStored(s.data.At(b), base, AllStores(patches), done, length)
    case SwappingBack(seen, base, patches) =>
      && var stores := AllStores(patches);
      && HasStored(s.data.At(Back(s.indices)), base, stores, |stores|, length)
      && (s.indices == seen || (Written(seen) && s.indices == SwapFront(seen)))
  }

  /** now is the buffer after the first stores. */
  ghost predicate HasStored(now: seq<Byte>, was: seq<Byte>, stores: seq<Store>, done: nat, length: nat) {
    |was| == length && InBounds(stores, length) && done <= |stores| && now == Apply(was, stores[..done])
  }

  lemma StoresOne(now: seq<Byte>, was: seq<Byte>, stores: seq<Store>, done: nat, length: nat)
    requires HasStored(now, was, stores, done, length) && done < |stores|
    ensures HasStored(now[stores[done].pos := stores[done].byte], was, stores, done + 1, length)
  {
    assert stores[..done + 1][..done] == stores[..done];
  }

  lemma StoresAll(now: seq<Byte>, was: seq<Byte>, stores: seq<Store>, length: nat)
    ensures HasStored(now, was, stores, |stores|, length) <==>
            |was| == length && InBounds(stores, length) && now == Apply(was, stores)
  {
    TakeAll(stores);
  }

  lemma StoresNone(was: seq<Byte>, stores: seq<Store>)
    requires InBounds(stores, |was|)
    ensures HasStored(was, was, stores, 0, |was|)
  {
  }

  ghost predicate ConsumerKnows(s: State, r: Register, length: nat)
    requires Holding(s, r, length)
  {
    match s.consumer
    case Resting => true
    case SwappingFront(seen, offset, len) => Written(seen) && offset + len <= length
    case Fetching(offset, len) => offset + len <= length
    case Copying(f, offset, len, got) =>
      && f == Front(s.indices) && |got| <= len && offset + len <= length
      && got == r.log[r.held][offset..offset + |got|]
  }

  ghost predicate Simulates(s: State, r: Register, length: nat) {
    Holding(s, r, length) && ProducerKnows(s, length) && ConsumerKnows(s, r, length)
  }

  lemma StartSimulates(length: nat)
    ensures Simulates(Start(length), Register([Zeros(length)], 0), length)
  {
    assert Front(START) == 0 && Back(START) == 1 && Flip(START) == 2 && !Written(START);
  }

  /** The event of the step is allowed, and leads to a register the new state simulates. */
  ghost predicate StepKeeps(s: State, r: Register, a: Action, length: nat)
    requires s.data.Sized(length) && Enabled(s, a, length) && r.log != []
  {
    var e := EventOf(s, a, length);
    Allowed(r, e, length) && Simulates(Do(s, a, length), After(r, e, length), length)
  }

  lemma WriteSimulates(s: State, r: Register, a: Action, length: nat)
    requires Simulates(s, r, length) && Enabled(s, a, length) && (a.BeginWrite? || a.StoreByte? || a.EndWrite?)
    ensures StepKeeps(s, r, a, length)
  {
    hide Front, Back, Flip, SwapFront, SwapBack, Written, Apply, HasStored;
    var p := s.producer;
    match a
    case BeginWrite(stores) => StoresNone(s.data.At(Back(s.indices)), stores);
    case StoreByte => StoresOne(s.data.At(p.b), p.was, p.stores, p.done, length);
    case EndWrite =>
  }

  lemma PushSimulates(s: State, r: Register, a: Action, length: nat)
    requires Simulates(s, r, length) && Enabled(s, a, length)
    requires a.BeginPush? || a.InjectByte? || a.AbandonPush? || a.LoadForSwap?
    ensures StepKeeps(s, r, a, length)
  {
    hide Front, Back, Flip, SwapFront, SwapBack, AllStores, Written, Apply, HasStored;
    var p := s.producer;
    match a
    case BeginPush(patches) => StoresNone(s.data.At(Back(s.indices)), AllStores(patches));
    case InjectByte => StoresOne(s.data.At(p.b), p.base, AllStores(p.patches), p.done, length);
    case _ =>
  }

  lemma CasBackSimulates(s: State, r: Register, a: Action, length: nat)
    requires Simulates(s, r, length) && Enabled(s, a, length) && a.CasBack?
    ensures StepKeeps(s, r, a, length)
  {
    hide Front, Back, Flip, SwapFront, SwapBack, AllStores, Apply, Written, HasStored;
    SwapBackExchanges(s.indices);
    SwapFrontExchanges(s.producer.seen);
    StoresAll(s.data.At(Back(s.indices)), s.producer.base, AllStores(s.producer.patches), length);
  }

  lemma CasFrontSimulates(s: State, r: Register, a: Action, length: nat)
    requires Simulates(s, r, length) && Enabled(s, a, length) && a.CasFront?
    ensures StepKeeps(s, r, a, length)
  {
    hide Front, Back, Flip, SwapFront, SwapBack, AllStores, Apply, Written, HasStored;
    SwapFrontExchanges(s.indices);
    if s.producer.SwappingBack? {
      SwapFrontExchanges(s.producer.seen);
    }
  }

  lemma ReadSimulates(s: State, r: Register, a: Action, length: nat)
    requires Simulates(s, r, length) && Enabled(s, a, length)
    requires a.BeginRead? || a.LoadFront? || a.CopyByte? || a.EndRead? || a.AskNew?
    ensures StepKeeps(s, r, a, length)
  {
    hide Front, Back, Flip, SwapFront, SwapBack, AllStores, Apply, Written, HasStored;
  }

  /** Every step of either thread is a step of the register, or none. */
  lemma StepSimulates(s: State, r: Register, a: Action, length: nat)
    requires Simulates(s, r, length) && Enabled(s, a, length)
    ensures StepKeeps(s, r, a, length)
  {
    hide Simulates, StepKeeps, Enabled;
    match a
    case BeginWrite(_) | StoreByte | EndWrite => WriteSimulates(s, r, a, length);
    case BeginPush(_) | InjectByte | AbandonPush | LoadForSwap => PushSimulates(s, r, a, length);
    case CasBack(_) => CasBackSimulates(s, r, a, length);
    case CasFront(_) => CasFrontSimulates(s, r, a, length);
    case BeginRead(_, _, _) | LoadFront | CopyByte | EndRead | AskNew => ReadSimulates(s, r, a, length);
  }
}
