/** The triple buffer as an object: its calls made one at a time, with the checks of provider, consumer
    and range, and the compare-and-swap loops run to their end. */
module ProcessData {
  import opened Lists
  import opened Wrappers
  import opened Injection
  import opened TripleBuffer

  const COOKIES := 0x1_0000_0000_0000_0000

  /** What a call of the consumer gives: bytes, a refusal, a range error, or nothing defined, since the
      message for a refusal reads the hash of a registered consumer where there is none. */
  datatype Answer<+T> = NoConsumer | NotYours | TooFar | Got(value: T)

  datatype Failure = Refused | OutOfRange | NotInjected(error: Error)

  /** One process data with triple buffering. Providers and consumers are known by their hashes. */
  class TripleBufferData {
    const length: nat
    const definition: Definition
    const conv: Conversion
    const zero: array<Byte>
    const one: array<Byte>
    const two: array<Byte>
    const injections: Injections
    var indices: Indices
    var cookie: nat
    var provider: Option<nat>
    var consumer: Option<nat>
    ghost var log: seq<seq<Byte>>
    ghost var held: nat

    constructor (length: nat, definition: Definition, conv: Conversion)
      requires Converts(conv)
      ensures Valid() && fresh(Repr())
      ensures this.length == length && this.definition == definition && this.conv == conv
      ensures log == [Zeros(length)] && held == 0 && cookie == 0 && provider == None && consumer == None
      ensures injections.entries == map[]
    {
      this.length, this.definition, this.conv := length, definition, conv;
      zero := new Byte[length](i => 0);
      one := new Byte[length](i => 0);
      two := new Byte[length](i => 0);
      injections := new Injections();
      indices, cookie, provider, consumer := START, 0, None, None;
      log, held := [Zeros(length)], 0;
      new;
      assert zero[..] == Zeros(length) && one[..] == Zeros(length) && two[..] == Zeros(length);
      StartSimulates(length);
    }

    ghost function Repr(): set<object> {
      {this, zero, one, two, injections}
    }

    ghost function Data(): Buffers
      reads zero, one, two
    {
      Buffers(zero[..], one[..], two[..])
    }

    ghost function Published(): Register
      reads this
    {
      Register(log, held)
    }

    /** Between calls the object is a state of the step system that simulates the register. */
    ghost predicate Valid()
      reads Repr()
    {
      && zero != one && one != two && zero != two
      && zero.Length == length && one.Length == length && two.Length == length
      && Converts(conv) && Sound(definition, conv, injections.entries)
      && Holding(State(indices, Data(), Idle, Resting), Published(), length)
    }

    /** The array with index i. */
    function Buffer(i: Indices): array<Byte>
      requires IsBuffer(i)
    {
      if i == 0 then zero else if i == 1 then one else two
    }

    /** Registers a provider unless there is another one. */
    method SetProvider(hash: nat) returns (ok: bool)
      requires Valid()
      modifies this`provider
      ensures Valid()
      ensures ok <==> old(provider) in {None, Some(hash)}
      ensures provider == if ok then Some(hash) else old(provider)
    {
      ok := provider == None || provider == Some(hash);
      if ok {
        provider := Some(hash);
      }
    }

    method SetConsumer(hash: nat) returns (ok: bool)
      requires Valid()
      modifies this`consumer
      ensures Valid()
      ensures ok <==> old(consumer) in {None, Some(hash)}
      ensures consumer == if ok then Some(hash) else old(consumer)
    {
      ok := consumer == None || consumer == Some(hash);
      if ok {
        consumer := Some(hash);
      }
    }

    /** compare_exchange_weak: fails on other indices, or spuriously. */
    method CompareExchangeWeak(seen: Indices, next: Indices, spurious: bool) returns (ok: bool, now: Indices)
      modifies this`indices
      ensures ok <==> old(indices) == seen && !spurious
      ensures indices == if ok then next else old(indices)
      ensures now == old(indices)
    {
      now := indices;
      ok := indices == seen && !spurious;
      if ok {
        indices := next;
      }
    }

    /** swap_front, with its compare-and-swap failing spuriously a number of times. The consumer now
        holds the newest version. */
    method SwapToFront(failures: nat)
      requires Valid()
      modifies this`indices, this`held
      ensures Valid()
      ensures held == |log| - 1 && !Written(indices)
      ensures Back(indices) == Back(old(indices))
    {
      SwapFrontExchanges(indices);
      ghost var was := indices;
      var seen, left := indices, failures;
      while true
        invariant seen == indices == was && held == old(held) && left <= failures
        decreases left
      {
        if !Written(seen) {
          break;
        }
        var ok, now := CompareExchangeWeak(seen, SwapFront(seen), left > 0);
        if ok {
          held := |log| - 1;
          break;
        }
        seen, left := now, left - 1;
      }
    }

    /** swap_back: what the back buffer holds is published as the newest version. */
    method SwapToBack(failures: nat)
      requires Valid()
      modifies this`indices, this`log
      ensures Valid()
      ensures log == old(log) + [old(Buffer(Back(indices))[..])]
      ensures Written(indices) && Front(indices) == Front(old(indices))
    {
      SwapBackExchanges(indices);
      ghost var was := indices;
      var seen, left := indices, failures;
      while true
        invariant seen == indices == was && log == old(log) && left <= failures
        decreases left
      {
        var ok, now := CompareExchangeWeak(seen, SwapBack(seen), left > 0);
        if ok {
          log := log + [Buffer(Back(was))[..]];
          break;
        }
        seen, left := now, left - 1;
      }
    }

    /** push: inject into the back buffer, then publish it. An injection that throws publishes nothing. */
    method Push(hash: nat, order: seq<string>, failures: nat) returns (failure: Option<Failure>)
      requires Valid() && FieldsFit(definition, conv, injections.entries, length)
      requires Distinct(order) && forall n :: n in order <==> n in injections.entries
      modifies Repr()
      ensures Valid() && FieldsFit(definition, conv, injections.entries, length)
      ensures provider == old(provider) && consumer == old(consumer) && held == old(held)
      ensures old(provider) != Some(hash) ==>
                failure == Some(Refused) && log == old(log) && Data() == old(Data())
                && injections.entries == old(injections.entries) && cookie == old(cookie)
      ensures old(provider) == Some(hash) ==>
                && PushEnds(definition, conv, old(injections.entries), order, old(Buffer(Back(indices))[..]),
                   old(log), log, failure)
                && injections.entries == InitialisedBy(definition, conv, old(injections.entries), order)
                && cookie == if failure.None? then (old(cookie) + 1) % COOKIES else old(cookie)
    {
      hide Pushed, Handled, Resolve, Initialised, Patches, Converts, Sound, Front, Back, Flip, Written;
      if provider != Some(hash) {
        return Some(Refused);
      }
      var buf := Buffer(Back(indices));
      var error := injections.InjectAll(definition, conv, order, buf);
      if error.Some? {
        return Some(NotInjected(error.value));
      }
      cookie := (cookie + 1) % COOKIES;
      SwapToBack(failures);
      failure := None;
    }

    /** write: store the bytes into the back buffer, and push if asked to. */
    method Write(hash: nat, offset: nat, bytes: seq<Byte>, doPush: bool, order: seq<string>, failures: nat)
      returns (failure: Option<Failure>)
      requires Valid() && (doPush ==> FieldsFit(definition, conv, injections.entries, length))
      requires Distinct(order) && forall n :: n in order <==> n in injections.entries
      modifies Repr()
      ensures Valid() && held == old(held) && provider == old(provider) && consumer == old(consumer)
      ensures doPush ==> FieldsFit(definition, conv, injections.entries, length)
      ensures injections.entries == if doPush && old(provider) == Some(hash) && offset + |bytes| <= length then
                                      InitialisedBy(definition, conv, old(injections.entries), order)
                                    else old(injections.entries)
      ensures cookie == if doPush && failure.None? then (old(cookie) + 1) % COOKIES else old(cookie)
      ensures old(provider) != Some(hash) ==> failure == Some(Refused)
      ensures old(provider) == Some(hash) && offset + |bytes| > length ==> failure == Some(OutOfRange)
      ensures old(provider) != Some(hash) || offset + |bytes| > length ==> log == old(log) && Data() == old(Data())
      ensures old(provider) == Some(hash) && offset + |bytes| <= length ==>
                && var base := Laid(old(Buffer(Back(indices))[..]), offset, bytes);
                if doPush then PushEnds(definition, conv, old(injections.entries), order, base, old(log), log, failure)
                else failure == None && log == old(log) && indices == old(indices) && Buffer(Back(indices))[..] == base
    {
      if provider != Some(hash) {
        return Some(Refused);
      }
      if offset + |bytes| > length {
        return Some(OutOfRange);
      }
      Copy(offset, bytes);
      failure := None;
      if doPush {
        failure := Push(hash, order, failures);
      }
    }

    /** memcpy into the back buffer. */
    method Copy(offset: nat, bytes: seq<Byte>)
      requires Valid() && offset + |bytes| <= length
      modifies zero, one, two
      ensures Valid()
      ensures Buffer(Back(indices))[..] == Laid(old(Buffer(Back(indices))[..]), offset, bytes)
    {
      hide Converts, Sound, Back, Front, Flip, Written;
      var buf := Buffer(Back(indices));
      forall i | 0 <= i < |bytes| {
        buf[offset + i] := bytes[i];
      }
      assert buf[..] == Laid(old(buf[..]), offset, bytes);
    }

    /** pop: the consumer's buffer now holds the newest version. */
    method Pop(hash: nat, failures: nat) returns (front: Answer<array<Byte>>)
      requires Valid()
      modifies this`indices, this`held
      ensures Valid() && Data() == old(Data())
      ensures consumer == None ==> front == NoConsumer
      ensures consumer.Some? && consumer != Some(hash) ==> front == NotYours
      ensures consumer != Some(hash) ==> indices == old(indices) && held == old(held)
      ensures consumer == Some(hash) ==> held == |log| - 1 && front.Got? && front.value[..] == log[|log| - 1]
    {
      if consumer == None {
        return NoConsumer;
      }
      if consumer != Some(hash) {
        return NotYours;
      }
      SwapToFront(failures);
      front := Got(Buffer(Front(indices)));
    }

    /** read: bytes of the newest version, if asked to pop, else of the version held. Only a read that
        pops asks who is reading. */
    method Read(hash: nat, offset: nat, len: nat, doPop: bool, failures: nat) returns (bytes: Answer<seq<Byte>>)
      requires Valid()
      modifies this`indices, this`held, this`cookie
      ensures Valid() && Data() == old(Data())
      ensures bytes.NoConsumer? <==> doPop && consumer == None
      ensures bytes.NotYours? <==> doPop && consumer.Some? && consumer != Some(hash)
      ensures bytes.TooFar? <==> (doPop ==> consumer == Some(hash)) && offset + len > length
      ensures !bytes.Got? ==> indices == old(indices)
      ensures held == if bytes.Got? && doPop then |log| - 1 else old(held)
      ensures bytes.Got? ==> |log[held]| == length && bytes.value == log[held][offset..offset + len]
      ensures cookie == if bytes.NoConsumer? || bytes.NotYours? then old(cookie) else (old(cookie) + 1) % COOKIES
    {
      if doPop && consumer == None {
        return NoConsumer;
      }
      if doPop && consumer != Some(hash) {
        return NotYours;
      }
      cookie := (cookie + 1) % COOKIES;
      if offset + len > length {
        return TooFar;
      }
      if doPop {
        SwapToFront(failures);
      }
      var front := Buffer(Front(indices));
      bytes := Got(front[offset..offset + len]);
    }

    /** new_data: something was published that the consumer has not taken. */
    method NewData() returns (isNew: bool)
      requires Valid()
      ensures isNew <==> held < |log| - 1
    {
      isNew := Written(indices);
    }
  }

  /** How a push by the provider ends: every injection resolves and base is published with all of them
      laid over it, or the first one that does not resolve throws and nothing is published. */
  ghost predicate PushEnds(d: Definition, conv: Conversion, entries: Entries, order: seq<string>, base: seq<Byte>,
                           log: seq<seq<Byte>>, log': seq<seq<Byte>>, failure: Option<Failure>)
    requires forall n :: n in order ==> n in entries
  {
    var k := Handled(d, conv, entries, order);
    if k < |order| then
      log' == log && failure.Some? && failure.value.NotInjected?
      && Resolve(d, conv, order[k], entries[order[k]].text) == Unresolved(failure.value.error)
    else
      failure == None && PublishesOne(base, Patches(d, conv, entries, order[..k]), log, log')
  }

  ghost predicate PublishesOne(base: seq<Byte>, ps: seq<Patch>, log: seq<seq<Byte>>, log': seq<seq<Byte>>) {
    |log'| == |log| + 1 && log <= log' && Pushed(base, ps, log'[|log|])
  }

  ghost function InitialisedBy(d: Definition, conv: Conversion, entries: Entries, order: seq<string>): Entries {
    Initialised(d, conv, entries, order[..Handled(d, conv, entries, order)])
  }

  /** The buffer with the bytes laid at the offset. */
  function Laid(buf: seq<Byte>, offset: nat, bytes: seq<Byte>): seq<Byte>
    requires offset + |bytes| <= |buf|
  {
    buf[..offset] + bytes + buf[offset + |bytes|..]
  }

  /** Laid bytes can be read back, and the rest of the buffer is as it was. */
  lemma LaidIs(buf: seq<Byte>, offset: nat, bytes: seq<Byte>)
    requires offset + |bytes| <= |buf|
    ensures var r := Laid(buf, offset, bytes);
            && |r| == |buf| && r[offset..offset + |bytes|] == bytes
            && forall i :: 0 <= i < |buf| && !(offset <= i < offset + |bytes|) ==> r[i] == buf[i]
  {
  }

  lemma NothingInjected(d: Definition, conv: Conversion, base: seq<Byte>, log: seq<seq<Byte>>, log': seq<seq<Byte>>,
          failure: Option<Failure>)
    requires PushEnds(d, conv, map[], [], base, log, log', failure)
    ensures failure == None && |log'| > 0 && log'[|log'| - 1] == base
  {
  }

  /** What the provider writes and pushes the consumer pops and reads, whatever was published before and
      however often the compare-and-swaps fail, if nothing is injected. */
  method WriteThenRead(p: TripleBufferData, provider: nat, consumer: nat, offset: nat, bytes: seq<Byte>,
          failures: nat) returns (failure: Option<Failure>, got: Answer<seq<Byte>>)
    requires p.Valid() && p.provider == Some(provider) && p.consumer == Some(consumer)
    requires offset + |bytes| <= p.length && p.injections.entries == map[]
    modifies p.Repr()
    ensures failure == None && got == Got(bytes)
  {
    hide PushEnds, Laid;
    ghost var was, log := p.Buffer(Back(p.indices))[..], p.log;
    failure := p.Write(provider, offset, bytes, true, [], failures);
    LaidIs(was, offset, bytes);
    NothingInjected(p.definition, p.conv, Laid(was, offset, bytes), log, p.log, failure);
    got := p.Read(consumer, offset, |bytes|, true, failures);
  }
}
