/** Whole runs of the triple buffer: what the consumer gets, in what order, and how often the
    producer can be made to retry. */
module TripleBufferRuns {
  import opened Lists
  import opened Injection
  import opened TripleBuffer

  /** The actions can be taken one after another from s, whichever thread makes each of them. */
  predicate Runs(s: State, actions: seq<Action>, length: nat)
    decreases |actions|
  {
    s.data.Sized(length)
    && (actions != [] ==> Enabled(s, actions[0], length) && Runs(Do(s, actions[0], length), actions[1..], length))
  }

  function End(s: State, actions: seq<Action>, length: nat): State
    requires Runs(s, actions, length)
    decreases |actions|
  {
    if actions == [] then s else End(Do(s, actions[0], length), actions[1..], length)
  }

  function Trace(s: State, actions: seq<Action>, length: nat): (events: seq<Event>)
    requires Runs(s, actions, length)
    ensures |events| == |actions|
    decreases |actions|
  {
    if actions == [] then []
    else [EventOf(s, actions[0], length)] + Trace(Do(s, actions[0], length), actions[1..], length)
  }

  /** The register can go through the events one after another. */
  ghost predicate Legal(r: Register, events: seq<Event>, length: nat)
    decreases |events|
  {
    r.log != []
    && (events != [] ==> Allowed(r, events[0], length) && Legal(After(r, events[0], length), events[1..], length))
  }

  ghost function Finally(r: Register, events: seq<Event>, length: nat): Register
    requires Legal(r, events, length)
    decreases |events|
  {
    if events == [] then r else Finally(After(r, events[0], length), events[1..], length)
  }

  /** Every run, with any interleaving, any spurious failures and any reuse of index values, is a
      run of the atomic register. */
  lemma {:induction false} RunRefinesRegister(s: State, r: Register, actions: seq<Action>, length: nat)
    requires Simulates(s, r, length) && Runs(s, actions, length)
    ensures Legal(r, Trace(s, actions, length), length)
    ensures Simulates(End(s, actions, length), Finally(r, Trace(s, actions, length), length), length)
    decreases |actions|
  {
    hide Allowed, After, Do, EventOf, Enabled, ProducerKnows, ConsumerKnows;
    if actions != [] {
      var a := actions[0];
      var s', e := Do(s, a, length), EventOf(s, a, length);
      StepSimulates(s, r, a, length);
      RunRefinesRegister(s', After(r, e, length), actions[1..], length);
      assert Trace(s, actions, length)[1..] == Trace(s', actions[1..], length);
    }
  }

  /** The register after the first i events. */
  ghost function Reached(r: Register, events: seq<Event>, i: nat, length: nat): (q: Register)
    requires Legal(r, events, length) && i <= |events|
    ensures q.log != []
    ensures i < |events| ==> Allowed(q, events[i], length)
    decreases i
  {
    if i == 0 then r else Reached(After(r, events[0], length), events[1..], i - 1, length)
  }

  lemma {:induction false} ReachedNext(r: Register, events: seq<Event>, i: nat, length: nat)
    requires Legal(r, events, length) && i < |events|
    ensures Reached(r, events, i + 1, length) == After(Reached(r, events, i, length), events[i], length)
    decreases i
  {
    hide Allowed, After;
    if i > 0 {
      ReachedNext(After(r, events[0], length), events[1..], i - 1, length);
    }
  }

  /** What is published stays published, and the version the consumer holds never goes back. */
  lemma {:induction false} VersionsNeverGoBack(r: Register, events: seq<Event>, i: nat, j: nat, length: nat)
    requires Legal(r, events, length) && r.held < |r.log| && i <= j <= |events|
    ensures var (a, b) := (Reached(r, events, i, length), Reached(r, events, j, length));
            a.log <= b.log && a.held <= b.held < |b.log|
    decreases j
  {
    hide Allowed;
    if i < j {
      VersionsNeverGoBack(r, events, i, j - 1, length);
      ReachedNext(r, events, j - 1, length);
    } else if i > 0 {
      VersionsNeverGoBack(r, events, i - 1, j - 1, length);
      ReachedNext(r, events, i - 1, length);
    }
  }

  /** Between two takes the version does not change: each delivery comes from the version that was
      the newest at the last take. */
  lemma {:induction false} HoldsWhatItTook(r: Register, events: seq<Event>, t: nat, i: nat, length: nat)
    requires Legal(r, events, length) && t < i <= |events|
    requires events[t].Takes? && forall k :: t < k < i ==> !events[k].Takes?
    ensures Reached(r, events, i, length).held == Newest(Reached(r, events, t, length))
    decreases i
  {
    hide Allowed;
    ReachedNext(r, events, i - 1, length);
    if t < i - 1 {
      HoldsWhatItTook(r, events, t, i - 1, length);
    }
  }

  /** From the initial state: whatever is copied out of the buffer equals, byte for byte, a slice of
      one single published content, or of the initial zeros, and it is the newest one there was when
      the consumer last took. */
  lemma ReadsAreNotTorn(actions: seq<Action>, t: nat, i: nat, length: nat)
    requires Runs(Start(length), actions, length) && t < i < |actions| && actions[i].EndRead?
    requires var events := Trace(Start(length), actions, length);
             events[t].Takes? && forall k :: t < k < i ==> !events[k].Takes?
    ensures var (r, events) := (Register([Zeros(length)], 0), Trace(Start(length), actions, length));
            && Legal(r, events, length)
            && events[i].Delivers?
            && var (q, log) := (Reached(r, events, t, length), Reached(r, events, i, length).log);
            && q.log <= log
            && events[i].offset + |events[i].bytes| <= length == |log[Newest(q)]|
            && events[i].bytes == log[Newest(q)][events[i].offset..events[i].offset + |events[i].bytes|]
  {
    hide Simulates;
    var r, events := Register([Zeros(length)], 0), Trace(Start(length), actions, length);
    StartSimulates(length);
    RunRefinesRegister(Start(length), r, actions, length);
    HoldsWhatItTook(r, events, t, i, length);
    VersionsNeverGoBack(r, events, t, i, length);
    EventIs(Start(length), actions, i, length);
    VersionsSized(r, events, i, Newest(Reached(r, events, t, length)), length);
  }

  lemma {:induction false} EventIs(s: State, actions: seq<Action>, i: nat, length: nat)
    requires Runs(s, actions, length) && i < |actions|
    ensures actions[i].EndRead? ==> Trace(s, actions, length)[i].Delivers?
    decreases |actions|
  {
    hide Enabled, Do;
    if i > 0 {
      EventIs(Do(s, actions[0], length), actions[1..], i - 1, length);
    }
  }

  lemma {:induction false} VersionsSized(r: Register, events: seq<Event>, i: nat, v: nat, length: nat)
    requires Legal(r, events, length) && i <= |events| && forall k :: 0 <= k < |r.log| ==> |r.log[k]| == length
    requires v < |Reached(r, events, i, length).log|
    ensures |Reached(r, events, i, length).log[v]| == length
    decreases i
  {
    if i > 0 {
      VersionsSized(After(r, events[0], length), events[1..], i - 1, v, length);
    }
  }

  /** The consumer is in a call that reads len bytes at offset. */
  predicate Reading(c: Consumer, offset: nat, len: nat) {
    match c
    case Resting => false
    case SwappingFront(_, o, l) => o == offset && l == len
    case Fetching(o, l) => o == offset && l == len
    case Copying(_, o, l, _) => o == offset && l == len
  }

  /** A call that asked for len bytes at offset delivers that many from there when it ends. */
  lemma {:induction false} ReadDelivers(s: State, actions: seq<Action>, n: nat, offset: nat, len: nat, length: nat)
    requires Runs(s, actions, length) && n < |actions| && Reading(s.consumer, offset, len)
    requires actions[n].EndRead? && forall k :: 0 <= k < n ==> !actions[k].EndRead?
    ensures var e := Trace(s, actions, length)[n]; e.Delivers? && e.offset == offset && |e.bytes| == len
    decreases n
  {
    if n > 0 {
      ReadDelivers(Do(s, actions[0], length), actions[1..], n - 1, offset, len, length);
    }
  }

  /** The loop of swap_front is left only by taking. */
  lemma {:induction false} SwapTakes(s: State, actions: seq<Action>, n: nat, length: nat)
    requires Runs(s, actions, length) && n < |actions| && s.consumer.SwappingFront? && actions[n].EndRead?
    ensures exists t :: 0 <= t < n && Trace(s, actions, length)[t].Takes?
    decreases n
  {
    var s', events := Do(s, actions[0], length), Trace(s, actions, length);
    if events[0].Takes? {
      assert 0 < n;
    } else {
      var rest := Trace(s', actions[1..], length);
      SwapTakes(s', actions[1..], n - 1, length);
      var t :| 0 <= t < n - 1 && rest[t].Takes?;
      assert events[t + 1] == rest[t];
    }
  }

  /** Without a pop nothing is taken until the next call begins. */
  lemma {:induction false} CopyTakesNothing(s: State, actions: seq<Action>, n: nat, length: nat)
    requires Runs(s, actions,
             length) && n <= |actions| && (s.consumer.Fetching? || s.consumer.Copying? || s.consumer.Resting?)
    requires forall k :: 0 <= k < n ==> !actions[k].BeginRead?
    ensures forall k :: 0 <= k < n ==> !Trace(s, actions, length)[k].Takes?
    decreases n
  {
    if n > 0 {
      CopyTakesNothing(Do(s, actions[0], length), actions[1..], n - 1, length);
      var events := Trace(s, actions, length);
      forall k | 0 <= k < n ensures !events[k].Takes? {
        if k > 0 {
          assert events[k] == Trace(Do(s, actions[0], length), actions[1..], length)[k - 1];
        }
      }
    }
  }

  /** The t-th event takes, and no later one before the n-th. */
  ghost predicate LastTake(events: seq<Event>, t: nat, n: nat) {
    t < n <= |events| && events[t].Takes? && forall k :: t < k < n ==> !events[k].Takes?
  }

  lemma {:induction false} LastTakeExists(events: seq<Event>, t: nat, n: nat)
    requires t < n <= |events| && events[t].Takes?
    ensures exists u: nat :: LastTake(events, u, n)
    decreases n - t
  {
    if exists u :: t < u < n && events[u].Takes? {
      var u :| t < u < n && events[u].Takes?;
      LastTakeExists(events, u, n);
    } else {
      assert LastTake(events, t, n);
    }
  }

  /** One call that reads, from its first step to its last, with any steps of the producer between. */
  ghost predicate OneRead(s: State, actions: seq<Action>, offset: nat, len: nat, doPop: bool, length: nat) {
    && Runs(s, actions, length) && |actions| > 1 && actions[0] == BeginRead(offset, len, doPop)
    && actions[|actions| - 1].EndRead?
    && forall k :: 0 < k < |actions| - 1 ==> !actions[k].EndRead? && !actions[k].BeginRead?
  }

  /** Within a read that pops there is a moment at which it takes, and what it delivers is, byte for
      byte, the version that is the newest at that moment: nothing published before the call is missed. */
  lemma PopYieldsNewest(s: State, r: Register, actions: seq<Action>, offset: nat, len: nat, length: nat)
    requires Simulates(s, r, length) && OneRead(s, actions, offset, len, true, length)
    ensures var (events, n) := (Trace(s, actions, length), |actions| - 1);
            && Legal(r, events, length)
            && exists t :: 0 <= t < n && events[t].Takes? && Yields(r, events, t, n, offset, len, length)
  {
    hide Simulates, OneRead, Runs, Trace, Legal, Yields, LastTake;
    OneReadRuns(s, actions, offset, len, true, length);
    var events, n := Trace(s, actions, length), |actions| - 1;
    RunRefinesRegister(s, r, actions, length);
    PopTakes(s, actions, offset, len, length);
    var t0 :| 0 <= t0 < n && events[t0].Takes?;
    LastTakeExists(events, t0, n);
    var t: nat :| LastTake(events, t, n);
    DeliversAtEnd(s, actions, offset, len, true, length);
    SimulatesBounds(s, r, length);
    TakenIsYielded(r, events, t, n, offset, len, length);
  }

  lemma OneReadRuns(s: State, actions: seq<Action>, offset: nat, len: nat, doPop: bool, length: nat)
    requires OneRead(s, actions, offset, len, doPop, length)
    ensures Runs(s, actions, length) && |actions| > 1
  {
  }

  lemma PopTakes(s: State, actions: seq<Action>, offset: nat, len: nat, length: nat)
    requires OneRead(s, actions, offset, len, true, length)
    ensures exists t :: 0 <= t < |actions| - 1 && Trace(s, actions, length)[t].Takes?
  {
    hide Enabled, EventOf;
    var events := Trace(s, actions, length);
    BeginsReading(s, actions, offset, len, true, length);
    if !events[0].Takes? {
      var s', rest := Do(s, actions[0], length), actions[1..];
      SwapTakes(s', rest, |rest| - 1, length);
      var t :| 0 <= t < |rest| - 1 && Trace(s', rest, length)[t].Takes?;
      assert events[t + 1] == Trace(s', rest, length)[t];
    }
  }

  lemma TakenIsYielded(r: Register, events: seq<Event>, t: nat, n: nat, offset: nat, len: nat, length: nat)
    requires Legal(r, events, length) && r.held < |r.log| && n < |events| && LastTake(events, t, n)
    requires events[n].Delivers? && events[n].offset == offset && |events[n].bytes| == len
    ensures t < n && events[t].Takes? && Yields(r, events, t, n, offset, len, length)
  {
    hide Legal;
    HoldsWhatItTook(r, events, t, n, length);
    VersionsNeverGoBack(r, events, 0, t, length);
    VersionsNeverGoBack(r, events, t, n, length);
  }

  /** The n-th event delivers len bytes at offset of the newest version at the t-th event, which is no
      older than the newest one at the start. */
  ghost predicate Yields(r: Register, events: seq<Event>, t: nat, n: nat, offset: nat, len: nat, length: nat)
    requires Legal(r, events, length) && t <= n < |events|
  {
    var (v, log) := (Newest(Reached(r, events, t, length)), Reached(r, events, n, length).log);
    && Newest(r) <= v < |log| && Reached(r, events, t, length).log <= log
    && events[n].Delivers? && events[n].offset == offset && |events[n].bytes| == len
    && offset + len <= |log[v]| && events[n].bytes == log[v][offset..offset + len]
  }

  lemma BeginsReading(s: State, actions: seq<Action>, offset: nat, len: nat, doPop: bool, length: nat)
    requires OneRead(s, actions, offset, len, doPop, length)
    ensures var (s', events) := (Do(s, actions[0], length), Trace(s, actions, length));
            && Runs(s', actions[1..], length)
            && (doPop && !events[0].Takes? ==> s'.consumer.SwappingFront?)
            && (!doPop ==> s'.consumer.Fetching? && !events[0].Takes?)
  {
  }

  lemma DeliversAtEnd(s: State, actions: seq<Action>, offset: nat, len: nat, doPop: bool, length: nat)
    requires OneRead(s, actions, offset, len, doPop, length)
    ensures var e := Trace(s, actions, length)[|actions| - 1]; e.Delivers? && e.offset == offset && |e.bytes| == len
  {
    var s', rest := Do(s, actions[0], length), actions[1..];
    ReadDelivers(s', rest, |rest| - 1, offset, len, length);
    assert Trace(s, actions, length)[|actions| - 1] == Trace(s', rest, length)[|rest| - 1];
  }

  lemma SimulatesBounds(s: State, r: Register, length: nat)
    requires Simulates(s, r, length)
    ensures r.held < |r.log|
  {
  }

  lemma {:induction false} HoldsWithoutTake(r: Register, events: seq<Event>, n: nat, length: nat)
    requires Legal(r, events, length) && n <= |events| && forall k :: 0 <= k < n ==> !events[k].Takes?
    ensures Reached(r, events, n, length).held == r.held
    decreases n
  {
    hide Allowed;
    if n > 0 {
      ReachedNext(r, events, n - 1, length);
      HoldsWithoutTake(r, events, n - 1, length);
    }
  }

  /** A read without a pop delivers the version the consumer held when it began, whatever is published
      meanwhile. */
  lemma PlainReadYieldsHeld(s: State, r: Register, actions: seq<Action>, offset: nat, len: nat, length: nat)
    requires Simulates(s, r, length) && OneRead(s, actions, offset, len, false, length)
    ensures var e := Trace(s, actions, length)[|actions| - 1];
            && r.held < |r.log| && offset + len <= |r.log[r.held]|
            && e == Delivers(offset, r.log[r.held][offset..offset + len])
  {
    hide Simulates, Enabled, EventOf, Legal;
    var events, n := Trace(s, actions, length), |actions| - 1;
    var s', rest := Do(s, actions[0], length), actions[1..];
    RunRefinesRegister(s, r, actions, length);
    BeginsReading(s, actions, offset, len, false, length);
    DeliversAtEnd(s, actions, offset, len, false, length);
    CopyTakesNothing(s', rest, n - 1, length);
    forall k | 0 <= k < n ensures !events[k].Takes? {
      if k > 0 {
        assert events[k] == Trace(s', rest, length)[k - 1];
      }
    }
    HoldsWithoutTake(r, events, n, length);
    SimulatesBounds(s, r, length);
    VersionsNeverGoBack(r, events, 0, n, length);
  }

  /** The producer is in the push that began with that content and those patches. */
  predicate Pushing(p: Producer, base: seq<Byte>, patches: seq<Patch>) {
    (p.Injecting? || p.SwappingBack?) && p.base == base && p.patches == patches
  }

  /** No call of the producer begins, and no push is given up. */
  predicate NoNewCall(actions: seq<Action>) {
    forall k :: 0 <= k < |actions| ==> !actions[k].BeginWrite? && !actions[k].BeginPush? && !actions[k].AbandonPush?
  }

  ghost predicate PublishesOnce(events: seq<Event>, e: Event) {
    exists k :: 0 <= k < |events| && events[k] == e && forall j :: 0 <= j < |events| && j != k ==> !events[j].Publishes?
  }

  lemma {:induction false} IdlePublishesNothing(s: State, actions: seq<Action>, length: nat)
    requires Runs(s, actions, length) && s.producer.Idle? && NoNewCall(actions)
    ensures forall k :: 0 <= k < |actions| ==> !Trace(s, actions, length)[k].Publishes?
    decreases |actions|
  {
    if actions != [] {
      var s', rest, events := Do(s, actions[0], length), actions[1..], Trace(s, actions, length);
      IdlePublishesNothing(s', rest, length);
      forall k | 0 <= k < |actions| ensures !events[k].Publishes? {
        if k > 0 {
          assert events[k] == Trace(s', rest, length)[k - 1];
        }
      }
    }
  }

  lemma {:induction false} PushingPublishesOnce(s: State, actions: seq<Action>, base: seq<Byte>,
          patches: seq<Patch>, length: nat)
    requires Runs(s, actions, length) && Pushing(s.producer, base, patches) && NoNewCall(actions)
    requires End(s, actions, length).producer.Idle?
    ensures PublishesOnce(Trace(s, actions, length), Publishes(base, patches))
    decreases |actions|
  {
    var s', rest, events := Do(s, actions[0], length), actions[1..], Trace(s, actions, length);
    PushStep(s, actions[0], base, patches, length);
    if events[0].Publishes? {
      IdlePublishesNothing(s', rest, length);
      forall j | 0 < j < |events| ensures !events[j].Publishes? {
        assert events[j] == Trace(s', rest, length)[j - 1];
      }
      assert events[0] == Publishes(base, patches);
    } else {
      PushingPublishesOnce(s', rest, base, patches, length);
      OnceLater(events[0], Trace(s', rest, length), Publishes(base, patches));
      assert events == [events[0]] + Trace(s', rest, length);
    }
  }

  lemma OnceLater(first: Event, events: seq<Event>, e: Event)
    requires PublishesOnce(events, e) && !first.Publishes?
    ensures PublishesOnce([first] + events, e)
  {
    var k :| 0 <= k < |events| && events[k] == e && forall j :: 0 <= j < |events| && j != k ==> !events[j].Publishes?;
    assert ([first] + events)[k + 1] == e;
  }

  lemma PushStep(s: State, a: Action, base: seq<Byte>, patches: seq<Patch>, length: nat)
    requires s.data.Sized(length) && Enabled(s, a, length) && Pushing(s.producer, base, patches)
    requires !a.BeginWrite? && !a.BeginPush? && !a.AbandonPush?
    ensures var (s', e) := (Do(s, a, length), EventOf(s, a, length));
            if e.Publishes? then e == Publishes(base, patches) && s'.producer.Idle?
            else Pushing(s'.producer, base, patches)
  {
  }

  /** A push that is not given up publishes exactly once before it ends: its patches over what the back
      buffer held when it began, however the consumer is scheduled. */
  lemma PushPublishesOnce(s: State, actions: seq<Action>, patches: seq<Patch>, length: nat)
    requires Runs(s, actions, length) && actions != [] && actions[0] == BeginPush(patches) && NoNewCall(actions[1..])
    requires End(s, actions, length).producer.Idle?
    ensures IsBuffer(Back(s.indices))
    ensures PublishesOnce(Trace(s, actions, length), Publishes(s.data.At(Back(s.indices)), patches))
  {
    hide Back, AllStores;
    var base, rest := s.data.At(Back(s.indices)), actions[1..];
    PushingPublishesOnce(Do(s, actions[0], length), rest, base, patches, length);
    OnceLater(Quiet, Trace(Do(s, actions[0], length), rest, length), Publishes(base, patches));
  }

  /** Everything published carries all its patches, if these do not overlap, and otherwise exactly
      the bytes the back buffer held when push was called. */
  lemma PublishedIsOverlay(r: Register, base: seq<Byte>, patches: seq<Patch>, length: nat)
    requires r.log != [] && |base| == length && Within(patches, length) && Disjoint(patches)
    ensures Allowed(r, Publishes(base, patches), length)
    ensures var r' := After(r, Publishes(base, patches), length);
            Newest(r') == Newest(r) + 1 && Overlaid(base, SetOf(patches), r'.log[Newest(r')])
  {
    hide Disjoint, Overlaid, Apply;
    StoresOverlay(base, patches);
  }

  /** A push whose injections all resolve publishes every registered value at its field's place, and
      the back buffer's bytes everywhere else. */
  lemma InjectionsArePublished(d: Definition, conv: Conversion, entries: Entries, order: seq<string>, r: Register,
          base: seq<Byte>)
    requires r.log != [] && Converts(conv) && FieldsFit(d, conv, entries, |base|)
    requires Distinct(order) && (forall n :: n in order <==> n in entries) && AllResolve(d, conv, entries, order)
    ensures var e := Publishes(base, Patches(d, conv, entries, order));
            && Allowed(r, e, |base|)
            && var c := After(r, e, |base|).log[|r.log|];
            && |c| == |base|
            && (forall n :: n in entries ==> Carries(c, d, conv, entries, n))
            && Overlaid(base, SetOf(Patches(d, conv, entries, order)), c)
  {
    hide LookUp, Disjoint, Within, Overlaid, Apply, AllStores;
    var ps, length := Patches(d, conv, entries, order), |base|;
    PatchesApart(d, conv, entries, order, length);
    PublishedIsOverlay(r, base, ps, length);
    var c := After(r, Publishes(base, ps), length).log[|r.log|];
    forall n | n in entries ensures Carries(c, d, conv, entries, n) {
      var i :| 0 <= i < |order| && order[i] == n;
      assert ps[i] in SetOf(ps);
      WithinAt(ps, length, i);
      OverlayCarries(base, SetOf(ps), c, ps[i]);
    }
  }

  /** The bytes of the text injected as n can be read back where the definition has that field. */
  ghost predicate Carries(c: seq<Byte>, d: Definition, conv: Conversion, entries: Entries, n: string) {
    && n in entries
    && var field := LookUp(d, n);
    && field.Found?
    && var value := conv(field.typ, entries[n].text);
    && value.Some? && field.offset + |value.value| <= |c|
    && c[field.offset..field.offset + |value.value|] == value.value
  }

  lemma WithinAt(ps: seq<Patch>, length: nat, i: nat)
    requires Within(ps, length) && i < |ps|
    ensures ps[i].offset + |ps[i].bytes| <= length
  {
  }

  lemma OverlayCarries(buf: seq<Byte>, ps: set<Patch>, r: seq<Byte>, p: Patch)
    requires Overlaid(buf, ps, r) && p in ps && p.offset + |p.bytes| <= |r|
    ensures r[p.offset..p.offset + |p.bytes|] == p.bytes
  {
  }

  /** The producer never turns the front index or touches the front buffer, the consumer never turns
      the back index or touches any buffer, and the two are never at work on the same buffer. */
  lemma EachToItsOwn(s: State, r: Register, a: Action, length: nat)
    requires Simulates(s, r, length) && Enabled(s, a, length)
    ensures var s' := Do(s, a, length);
            if ByProducer(a) then
              && Front(s'.indices) == Front(s.indices) && s'.consumer == s.consumer
              && s'.data.At(Front(s.indices)) == s.data.At(Front(s.indices))
            else
              Back(s'.indices) == Back(s.indices) && s'.producer == s.producer && s'.data == s.data
    ensures s.consumer.Copying? && (s.producer.Writing? || s.producer.Injecting?) ==> s.consumer.f != s.producer.b
  {
    hide Front, Back, Flip, SwapFront, SwapBack, AllStores, Apply, Written, HasStored;
    SwapFrontExchanges(s.indices);
    SwapBackExchanges(s.indices);
  }

  /** The loop of swap_back has failed for a reason once: the flag it saw is down. */
  predicate Cornered(s: State) {
    s.producer.SwappingBack? && !Written(s.producer.seen)
  }

  /** A compare-and-swap in swap_back fails only spuriously or because the consumer has swapped since
      the load; then the flag is down, so the consumer cannot swap again. */
  lemma FailureCorners(s: State, r: Register, length: nat)
    requires Simulates(s, r, length) && s.producer.SwappingBack? && s.indices != s.producer.seen
    ensures Cornered(Do(s, CasBack(false), length))
  {
    hide Front, Back, Flip, SwapBack, AllStores, Apply, HasStored, ConsumerKnows;
    SwapFrontExchanges(s.producer.seen);
  }

  lemma CorneredStays(s: State, r: Register, a: Action, length: nat)
    requires Simulates(s, r, length) && Enabled(s, a, length) && Cornered(s)
    ensures if a == CasBack(false) then Do(s, a, length).producer == Idle else Cornered(Do(s, a, length))
  {
    hide Front, Back, Flip, SwapFront, SwapBack, AllStores, Apply, HasStored, ConsumerKnows;
  }

  /** So swap_back retries at most once for cause: after its first such failure, however many steps
      the consumer makes and however many compare-and-swaps fail spuriously, the next one that does
      not fail spuriously publishes. */
  lemma {:induction false} SwapBackRetriesOnce(s: State, r: Register, actions: seq<Action>, length: nat)
    requires Simulates(s, r, length) && s.producer.SwappingBack? && s.indices != s.producer.seen
    requires actions != [] && actions[0] == CasBack(false) && Runs(s, actions, length)
    requires forall k :: 0 < k < |actions| - 1 ==> actions[k] != CasBack(false)
    ensures Cornered(Do(s, CasBack(false), length))
    ensures |actions| > 1 && actions[|actions| - 1] == CasBack(false) ==> End(s, actions, length).producer == Idle
  {
    hide Simulates, Cornered, Enabled;
    SimulatesSized(s, r, length);
    FailureCorners(s, r, length);
    StepSimulates(s, r, actions[0], length);
    var e := EventOf(s, actions[0], length);
    StepKept(s, r, actions[0], length);
    var s', rest := Do(s, actions[0], length), actions[1..];
    if |actions| > 1 && actions[|actions| - 1] == CasBack(false) {
      assert forall k :: 0 <= k < |rest| - 1 ==> rest[k] == actions[k + 1];
      CorneredUntilSwap(s', After(r, e, length), rest, length);
    }
  }

  lemma StepKept(s: State, r: Register, a: Action, length: nat)
    requires s.data.Sized(length) && Enabled(s, a, length) && r.log != [] && StepKeeps(s, r, a, length)
    ensures var e := EventOf(s, a, length);
            Allowed(r, e, length) && Simulates(Do(s, a, length), After(r, e, length), length)
  {
  }

  lemma {:induction false} CorneredUntilSwap(s: State, r: Register, actions: seq<Action>, length: nat)
    requires Simulates(s, r, length) && Cornered(s) && Runs(s, actions, length)
    requires actions != [] && actions[|actions| - 1] == CasBack(false)
    requires forall k :: 0 <= k < |actions| - 1 ==> actions[k] != CasBack(false)
    ensures End(s, actions, length).producer == Idle
    decreases |actions|
  {
    hide Simulates, Cornered, Enabled, Do, EventOf, StepKeeps;
    var a := actions[0];
    SimulatesSized(s, r, length);
    CorneredStays(s, r, a, length);
    if |actions| > 1 {
      StepSimulates(s, r, a, length);
      StepKept(s, r, a, length);
      CorneredUntilSwap(Do(s, a, length), After(r, EventOf(s, a, length), length), actions[1..], length);
    } else {
      EndOne(s, a, length);
      assert actions == [a];
    }
  }

  lemma SimulatesSized(s: State, r: Register, length: nat)
    requires Simulates(s, r, length)
    ensures s.data.Sized(length) && r.log != []
  {
  }

  lemma EndOne(s: State, a: Action, length: nat)
    requires Runs(s, [a], length)
    ensures End(s, [a], length) == Do(s, a, length)
  {
    hide Do, Enabled;
    assert [a][1..] == [];
  }

  /** A write of every byte, then a push with any steps of the consumer in between: the content pushed
      is exactly what was written. */
  lemma FullWriteIsPushed(s: State, r: Register, bytes: seq<Byte>, actions: seq<Action>, patches: seq<Patch>)
    requires var length := |bytes|;
             && Simulates(s, r, length) && s.producer.Writing?
             && s.producer.stores == Patch(0, bytes).Stores() && s.producer.done == length
             && Runs(Do(s, EndWrite, length), actions + [BeginPush(patches)], length)
    requires forall k :: 0 <= k < |actions| ==> !ByProducer(actions[k])
    ensures End(Do(s, EndWrite, |bytes|), actions + [BeginPush(patches)], |bytes|).producer
            == Injecting(Back(s.indices), bytes, patches, 0)
  {
    var length := |bytes|;
    AllWritten(s, r, bytes);
    hide Simulates, StepKeeps, Enabled, Front, Back, Flip, SwapFront, SwapBack, AllStores;
    StepSimulates(s, r, EndWrite, length);
    SimulatesSized(s, r, length);
    StepKept(s, r, EndWrite, length);
    PushedAfterReads(Do(s, EndWrite, length), r, actions, patches, length);
  }

  lemma AllWritten(s: State, r: Register, bytes: seq<Byte>)
    requires Simulates(s, r, |bytes|) && s.producer.Writing?
    requires s.producer.stores == Patch(0, bytes).Stores() && s.producer.done == |bytes|
    ensures IsBuffer(Back(s.indices)) && s.data.At(Back(s.indices)) == bytes
  {
    hide Front, Back, Flip, SwapFront, SwapBack, AllStores, ConsumerKnows, Apply, InBounds;
    var was := s.producer.was;
    PatchApplied(was, Patch(0, bytes));
    TakeAll(Patch(0, bytes).Stores());
    assert was[..0] + bytes + was[0 + |bytes|..] == bytes;
  }

  lemma {:induction false} PushedAfterReads(s: State, r: Register, actions: seq<Action>, patches: seq<Patch>,
          length: nat)
    requires Simulates(s, r, length) && s.producer.Idle?
    requires Runs(s, actions + [BeginPush(patches)], length)
    requires forall k :: 0 <= k < |actions| ==> !ByProducer(actions[k])
    ensures IsBuffer(Back(s.indices))
    ensures End(s, actions + [BeginPush(patches)], length).producer
            == Injecting(Back(s.indices), s.data.At(Back(s.indices)), patches, 0)
    decreases |actions|
  {
    hide Simulates, StepKeeps, Enabled, Do, EventOf, Front, Back, Flip, SwapFront, SwapBack, AllStores;
    var all := actions + [BeginPush(patches)];
    SimulatesSized(s, r, length);
    BackIsBuffer(s, r, length);
    if actions == [] {
      assert all == [BeginPush(patches)];
      EndOne(s, BeginPush(patches), length);
      PushBegins(s, patches, length);
    } else {
      var a := actions[0];
      assert all[0] == a && all[1..] == actions[1..] + [BeginPush(patches)];
      StepSimulates(s, r, a, length);
      EachToItsOwn(s, r, a, length);
      StepKept(s, r, a, length);
      PushedAfterReads(Do(s, a, length), After(r, EventOf(s, a, length), length), actions[1..], patches, length);
    }
  }

  lemma BackIsBuffer(s: State, r: Register, length: nat)
    requires Simulates(s, r, length)
    ensures IsBuffer(Back(s.indices))
  {
  }

  lemma PushBegins(s: State, patches: seq<Patch>, length: nat)
    requires s.data.Sized(length) && Enabled(s, BeginPush(patches), length) && IsBuffer(Back(s.indices))
    ensures Do(s, BeginPush(patches), length).producer == Injecting(Back(s.indices), s.data.At(Back(s.indices)),
            patches, 0)
  {
  }
}
