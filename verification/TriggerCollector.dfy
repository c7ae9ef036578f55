/** The trigger collector: rounds of reports from slaves, and the callback that ends a round. */
module TriggerCollector {

  /** One call of trigger_collect: who reported, when, which slaves were active, and whether the
      callback fired. */
  datatype Call = Call(slave: nat, ts: real, active: seq<bool>, fired: bool)

  /** Where the round of call i starts: a call opens a round if it is the first one, if the call before
      it fired, or if it comes later than the timeout after the round's first report. */
  function RoundStart(h: seq<Call>, timeout: real, i: nat): (start: nat)
    requires i < |h|
    ensures start <= i
  {
    if i == 0 then 0
    else
      var start := RoundStart(h, timeout, i - 1);
      if h[i - 1].fired || h[start].ts + timeout < h[i].ts then i else start
  }

  /** The slave has reported in the round of call i, at i or before. */
  predicate Reported(h: seq<Call>, timeout: real, i: nat, slave: nat)
    requires i < |h|
  {
    exists j :: RoundStart(h, timeout, i) <= j <= i && h[j].slave == slave
  }

  /** Every slave active at call i has reported in its round. */
  predicate Complete(h: seq<Call>, timeout: real, i: nat)
    requires i < |h|
  {
    forall a :: 0 <= a < |h[i].active| && h[i].active[a] ==> Reported(h, timeout, i, a)
  }

  predicate Positive(h: seq<Call>) {
    forall i :: 0 <= i < |h| ==> h[i].ts > 0.0
  }

  /** The clock did not go back. */
  predicate Ticking(h: seq<Call>) {
    forall i, j :: 0 <= i < j < |h| ==> h[i].ts <= h[j].ts
  }

  /** The callback fired exactly at the calls that completed their round. */
  ghost predicate FiresWhenComplete(h: seq<Call>, timeout: real) {
    forall i :: 0 <= i < |h| ==> (h[i].fired <==> Complete(h, timeout, i))
  }

  lemma {:induction false} RoundIsOld(h: seq<Call>, c: Call, timeout: real, i: nat)
    requires i < |h|
    ensures RoundStart(h + [c], timeout, i) == RoundStart(h, timeout, i)
  {
    if i > 0 {
      RoundIsOld(h, c, timeout, i - 1);
    }
  }

  lemma ReportedIsOld(h: seq<Call>, c: Call, timeout: real, i: nat, slave: nat)
    requires i < |h|
    ensures Reported(h + [c], timeout, i, slave) == Reported(h, timeout, i, slave)
  {
    hide RoundStart;
    RoundIsOld(h, c, timeout, i);
    var h' := h + [c];
    if Reported(h', timeout, i, slave) {
      var j :| RoundStart(h', timeout, i) <= j <= i && h'[j].slave == slave;
      assert h[j].slave == slave;
    }
    if Reported(h, timeout, i, slave) {
      var j :| RoundStart(h, timeout, i) <= j <= i && h[j].slave == slave;
      assert h'[j].slave == slave;
    }
  }

  /** At most one callback in a round: no call of the round of call i fired before i. */
  lemma {:induction false} FiresOncePerRound(h: seq<Call>, timeout: real, i: nat, j: nat)
    requires i < |h| && RoundStart(h, timeout, i) <= j < i
    ensures !h[j].fired && RoundStart(h, timeout, j) == RoundStart(h, timeout, i)
    decreases i
  {
    if j < i - 1 {
      FiresOncePerRound(h, timeout, i - 1, j);
    }
  }

  /** What one callback has used, a later one does not use again: its round starts after it. */
  lemma {:induction false} RoundsAreDisjoint(h: seq<Call>, timeout: real, i: nat, k: nat)
    requires i < k < |h| && h[i].fired
    ensures i < RoundStart(h, timeout, k)
    decreases k
  {
    if i < k - 1 {
      RoundsAreDisjoint(h, timeout, i, k - 1);
    }
  }

  /** All reports of a round lie within the timeout of each other. */
  lemma ReportsAreClose(h: seq<Call>, timeout: real, i: nat, j: nat, k: nat)
    requires Ticking(h) && timeout >= 0.0
    requires i < |h| && RoundStart(h, timeout, i) <= j <= k <= i
    ensures 0.0 <= h[k].ts - h[j].ts <= timeout
  {
    hide RoundStart, Ticking;
    WithinTimeout(h, timeout, i, k);
    Later(h, RoundStart(h, timeout, i), j);
    Later(h, j, k);
  }

  lemma Later(h: seq<Call>, j: nat, k: nat)
    requires Ticking(h) && j <= k < |h|
    ensures h[j].ts <= h[k].ts
  {
  }

  lemma {:induction false} WithinTimeout(h: seq<Call>, timeout: real, i: nat, k: nat)
    requires timeout >= 0.0 && i < |h| && RoundStart(h, timeout, i) <= k <= i
    ensures h[k].ts <= h[RoundStart(h, timeout, i)].ts + timeout
    decreases i
  {
    if k < i {
      WithinTimeout(h, timeout, i - 1, k);
    }
  }

  class TriggerCollector {
    var count: nat
    var timeout: real
    var timestamps: array<real>
    var activeMask: array<bool>
    var receiveTimeout: real
    ghost var history: seq<Call>

    ghost predicate Sized()
      reads this
    {
      timestamps.Length == count && activeMask.Length == count
    }

    /** A slave has a time stamp exactly if it reported in the running round. Without slaves there are
        no reports, and nothing is known of the deadline. */
    ghost predicate Valid()
      reads this, timestamps, activeMask
    {
      && Sized() && Positive(history) && FiresWhenComplete(history, timeout)
      && if count == 0 then history == []
         else if history == [] || history[|history| - 1].fired then receiveTimeout == 0.0
         else
           && receiveTimeout == history[RoundStart(history, timeout, |history| - 1)].ts + timeout
           && Stamped(timestamps[..], history, timeout)
    }

    /** unset is what the deadline happens to hold before it is first assigned. */
    constructor (count: nat, timeout: real, unset: real)
      ensures Valid() && history == [] && this.count == count && this.timeout == timeout
      ensures fresh(timestamps) && fresh(activeMask)
      ensures forall i :: 0 <= i < count ==> activeMask[i]
      ensures receiveTimeout == if count == 0 then unset else 0.0
    {
      this.count, this.timeout := count, timeout;
      timestamps := new real[count](i => 0.0);
      activeMask := new bool[count](i => true);
      receiveTimeout := if count == 0 then unset else 0.0;
      history := [];
    }

    /** Starts over with another number of slaves. The deadline is reset in the loop over the slaves,
        so without slaves it stays. */
    method Reinit(count: nat, timeout: real)
      modifies this
      ensures Valid() && history == [] && this.count == count && this.timeout == timeout
      ensures fresh(timestamps) && fresh(activeMask)
      ensures forall i :: 0 <= i < count ==> activeMask[i]
      ensures receiveTimeout == if count == 0 then old(receiveTimeout) else 0.0
    {
      this.count, this.timeout := count, timeout;
      timestamps := new real[count](i => 1.0);
      activeMask := new bool[count](i => false);
      history := [];
      var i := 0;
      while i < count
        invariant i <= count == this.count == timestamps.Length == activeMask.Length && this.timeout == timeout
        invariant fresh(timestamps) && fresh(activeMask) && history == []
        invariant forall k :: 0 <= k < i ==> activeMask[k] && timestamps[k] == 0.0
        invariant receiveTimeout == if i == 0 then old(receiveTimeout) else 0.0
      {
        timestamps[i] := 0.0;
        activeMask[i] := true;
        receiveTimeout := 0.0;
        i := i + 1;
      }
    }

    /** Sets as many entries of the mask as are given and exist. */
    method SetActiveMask(mask: seq<bool>)
      requires Valid()
      modifies activeMask
      ensures Valid()
      ensures forall k :: 0 <= k < count ==> activeMask[k] == if k < |mask| then mask[k] else old(activeMask[k])
    {
      hide RoundStart, Positive, FiresWhenComplete, Stamped;
      var i := 0;
      while i < |mask| && i < activeMask.Length
        invariant 0 <= i <= |mask| && i <= activeMask.Length
        invariant forall k :: 0 <= k < count ==> activeMask[k] == if k < i then mask[k] else old(activeMask[k])
      {
        activeMask[i] := mask[i];
        i := i + 1;
      }
    }

    /** A report. The callback fires exactly if it completes the running round. */
    method TriggerCollect(slave: nat, ts: real) returns (fired: bool)
      requires Valid() && slave < count && ts > 0.0
      modifies timestamps, this`receiveTimeout, this`history
      ensures Valid()
      ensures history == old(history) + [Call(slave, ts, activeMask[..], fired)]
      ensures fired <==> Complete(history, timeout, |history| - 1)
    {
      hide RoundStart, Positive, FiresWhenComplete, Reported, Complete, Stamped;
      ghost var was, before := history, timestamps[..];
      if receiveTimeout < ts {
        var i := 0;
        while i < count
          invariant i <= count && forall k :: 0 <= k < i ==> timestamps[k] == 0.0
          invariant history == was
        {
          timestamps[i] := 0.0;
          i := i + 1;
        }
        receiveTimeout := ts + timeout;
      }
      ghost var cleared := timestamps[..];
      timestamps[slave] := ts;
      fired := CheckAll();
      ghost var c := Call(slave, ts, activeMask[..], fired);
      history := history + [c];
      if Opens(was, timeout, ts) {
        StampsOpen(was, c, timeout, cleared, timestamps[..]);
      } else {
        StampsGoOn(was, c, timeout, before, timestamps[..]);
      }
      StampsAreReports(history, timeout, timestamps[..], fired);
      HistoryGrows(was, c, timeout);
      if fired {
        receiveTimeout := 0.0;
      }
    }

    /** The loop over the slaves: is every active one stamped? */
    method CheckAll() returns (all: bool)
      requires Sized()
      ensures all <==> AllStamped(timestamps[..], activeMask[..])
    {
      var i := 0;
      while i < count
        invariant i <= count && forall k :: 0 <= k < i && activeMask[k] ==> timestamps[k] != 0.0
      {
        if activeMask[i] && timestamps[i] == 0.0 {
          assert !(activeMask[..][i] ==> timestamps[..][i] != 0.0);
          return false;
        }
        i := i + 1;
      }
      all := true;
    }
  }

  /** A slave has a time stamp exactly if it reported in the round of the last call. */
  ghost predicate Stamped(stamps: seq<real>, h: seq<Call>, timeout: real)
    requires h != []
  {
    forall a :: 0 <= a < |stamps| ==> (stamps[a] != 0.0 <==> Reported(h, timeout, |h| - 1, a))
  }

  predicate AllStamped(stamps: seq<real>, active: seq<bool>)
    requires |stamps| == |active|
  {
    forall a :: 0 <= a < |active| && active[a] ==> stamps[a] != 0.0
  }

  /** A call at ts opens a new round. */
  predicate Opens(h: seq<Call>, timeout: real, ts: real) {
    h == [] || h[|h| - 1].fired || h[RoundStart(h, timeout, |h| - 1)].ts + timeout < ts
  }

  lemma LastStart(h: seq<Call>, c: Call, timeout: real)
    ensures RoundStart(h + [c], timeout, |h|) == if Opens(h, timeout, c.ts) then |h|
            else RoundStart(h, timeout, |h| - 1)
  {
    if h != [] {
      RoundIsOld(h, c, timeout, |h| - 1);
    }
  }

  lemma StampsOpen(h: seq<Call>, c: Call, timeout: real, cleared: seq<real>, stamps: seq<real>)
    requires Opens(h, timeout, c.ts) && c.slave < |cleared| && c.ts > 0.0 && stamps == cleared[c.slave := c.ts]
    requires forall a :: 0 <= a < |cleared| ==> cleared[a] == 0.0
    ensures Stamped(stamps, h + [c], timeout)
    ensures RoundStart(h + [c], timeout, |h|) == |h|
  {
    hide RoundStart, Opens;
    LastStart(h, c, timeout);
    assert (h + [c])[|h|] == c;
  }

  lemma StampsGoOn(h: seq<Call>, c: Call, timeout: real, before: seq<real>, stamps: seq<real>)
    requires !Opens(h, timeout, c.ts) && c.slave < |before| && c.ts > 0.0 && stamps == before[c.slave := c.ts]
    requires h != [] && Stamped(before, h, timeout)
    ensures Stamped(stamps, h + [c], timeout)
    ensures RoundStart(h + [c], timeout, |h|) == RoundStart(h, timeout, |h| - 1)
  {
    hide RoundStart, Opens;
    LastStart(h, c, timeout);
    var h', start := h + [c], RoundStart(h, timeout, |h| - 1);
    forall a | 0 <= a < |stamps|
      ensures Reported(h', timeout, |h|, a) <==> Reported(h, timeout, |h| - 1, a) || a == c.slave
    {
      assert h'[|h|] == c;
      if Reported(h, timeout, |h| - 1, a) {
        var j :| start <= j <= |h| - 1 && h[j].slave == a;
        assert h'[j].slave == a;
      }
    }
  }

  lemma StampsAreReports(h: seq<Call>, timeout: real, stamps: seq<real>, fired: bool)
    requires h != [] && Stamped(stamps, h, timeout) && |stamps| == |h[|h| - 1].active|
    requires fired <==> AllStamped(stamps, h[|h| - 1].active)
    ensures fired <==> Complete(h, timeout, |h| - 1)
  {
    hide Reported;
  }

  lemma HistoryGrows(h: seq<Call>, c: Call, timeout: real)
    requires Positive(h) && FiresWhenComplete(h, timeout) && c.ts > 0.0
    requires c.fired <==> Complete(h + [c], timeout, |h|)
    ensures Positive(h + [c]) && FiresWhenComplete(h + [c], timeout)
  {
    hide Reported;
    var h' := h + [c];
    forall i | 0 <= i < |h| ensures Complete(h', timeout, i) == Complete(h, timeout, i) {
      forall a: nat ensures Reported(h', timeout, i, a) == Reported(h, timeout, i, a) {
        ReportedIsOld(h, c, timeout, i, a);
      }
    }
  }
}
