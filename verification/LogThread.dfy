/** The log thread as an object: its pools and flag, changed in place by its calls. Objects are known
    by their numbers and memory holds their buffers. */
module LogThread {
  import opened Wrappers
  import opened LogPool

  class LogThread {
    var emptyPool: seq<Obj>
    var fullPool: seq<Obj>
    var memory: map<Obj, string>
    var value: bool
    var syncLogging: bool
    var runFlag: bool
    var thread: Thread
    var output: seq<string>
    var syncOutput: seq<string>
    var held: set<Obj>
    ghost var logged: seq<string>

    /** The object as a state of the step system. */
    ghost function AsState(): State
      reads this
    {
      State(emptyPool, fullPool, held, memory, value, syncLogging, runFlag, thread, logged, output, syncOutput)
    }

    constructor (poolSize: nat)
      ensures AsState() == Begin(poolSize)
    {
      emptyPool, fullPool, memory := [], [], map[];
      value, syncLogging, runFlag, thread := false, false, false, NotStarted;
      output, syncOutput, held, logged := [], [], {}, [];
      new;
      var i := 0;
      while i < poolSize
        invariant i <= poolSize
        invariant AsState() == Begin(poolSize).(empty := Pool(i))
      {
        emptyPool := emptyPool + [i];
        i := i + 1;
        assert Pool(i) == Pool(i - 1) + [i - 1];
      }
    }

    /** An empty object, or none if there is no more. */
    method GetPoolObject() returns (obj: Option<Obj>)
      requires Enabled(AsState(), LogPool.GetPoolObject)
      modifies this
      ensures AsState() == Do(old(AsState()), LogPool.GetPoolObject)
      ensures obj.None? <==> old(emptyPool) == []
      ensures obj.Some? ==> obj.value in held
    {
      if emptyPool == [] {
        return None;
      }
      obj := Some(emptyPool[0]);
      held := held + {emptyPool[0]};
      emptyPool := emptyPool[1..];
    }

    method ReturnPoolObject(obj: Obj)
      requires Enabled(AsState(), LogPool.ReturnPoolObject(obj))
      modifies this
      ensures AsState() == Do(old(AsState()), LogPool.ReturnPoolObject(obj))
    {
      emptyPool := emptyPool + [obj];
      held := held - {obj};
    }

    method NotifyAll()
      modifies this`thread
      ensures thread == Notify(old(thread))
    {
      if thread.Waiting? {
        thread := Waiting(true);
      }
    }

    method Log(obj: Obj)
      requires Enabled(AsState(), LogPool.Log(obj))
      modifies this
      ensures AsState() == Do(old(AsState()), LogPool.Log(obj))
    {
      held := held - {obj};
      if syncLogging {
        syncOutput := syncOutput + [memory[obj]];
        emptyPool := emptyPool + [obj];
      } else {
        fullPool := fullPool + [obj];
        logged := logged + [memory[obj]];
        if !value {
          value := true;
          NotifyAll();
        }
      }
    }

    /** The steps of the thread between its lock and unlock operations. */
    method Check()
      requires Enabled(AsState(), LogPool.Check)
      modifies this`thread
      ensures AsState() == Do(old(AsState()), LogPool.Check)
    {
      thread := if runFlag then Testing else Finished;
    }

    method Test()
      requires Enabled(AsState(), LogPool.Test)
      modifies this`value, this`thread
      ensures AsState() == Do(old(AsState()), LogPool.Test)
    {
      if value {
        value, thread := false, Draining;
      } else {
        thread := Waiting(false);
      }
    }

    method Drain()
      requires Enabled(AsState(), LogPool.Drain)
      modifies this`fullPool, this`thread
      ensures AsState() == Do(old(AsState()), LogPool.Drain)
    {
      if fullPool == [] {
        thread := Checking;
      } else {
        thread := Printing(fullPool[0]);
        fullPool := fullPool[1..];
      }
    }

    method Print()
      requires Enabled(AsState(), LogPool.Print)
      modifies this`output, this`thread
      ensures AsState() == Do(old(AsState()), LogPool.Print)
    {
      output := output + [memory[thread.obj]];
      thread := Printed(thread.obj);
    }

    method PutBack()
      requires Enabled(AsState(), LogPool.PutBack)
      modifies this`emptyPool, this`thread
      ensures AsState() == Do(old(AsState()), LogPool.PutBack)
    {
      emptyPool := emptyPool + [thread.obj];
      thread := Draining;
    }

    /** What other threads do while the mutex is free; what is not possible at the moment is skipped. */
    method Others(actions: seq<Action>, ghost size: nat)
      requires Invariant(AsState(), size) && !Locked(thread) && !thread.Waiting?
      requires forall i :: 0 <= i < |actions| ==> ByOthers(actions[i])
      modifies this
      ensures Invariant(AsState(), size) && thread == old(thread)
      ensures old(logged) <= logged && output == old(output)
      ensures forall obj :: InHand(thread, obj) && obj in old(memory) ==>
                               obj in memory && memory[obj] == old(memory)[obj]
      ensures actions == [] ==> AsState() == old(AsState())
    {
      hide Invariant, Enabled;
      var i := 0;
      while i < |actions|
        invariant i == 0 ==> AsState() == old(AsState())
        invariant i <= |actions| && Invariant(AsState(), size) && thread == old(thread)
        invariant old(logged) <= logged && output == old(output)
        invariant forall obj :: InHand(thread, obj) && obj in old(memory) ==>
                                  obj in memory && memory[obj] == old(memory)[obj]
      {
        OtherAction(actions[i], size);
        i := i + 1;
      }
    }

    method OtherAction(a: Action, ghost size: nat)
      requires Invariant(AsState(), size) && ByOthers(a) && !Locked(thread) && !thread.Waiting?
      modifies this
      ensures AsState() == if CanAct(old(AsState()), a) then Do(old(AsState()), a) else old(AsState())
      ensures Invariant(AsState(), size) && thread == old(thread)
      ensures old(logged) <= logged && output == old(output)
      ensures forall obj :: InHand(thread, obj) && obj in old(memory) ==>
                               obj in memory && memory[obj] == old(memory)[obj]
    {
      hide Invariant;
      if CanAct(AsState(), a) {
        StepHolds(AsState(), a, size);
      }
      match a {
        case GetPoolObject => var _ := GetPoolObject();
        case Fill(obj, line) =>
          if obj in held {
            NotTheThreads(AsState(), obj, size);
            memory := memory[obj := line];
          }
        case Log(obj) => if obj in held && obj in memory { Log(obj); }
        case ReturnPoolObject(obj) => if obj in held { ReturnPoolObject(obj); }
        case SwitchSync(sync) => syncLogging := sync;
        case Stop => runFlag := false; NotifyAll();
        case _ =>
      }
    }

    /** One message: out of the queue, unlocked while it is printed, and back into the empty pool. */
    method PrintOne(before: seq<Action>, after: seq<Action>, ghost size: nat)
      requires Invariant(AsState(), size) && thread == Draining && fullPool != []
      requires forall i :: 0 <= i < |before| ==> ByOthers(before[i])
      requires forall i :: 0 <= i < |after| ==> ByOthers(after[i])
      modifies this
      ensures Invariant(AsState(), size) && thread == Draining
      ensures old(logged) <= logged
      ensures old(fullPool)[0] in old(memory) && output == old(output) + [old(memory)[old(fullPool)[0]]]
      ensures before == [] == after ==> |fullPool| == old(|fullPool|) - 1
    {
      hide Invariant, ByOthers, Do, Enabled;
      QueuedIsFilled(AsState(), size);
      DrainsHead(AsState());
      StepHolds(AsState(), LogPool.Drain, size);
      Drain();
      Others(before, size);
      CanPrint(AsState(), size);
      PrintsHead(AsState());
      StepHolds(AsState(), LogPool.Print, size);
      Print();
      Others(after, size);
      PutsBackHead(AsState());
      StepHolds(AsState(), LogPool.PutBack, size);
      PutBack();
    }

    /** One turn of the outer loop of run among loggers: at each unlock, before and after the print,
        others do what the schedule says. Whatever they do, a turn that found the flag set ends with the
        queue empty and everything printed that was logged until then. */
    method TurnAmongLoggers(schedule: seq<seq<Action>>, ghost size: nat)
      requires Invariant(AsState(), size) && thread == Checking && runFlag
      requires forall k, i :: 0 <= k < |schedule| && 0 <= i < |schedule[k]| ==> ByOthers(schedule[k][i])
      modifies this
      ensures Invariant(AsState(), size) && old(logged) <= logged
      ensures if old(value) then thread == Checking && fullPool == [] && output == logged
              else AsState() == old(AsState()).(thread := Waiting(false))
    {
      hide Invariant;
      StepHolds(AsState(), LogPool.Check, size);
      Check();
      StepHolds(AsState(), LogPool.Test, size);
      Test();
      if thread.Waiting? {
        return;
      }
      var k := 0;
      while fullPool != []
        invariant k <= |schedule| && thread == Draining && Invariant(AsState(), size)
        invariant old(logged) <= logged
        decreases |schedule| - k, |fullPool|
      {
        var before := if k < |schedule| then schedule[k] else [];
        var after := if k + 1 < |schedule| then schedule[k + 1] else [];
        PrintOne(before, after, size);
        k := if k + 2 <= |schedule| then k + 2 else |schedule|;
      }
      StepHolds(AsState(), LogPool.Drain, size);
      Drain();
      NothingPending(AsState(), size);
    }

    /** One turn of the outer loop of run, with nobody else at the pools: if the flag is set, all that
        is queued is printed in order and its objects are empty again; else the thread waits. */
    method Turn()
      requires Filled(AsState()) && thread == Checking && runFlag
      modifies this`value, this`thread, this`fullPool, this`emptyPool, this`output
      ensures value == false && memory == old(memory) && held == old(held) && logged == old(logged)
      ensures if old(value) then
                && thread == Checking && fullPool == []
                && output == old(output) + Texts(old(fullPool), old(memory))
                && emptyPool == old(emptyPool) + old(fullPool)
              else
                thread == Waiting(false) && fullPool == old(fullPool) && emptyPool == old(emptyPool)
                    && output == old(output)
    {
      hide Texts, HasPrinted, HasReturned;
      StartsDone(fullPool, memory, output, emptyPool);
      if !value {
        thread := Waiting(false);
        return;
      }
      value := false;
      thread := Draining;
      ghost var queue, done := fullPool, 0;
      while fullPool != []
        invariant done <= |queue| && thread == Draining && !value && fullPool == queue[done..]
        invariant forall i :: 0 <= i < |queue| ==> queue[i] in memory
        invariant HasPrinted(queue, memory, done, old(output), output)
        invariant HasReturned(queue, done, old(emptyPool), emptyPool)
        decreases |fullPool|
      {
        PrintedNext(queue, memory, done, old(output), output);
        ReturnedNext(queue, done, old(emptyPool), emptyPool);
        var obj := fullPool[0];
        fullPool := fullPool[1..];
        thread := Printing(obj);
        output := output + [memory[obj]];
        thread := Printed(obj);
        emptyPool := emptyPool + [obj];
        thread := Draining;
        done := done + 1;
      }
      thread := Checking;
      AllDone(queue, memory, done, old(output), output, old(emptyPool), emptyPool);
    }
  }

  predicate ByOthers(a: Action) {
    a.GetPoolObject? || a.Fill? || a.Log? || a.ReturnPoolObject? || a.SwitchSync? || a.Stop?
  }

  predicate CanAct(s: State, a: Action) {
    Enabled(s, a)
  }

  lemma NotTheThreads(s: State, obj: Obj, size: nat)
    requires Invariant(s, size) && obj in s.held
    ensures !InHand(s.thread, obj)
  {
    HeldIsApart(s, obj, size);
  }

  lemma QueuedIsFilled(s: State, size: nat)
    requires Invariant(s, size) && s.full != []
    ensures s.full[0] in s.text
  {
    hide Conserved;
  }

  lemma CanPrint(s: State, size: nat)
    requires Invariant(s, size) && s.thread.Printing?
    ensures Enabled(s, Print)
  {
    hide Conserved;
  }

  lemma DrainsHead(s: State)
    requires s.thread.Draining? && s.full != []
    ensures Enabled(s, Drain) && Do(s, Drain) == s.(full := s.full[1..], thread := Printing(s.full[0]))
  {
  }

  lemma PrintsHead(s: State)
    requires Enabled(s, Print)
    ensures s.thread.Printing? && s.thread.obj in s.text
    ensures Do(s, Print) == s.(printed := s.printed + [s.text[s.thread.obj]], thread := Printed(s.thread.obj))
  {
  }

  lemma PutsBackHead(s: State)
    requires s.thread.Printed?
    ensures Enabled(s, PutBack) && Do(s, PutBack) == s.(empty := s.empty + [s.thread.obj], thread := Draining)
  {
  }

  lemma NothingPending(s: State, size: nat)
    requires Invariant(s, size) && s.full == [] && s.thread == Checking
    ensures s.printed == s.logged
  {
    hide Conserved;
  }

  ghost predicate HasPrinted(queue: seq<Obj>, text: map<Obj, string>, done: nat, was: seq<string>, now: seq<string>)
    requires done <= |queue| && forall i :: 0 <= i < |queue| ==> queue[i] in text
  {
    now == was + Texts(queue, text)[..done]
  }

  ghost predicate HasReturned(queue: seq<Obj>, done: nat, was: seq<Obj>, now: seq<Obj>)
    requires done <= |queue|
  {
    now == was + queue[..done]
  }

  lemma StartsDone(queue: seq<Obj>, text: map<Obj, string>, output: seq<string>, empty: seq<Obj>)
    requires forall i :: 0 <= i < |queue| ==> queue[i] in text
    ensures HasPrinted(queue, text, 0, output, output) && HasReturned(queue, 0, empty, empty)
  {
  }

  lemma PrintedNext(queue: seq<Obj>, text: map<Obj, string>, done: nat, was: seq<string>, now: seq<string>)
    requires done < |queue| && forall i :: 0 <= i < |queue| ==> queue[i] in text
    requires HasPrinted(queue, text, done, was, now)
    ensures HasPrinted(queue, text, done + 1, was, now + [text[queue[done]]])
  {
    var lines := Texts(queue, text);
    assert lines[..done + 1] == lines[..done] + [lines[done]];
  }

  lemma ReturnedNext(queue: seq<Obj>, done: nat, was: seq<Obj>, now: seq<Obj>)
    requires done < |queue| && HasReturned(queue, done, was, now)
    ensures HasReturned(queue, done + 1, was, now + [queue[done]])
  {
  }

  lemma AllDone(queue: seq<Obj>, text: map<Obj, string>, done: nat, output: seq<string>, output': seq<string>,
          empty: seq<Obj>, empty': seq<Obj>)
    requires done == |queue| && forall i :: 0 <= i < |queue| ==> queue[i] in text
    requires HasPrinted(queue, text, done, output, output') && HasReturned(queue, done, empty, empty')
    ensures output' == output + Texts(queue, text) && empty' == empty + queue
  {
    assert queue[..done] == queue && Texts(queue, text)[..done] == Texts(queue, text);
  }
}
