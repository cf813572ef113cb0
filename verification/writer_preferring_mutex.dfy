/**
 The writer-preferring shared mutex as a state machine. Each critical section under the inner
 mutex is one step; a notification happens in a separate step after its critical section, and a
 sleeper may also wake for no reason.
 */
module WriterPreferringMutex {

  type Thread = nat

  /** Where a thread stands. An awake waiter has left the condition variable and will test its
      predicate again; `Notifying` has left a critical section that owes a notification. */
  datatype Phase = Idle | WriterAsleep | WriterAwake | Writing | ReaderAsleep | ReaderAwake | Reading | Notifying

  datatype Mutex = Mutex(readers: nat, writersWaiting: nat, writerActive: bool, phase: map<Thread, Phase>)

  // ---------- the steps ----------

  /** What a queued writer waits for. */
  predicate WriterMayEnter(m: Mutex)
  {
    !m.writerActive && m.readers == 0
  }

  /** What a reader waits for: a writer that is active or merely queued keeps it out. */
  predicate ReaderMayEnter(m: Mutex)
  {
    !m.writerActive && m.writersWaiting == 0
  }

  function Move(m: Mutex, t: Thread, p: Phase): Mutex
  {
    m.(phase := m.phase[t := p])
  }

  /** The test of lock()'s predicate, with the inner mutex held. */
  function TestWriter(m: Mutex, t: Thread): Mutex
  {
    if WriterMayEnter(m) then
      Move(m.(writersWaiting := if m.writersWaiting > 0 then m.writersWaiting - 1 else 0, writerActive := true), t, Writing)
    else Move(m, t, WriterAsleep)
  }

  function TestReader(m: Mutex, t: Thread): Mutex
  {
    if ReaderMayEnter(m) then Move(m.(readers := m.readers + 1), t, Reading) else Move(m, t, ReaderAsleep)
  }

  function WakeAll(phase: map<Thread, Phase>): map<Thread, Phase>
  {
    map t | t in phase ::
      if phase[t].WriterAsleep? then WriterAwake else if phase[t].ReaderAsleep? then ReaderAwake else phase[t]
  }

  datatype Action = Lock | LockShared | Unlock | UnlockShared | Retest | Notify | WakeSpuriously

  predicate Enabled(m: Mutex, t: Thread, a: Action)
  {
    && t in m.phase
    && match a
       case Lock => m.phase[t].Idle?
       case LockShared => m.phase[t].Idle?
       case Unlock => m.phase[t].Writing?
       case UnlockShared => m.phase[t].Reading?
       case Retest => m.phase[t].WriterAwake? || m.phase[t].ReaderAwake?
       case Notify => m.phase[t].Notifying?
       case WakeSpuriously => m.phase[t].WriterAsleep? || m.phase[t].ReaderAsleep?
  }

  function Do(m: Mutex, t: Thread, a: Action): Mutex
    requires Enabled(m, t, a)
  {
    match a
    case Lock => TestWriter(m.(writersWaiting := m.writersWaiting + 1), t)
    case LockShared => TestReader(m, t)
    case Unlock => Move(m.(writerActive := false), t, Notifying)
    case UnlockShared =>
      var left := if m.readers > 0 then m.readers - 1 else 0;
      Move(m.(readers := left), t, if left == 0 then Notifying else Idle)
    case Retest => if m.phase[t].WriterAwake? then TestWriter(m, t) else TestReader(m, t)
    case Notify => Move(m.(phase := WakeAll(m.phase)), t, Idle)
    case WakeSpuriously => Move(m, t, if m.phase[t].WriterAsleep? then WriterAwake else ReaderAwake)
  }

  predicate Initial(m: Mutex)
  {
    m.readers == 0 && m.writersWaiting == 0 && !m.writerActive && forall t :: t in m.phase ==> m.phase[t].Idle?
  }

  // ---------- the invariant ----------

  function ReadingThreads(m: Mutex): set<Thread>
  {
    set t | t in m.phase && m.phase[t].Reading?
  }

  function QueuedWriters(m: Mutex): set<Thread>
  {
    set t | t in m.phase && (m.phase[t].WriterAsleep? || m.phase[t].WriterAwake?)
  }

  /** The counters count, and a writer is alone. */
  ghost predicate Exclusive(m: Mutex)
  {
    && m.readers == |ReadingThreads(m)| && m.writersWaiting == |QueuedWriters(m)|
    && (m.writerActive <==> exists t :: t in m.phase && m.phase[t].Writing?)
    && (forall s, t :: s in m.phase && t in m.phase && m.phase[s].Writing? && m.phase[t].Writing? ==> s == t)
    && (m.writerActive ==> m.readers == 0)
  }

  /** A thread asleep although it could enter has a notification coming. */
  ghost predicate NoLostWakeup(m: Mutex)
  {
    (exists t :: Overlooked(m, t)) ==> WakeupComing(m)
  }

  ghost predicate WakeupComing(m: Mutex)
  {
    exists t :: t in m.phase && m.phase[t].Notifying?
  }

  /** Asleep although its predicate holds. */
  predicate Overlooked(m: Mutex, t: Thread)
  {
    t in m.phase && ((m.phase[t].WriterAsleep? && WriterMayEnter(m)) || (m.phase[t].ReaderAsleep? && ReaderMayEnter(m)))
  }

  lemma {:induction false} SetSize(r: set<Thread>, t: Thread)
    ensures |r + {t}| == |r| + if t in r then 0 else 1
    ensures |r - {t}| == |r| - if t in r then 1 else 0
  {
    if t in r {
      assert r + {t} == r;
    } else {
      assert r - {t} == r;
    }
  }

  lemma {:induction false} ReadersAfter(m: Mutex, m2: Mutex, t: Thread, p: Phase)
    requires t in m.phase && m2.phase == m.phase[t := p]
    ensures |ReadingThreads(m2)| ==
            |ReadingThreads(m)| + (if p.Reading? then 1 else 0) - (if m.phase[t].Reading? then 1 else 0)
  {
    var r, r2 := ReadingThreads(m), ReadingThreads(m2);
    assert r2 == if p.Reading? then r + {t} else r - {t};
    SetSize(r, t);
  }

  lemma {:induction false} QueueAfter(m: Mutex, m2: Mutex, t: Thread, p: Phase)
    requires t in m.phase && m2.phase == m.phase[t := p]
    ensures |QueuedWriters(m2)| ==
            |QueuedWriters(m)| + (if p.WriterAsleep? || p.WriterAwake? then 1 else 0)
            - (if m.phase[t].WriterAsleep? || m.phase[t].WriterAwake? then 1 else 0)
  {
    var r, r2 := QueuedWriters(m), QueuedWriters(m2);
    assert r2 == if p.WriterAsleep? || p.WriterAwake? then r + {t} else r - {t};
    SetSize(r, t);
  }

  lemma {:induction false} CountersPositive(m: Mutex, t: Thread)
    requires Exclusive(m) && t in m.phase
    ensures m.phase[t].Reading? ==> m.readers > 0
    ensures m.phase[t].WriterAsleep? || m.phase[t].WriterAwake? ==> m.writersWaiting > 0
  {
    if m.phase[t].Reading? {
      assert t in ReadingThreads(m);
    }
    if m.phase[t].WriterAsleep? || m.phase[t].WriterAwake? {
      assert t in QueuedWriters(m);
    }
  }

  lemma {:induction false} WakeAllCounts(m: Mutex)
    ensures ReadingThreads(m.(phase := WakeAll(m.phase))) == ReadingThreads(m)
    ensures QueuedWriters(m.(phase := WakeAll(m.phase))) == QueuedWriters(m)
  {
  }

  lemma {:induction false} CountsKept(m: Mutex, t: Thread, a: Action)
    requires Exclusive(m) && Enabled(m, t, a)
    ensures var m2 := Do(m, t, a); m2.readers == |ReadingThreads(m2)| && m2.writersWaiting == |QueuedWriters(m2)|
  {
    var m2 := Do(m, t, a);
    CountersPositive(m, t);
    if a.Notify? {
      var woken := m.(phase := WakeAll(m.phase));
      WakeAllCounts(m);
      assert woken.phase[t].Notifying?;
      ReadersAfter(woken, m2, t, Idle);
      QueueAfter(woken, m2, t, Idle);
    } else {
      ReadersAfter(m, m2, t, m2.phase[t]);
      QueueAfter(m, m2, t, m2.phase[t]);
    }
  }

  lemma {:induction false} ExclusiveKept(m: Mutex, t: Thread, a: Action)
    requires Exclusive(m) && Enabled(m, t, a)
    ensures Exclusive(Do(m, t, a))
  {
    var m2 := Do(m, t, a);
    CountsKept(m, t, a);
    CountersPositive(m, t);
    assert forall s :: s in m.phase && s != t ==> (m2.phase[s].Writing? <==> m.phase[s].Writing?);
    assert m2.phase[t].Writing? || m2.writerActive == (m.writerActive && !m.phase[t].Writing?);
  }

  lemma {:induction false} WakeupKept(m: Mutex, t: Thread, a: Action)
    requires Exclusive(m) && NoLostWakeup(m) && Enabled(m, t, a)
    ensures NoLostWakeup(Do(m, t, a))
  {
    var m2 := Do(m, t, a);
    CountersPositive(m, t);
    forall s | Overlooked(m2, s)
      ensures WakeupComing(m2)
    {
      if s != t && !a.Notify? && !m2.phase[t].Notifying? {
        assert m2.phase[s] == m.phase[s];
        CountersPositive(m, s);
        assert Overlooked(m, s);
        var n :| n in m.phase && m.phase[n].Notifying?;
        assert n != t && m2.phase[n].Notifying?;
      }
    }
  }

  // ---------- every run ----------

  datatype Event = Event(thread: Thread, action: Action)

  /** The states of a run, one more than its events. */
  ghost predicate Run(states: seq<Mutex>, events: seq<Event>)
  {
    && |states| == |events| + 1 && Initial(states[0])
    && forall i :: 0 <= i < |events| ==>
         Enabled(states[i], events[i].thread, events[i].action)
         && states[i + 1] == Do(states[i], events[i].thread, events[i].action)
  }

  lemma {:induction false} InitialInvariant(m: Mutex)
    requires Initial(m)
    ensures Exclusive(m) && NoLostWakeup(m)
  {
    assert ReadingThreads(m) == {} && QueuedWriters(m) == {};
  }

  /** In every state of every run, by any number of threads: the counters are right, a writer is never
      together with a reader or another writer, and nobody sleeps through a chance to enter. */
  lemma {:induction false} RunsAreSafe(states: seq<Mutex>, events: seq<Event>, i: nat)
    requires Run(states, events) && i < |states|
    ensures Exclusive(states[i]) && NoLostWakeup(states[i])
  {
    if i == 0 {
      InitialInvariant(states[0]);
    } else {
      RunsAreSafe(states, events, i - 1);
      var e := events[i - 1];
      assert states[i - 1 + 1] == Do(states[i - 1], e.thread, e.action);
      ExclusiveKept(states[i - 1], e.thread, e.action);
      WakeupKept(states[i - 1], e.thread, e.action);
    }
  }

  lemma {:induction false} NeverTogether(states: seq<Mutex>, events: seq<Event>, i: nat, w: Thread, t: Thread)
    requires Run(states, events) && i < |states|
    requires w in states[i].phase && t in states[i].phase && w != t && states[i].phase[w].Writing?
    ensures !states[i].phase[t].Writing? && !states[i].phase[t].Reading?
  {
    RunsAreSafe(states, events, i);
    CountersPositive(states[i], t);
  }

  /** How many readers have left in the first n events after position i. */
  ghost function Departures(events: seq<Event>, i: nat, n: nat): nat
    requires i + n <= |events|
  {
    if n == 0 then 0 else Departures(events, i, n - 1) + if events[i + n - 1].action.UnlockShared? then 1 else 0
  }

  /** While a writer waits and none is active, no reader is admitted: the readers only drain. */
  lemma {:induction false} ReadersDrain(states: seq<Mutex>, events: seq<Event>, i: nat, n: nat)
    requires Run(states, events) && i + n <= |events|
    requires forall k :: i <= k < i + n ==> states[k].writersWaiting > 0
    ensures states[i + n].readers + Departures(events, i, n) == states[i].readers
    decreases n
  {
    if n > 0 {
      ReadersDrain(states, events, i, n - 1);
      var k := i + n - 1;
      var m, e := states[k], events[k];
      RunsAreSafe(states, events, k);
      CountersPositive(m, e.thread);
      assert states[k + 1] == Do(m, e.thread, e.action);
    }
  }

  /** A waiting writer cannot be overtaken by more departures than there were readers when it was
      first seen waiting, and once the readers are gone it is awake or about to be woken. */
  lemma {:induction false} WriterGetsItsTurn(states: seq<Mutex>, events: seq<Event>, i: nat, n: nat, w: Thread)
    requires Run(states, events) && i + n <= |events| && forall k :: i <= k < i + n ==> states[k].writersWaiting > 0
    requires w in states[i + n].phase && (states[i + n].phase[w].WriterAsleep? || states[i + n].phase[w].WriterAwake?)
    ensures Departures(events, i, n) <= states[i].readers
    ensures Departures(events, i, n) == states[i].readers && !states[i + n].writerActive ==>
              states[i + n].phase[w].WriterAwake? || WakeupComing(states[i + n])
  {
    ReadersDrain(states, events, i, n);
    RunsAreSafe(states, events, i + n);
    assert Overlooked(states[i + n], w) || states[i + n].phase[w].WriterAwake? || !WriterMayEnter(states[i + n]);
  }

  // ---------- who is admitted ----------

  /** Some thread is writing, or queued to write. */
  ghost predicate WriterAbout(m: Mutex)
  {
    exists s :: s in m.phase && (m.phase[s].Writing? || m.phase[s].WriterAsleep? || m.phase[s].WriterAwake?)
  }

  /** Some thread holds the lock. */
  ghost predicate Held(m: Mutex)
  {
    exists s :: s in m.phase && (m.phase[s].Writing? || m.phase[s].Reading?)
  }

  /** Every thread but a sleeping one can move, and a sleeping one can only be woken. */
  lemma {:induction false} CanMove(m: Mutex, t: Thread, a: Action)
    requires t in m.phase
    ensures Enabled(m, t, a) <==> a in (match m.phase[t]
                                        case Idle => {Lock, LockShared}
                                        case Writing => {Unlock}
                                        case Reading => {UnlockShared}
                                        case Notifying => {Notify}
                                        case WriterAwake => {Retest}
                                        case ReaderAwake => {Retest}
                                        case WriterAsleep => {WakeSpuriously}
                                        case ReaderAsleep => {WakeSpuriously})
  {
  }

  /** A reader that asks, or asks again, is admitted exactly when no writer is active or waiting, whatever other readers do. Nobody else
      moves. */
  lemma {:induction false} ReaderAdmitted(m: Mutex, t: Thread, a: Action)
    requires Exclusive(m) && Enabled(m, t, a) && (a.LockShared? || (a.Retest? && m.phase[t].ReaderAwake?))
    ensures Do(m, t, a).phase == m.phase[t := if WriterAbout(m) then ReaderAsleep else Reading]
  {
    NobodyQueued(m);
  }

  /** A writer is admitted exactly when nobody holds the lock. */
  lemma {:induction false} WriterAdmitted(m: Mutex, t: Thread, a: Action)
    requires Exclusive(m) && Enabled(m, t, a) && (a.Lock? || (a.Retest? && m.phase[t].WriterAwake?))
    ensures Do(m, t, a).phase == m.phase[t := if Held(m) then WriterAsleep else Writing]
  {
    NobodyQueued(m);
  }

  lemma {:induction false} NobodyQueued(m: Mutex)
    requires Exclusive(m)
    ensures m.writersWaiting == 0 <==> forall s :: s in m.phase ==> !m.phase[s].WriterAsleep? && !m.phase[s].WriterAwake?
    ensures m.readers == 0 <==> forall s :: s in m.phase ==> !m.phase[s].Reading?
  {
    if m.writersWaiting == 0 {
      assert forall s :: s in m.phase ==> s !in QueuedWriters(m);
    } else {
      assert QueuedWriters(m) != {};
    }
    if m.readers == 0 {
      assert forall s :: s in m.phase ==> s !in ReadingThreads(m);
    } else {
      assert ReadingThreads(m) != {};
    }
  }

  /** A thread that leaves owes a notification when it was the writer or the last reader; a notification wakes every sleeper. */
  lemma {:induction false} Leaving(m: Mutex, t: Thread, a: Action)
    requires Exclusive(m) && Enabled(m, t, a) && (a.Unlock? || a.UnlockShared? || a.Notify?)
    ensures a.Unlock? ==> Do(m, t, a).phase == m.phase[t := Notifying]
    ensures a.UnlockShared? ==>
              Do(m, t, a).phase == m.phase[t := if exists s :: s in m.phase && s != t && m.phase[s].Reading? then Idle else Notifying]
    ensures a.Notify? ==>
              forall s :: s in m.phase && s != t ==>
                            Do(m, t, a).phase[s] == (match m.phase[s]
                                                     case WriterAsleep => WriterAwake
                                                     case ReaderAsleep => ReaderAwake
                                                     case other => other)
  {
    if a.UnlockShared? {
      CountersPositive(m, t);
      SetSize(ReadingThreads(m), t);
      if m.readers > 1 {
        assert ReadingThreads(m) - {t} != {};
        var s :| s in ReadingThreads(m) - {t};
        assert s in m.phase && s != t && m.phase[s].Reading?;
      } else {
        assert ReadingThreads(m) - {t} == {};
        assert forall s :: s in m.phase && s != t ==> s !in ReadingThreads(m) - {t};
      }
    }
  }

  // ---------- the critical sections on the counters ----------

  /** The counters themselves; each method is one critical section under the inner mutex. `phase` records
      where the threads are. */
  class SharedMutex {
    var readers: nat
    var writersWaiting: nat
    var writerActive: bool
    ghost var phase: map<Thread, Phase>

    ghost function State(): Mutex
      reads this
    {
      Mutex(readers, writersWaiting, writerActive, phase)
    }

    constructor (ghost threads: set<Thread>)
      ensures Initial(State()) && phase.Keys == threads
    {
      readers, writersWaiting, writerActive := 0, 0, false;
      phase := map t | t in threads :: Idle;
    }

    /** lock() up to its first test of the predicate. */
    method Lock(ghost t: Thread) returns (entered: bool)
      requires Enabled(State(), t, Action.Lock)
      modifies this
      ensures State() == Do(old(State()), t, Action.Lock)
      ensures entered <==> State().phase[t].Writing?
      ensures entered <==> !old(writerActive) && old(readers) == 0
    {
      writersWaiting := writersWaiting + 1;
      entered := !writerActive && readers == 0;
      if entered {
        writersWaiting := writersWaiting - 1;
        writerActive := true;
      }
      phase := phase[t := if entered then Writing else WriterAsleep];
    }

    method LockShared(ghost t: Thread) returns (entered: bool)
      requires Enabled(State(), t, Action.LockShared)
      modifies this
      ensures State() == Do(old(State()), t, Action.LockShared)
      ensures entered <==> State().phase[t].Reading?
      ensures entered <==> !old(writerActive) && old(writersWaiting) == 0
    {
      entered := !writerActive && writersWaiting == 0;
      if entered {
        readers := readers + 1;
      }
      phase := phase[t := if entered then Reading else ReaderAsleep];
    }

    /** A woken waiter tests its predicate again. The count of queued writers cannot underflow. */
    method Retest(t: Thread, isWriter: bool) returns (entered: bool)
      requires Exclusive(State()) && Enabled(State(), t, Action.Retest) && (isWriter <==> phase[t].WriterAwake?)
      modifies this
      ensures State() == Do(old(State()), t, Action.Retest)
      ensures entered <==> State().phase[t].Writing? || State().phase[t].Reading?
      ensures entered <==> !old(writerActive) && if isWriter then old(readers) == 0 else old(writersWaiting) == 0
    {
      CountersPositive(State(), t);
      if isWriter {
        entered := !writerActive && readers == 0;
        if entered {
          writersWaiting := writersWaiting - 1;
          writerActive := true;
        }
        phase := phase[t := if entered then Writing else WriterAsleep];
      } else {
        entered := !writerActive && writersWaiting == 0;
        if entered {
          readers := readers + 1;
        }
        phase := phase[t := if entered then Reading else ReaderAsleep];
      }
    }

    method Unlock(ghost t: Thread)
      requires Enabled(State(), t, Action.Unlock)
      modifies this
      ensures State() == Do(old(State()), t, Action.Unlock)
    {
      writerActive := false;
      phase := phase[t := Notifying];
    }

    /** Only the last reader owes a notification. The count of readers cannot underflow. */
    method UnlockShared(t: Thread) returns (last: bool)
      requires Exclusive(State()) && Enabled(State(), t, Action.UnlockShared)
      modifies this
      ensures State() == Do(old(State()), t, Action.UnlockShared)
      ensures last <==> State().phase[t].Notifying?
    {
      CountersPositive(State(), t);
      readers := readers - 1;
      last := readers == 0;
      phase := phase[t := if last then Notifying else Idle];
    }
  }
}
