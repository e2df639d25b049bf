/**
 * The benchmark helper of biorbd: a table of named timers and a table of
 * named counters, each held behind a shared pointer.
 *
 * A `std::map` behind a `shared_ptr` is a heap object here (`Table`), so that
 * two `Benchmark` values may share one table, as shallow C++ copies do.
 * Every access goes through `std::map::operator[]`, which inserts a default
 * entry for an unseen name before handing it out; `Table.At` models that.
 */
module Utils {

  // ---------------------------------------------------------------------
  // Table entries as values
  // ---------------------------------------------------------------------

  /** The entry `operator[]` hands out for `k`: the stored one, or `blank`. */
  function Get<V>(m: map<string, V>, k: string, blank: V): V
  {
    if k in m then m[k] else blank
  }

  /** The table after `operator[]` has been applied to `k`. */
  function Touched<V>(m: map<string, V>, k: string, blank: V): (r: map<string, V>)
    ensures r.Keys == m.Keys + {k}
    ensures k in r && (k !in m ==> r[k] == blank)
    ensures forall j :: j in m ==> r[j] == m[j]
  {
    m[k := Get(m, k, blank)]
  }

  /**
   * A timer, seen only through what `Benchmark` asks of it: whether it is
   * started, and how many times `start` has been called on it.
   */
  datatype Timer = Timer(started: bool, starts: nat)

  /** A default-constructed timer: not started, never started. */
  const Idle := Timer(false, 0)

  /** `Timer::start`: the timer is started, and one more start is recorded. */
  function Start(t: Timer): Timer
  {
    Timer(true, t.starts + 1)
  }

  /** The entry for a name after `startTimer(name, force)`. */
  function StartedEntry(t: Timer, force: bool): (r: Timer)
    ensures r.started
    ensures r == Start(t) <==> force || !t.started
    ensures r != Start(t) ==> r == t
  {
    if force || !t.started then Start(t) else t
  }

  /** The counter table after `addToCounter(s)`. */
  function Incremented(m: map<string, int>, s: string): (r: map<string, int>)
    ensures r.Keys == m.Keys + {s}
    ensures Get(r, s, 0) == Get(m, s, 0) + 1
    ensures forall k :: k != s ==> Get(r, k, 0) == Get(m, k, 0)
  {
    m[s := Get(m, s, 0) + 1]
  }

  /** The counter table after `n` calls of `addToCounter(s)`. */
  function IncrementedTimes(m: map<string, int>, s: string, n: nat): map<string, int>
  {
    if n == 0 then m else Incremented(IncrementedTimes(m, s, n - 1), s)
  }

  /** `n` increments of one name raise its count by `n` and no other. */
  lemma {:induction false} IncrementsAccumulate(m: map<string, int>, s: string, n: nat)
    ensures Get(IncrementedTimes(m, s, n), s, 0) == Get(m, s, 0) + n
    ensures forall k :: k != s ==> Get(IncrementedTimes(m, s, n), k, 0) == Get(m, k, 0)
    ensures IncrementedTimes(m, s, n).Keys == if n == 0 then m.Keys else m.Keys + {s}
  {
    if n > 0 {
      IncrementsAccumulate(m, s, n - 1);
    }
  }

  /** From an empty counter table, `n` increments of `s` give a count of `n`. */
  lemma {:induction false} CountFromEmpty(s: string, n: nat)
    ensures Get(IncrementedTimes(map[], s, n), s, 0) == n
  {
    IncrementsAccumulate(map[], s, n);
  }

  // ---------------------------------------------------------------------
  // The shared tables
  // ---------------------------------------------------------------------

  /** A `std::map<String, V>` in its own storage. */
  class Table<V> {
    var entries: map<string, V>

    constructor ()
      ensures entries == map[]
    {
      entries := map[];
    }

    /** `operator[]` read: inserts `blank` for an unseen key, yields the entry. */
    method At(k: string, blank: V) returns (v: V)
      modifies this
      ensures entries == Touched(old(entries), k, blank)
      ensures v == Get(old(entries), k, blank) && v == entries[k]
    {
      if k !in entries {
        entries := entries[k := blank];
      }
      v := entries[k];
    }

    /** A write through the reference `operator[]` handed out for `k`. */
    method Put(k: string, v: V)
      requires k in entries
      modifies this
      ensures entries == old(entries)[k := v]
      ensures entries.Keys == old(entries.Keys)
    {
      entries := entries[k := v];
    }

    /** `operator=`: this table's contents become `other`'s. */
    method Assign(other: Table<V>)
      modifies this
      ensures entries == old(other.entries)
    {
      entries := other.entries;
    }
  }

  // ---------------------------------------------------------------------
  // Benchmark
  // ---------------------------------------------------------------------

  class Benchmark {
    const timers: Table<Timer>
    const counts: Table<int>

    /** Both tables empty, each in new storage. */
    constructor ()
      ensures fresh(timers) && fresh(counts)
      ensures timers.entries == map[] && counts.entries == map[]
    {
      timers := new Table<Timer>();
      counts := new Table<int>();
    }

    /** The implicit copy constructor: the copy shares both tables. */
    constructor ShareOf(other: Benchmark)
      ensures timers == other.timers && counts == other.counts
    {
      timers := other.timers;
      counts := other.counts;
    }

    method StartTimer(s: string, force: bool)
      modifies timers
      ensures timers.entries == old(timers.entries)[s := StartedEntry(Get(old(timers.entries), s, Idle), force)]
    {
      if force {
        var t := timers.At(s, Idle);
        timers.Put(s, Start(t));
      } else {
        var t := timers.At(s, Idle);
        if !t.started {
          t := timers.At(s, Idle);
          timers.Put(s, Start(t));
        }
      }
    }

    /** `getLap`: `lap` stands for `Timer::getLap`, which is not part of this model. */
    method GetLap(s: string, lap: Timer -> (Timer, real)) returns (elapsed: real)
      modifies timers
      ensures timers.entries == old(timers.entries)[s := lap(Get(old(timers.entries), s, Idle)).0]
      ensures elapsed == lap(Get(old(timers.entries), s, Idle)).1
    {
      var t := timers.At(s, Idle);
      var (t', e) := lap(t);
      timers.Put(s, t');
      elapsed := e;
    }

    /** `stopTimer`: `stop` stands for `Timer::stop`, which is not part of this model. */
    method StopTimer(s: string, stop: Timer -> (Timer, real)) returns (elapsed: real)
      modifies timers
      ensures timers.entries == old(timers.entries)[s := stop(Get(old(timers.entries), s, Idle)).0]
      ensures elapsed == stop(Get(old(timers.entries), s, Idle)).1
    {
      var t := timers.At(s, Idle);
      var (t', e) := stop(t);
      timers.Put(s, t');
      elapsed := e;
    }

    /** `pauseTimer`: `pause` stands for `Timer::pause`, which is not part of this model. */
    method PauseTimer(s: string, pause: Timer -> Timer)
      modifies timers
      ensures timers.entries == old(timers.entries)[s := pause(Get(old(timers.entries), s, Idle))]
    {
      var t := timers.At(s, Idle);
      timers.Put(s, pause(t));
    }

    /** `resumeTimer`: `resume` stands for `Timer::resume`, which is not part of this model. */
    method ResumeTimer(s: string, resume: Timer -> Timer)
      modifies timers
      ensures timers.entries == old(timers.entries)[s := resume(Get(old(timers.entries), s, Idle))]
    {
      var t := timers.At(s, Idle);
      timers.Put(s, resume(t));
    }

    method AddToCounter(s: string)
      modifies counts
      ensures counts.entries == Incremented(old(counts.entries), s)
    {
      var c := counts.At(s, 0);
      counts.Put(s, c + 1);
    }

    /** `getCount`: 0 for an unseen name, which it also inserts. */
    method GetCount(s: string) returns (c: int)
      modifies counts
      ensures c == Get(old(counts.entries), s, 0)
      ensures counts.entries == Touched(old(counts.entries), s, 0)
    {
      c := counts.At(s, 0);
    }

    /** `DeepCopy() const`: equal contents, in storage shared with no one. */
    method DeepCopy() returns (copy: Benchmark)
      ensures fresh(copy) && fresh(copy.timers) && fresh(copy.counts)
      ensures copy.timers.entries == timers.entries
      ensures copy.counts.entries == counts.entries
    {
      copy := new Benchmark();
      copy.timers.Assign(timers);
      copy.counts.Assign(counts);
    }

    /** `DeepCopy(other)`: assigns through this object's own storage, whose identity is fixed. */
    method DeepCopyFrom(other: Benchmark)
      modifies timers, counts
      ensures timers.entries == old(other.timers.entries)
      ensures counts.entries == old(other.counts.entries)
      ensures other.timers != timers ==> other.timers.entries == old(other.timers.entries)
      ensures other.counts != counts ==> other.counts.entries == old(other.counts.entries)
    {
      timers.Assign(other.timers);
      counts.Assign(other.counts);
    }
  }

  // ---------------------------------------------------------------------
  // What callers can rely on
  // ---------------------------------------------------------------------

  /** `n` calls of `addToCounter(s)` on a new benchmark, then `getCount(s)`. */
  method CountAfterAdds(s: string, n: nat) returns (c: int)
    ensures c == n
  {
    var b := new Benchmark();
    var i := 0;
    while i < n
      invariant 0 <= i <= n
      invariant b.counts.entries == IncrementedTimes(map[], s, i)
    {
      b.AddToCounter(s);
      i := i + 1;
    }
    CountFromEmpty(s, n);
    c := b.GetCount(s);
  }

  /** A deep copy and its original count independently afterwards. */
  method DeepCopyIsIndependent(s: string) returns (original: int, copied: int)
    ensures original == 2 && copied == 1
  {
    var b := new Benchmark();
    b.AddToCounter(s);
    var copy := b.DeepCopy();
    b.AddToCounter(s);
    original := b.GetCount(s);
    copied := copy.GetCount(s);
  }

  /** `DeepCopy(other)` is seen by every shallow copy sharing the target's storage. */
  method DeepCopyFromReachesSharers(s: string) returns (viaSharer: int, inOther: int)
    ensures viaSharer == 1 && inOther == 1
  {
    var b := new Benchmark();
    var sharer := new Benchmark.ShareOf(b);
    var other := new Benchmark();
    other.AddToCounter(s);
    b.DeepCopyFrom(other);
    viaSharer := sharer.GetCount(s);
    inOther := other.GetCount(s);
  }
}
