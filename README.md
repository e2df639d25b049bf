# Benchmark tables and IMU flags of biorbd, in Dafny

This project models two small stateful components of the biorbd rigid-body
toolkit and proves what they promise.

- `Utils` (`benchmark.dfy`) models `Benchmark`. It keeps a table of named timers
  and a table of named counters. Each table is a `std::map` held behind a
  `shared_ptr`. Here each table is a heap object, `Table<V>`, whose `entries`
  map the methods update in place. `Table.At` models `std::map::operator[]`:
  a name not yet in the table first gets a default entry, then that entry is
  handed out. `Table.Put` writes back through the returned reference.
  `Table.Assign` models the map's `operator=`.
- A timer is a value, `Timer`. It has a `started` flag and `starts`, which
  counts how many times `start` has been called on it. `Timer::start` is
  modelled as `Start`: it sets the flag and counts one more start. The other
  timer members (`getLap`, `stop`, `pause`, `resume`) are not part of this
  model. They are passed to the benchmark methods as function parameters.
- `RigidBody` (`imu.dfy`) models `IMU`. An IMU is a `RotoTransNode` value plus
  two boolean tags, technical and anatomical. Each tag sits behind a
  `shared_ptr<bool>`, modelled as a heap cell `Flag`. The getters `IsTechnical`
  and `IsAnatomical` read the cells.
- Shallow copies share storage. The compiler-generated copy constructors are
  modelled as `Benchmark.ShareOf` and `IMU.ShareOf`, so that aliasing can be
  stated and checked.

## Model

| member | source | states |
|---|---|---|
| `Utils.Touched` | src/Utils/Benchmark.cpp:40-42 | after `operator[]` on a name, the name is present, a new entry holds the default, and every existing entry is unchanged |
| `Utils.Table.At` | src/Utils/Benchmark.cpp:36-42 | the `operator[]` read yields the stored entry or the default, and it leaves the table with that name default-inserted |
| `Utils.Table.Put` | src/Utils/Benchmark.cpp:37 | a write through the reference replaces only the addressed entry and adds no key |
| `Utils.Table.Assign` | src/Utils/Benchmark.cpp:65-66 | after the map assignment, this table holds exactly the other table's former contents |
| `Utils.Benchmark.constructor` | src/Utils/Benchmark.cpp:4-9 | a new benchmark has empty timer and counter tables, each in freshly allocated storage |
| `Utils.StartedEntry` | src/Utils/Benchmark.cpp:12-18 | after `startTimer` the entry is started; `start` is applied exactly when `force` holds or the entry was not started, and otherwise the entry is untouched |
| `Utils.Benchmark.StartTimer` | src/Utils/Benchmark.cpp:12-18 | only the entry for the name changes, created as an idle timer if absent, and it becomes the `StartedEntry` of its former value |
| `Utils.Benchmark.GetLap` | src/Utils/Benchmark.cpp:20-22 | only the entry for the name, default-inserted if absent, is handed to `getLap`; the result is what `getLap` returns |
| `Utils.Benchmark.StopTimer` | src/Utils/Benchmark.cpp:24-26 | only the entry for the name, default-inserted if absent, is handed to `stop`; the result is what `stop` returns |
| `Utils.Benchmark.PauseTimer` | src/Utils/Benchmark.cpp:28-30 | only the entry for the name, default-inserted if absent, is replaced by its paused value |
| `Utils.Benchmark.ResumeTimer` | src/Utils/Benchmark.cpp:32-34 | only the entry for the name, default-inserted if absent, is replaced by its resumed value |
| `Utils.Incremented` | src/Utils/Benchmark.cpp:36-38 | `addToCounter(s)` raises the count of `s` by exactly one, adds `s` to the names, and leaves every other name's count unchanged |
| `Utils.Benchmark.AddToCounter` | src/Utils/Benchmark.cpp:36-38 | the counter table becomes `Incremented` of its former contents, in place |
| `Utils.Benchmark.GetCount` | src/Utils/Benchmark.cpp:40-42 | returns the stored count, or 0 for a name never counted; it inserts that 0 and changes no existing count |
| `Utils.IncrementsAccumulate` | src/Utils/Benchmark.cpp:36-38 | `n` increments of one name raise its count by exactly `n` and change no other name's count |
| `Utils.CountFromEmpty` | src/Utils/Benchmark.cpp:36-42 | from an empty counter table, `n` increments of `s` give a count of `n` for `s` |
| `Utils.CountAfterAdds` | src/Utils/Benchmark.cpp:4-42 | a new benchmark that gets `n` calls of `addToCounter(s)` then reports `getCount(s) == n` |
| `Utils.Benchmark.DeepCopy` | src/Utils/Benchmark.cpp:55-61 | the copy is a new object whose two tables are freshly allocated and equal in contents to the original's |
| `Utils.DeepCopyIsIndependent` | src/Utils/Benchmark.cpp:55-61 | a counter added to the original after a deep copy is not seen by the copy |
| `Utils.Benchmark.DeepCopyFrom` | src/Utils/Benchmark.cpp:63-67 | this object's tables, whose identity is fixed, take the contents `other` had; `other`'s tables are unchanged unless they are this object's own |
| `Utils.DeepCopyFromReachesSharers` | src/Utils/Benchmark.cpp:63-67 | a shallow copy that shares the target's storage sees the contents that `DeepCopy(other)` assigned |
| `RigidBody.IMU.constructor` | src/RigidBody/IMU.cpp:6-14 | the IMU sits at the default node, and `isTechnical`/`isAnatomical` return exactly the flags given, which are held in new, separate storage |
| `RigidBody.IMU.AtNode` | src/RigidBody/IMU.cpp:15-24 | the IMU keeps the supplied node as its base value, and `isTechnical`/`isAnatomical` return exactly the flags given, which are held in new, separate storage |
| `RigidBody.IMU.IsTechnical` | src/RigidBody/IMU.cpp:47-50 | `isTechnical` returns the value currently held in the technical flag storage and reads nothing else (its `reads` frame is the IMU and that cell); the constructor rows state that it returns the constructor's argument |
| `RigidBody.IMU.IsAnatomical` | src/RigidBody/IMU.cpp:42-45 | `isAnatomical` returns the value currently held in the anatomical flag storage and reads nothing else (its `reads` frame is the IMU and that cell); the constructor rows state that it returns the constructor's argument |
| `RigidBody.IMU.DeepCopy` | src/RigidBody/IMU.cpp:26-33 | the copy has the same node and the same two flag values, and its flag storage is freshly allocated and shared with no one |
| `RigidBody.DeepCopyIsIndependent` | src/RigidBody/IMU.cpp:26-33 | writing new values into the original's flag storage after deep-copying it leaves the copy's flags as they were, which a shallow copy would not |
| `RigidBody.IMU.DeepCopyFrom` | src/RigidBody/IMU.cpp:35-40 | as written: the node becomes `other`'s; both flags become true in new storage, whatever `other` holds; the old storage and `other` (if distinct) are unchanged |
| `RigidBody.DeepCopyFromCounterexample` | src/RigidBody/IMU.cpp:38-39 | deep-copying an IMU tagged neither technical nor anatomical yields one tagged both |
| `RigidBody.DeepCopyFromDetachesSharers` | src/RigidBody/IMU.cpp:35-40 | IMUs that shared the target's flags keep the target's former flag values after `DeepCopy(other)` |
| `RigidBody.IMU.DeepCopyFromIntended` | src/RigidBody/IMU.cpp:35-40 | corrected: the node and both flag values become `other`'s, in new storage; the old storage and `other` (if distinct) are unchanged |
| `RigidBody.DeepCopyFromIntendedCopiesFlags` | src/RigidBody/IMU.cpp:35-40 | the corrected `DeepCopy(other)` reproduces every combination of the two flags |

## Left out

- include/ModelReader.h: it declares the bioMod reader and the data-file readers, but their bodies are not part of this model. They do file I/O through types that are also not part of this model.
- `Benchmark::wasteTime` (src/Utils/Benchmark.cpp:44-53): a busy-wait on the processor clock with floating-point seconds.
- The internals of `Timer` are not part of this model. `Timer::start` is taken to leave the timer started. `getLap`, `stop`, `pause` and `resume` are function parameters. The elapsed times they return are `real` values standing for `double`.
- Utils.Benchmark.AddToCounter: counts are unbounded integers. The C++ `int` can overflow, which is undefined behaviour; this is not modelled.
- `RotoTransNode` and its `DeepCopy` are external linear-algebra types. The node is a plain value, so its deep copy is equality. Its default value, the identity transform with empty names, stands for the C++ default constructor.
- The default flag values of the IMU default constructor come from IMU.h, which is not part of this model. `IMU.DeepCopy` overwrites them, so they do not affect any result.
- Two properties of `Timer` are assumed, since its source is not part of this model: a default-constructed `Timer` is not started (`Idle`), which decides that `startTimer(s, false)` calls `start` on a new name; and copying a `Timer` yields an independent value, which makes the timers of `Benchmark.DeepCopy` and `Table.Assign` independent of the original's.
- Reference counting of `shared_ptr` is not modelled. Sharing is modelled as two objects holding the same heap reference.
- The copy-assignment operators that C++ generates are not modelled. Only the copy constructors (`ShareOf`) are.

## Findings

`DeepCopy() const` (src/RigidBody/IMU.cpp:26-33) copies both flag values into new storage; `DeepCopy(other)` as written does not. The model follows the code in `RigidBody.IMU.DeepCopyFrom` and gives the intended behaviour in `RigidBody.IMU.DeepCopyFromIntended`.

| source | as written | input that shows it | evidently intended | confidence | as-written member | corrected member |
|---|---|---|---|---|---|---|
| src/RigidBody/IMU.cpp:38-39 | `std::make_shared<bool>(other.m_technical)` builds the new flag from the shared pointer itself, and a non-null pointer converts to `true` (likewise for `m_anatomical`) | `other` constructed with `isTechnical = false, isAnatomical = false`: after `DeepCopy(other)` both getters return `true` | build the new flags from the pointees, `*other.m_technical` and `*other.m_anatomical`, as `DeepCopy() const` does at lines 30-31 | high; not executed | `RigidBody.DeepCopyFromCounterexample` (over `RigidBody.IMU.DeepCopyFrom`) | `RigidBody.IMU.DeepCopyFromIntended` |
