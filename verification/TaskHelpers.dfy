/** task_helper.c: task handles, and the array of slots in which they are registered. */
module TaskHelpers {

  datatype TaskState = Init | Running | Stopping | Stopped

  /** The first position of x in s, or |s|. */
  function FirstIndex<T(==)>(s: seq<T>, x: T): (i: nat)
    ensures i <= |s|
    ensures i < |s| ==> s[i] == x
    ensures forall k | 0 <= k < i :: s[k] != x
    ensures i < |s| <==> x in s
  {
    if s == [] then 0 else if s[0] == x then 0 else 1 + FirstIndex(s[1..], x)
  }

  lemma {:induction false} FirstIndexIs<T>(s: seq<T>, x: T, i: nat)
    requires i <= |s| && (i < |s| ==> s[i] == x) && forall k | 0 <= k < i :: s[k] != x
    ensures FirstIndex(s, x) == i
  {
    if s != [] && s[0] != x { FirstIndexIs(s[1..], x, i - 1); }
  }

  /** No handle is in two slots. */
  predicate Distinct(slots: seq<TaskHandle?>) {
    forall i, j | 0 <= i < j < |slots| && slots[i] != null :: slots[i] != slots[j]
  }

  /** The slots hold exactly the given handles, each in one slot. */
  ghost predicate Linked(slots: seq<TaskHandle?>, handles: set<TaskHandle>) {
    && (forall i | 0 <= i < |slots| && slots[i] != null :: slots[i] in handles)
    && Distinct(slots)
    && (forall h | h in handles :: h in slots)
  }

  /** Filling a free slot keeps the graph consistent exactly when the handle was not in it yet. */
  lemma LinkAdded(slots: seq<TaskHandle?>, handles: set<TaskHandle>, i: nat, h: TaskHandle)
    requires i < |slots| && slots[i] == null
    ensures Linked(slots, handles) ==> (Linked(slots[i := h], handles + {h}) <==> h !in handles)
  {
    if Linked(slots, handles) {
      if h in handles {
        var k :| 0 <= k < |slots| && slots[k] == h;
        assert slots[i := h][k] == slots[i := h][i];
      } else {
        forall g | g in handles + {h} ensures g in slots[i := h] {
          if g == h {
            assert slots[i := h][i] == h;
          } else {
            var k :| 0 <= k < |slots| && slots[k] == g;
            assert slots[i := h][k] == g;
          }
        }
      }
    }
  }

  /** Freeing the slot of a handle that no longer points here keeps the graph consistent. */
  lemma LinkRemoved(slots: seq<TaskHandle?>, handles: set<TaskHandle>, i: nat, h: TaskHandle)
    requires i < |slots| && slots[i] == h && Linked(slots, handles)
    ensures Linked(slots[i := null], handles - {h}) && h !in slots[i := null]
  {
    forall g | g in handles - {h} ensures g in slots[i := null] {
      var k :| 0 <= k < |slots| && slots[k] == g;
      assert slots[i := null][k] == g;
    }
  }

  /**
   * Registering a handle in the free slot i while it is registered in another array: the array it is
   * added to is consistent, and the other is left with a slot whose handle points elsewhere.
   */
  lemma LinkMoved(slots: seq<TaskHandle?>, handles: set<TaskHandle>, i: nat, h: TaskHandle,
                  others: seq<TaskHandle?>, otherHandles: set<TaskHandle>)
    requires i < |slots| && slots[i] == null && Linked(slots, handles) && h !in handles
    requires Linked(others, otherHandles) && h in otherHandles
    ensures Linked(slots[i := h], handles + {h}) && !Linked(others, otherHandles - {h})
  {
    LinkAdded(slots, handles, i, h);
    var k :| 0 <= k < |others| && others[k] == h;
    assert others[k] !in otherHandles - {h};
  }

  /** The pointer graph of all arrays: each is consistent, and known handles point to no other array. */
  ghost predicate AllConsistent(arrays: set<TaskArray>, known: set<TaskHandle>)
    reads arrays`slots, (set a | a in arrays :: a.slots), known`owner
  {
    && (forall a, b | a in arrays && b in arrays && a != b :: a.slots != b.slots)
    && (forall a | a in arrays :: a.Consistent(known))
    && (forall h | h in known && h.owner != null :: h.owner in arrays)
  }

  /** The number of occupied slots. */
  function Occupied(s: seq<TaskHandle?>): nat {
    if s == [] then 0 else Occupied(s[..|s| - 1]) + if s[|s| - 1] != null then 1 else 0
  }

  /** The descriptors of the occupied slots, in slot order. */
  function DoneFds(s: seq<TaskHandle?>): (fds: seq<int>)
    reads s
    ensures |fds| == Occupied(s)
  {
    if s == [] then []
    else DoneFds(s[..|s| - 1]) + if s[|s| - 1] != null then [s[|s| - 1].doneFd] else []
  }

  /** The number of occupied slots whose task has marked itself done. */
  function CountDone(s: seq<TaskHandle?>): nat
    reads (set h: TaskHandle | h in s)`doneFd, (set h: TaskHandle | h in s)`doneCount
  {
    if s == [] then 0
    else CountDone(s[..|s| - 1]) + if s[|s| - 1] != null && s[|s| - 1].IsDone() then 1 else 0
  }

  /** How many of the descriptors are readable; poll ignores a negative descriptor. */
  function CountReady(fds: seq<int>, readable: set<int>): nat {
    if fds == [] then 0
    else CountReady(fds[..|fds| - 1], readable) + if Pollable(fds[|fds| - 1], readable) then 1 else 0
  }

  predicate Pollable(fd: int, readable: set<int>) { fd >= 0 && fd in readable }

  /**
   * task_handle_t; owner is its field array. doneCount is the counter of the eventfd doneFd, which nothing
   * ever reads. The numbers of callbacks, joins and cancels, and of the descriptors created and closed,
   * record what has been done through the handle.
   */
  class TaskHandle {
    var thread: nat
    var state: TaskState
    var doneFd: int
    var doneCount: nat
    var hasOnStop: bool
    var hasOnCleanup: bool
    var owner: TaskArray?
    var stops: nat
    var cleanups: nat
    var joins: nat
    var cancels: nat
    var opens: nat
    var closes: nat

    /** A handle in static storage, before task_handle_init. */
    constructor ()
      ensures owner == null && opens == closes == 0
    {
      thread, state, doneFd, doneCount, owner := 0, Init, 0, 0, null;
      hasOnStop, hasOnCleanup := false, false;
      stops, cleanups, joins, cancels, opens, closes := 0, 0, 0, 0, 0, 0;
    }

    /**
     * task_handle_init on a handle in whatever state: it forgets the thread, the array and the
     * descriptor it held, closing nothing. fd is the new descriptor, unless its creation fails.
     */
    method Initialize(fd: nat, eventfdFails: bool) returns (r: int)
      modifies `thread, `state, `doneFd, `doneCount, `owner, `hasOnStop, `hasOnCleanup, `opens
      ensures r == if eventfdFails then -1 else 0
      ensures state == Init && owner == null && thread == 0 && !hasOnStop && !hasOnCleanup
      ensures doneFd == (if eventfdFails then -1 else fd) && !IsDone()
      ensures opens == old(opens) + if eventfdFails then 0 else 1
    {
      thread, state, owner := 0, Init, null;
      hasOnStop, hasOnCleanup := false, false;
      doneCount := 0;
      if eventfdFails {
        doneFd := -1;
        return -1;
      }
      doneFd, opens := fd, opens + 1;
      return 0;
    }

    /** The descriptor is readable: it is open and task_handle_mark_done has been called. */
    predicate IsDone()
      reads this`doneFd, this`doneCount
    {
      doneFd >= 0 && doneCount > 0
    }

    /**
     * task_handle_destroy. The handle may still be registered; then its array must not be locked by
     * the caller, because removing it locks the array.
     */
    method Destroy(ghost known: set<TaskHandle>, ghost arrays: set<TaskArray>)
      requires this in known
      requires owner != null ==> owner.Valid() && AllConsistent(arrays, known)
      modifies `owner, `doneFd, `closes, `state, if owner == null then {} else {owner, owner.slots}
      ensures owner == null && state == Stopped && doneFd == -1
      ensures closes == old(closes) + if old(doneFd) != -1 then 1 else 0
      ensures var a := old(owner);
        a != null ==>
          && a.Valid() && AllConsistent(arrays, known) && a.slots == old(owner.slots) && this !in a.slots[..]
          && a.slots[..] == old(owner.slots[..])[old(FirstIndex(owner.slots[..], this)) := null]
    {
      if owner != null {
        var a := owner;
        var r := a.Remove(this, known, arrays);
      }
      if doneFd != -1 {
        closes := closes + 1;
        doneFd := -1;
      }
      state := Stopped;
    }

    /** task_handle_mark_done */
    method MarkDone()
      modifies this`state, this`doneCount
      ensures state == Stopped && doneCount == old(doneCount) + 1
      ensures doneFd >= 0 ==> IsDone()
    {
      state := Stopped;
      doneCount := doneCount + 1;
    }

    /** task_stop: the callback if there is one, and the state otherwise. */
    method Stop()
      modifies this`state, this`stops
      ensures if hasOnStop then stops == old(stops) + 1 && state == old(state) else state == Stopping && stops == old(stops)
    {
      if hasOnStop {
        stops := stops + 1;
      } else {
        state := Stopping;
      }
    }

    /** task_join: waits for the task's thread, see the shutdown protocol for why it returns. */
    method Join()
      modifies this`joins
      ensures joins == old(joins) + 1
    {
      joins := joins + 1;
    }

    /** The check of task_array_join_all: a task that is not done is not joined. */
    method JoinIfDone() returns (done: bool)
      modifies this`joins
      ensures done == IsDone() && joins == old(joins) + if done then 1 else 0
    {
      done := IsDone();
      if done {
        Join();
      }
    }

    /** The cleanup callback, if there is one, which is called while the handle is still registered. */
    method CleanUp()
      requires owner != null
      modifies this`cleanups
      ensures cleanups == old(cleanups) + if hasOnCleanup then 1 else 0
    {
      if hasOnCleanup {
        cleanups := cleanups + 1;
      }
    }

    /** task_cancel, as a recorded request. */
    method Cancel()
      modifies this`cancels
      ensures cancels == old(cancels) + 1
    {
      cancels := cancels + 1;
    }
  }

  class TaskArray {
    var slots: array<TaskHandle?>
    var capacity: nat
    var locked: bool

    ghost predicate Valid()
      reads this
    {
      capacity == slots.Length && !locked
    }

    /** The known handles that point here. */
    ghost function Registered(known: set<TaskHandle>): set<TaskHandle>
      reads known`owner
    {
      set h | h in known && h.owner == this
    }

    /** The pointer graph: the slots hold exactly the handles that point back here, each once. */
    ghost predicate Consistent(known: set<TaskHandle>)
      reads this`slots, slots, known`owner
    {
      Linked(slots[..], Registered(known))
    }

    /** An array in static storage, before task_array_init. */
    constructor ()
      ensures Valid() && slots.Length == 0
    {
      slots, capacity, locked := new TaskHandle?[0](_ => null), 0, false;
    }

    /** task_array_init on an array in whatever state: the slots it had are forgotten, not freed. */
    method Initialize(capacity: nat, callocFails: bool) returns (r: int)
      modifies this
      ensures r == if callocFails then -1 else 0
      ensures fresh(slots) && slots.Length == if callocFails then 0 else capacity
      ensures forall i | 0 <= i < slots.Length :: slots[i] == null
      ensures r == 0 ==> Valid()
      ensures r == -1 ==> this.capacity == old(this.capacity) && locked == old(locked)
    {
      if callocFails {
        slots := new TaskHandle?[0](_ => null);
        return -1;
      }
      slots := new TaskHandle?[capacity](_ => null);
      this.capacity := capacity;
      locked := false;
      return 0;
    }

    /** task_array_destroy */
    method Destroy()
      modifies this
      ensures Valid() && fresh(slots) && slots.Length == 0
    {
      slots, capacity, locked := new TaskHandle?[0](_ => null), 0, false;
    }

    /** The mutex is not recursive: a thread that locks it twice waits for itself. */
    method Lock()
      requires !locked
      modifies this`locked
      ensures locked
    {
      locked := true;
    }

    method Unlock()
      requires locked
      modifies this`locked
      ensures !locked
    {
      locked := false;
    }

    /**
     * task_array_add takes the first free slot and fails only when there is none. It keeps the pointer
     * graph of all arrays consistent exactly when the handle was registered nowhere before, or nothing
     * was added.
     */
    method Add(handle: TaskHandle, ghost known: set<TaskHandle>, ghost arrays: set<TaskArray>) returns (r: int)
      requires Valid() && handle in known && this in arrays
      modifies this`locked, slots, handle`owner
      ensures Valid()
      ensures r == if null in old(slots[..]) then 0 else -1
      ensures r == 0 ==> slots[..] == old(slots[..])[FirstIndex(old(slots[..]), null) := handle] && handle.owner == this
      ensures r == -1 ==> slots[..] == old(slots[..]) && handle.owner == old(handle.owner)
      ensures old(AllConsistent(arrays, known)) && (r == -1 || old(handle.owner) == null) ==> AllConsistent(arrays, known)
      ensures old(AllConsistent(arrays, known)) && r == 0 && old(handle.owner) != null ==> !AllConsistent(arrays, known)
    {
      Lock();
      var i := 0;
      while i < capacity
        invariant 0 <= i <= capacity && Unchanged() && locked
        invariant forall k | 0 <= k < i :: slots[k] != null
        invariant handle.owner == old(handle.owner)
      {
        if slots[i] == null {
          FirstIndexIs(slots[..], null, i);
          Fill(i, handle, known, arrays);
          Unlock();
          return 0;
        }
        i := i + 1;
      }
      Unlock();
      return -1;
    }

    /** The handle takes the free slot i; the array in which it was registered, if any, is not told. */
    method Fill(i: nat, handle: TaskHandle, ghost known: set<TaskHandle>, ghost arrays: set<TaskArray>)
      requires i < slots.Length && slots[i] == null && handle in known && this in arrays
      modifies slots, handle`owner
      ensures slots[..] == old(slots[..])[i := handle] && handle.owner == this
      ensures old(AllConsistent(arrays, known)) && old(handle.owner) == null ==> AllConsistent(arrays, known)
      ensures old(AllConsistent(arrays, known)) && old(handle.owner) != null ==> !AllConsistent(arrays, known)
    {
      ghost var b := handle.owner;
      slots[i] := handle;
      handle.owner := this;
      if old(AllConsistent(arrays, known)) {
        assert Registered(known) == old(Registered(known)) + {handle};
        LinkAdded(old(slots[..]), old(Registered(known)), i, handle);
        if b == null {
          forall a | a in arrays && a != this ensures a.Consistent(known) {
            assert a.Registered(known) == old(a.Registered(known)) && old(a.Consistent(known));
          }
        } else if b != this {
          assert b.Registered(known) == old(b.Registered(known)) - {handle};
          LinkMoved(old(slots[..]), old(Registered(known)), i, handle, old(b.slots[..]), old(b.Registered(known)));
        }
      }
    }

    twostate predicate Unchanged()
      reads this, slots
    {
      slots == old(slots) && capacity == old(capacity) && slots[..] == old(slots[..]) && capacity == slots.Length
    }

    /** task_array_remove frees the slot of the handle and fails only when it has none. */
    method Remove(handle: TaskHandle, ghost known: set<TaskHandle>, ghost arrays: set<TaskArray>) returns (r: int)
      requires Valid() && handle in known && this in arrays && AllConsistent(arrays, known)
      modifies this`locked, slots, handle`owner
      ensures Valid() && AllConsistent(arrays, known)
      ensures r == if handle in old(slots[..]) then 0 else -1
      ensures r == 0 <==> old(handle.owner) == this
      ensures r == 0 ==> slots[..] == old(slots[..])[FirstIndex(old(slots[..]), handle) := null]
      ensures r == 0 ==> handle.owner == null && handle !in slots[..]
      ensures r == -1 ==> slots[..] == old(slots[..]) && handle.owner == old(handle.owner)
    {
      Lock();
      var i := 0;
      while i < capacity
        invariant 0 <= i <= capacity && Unchanged() && locked
        invariant forall k | 0 <= k < i :: slots[k] != handle
        invariant handle.owner == old(handle.owner)
      {
        if slots[i] == handle {
          FirstIndexIs(slots[..], handle, i);
          Vacate(i, handle, known, arrays);
          Unlock();
          return 0;
        }
        i := i + 1;
      }
      Unlock();
      return -1;
    }

    /** The handle gives up the slot i. */
    method Vacate(i: nat, handle: TaskHandle, ghost known: set<TaskHandle>, ghost arrays: set<TaskArray>)
      requires i < slots.Length && slots[i] == handle && handle in known && this in arrays
      requires AllConsistent(arrays, known)
      modifies slots, handle`owner
      ensures slots[..] == old(slots[..])[i := null] && handle.owner == null && handle !in slots[..]
      ensures old(handle.owner) == this && AllConsistent(arrays, known)
    {
      assert handle in Registered(known);
      slots[i] := null;
      handle.owner := null;
      assert Registered(known) == old(Registered(known)) - {handle};
      LinkRemoved(old(slots[..]), old(Registered(known)), i, handle);
      forall a | a in arrays && a != this ensures a.Consistent(known) {
        assert a.Registered(known) == old(a.Registered(known)) && old(a.Consistent(known));
      }
    }

    /** The registered handles. */
    ghost function Members(): set<TaskHandle>
      reads this, slots
    {
      set h: TaskHandle | h in slots[..]
    }

    /** task_array_stop_all: every registered task, and no other, is told to stop once. */
    method StopAll(ghost known: set<TaskHandle>)
      requires Valid() && Consistent(known)
      modifies this`locked, Members()`state, Members()`stops
      ensures Valid()
      ensures forall h | h in Members() ::
        if h.hasOnStop then h.stops == old(h.stops) + 1 && h.state == old(h.state)
        else h.state == Stopping && h.stops == old(h.stops)
    {
      Lock();
      var i := 0;
      while i < capacity
        invariant 0 <= i <= capacity && locked
        invariant forall j | i <= j < capacity && slots[j] != null ::
          slots[j].state == old(slots[j].state) && slots[j].stops == old(slots[j].stops)
        invariant forall j | 0 <= j < i && slots[j] != null ::
          if slots[j].hasOnStop then slots[j].stops == old(slots[j].stops) + 1 && slots[j].state == old(slots[j].state)
          else slots[j].state == Stopping && slots[j].stops == old(slots[j].stops)
      {
        if slots[i] != null {
          slots[i].Stop();
        }
        i := i + 1;
      }
      Unlock();
    }

    /** task_array_cancel_all: every registered task, and no other, is cancelled once. */
    method CancelAll(ghost known: set<TaskHandle>)
      requires Valid() && Consistent(known)
      modifies this`locked, Members()`cancels
      ensures Valid()
      ensures forall h | h in Members() :: h.cancels == old(h.cancels) + 1
    {
      Lock();
      var i := 0;
      while i < capacity
        invariant 0 <= i <= capacity && locked
        invariant forall j | i <= j < capacity && slots[j] != null :: slots[j].cancels == old(slots[j].cancels)
        invariant forall j | 0 <= j < i && slots[j] != null :: slots[j].cancels == old(slots[j].cancels) + 1
      {
        if slots[i] != null {
          slots[i].Cancel();
        }
        i := i + 1;
      }
      Unlock();
    }

    /**
     * task_array_poll_all. readable is the set of descriptors that poll finds readable; the two flags
     * say whether malloc succeeds and whether poll fails. The descriptors polled are those of the
     * occupied slots in slot order, and then the signal descriptor if there is one.
     */
    method PollAll(sigFd: int, readable: set<int>, mallocFails: bool, pollFails: bool)
      returns (r: int, polled: seq<int>)
      requires Valid()
      modifies this`locked
      ensures Valid()
      ensures var fds := old(DoneFds(slots[..]));
        var signalled := Pollable(sigFd, readable);
        && (fds != [] && !mallocFails ==> polled == fds + if sigFd >= 0 then [sigFd] else [])
        && (r == 0 <==> fds == [] || (!mallocFails && pollFails))
        && (r == -2 <==> fds != [] && !mallocFails && !pollFails && signalled)
        && (r == -1 <==> fds != [] && (mallocFails || (!pollFails && !signalled && CountReady(fds, readable) == 0)))
        && (r > 0 ==> r == CountReady(fds, readable) && !signalled)
        && r >= -2
    {
      polled := [];
      ghost var active := DoneFds(slots[..]);
      Lock();
      var count := CountActive();
      if count == 0 {
        Unlock();
        return 0, polled;
      }
      if mallocFails {
        Unlock();
        return -1, polled;
      }
      var fds := Snapshot(count, sigFd);
      Unlock();
      polled := fds[..];
      r := AwaitAny(fds, count, sigFd, active, readable, pollFails);
    }

    /** The descriptors of the occupied slots in slot order, then the signal descriptor if there is one. */
    method Snapshot(count: nat, sigFd: int) returns (fds: array<int>)
      requires capacity == slots.Length && count == Occupied(slots[..])
      ensures fresh(fds) && fds[..] == DoneFds(slots[..]) + if sigFd >= 0 then [sigFd] else []
    {
      fds := new int[count + if sigFd >= 0 then 1 else 0];
      FillFds(fds);
      if sigFd >= 0 {
        fds[count] := sigFd;
        assert fds[..] == fds[..count] + [sigFd];
      } else {
        assert fds[..] == fds[..count];
      }
    }

    /** The first pass of task_array_poll_all. */
    method CountActive() returns (count: nat)
      requires capacity == slots.Length
      ensures count == Occupied(slots[..])
    {
      count := 0;
      var i := 0;
      while i < capacity
        invariant 0 <= i <= capacity && count == Occupied(slots[..i])
      {
        assert slots[..i + 1][..i] == slots[..i];
        if slots[i] != null {
          count := count + 1;
        }
        i := i + 1;
      }
      assert slots[..capacity] == slots[..];
    }

    /** Its second pass visits the same slots, so it stays inside the memory sized by the first. */
    method FillFds(fds: array<int>)
      requires capacity == slots.Length && fds.Length >= Occupied(slots[..])
      modifies fds
      ensures fds[..Occupied(slots[..])] == DoneFds(slots[..])
    {
      var fdIdx, i := 0, 0;
      while i < capacity
        invariant 0 <= i <= capacity && fdIdx == Occupied(slots[..i]) <= fds.Length
        invariant fds[..fdIdx] == DoneFds(slots[..i])
      {
        assert slots[..i + 1][..i] == slots[..i];
        OccupiedMonotone(slots[..], i + 1);
        if slots[i] != null {
          fds[fdIdx] := slots[i].doneFd;
          fdIdx := fdIdx + 1;
        }
        i := i + 1;
      }
      assert slots[..capacity] == slots[..];
    }

    /**
     * task_array_join_all: joins exactly the registered tasks whose descriptor is readable, each once,
     * and skips the others.
     */
    method JoinAll(ghost known: set<TaskHandle>) returns (joined: nat, skipped: nat)
      requires Valid() && Consistent(known)
      modifies this`locked, Members()`joins
      ensures Valid()
      ensures joined == CountDone(slots[..]) && joined + skipped == Occupied(slots[..])
      ensures forall h | h in Members() :: h.joins == old(h.joins) + if h.IsDone() then 1 else 0
    {
      ghost var all := slots[..];
      assert Distinct(all);
      Lock();
      joined, skipped := 0, 0;
      var i := 0;
      while i < capacity
        invariant 0 <= i <= capacity && locked
        invariant joined == CountDone(all[..i]) && joined + skipped == Occupied(all[..i])
        invariant forall j | i <= j < |all| && all[j] != null :: all[j].joins == old(all[j].joins)
        invariant forall j | 0 <= j < i && all[j] != null ::
          all[j].joins == old(all[j].joins) + if all[j].IsDone() then 1 else 0
      {
        CountNext(all, i);
        if slots[i] != null {
          var done := slots[i].JoinIfDone();
          if done {
            joined := joined + 1;
          } else {
            skipped := skipped + 1;
          }
        }
        i := i + 1;
      }
      assert all[..capacity] == all;
      Unlock();
    }

    /**
     * task_array_handles_destroy_all: empties the array; every handle that was registered, and no
     * other, has its cleanup callback called once and its descriptor closed once. Its owner is cleared
     * before it is destroyed, so that destroying it never locks this array again.
     */
    method HandlesDestroyAll(ghost known: set<TaskHandle>, ghost arrays: set<TaskArray>)
      requires Valid() && this in arrays && AllConsistent(arrays, known)
      modifies this`locked, slots, Members()
      ensures Valid() && AllConsistent(arrays, known) && Members() == {}
      ensures forall h | h in old(Members()) :: Destroyed(h)
    {
      Lock();
      DestroyRegistered(known, arrays);
      Unlock();
    }

    /** Its loop empties the array, and leaves the others as they were. */
    method DestroyRegistered(ghost known: set<TaskHandle>, ghost arrays: set<TaskArray>)
      requires capacity == slots.Length && this in arrays && AllConsistent(arrays, known)
      modifies slots, Members()
      ensures AllConsistent(arrays, known) && Members() == {}
      ensures forall h | h in old(Members()) :: Destroyed(h)
    {
      assert Members() == Registered(known);
      DestroyEach(known, arrays);
      forall h | h in known ensures h.owner == if old(h.owner) == this then null else old(h.owner) {
        if h in old(Members()) { assert Destroyed(h); } else { assert h !in old(Registered(known)); }
      }
      assert Registered(known) == {};
      forall a | a in arrays && a != this ensures a.Consistent(known) {
        assert a.Registered(known) == old(a.Registered(known)) && old(a.Consistent(known));
      }
    }

    /** The loop of task_array_handles_destroy_all. */
    method DestroyEach(ghost known: set<TaskHandle>, ghost arrays: set<TaskArray>)
      requires capacity == slots.Length && Distinct(slots[..])
      requires forall h | h in Members() :: h in known && h.owner == this
      modifies slots, Members()
      ensures forall j | 0 <= j < slots.Length :: slots[j] == null
      ensures forall h | h in old(Members()) :: Destroyed(h)
    {
      ghost var all := slots[..];
      var i := 0;
      while i < capacity
        invariant 0 <= i <= capacity
        invariant forall j | 0 <= j < |all| :: slots[j] == if j < i then null else all[j]
        invariant forall j | i <= j < |all| && all[j] != null :: Untouched(all[j])
        invariant forall j | 0 <= j < i && all[j] != null :: Destroyed(all[j])
      {
        assert slots[i] == all[i] && (all[i] != null ==> all[i] in old(Members()));
        DestroySlot(i, known, arrays);
        assert all[i] != null ==> Destroyed(all[i]);
        i := i + 1;
      }
    }

    /** Its pass over one slot. The handle is unregistered before it is destroyed, so this array may be locked. */
    method DestroySlot(i: nat, ghost known: set<TaskHandle>, ghost arrays: set<TaskArray>)
      requires i < slots.Length && (slots[i] != null ==> slots[i] in known && slots[i].owner == this)
      modifies slots, if slots[i] == null then {} else {slots[i]}
      ensures forall j | 0 <= j < slots.Length :: slots[j] == if j == i then null else old(slots[j])
      ensures old(slots[i]) != null ==> Destroyed(old(slots[i]))
    {
      var handle := slots[i];
      if handle != null {
        handle.CleanUp();
        handle.owner := null;
        slots[i] := null;
        handle.Destroy(known, arrays);
      }
    }
  }

  twostate predicate Untouched(h: TaskHandle)
    reads h
  {
    unchanged(h)
  }

  /** Cleaned up once if it has the callback, closed once if it was open, and otherwise as before. */
  twostate predicate Destroyed(h: TaskHandle)
    reads h
  {
    && h.owner == null && h.state == Stopped && h.doneFd == -1
    && h.cleanups == old(h.cleanups) + (if old(h.hasOnCleanup) then 1 else 0)
    && h.closes == old(h.closes) + (if old(h.doneFd) != -1 then 1 else 0)
    && h.opens == old(h.opens) && h.joins == old(h.joins) && h.stops == old(h.stops) && h.cancels == old(h.cancels)
  }

  lemma CountNext(s: seq<TaskHandle?>, i: nat)
    requires i < |s|
    ensures Occupied(s[..i + 1]) == Occupied(s[..i]) + if s[i] != null then 1 else 0
    ensures CountDone(s[..i + 1]) == CountDone(s[..i]) + if s[i] != null && s[i].IsDone() then 1 else 0
  {
    assert s[..i + 1][..i] == s[..i];
  }

  /** A prefix of the slots holds no more handles than all of them. */
  lemma {:induction false} OccupiedMonotone(s: seq<TaskHandle?>, n: nat)
    requires n <= |s|
    ensures Occupied(s[..n]) <= Occupied(s)
    decreases |s| - n
  {
    if n < |s| {
      assert s[..n + 1][..n] == s[..n];
      OccupiedMonotone(s, n + 1);
    } else {
      assert s[..n] == s;
    }
  }

  /**
   * When poll reports exactly the open descriptors on which task_handle_mark_done has written, the
   * count of task_array_poll_all is the number of tasks that task_array_join_all would join.
   */
  lemma {:induction false} PolledAreJoinable(s: seq<TaskHandle?>, readable: set<int>)
    requires forall h: TaskHandle | h in s && h.doneFd >= 0 :: h.doneFd in readable <==> h.doneCount > 0
    ensures CountReady(DoneFds(s), readable) == CountDone(s)
  {
    if s != [] {
      var short, h := s[..|s| - 1], s[|s| - 1];
      PolledAreJoinable(short, readable);
      if h == null {
        assert DoneFds(s) == DoneFds(short);
      } else {
        assert h in s && DoneFds(s)[..|DoneFds(short)|] == DoneFds(short);
      }
    }
  }

  lemma ReadyWithSignal(fds: seq<int>, sigFd: int, readable: set<int>)
    ensures CountReady(fds + if sigFd >= 0 then [sigFd] else [], readable)
         == CountReady(fds, readable) + if Pollable(sigFd, readable) then 1 else 0
  {
    assert fds + [] == fds && (fds + [sigFd])[..|fds|] == fds;
  }

  /** The unlocked part of task_array_poll_all: the poll, and what it means for the tasks and the signal. */
  method AwaitAny(fds: array<int>, count: nat, sigFd: int, ghost active: seq<int>, readable: set<int>, pollFails: bool)
    returns (r: int)
    requires count == |active| && fds[..] == active + if sigFd >= 0 then [sigFd] else []
    ensures r == 0 <==> pollFails
    ensures r == -2 <==> !pollFails && Pollable(sigFd, readable)
    ensures r == -1 <==> !pollFails && !Pollable(sigFd, readable) && CountReady(active, readable) == 0
    ensures r > 0 ==> r == CountReady(active, readable)
    ensures r >= -2
  {
    var nfds := fds.Length;
    var ret, revents := Poll(fds, readable, pollFails);
    ReadyWithSignal(active, sigFd, readable);
    assert forall k | 0 <= k < count :: fds[..][k] == active[k];
    if sigFd >= 0 && ret > 0 && revents[nfds - 1] {
      return -2;
    }
    assert sigFd >= 0 ==> fds[..][nfds - 1] == sigFd;
    var completed := 0;
    if ret > 0 {
      completed := CountCompleted(revents, count, active, readable);
    }
    return if ret == 0 then -1 else completed;
  }

  /** The final count of task_array_poll_all: the tasks among the readable descriptors. */
  method CountCompleted(revents: seq<bool>, count: nat, ghost fds: seq<int>, ghost readable: set<int>)
    returns (completed: nat)
    requires count == |fds| <= |revents| && forall k | 0 <= k < |fds| :: revents[k] == Pollable(fds[k], readable)
    ensures completed == CountReady(fds, readable)
  {
    completed := 0;
    var i := 0;
    while i < count
      invariant 0 <= i <= count && completed == CountReady(fds[..i], readable)
    {
      assert fds[..i + 1][..i] == fds[..i];
      if revents[i] {
        completed := completed + 1;
      }
      i := i + 1;
    }
    assert fds[..|fds|] == fds;
  }

  /** poll: the number of readable descriptors and which they are, or -1. */
  method Poll(fds: array<int>, readable: set<int>, fails: bool) returns (ret: int, revents: seq<bool>)
    ensures |revents| == fds.Length
    ensures fails ==> ret == -1
    ensures !fails ==> ret == CountReady(fds[..], readable)
    ensures !fails ==> forall k | 0 <= k < fds.Length :: revents[k] == Pollable(fds[k], readable)
  {
    revents := seq(fds.Length, _ => false);
    if fails {
      return -1, revents;
    }
    ret, revents := 0, [];
    while |revents| < fds.Length
      invariant |revents| <= fds.Length && ret == CountReady(fds[..|revents|], readable)
      invariant forall k | 0 <= k < |revents| :: revents[k] == Pollable(fds[k], readable)
      decreases fds.Length - |revents|
    {
      var k := |revents|;
      assert fds[..k + 1][..k] == fds[..k];
      revents := revents + [Pollable(fds[k], readable)];
      ret := ret + if Pollable(fds[k], readable) then 1 else 0;
    }
    assert fds[..|revents|] == fds[..];
  }

  /**
   * What main does with an array once its tasks had their chance to stop: everything registered is
   * joined or skipped, then cleaned up and closed exactly once, and the array is empty.
   */
  method JoinAndDestroy(arr: TaskArray, ghost known: set<TaskHandle>, ghost arrays: set<TaskArray>)
    returns (joined: nat, skipped: nat)
    requires arr.Valid() && arr in arrays && AllConsistent(arrays, known)
    modifies arr, arr.slots, arr.Members()
    ensures arr.Valid() && arr.slots == old(arr.slots) && AllConsistent(arrays, known) && arr.Members() == {}
    ensures joined + skipped == old(Occupied(arr.slots[..])) && joined == old(CountDone(arr.slots[..]))
    ensures forall h | h in old(arr.Members()) ::
      && h.owner == null && h.doneFd == -1 && h.state == Stopped
      && h.opens == old(h.opens) && h.stops == old(h.stops) && h.cancels == old(h.cancels)
      && h.joins == old(h.joins) + (if old(h.IsDone()) then 1 else 0)
      && h.cleanups == old(h.cleanups) + (if old(h.hasOnCleanup) then 1 else 0)
      && h.closes == old(h.closes) + (if old(h.doneFd) != -1 then 1 else 0)
  {
    joined, skipped := arr.JoinAll(known);
    arr.HandlesDestroyAll(known, arrays);
  }
}
