/**
 Shared memory segments of ipc/shm.c on top of the id table.

 Segments live in the slots of shm_ids; a segment's file tells it apart from every
 other segment there ever was. do_shmat pins a segment by counting itself in
 shm_nattch while it maps it, and every mapping counts itself as well. The methods
 are the sections the code runs under shm_ids.rwsem or the segment's lock; between two
 of them any other may run. Security hooks always allow; permission checks, memory
 allocation and the mapping itself are parameters.
 */
module Shm {
  import opened Options
  import opened IpcIds

  const EACCES: int := 13
  const ENOENT: int := 2
  const EPERM: int := 1
  const EINVAL: int := 22
  const SHMMIN: nat := 1
  const PAGE_SIZE: nat := 4096
  const WORD: nat := 0x1_0000_0000_0000_0000  // one more than the largest unsigned long

  /** struct shmid_kernel. dest is SHM_DEST; creator is the task whose shm_clist holds
      the segment, if any still does. */
  datatype Seg = Seg(size: nat, nattch: int, dest: bool, file: nat, creator: Option<nat>)

  /** struct shm_file_data: what a pin or a mapping remembers of its segment */
  datatype Use = Use(idx: nat, file: nat)

  type Segs = map<nat, Seg>

  /** The size in pages, rounded up */
  function Pages(size: nat): nat {
    (size + PAGE_SIZE - 1) / PAGE_SIZE
  }

  /** numpages in newseg: the same sum in an unsigned long */
  function NumPages(size: nat): nat {
    (size + PAGE_SIZE - 1) % WORD / PAGE_SIZE
  }

  /** The pages cover the size, and no page is wasted. */
  lemma PagesCover(size: nat)
    ensures 4096 * Pages(size) >= size && (size > 0 ==> 4096 * (Pages(size) - 1) < size) && Pages(0) == 0
  {
  }

  /** newseg's check on numpages catches exactly the sums that wrapped. */
  lemma NumPagesCheck(size: nat)
    requires SHMMIN <= size < WORD
    ensures NumPages(size) * PAGE_SIZE % WORD < size <==> size + PAGE_SIZE - 1 >= WORD
    ensures size + PAGE_SIZE - 1 < WORD ==> NumPages(size) == Pages(size)
  {
  }

  /** The pages of the segments in the slots below k */
  function PageSum(segs: Segs, k: nat): nat {
    if k == 0 then 0 else PageSum(segs, k - 1) + (if k - 1 in segs then Pages(segs[k - 1].size) else 0)
  }

  lemma {:induction false} PageSumAdd(segs: Segs, i: nat, s: Seg, k: nat)
    requires i !in segs
    ensures PageSum(segs[i := s], k) == PageSum(segs, k) + (if i < k then Pages(s.size) else 0)
  {
    if k > 0 {
      PageSumAdd(segs, i, s, k - 1);
    }
  }

  lemma {:induction false} PageSumSame(segs: Segs, segs': Segs, k: nat)
    requires segs'.Keys == segs.Keys && forall i | i in segs :: segs'[i].size == segs[i].size
    ensures PageSum(segs', k) == PageSum(segs, k)
  {
    if k > 0 {
      PageSumSame(segs, segs', k - 1);
    }
  }

  lemma PageSumRemove(segs: Segs, i: nat, k: nat)
    requires i in segs && i < k
    ensures PageSum(segs - {i}, k) == PageSum(segs, k) - Pages(segs[i].size)
  {
    PageSumAdd(segs - {i}, i, segs[i], k);
    assert (segs - {i})[i := segs[i]] == segs;
  }

  // The invariant of a segment and its users

  /** shm_nattch counts the segment's pins and mappings; a segment marked for destruction
      has no key any more and, unless it is the one in slot but, is still used. */
  ghost predicate Kept(i: nat, s: Seg, key: int, uses: multiset<Use>, nextFile: nat, but: int) {
    && s.nattch == uses[Use(i, s.file)]
    && s.file < nextFile
    && s.size + PAGE_SIZE - 1 < WORD
    && (s.dest ==> key == IPC_PRIVATE && (s.nattch > 0 || i == but))
  }

  predicate Live(u: Use, segs: Segs) {
    u.idx in segs && segs[u.idx].file == u.file
  }

  ghost predicate Sane(segs: Segs, slots: Slots, uses: multiset<Use>, nextFile: nat, but: int) {
    && segs.Keys == slots.Keys
    && (forall i | i in segs :: Kept(i, segs[i], slots[i].key, uses, nextFile, but))
    && (forall u | u in uses :: Live(u, segs))
  }

  /** What holds of a segment, and of its users */
  lemma SaneAt(segs: Segs, slots: Slots, uses: multiset<Use>, nextFile: nat, but: int, i: nat)
    requires Sane(segs, slots, uses, nextFile, but)
    ensures segs.Keys == slots.Keys
    ensures i in segs ==> Kept(i, segs[i], slots[i].key, uses, nextFile, but)
  {
  }

  lemma SaneUse(segs: Segs, slots: Slots, uses: multiset<Use>, nextFile: nat, u: Use)
    requires Sane(segs, slots, uses, nextFile, -1) && Live(u, segs)
    ensures Sane(segs[u.idx := segs[u.idx].(nattch := segs[u.idx].nattch + 1)], slots, uses + multiset{u}, nextFile, -1)
  {
    var s' := segs[u.idx := segs[u.idx].(nattch := segs[u.idx].nattch + 1)];
    forall i | i in s'
      ensures Kept(i, s'[i], slots[i].key, uses + multiset{u}, nextFile, -1)
    {
      assert Kept(i, segs[i], slots[i].key, uses, nextFile, -1);
    }
  }

  lemma SaneLeave(segs: Segs, slots: Slots, uses: multiset<Use>, nextFile: nat, u: Use)
    requires Sane(segs, slots, uses + multiset{u}, nextFile, -1)
    ensures Live(u, segs)
    ensures Sane(segs[u.idx := segs[u.idx].(nattch := segs[u.idx].nattch - 1)], slots, uses, nextFile, u.idx)
  {
    assert u in uses + multiset{u};
    var s' := segs[u.idx := segs[u.idx].(nattch := segs[u.idx].nattch - 1)];
    forall i | i in s'
      ensures Kept(i, s'[i], slots[i].key, uses, nextFile, u.idx)
    {
      assert Kept(i, segs[i], slots[i].key, uses + multiset{u}, nextFile, -1);
    }
    forall v | v in uses
      ensures Live(v, s')
    {
      assert v in uses + multiset{u};
    }
  }

  /** The exception for slot but is over once its segment is not to be destroyed. */
  lemma SaneSettled(segs: Segs, slots: Slots, uses: multiset<Use>, nextFile: nat, but: nat)
    requires Sane(segs, slots, uses, nextFile, but)
    requires but in segs && segs[but].dest ==> segs[but].nattch != 0
    ensures Sane(segs, slots, uses, nextFile, -1)
  {
    forall i | i in segs
      ensures Kept(i, segs[i], slots[i].key, uses, nextFile, -1)
    {
      assert Kept(i, segs[i], slots[i].key, uses, nextFile, but);
    }
  }

  lemma SaneExcept(segs: Segs, slots: Slots, uses: multiset<Use>, nextFile: nat, but: nat)
    requires Sane(segs, slots, uses, nextFile, -1)
    ensures Sane(segs, slots, uses, nextFile, but)
  {
    forall i | i in segs
      ensures Kept(i, segs[i], slots[i].key, uses, nextFile, but)
    {
      assert Kept(i, segs[i], slots[i].key, uses, nextFile, -1);
    }
  }

  lemma SaneDestroy(segs: Segs, slots: Slots, uses: multiset<Use>, nextFile: nat, i: nat)
    requires Sane(segs, slots, uses, nextFile, i) && i in segs && segs[i].nattch == 0
    ensures Sane(segs - {i}, slots - {i}, uses, nextFile, -1)
  {
    assert Kept(i, segs[i], slots[i].key, uses, nextFile, i);
    forall u | u in uses
      ensures Live(u, segs - {i})
    {
      assert Live(u, segs);
    }
    forall j | j in segs - {i}
      ensures Kept(j, (segs - {i})[j], (slots - {i})[j].key, uses, nextFile, -1)
    {
      assert Kept(j, segs[j], slots[j].key, uses, nextFile, i);
    }
  }

  lemma SaneAdd(segs: Segs, slots: Slots, uses: multiset<Use>, nextFile: nat, i: nat, s: Seg, p: Perm)
    requires Sane(segs, slots, uses, nextFile, -1) && i !in segs
    requires s.nattch == 0 && !s.dest && s.file == nextFile && s.size + PAGE_SIZE - 1 < WORD
    ensures Sane(segs[i := s], slots[i := p], uses, nextFile + 1, -1)
  {
    var s', t' := segs[i := s], slots[i := p];
    forall u | u in uses
      ensures Live(u, s') && u.idx != i
    {
      assert Live(u, segs);
    }
    forall j | j in s'
      ensures Kept(j, s'[j], t'[j].key, uses, nextFile + 1, -1)
    {
      if j != i {
        assert Kept(j, segs[j], slots[j].key, uses, nextFile, -1);
      }
    }
  }

  lemma SaneMark(segs: Segs, slots: Slots, uses: multiset<Use>, nextFile: nat, i: nat)
    requires Sane(segs, slots, uses, nextFile, -1) && i in segs && segs[i].nattch != 0
    ensures Sane(segs[i := segs[i].(dest := true)], slots[i := slots[i].(key := IPC_PRIVATE)], uses, nextFile, -1)
  {
    var s', t' := segs[i := segs[i].(dest := true)], slots[i := slots[i].(key := IPC_PRIVATE)];
    forall j | j in s'
      ensures Kept(j, s'[j], t'[j].key, uses, nextFile, -1)
    {
      assert Kept(j, segs[j], slots[j].key, uses, nextFile, -1);
    }
    forall u | u in uses
      ensures Live(u, s')
    {
      assert Live(u, segs);
    }
  }

  lemma SaneUnlink(segs: Segs, slots: Slots, uses: multiset<Use>, nextFile: nat, i: nat)
    requires Sane(segs, slots, uses, nextFile, -1) && i in segs
    ensures Sane(segs[i := segs[i].(creator := None)], slots, uses, nextFile, -1)
  {
    var s' := segs[i := segs[i].(creator := None)];
    forall j | j in s'
      ensures Kept(j, s'[j], slots[j].key, uses, nextFile, -1)
    {
      assert Kept(j, segs[j], slots[j].key, uses, nextFile, -1);
    }
    forall u | u in uses
      ensures Live(u, s')
    {
      assert Live(u, segs);
    }
  }

  /** Somebody who counted himself finds his segment, with a positive count. */
  lemma UserFinds(segs: Segs, slots: Slots, uses: multiset<Use>, nextFile: nat, u: Use)
    requires Sane(segs, slots, uses, nextFile, -1) && u in uses
    ensures Live(u, segs) && segs[u.idx].nattch > 0
  {
    assert Live(u, segs);
    assert Kept(u.idx, segs[u.idx], slots[u.idx].key, uses, nextFile, -1);
  }

  /** shm_may_destroy */
  predicate MayDestroy(s: Seg, forced: bool) {
    s.nattch == 0 && (forced || s.dest)
  }

  /** The segments after the last step of a user's leaving: one user less, and the segment
      gone if it may be destroyed now. */
  function AfterLeave(segs: Segs, i: nat, forced: bool): Segs
    requires i in segs
  {
    var s := segs[i].(nattch := segs[i].nattch - 1);
    if MayDestroy(s, forced) then segs - {i} else segs[i := s]
  }

  /** One user less, without whom the segment is gone if and only if he was the last and it was
      marked for destruction or shm_rmid_forced is set; all others as they were. */
  ghost predicate Departed(segs: Segs, segs': Segs, u: Use, forced: bool) {
    && u.idx in segs
    && (u.idx !in segs' <==> segs[u.idx].nattch == 1 && (segs[u.idx].dest || forced))
    && (u.idx in segs' ==> segs'[u.idx] == segs[u.idx].(nattch := segs[u.idx].nattch - 1))
    && segs' - {u.idx} == segs - {u.idx}
  }

  lemma LeaveDeparts(segs: Segs, u: Use, forced: bool)
    requires u.idx in segs
    ensures Departed(segs, AfterLeave(segs, u.idx, forced), u, forced)
  {
    assert AfterLeave(segs, u.idx, forced) - {u.idx} == segs - {u.idx};
  }

  /** Of the segments whose creator is gone, those go that nobody uses and that are marked for
      destruction, or are not but shm_rmid_forced is set; all others stay as they were. */
  ghost predicate Swept(segs: Segs, segs': Segs, forced: bool) {
    && segs'.Keys <= segs.Keys
    && forall i | i in segs ::
         && (i in segs' ==> segs'[i] == segs[i])
         && (i !in segs' <==> segs[i].creator == None && segs[i].nattch == 0 && (segs[i].dest || forced))
  }

  lemma OrphansStart(segs: Segs, forced: bool, k: nat)
    ensures AfterOrphans(segs, forced, 0) == segs
    ensures segs == map[] ==> AfterOrphans(segs, forced, k) == segs
  {
  }

  lemma OrphansStep(segs: Segs, forced: bool, k: nat)
    ensures var s := AfterOrphans(segs, forced, k);
            AfterOrphans(segs, forced, k + 1) ==
            if k in s && s[k].creator.None? && MayDestroy(s[k], forced) then s - {k} else s
  {
  }

  lemma OrphansGone(segs: Segs, forced: bool, k: nat)
    requires forall i | i in segs :: i < k
    ensures var s := AfterOrphans(segs, forced, k); forall i | i in s :: s[i].creator.None? ==> !MayDestroy(s[i], forced)
  {
  }

  lemma Unused(s: Seg, forced: bool)
    requires MayDestroy(s, forced)
    ensures s.nattch == 0
  {
  }

  lemma OrphansSwept(segs: Segs, forced: bool, k: nat)
    requires forall i | i in segs :: i < k
    ensures Swept(segs, AfterOrphans(segs, forced, k), forced)
  {
  }

  /** Of the task's segments, those nobody uses go if shm_rmid_forced is set, and the others have no
      creator any more; all other segments stay as they were. */
  ghost predicate Orphaned(segs: Segs, segs': Segs, task: nat, forced: bool) {
    && segs'.Keys <= segs.Keys
    && forall i | i in segs ::
         && (i !in segs' <==> segs[i].creator == Some(task) && segs[i].nattch == 0 && forced)
         && (i in segs' ==> segs'[i] == if segs[i].creator == Some(task) then segs[i].(creator := None) else segs[i])
  }

  lemma ExitOrphans(segs: Segs, task: nat, forced: bool)
    ensures Orphaned(segs, AfterExit(segs, task, forced), task, forced)
  {
  }

  /** What exit_shm leaves: the task's segments nobody uses are destroyed if shm_rmid_forced
      is set, the others lose their creator. */
  function AfterExit(segs: Segs, task: nat, forced: bool): Segs {
    map i | i in segs && !(segs[i].creator == Some(task) && forced && segs[i].nattch == 0) ::
      if segs[i].creator == Some(task) then segs[i].(creator := None) else segs[i]
  }

  /** What shm_destroy_orphaned leaves of the slots below k */
  function AfterOrphans(segs: Segs, forced: bool, k: nat): Segs {
    map i | i in segs && !(i < k && segs[i].creator.None? && MayDestroy(segs[i], forced)) :: segs[i]
  }

  /** The segments created by a task that still lists them */
  function Owned(segs: Segs, task: nat): set<nat> {
    set i | i in segs && segs[i].creator == Some(task)
  }

  lemma OwnedSays(segs: Segs, task: nat)
    ensures forall i :: i in Owned(segs, task) <==> i in segs && segs[i].creator == Some(task)
  {
  }

  lemma NoneOwned(segs: Segs, task: nat, forced: bool)
    requires Owned(segs, task) == {}
    ensures AfterExit(segs, task, forced) == segs
  {
    OwnedSays(segs, task);
  }

  /** One turn of exit_shm's loop is part of the whole. */
  lemma ExitStep(segs: Segs, i: nat, task: nat, forced: bool)
    requires i in segs && segs[i].creator == Some(task)
    ensures var s := segs[i := segs[i].(creator := None)];
            var s' := if forced && MayDestroy(s[i], forced) then s - {i} else s;
            && AfterExit(s', task, forced) == AfterExit(segs, task, forced)
            && Owned(s', task) == Owned(segs, task) - {i}
  {
  }

  /** What newseg does not decide itself: whether memory and the file can be had, the free
      index ipc_addid gets or the error, and whether the key table can grow */
  datatype Env = Env(memOk: bool, fileError: nat, pick: Option<nat>, allocError: nat, keyFails: bool)

  /** What a task may do: the atomic sections of the system calls, of fork and exit, and of
      the sysctl */
  datatype Op =
    | Get(key: int, size: nat, creat: bool, excl: bool, denied: bool, task: nat, env: Env)
    | Remove(shmid: nat, denied: bool)
    | StartAt(shmid: nat, denied: bool)
    | EndAt(shmid: nat, u: Use)
    | NewMap(u: Use, error: nat)
    | Unmap(u: Use)
    | Force(on: bool)
    | Unlink(task: nat, i: nat)
    | Finish(u: Use)

  lemma {:induction false} PageSumEmpty(k: nat)
    ensures PageSum(map[], k) == 0
  {
    if k > 0 {
      PageSumEmpty(k - 1);
    }
  }

  class ShmNs {
    const ids: Ids
    const ctlMax: nat  // shm_ctlmax
    const ctlAll: nat  // shm_ctlall
    const ctlMni: int  // shm_ctlmni
    var segs: Segs
    var shmTot: nat    // shm_tot
    var forced: bool   // shm_rmid_forced
    var nextFile: nat
    var pins: multiset<Use>  // do_shmat calls between their two locked sections
    var maps: multiset<Use>  // mappings

    ghost predicate Books(uses: multiset<Use>, but: int)
      reads this`segs, this`shmTot, this`nextFile, ids`slots
    {
      && Sane(segs, ids.slots, uses, nextFile, but)
      && shmTot == PageSum(segs, ids.mni)
      && shmTot < WORD && ctlAll < WORD
    }

    ghost predicate Valid()
      reads this, ids
    {
      ids.Valid() && Books(pins + maps, -1)
    }

    /** shm_init_ns */
    constructor (ids: Ids, ctlMax: nat, ctlAll: nat, ctlMni: int)
      requires ids.Valid() && ids.slots == map[]
      requires ctlAll < WORD
      ensures Valid() && this.ids == ids && segs == map[] && shmTot == 0 && !forced
      ensures this.ctlMax == ctlMax && this.ctlAll == ctlAll && this.ctlMni == ctlMni
    {
      this.ids, this.ctlMax, this.ctlAll, this.ctlMni := ids, ctlMax, ctlAll, ctlMni;
      segs, shmTot, forced, nextFile := map[], 0, false, 0;
      pins, maps := multiset{}, multiset{};
      new;
      PageSumEmpty(ids.mni);
    }

    /** shm_destroy. Nobody may be using the segment. */
    method Destroy(i: nat, ghost uses: multiset<Use>)
      requires ids.Valid() && Books(uses, i) && i in segs && segs[i].nattch == 0
      modifies this`segs, this`shmTot, ids`slots, ids`keys, ids`inUse, ids`maxIdx, ids`born
      ensures ids.Valid() && Books(uses, -1)
      ensures segs == old(segs) - {i}
      ensures ids.slots == old(ids.slots) - {i} && ids.keys == old(ids.keys) - {old(ids.slots)[i].key}
    {
      hide Sane, PageSum, Ids.Valid;
      SaneAt(segs, ids.slots, uses, nextFile, i, i);
      ids.SlotBelow(i);
      SaneDestroy(segs, ids.slots, uses, nextFile, i);
      PageSumRemove(segs, i, ids.mni);
      shmTot := shmTot - (segs[i].size + PAGE_SIZE - 1) / PAGE_SIZE;
      ids.RmId(i);
      segs := segs - {i};
    }

    /** The end of shm_close and of do_shmat: one user less, and the segment goes with the
        last one if it may be destroyed. */
    method Leave(u: Use, ghost uses: multiset<Use>)
      requires ids.Valid() && Books(uses + multiset{u}, -1)
      modifies this`segs, this`shmTot, ids`slots, ids`keys, ids`inUse, ids`maxIdx, ids`born
      ensures ids.Valid() && Books(uses, -1)
      ensures Live(u, old(segs)) && segs == AfterLeave(old(segs), u.idx, forced)
      ensures Departed(old(segs), segs, u, forced)
    {
      hide Sane, PageSum, Ids.Valid;
      SaneLeave(segs, ids.slots, uses, nextFile, u);
      LeaveDeparts(segs, u, forced);
      var s := segs[u.idx].(nattch := segs[u.idx].nattch - 1);
      PageSumSame(segs, segs[u.idx := s], ids.mni);
      segs := segs[u.idx := s];
      if MayDestroy(s, forced) {
        Destroy(u.idx, uses);
        assert segs == old(segs) - {u.idx};
      } else {
        SaneSettled(segs, ids.slots, uses, nextFile, u.idx);
      }
    }

    /** shm_close */
    method Close(u: Use)
      requires Valid() && u in maps
      modifies this`segs, this`shmTot, this`maps, ids`slots, ids`keys, ids`inUse, ids`maxIdx, ids`born
      ensures Valid() && maps == old(maps) - multiset{u}
      ensures Live(u, old(segs)) && segs == AfterLeave(old(segs), u.idx, forced)
      ensures Departed(old(segs), segs, u, forced)
    {
      hide Sane, PageSum, Ids.Valid, AfterLeave, Departed;
      maps := maps - multiset{u};
      assert pins + maps + multiset{u} == pins + old(maps);
      Leave(u, pins + maps);
    }

    /** __shm_open: fails if the segment is gone, also if its id was used again. */
    method Open(u: Use) returns (err: int)
      requires Valid()
      modifies this`segs, this`maps
      ensures Valid()
      ensures err == if Live(u, old(segs)) then 0 else -EINVAL
      ensures err == 0 ==>
                && maps == old(maps) + multiset{u}
                && u.idx in old(segs) && segs == Bumped(old(segs), u.idx, 1)
                && segs == old(segs)[u.idx := old(segs)[u.idx].(nattch := old(segs)[u.idx].nattch + 1)]
      ensures err != 0 ==> maps == old(maps) && segs == old(segs)
    {
      hide Sane, PageSum, Ids.Valid;
      if u.idx !in segs || segs[u.idx].file != u.file {
        return -EINVAL;
      }
      SaneUse(segs, ids.slots, pins + maps, nextFile, u);
      var s := segs[u.idx].(nattch := segs[u.idx].nattch + 1);
      PageSumSame(segs, segs[u.idx := s], ids.mni);
      segs := segs[u.idx := s];
      maps := maps + multiset{u};
      assert pins + maps == pins + old(maps) + multiset{u};
      return 0;
    }

    /** The first half of do_shmat: find the segment by its full id and count in. */
    method Pin(shmid: nat, denied: bool) returns (err: int, u: Use)
      requires Valid()
      modifies this`segs, this`pins
      ensures Valid()
      ensures var found := Lookup(ids.slots, ids.shift, shmid);
              err == if found.None? then -EINVAL else if denied then -EACCES else 0
      ensures err == 0 ==>
                && u.idx == IdxOf(shmid, ids.shift) && Live(u, old(segs)) && pins == old(pins) + multiset{u}
                && u.idx in old(segs) && segs == Bumped(old(segs), u.idx, 1)
                && segs == old(segs)[u.idx := old(segs)[u.idx].(nattch := old(segs)[u.idx].nattch + 1)]
      ensures err != 0 ==> pins == old(pins) && segs == old(segs)
    {
      hide Sane, PageSum, Ids.Valid;
      u := Use(0, 0);
      var found := ids.ObtainObjectCheck(shmid);
      if found.None? {
        return -EINVAL, u;
      }
      if denied {
        return -EACCES, u;
      }
      var i := found.value;
      SaneAt(segs, ids.slots, pins + maps, nextFile, -1, i);
      u := Use(i, segs[i].file);
      SaneUse(segs, ids.slots, pins + maps, nextFile, u);
      var s := segs[i].(nattch := segs[i].nattch + 1);
      PageSumSame(segs, segs[i := s], ids.mni);
      segs := segs[i := s];
      pins := pins + multiset{u};
      assert pins + maps == old(pins) + maps + multiset{u};
      err := 0;
    }

    /** The second half of do_shmat: the lookup by index alone finds the segment that was
        pinned, whatever ran in between. */
    method Unpin(shmid: nat, u: Use)
      requires Valid() && u in pins && u.idx == IdxOf(shmid, ids.shift)
      modifies this`segs, this`shmTot, this`pins, ids`slots, ids`keys, ids`inUse, ids`maxIdx, ids`born
      ensures Valid() && pins == old(pins) - multiset{u}
      ensures Live(u, old(segs)) && segs == AfterLeave(old(segs), u.idx, forced)
      ensures Departed(old(segs), segs, u, forced)
    {
      hide Sane, PageSum, Ids.Valid, AfterLeave, Departed;
      pins := pins - multiset{u};
      assert pins + maps + multiset{u} == old(pins) + maps;
      Leave(u, pins + maps);
    }

    /** do_shm_rmid: a segment in use only loses its key and is marked. */
    method DoRmid(i: nat)
      requires Valid() && i in segs
      modifies this`segs, this`shmTot, ids`slots, ids`keys, ids`inUse, ids`maxIdx, ids`born
      ensures Valid()
      ensures segs == if old(segs)[i].nattch == 0 then old(segs) - {i} else old(segs)[i := old(segs)[i].(dest := true)]
      ensures old(ids.slots)[i].key !in ids.keys
    {
      hide Sane, PageSum, Ids.Valid;
      SaneAt(segs, ids.slots, pins + maps, nextFile, -1, i);
      if segs[i].nattch != 0 {
        SaneMark(segs, ids.slots, pins + maps, nextFile, i);
        PageSumSame(segs, segs[i := segs[i].(dest := true)], ids.mni);
        segs := segs[i := segs[i].(dest := true)];
        ids.SetKeyPrivate(i);
      } else {
        SaneExcept(segs, ids.slots, pins + maps, nextFile, i);
        Destroy(i, pins + maps);
      }
    }

    /** shmctl_down with IPC_RMID */
    method Rmid(shmid: nat, denied: bool) returns (err: int)
      requires Valid()
      modifies this`segs, this`shmTot, ids`slots, ids`keys, ids`inUse, ids`maxIdx, ids`born
      ensures Valid()
      ensures var found := old(Lookup(ids.slots, ids.shift, shmid));
              if found.None? then err == -EINVAL && segs == old(segs)
              else if denied then err == -EPERM && segs == old(segs)
              else
                && err == 0 && found.value in old(segs)
                && (found.value in segs <==> old(segs)[found.value].nattch != 0)
                && (found.value in segs ==> segs[found.value].dest)
                && segs - {found.value} == old(segs) - {found.value}
    {
      hide Sane, PageSum, Ids.Valid;
      var found := ids.ObtainObjectCheck(shmid);
      if found.None? {
        return -EINVAL;
      }
      if denied {
        return -EPERM;
      }
      SaneAt(segs, ids.slots, pins + maps, nextFile, -1, found.value);
      DoRmid(found.value);
      return 0;
    }

    /** shm_destroy_orphaned */
    method DestroyOrphaned()
      requires Valid()
      modifies this`segs, this`shmTot, ids`slots, ids`keys, ids`inUse, ids`maxIdx, ids`born
      ensures Valid()
      ensures segs == AfterOrphans(old(segs), forced, ids.mni)
      ensures Swept(old(segs), segs, forced)
      ensures forall i | i in segs :: segs[i].creator.None? ==> !MayDestroy(segs[i], forced)
    {
      hide Sane, PageSum, Ids.Valid, Swept, AfterOrphans, MayDestroy;
      AllBelow();
      OrphansSwept(segs, forced, ids.mni);
      OrphansStart(segs, forced, ids.mni);
      if ids.inUse != 0 {
        for i := 0 to ids.mni
          invariant Valid()
          invariant segs == AfterOrphans(old(segs), forced, i)
        {
          OrphansStep(old(segs), forced, i);
          if i in segs && segs[i].creator.None? && MayDestroy(segs[i], forced) {
            Unused(segs[i], forced);
            SaneExcept(segs, ids.slots, pins + maps, nextFile, i);
            Destroy(i, pins + maps);
          }
        }
      }
      ids.NoneInUse();
      SaneAt(segs, ids.slots, pins + maps, nextFile, -1, 0);
      OrphansGone(old(segs), forced, ids.mni);
    }

    /** Writing the sysctl kernel.shm_rmid_forced */
    method SetForced(on: bool)
      requires Valid()
      modifies this`segs, this`shmTot, this`forced, ids`slots, ids`keys, ids`inUse, ids`maxIdx, ids`born
      ensures Valid() && forced == on
      ensures segs == if on then AfterOrphans(old(segs), true, ids.mni) else old(segs)
      ensures on ==> Swept(old(segs), segs, true)
    {
      hide Sane, PageSum, Ids.Valid, AfterOrphans, Swept;
      forced := on;
      if on {
        DestroyOrphaned();
      }
    }

    /** exit_shm under the task's lock: take a segment off the task's list. A reference comes
        back if the segment has to be looked at again. */
    method ExitUnlink(task: nat, i: nat) returns (again: Option<Use>)
      requires Valid() && i in segs && segs[i].creator == Some(task)
      modifies this`segs
      ensures Valid()
      ensures segs == old(segs)[i := old(segs)[i].(creator := None)]
      ensures again == if forced then Some(Use(i, segs[i].file)) else None
    {
      hide Sane, PageSum, Ids.Valid;
      SaneUnlink(segs, ids.slots, pins + maps, nextFile, i);
      PageSumSame(segs, segs[i := segs[i].(creator := None)], ids.mni);
      segs := segs[i := segs[i].(creator := None)];
      return if forced then Some(Use(i, segs[i].file)) else None;
    }

    /** exit_shm under shm_ids.rwsem: the segment may have been destroyed in the meantime, and
        its slot may be another's. */
    method ExitFinish(u: Use)
      requires Valid()
      modifies this`segs, this`shmTot, ids`slots, ids`keys, ids`inUse, ids`maxIdx, ids`born
      ensures Valid()
      ensures segs == if Live(u, old(segs)) && MayDestroy(old(segs)[u.idx], forced) then old(segs) - {u.idx} else old(segs)
      ensures u.idx in old(segs) ==>
                (u.idx !in segs <==> old(segs)[u.idx].file == u.file && old(segs)[u.idx].nattch == 0
                                     && (old(segs)[u.idx].dest || forced))
    {
      hide Sane, PageSum, Ids.Valid;
      if Live(u, segs) && MayDestroy(segs[u.idx], forced) {
        SaneExcept(segs, ids.slots, pins + maps, nextFile, u.idx);
        Destroy(u.idx, pins + maps);
      }
    }

    /** exit_shm with nobody else running: the loop takes the task's segments one by one,
        in any order. */
    method ExitShm(task: nat)
      requires Valid()
      modifies this`segs, this`shmTot, ids`slots, ids`keys, ids`inUse, ids`maxIdx, ids`born
      ensures Valid()
      ensures segs == AfterExit(old(segs), task, forced)
      ensures Orphaned(old(segs), segs, task, forced)
      ensures Owned(segs, task) == {}
    {
      hide Valid, AfterExit, Owned, MayDestroy, Orphaned;
      ExitOrphans(segs, task, forced);
      OwnedSays(segs, task);
      while Owned(segs, task) != {}
        invariant Valid()
        invariant AfterExit(segs, task, forced) == AfterExit(old(segs), task, forced)
        decreases |Owned(segs, task)|
      {
        var i :| i in Owned(segs, task);
        OwnedSays(segs, task);
        ExitStep(segs, i, task, forced);
        var again := ExitUnlink(task, i);
        if again.Some? {
          ExitFinish(again.value);
        }
      }
      NoneOwned(segs, task, forced);
    }

    /** What newseg leaves when it returns an id */
    ghost predicate Created(r: nat, key: int, size: nat, task: nat, segs0: Segs, slots0: Slots)
      reads this`segs, ids`slots
    {
      var i := IdxOf(r, ids.shift);
      && i !in segs0
      && (exists file: nat :: segs == segs0[i := Seg(size, 0, false, file, Some(task))])
      && Lookup(ids.slots, ids.shift, r) == Some(i)
      && ids.slots.Keys == slots0.Keys + {i}
      && ids.slots[i].key == key
    }

    /** newseg */
    method NewSeg(key: int, size: nat, task: nat, env: Env) returns (r: int)
      requires Valid() && size < WORD && Possible(env)
      modifies this`segs, this`shmTot, this`nextFile, ids
      ensures Valid()
      ensures size < SHMMIN || size > ctlMax ==> r == -EINVAL
      ensures SHMMIN <= size <= ctlMax && (size + PAGE_SIZE - 1 >= WORD || old(shmTot) + Pages(size) > ctlAll) ==> r == -ENOSPC
      ensures r < 0 ==> segs == old(segs) && ids.slots == old(ids.slots) && ids.keys == old(ids.keys) && shmTot == old(shmTot)
      ensures r >= 0 ==>
                && Created(r, key, size, task, old(segs), old(ids.slots))
                && key !in old(ids.keys)
                && shmTot == old(shmTot) + Pages(size) <= ctlAll
    {
      hide Sane, PageSum, Ids.Valid, Lookup, IdxOf;
      var numpages := (size + PAGE_SIZE - 1) % WORD / PAGE_SIZE;
      if size < SHMMIN || size > ctlMax {
        return -EINVAL;
      }
      NumPagesCheck(size);
      if numpages * PAGE_SIZE % WORD < size {
        return -ENOSPC;
      }
      var sum := (shmTot + numpages) % WORD;
      if sum < shmTot || sum > ctlAll {
        return -ENOSPC;
      }
      if !env.memOk {
        return -ENOMEM;
      }
      if env.fileError != 0 {
        return 0 - env.fileError;
      }
      r := ids.AddId(key, nextFile, ctlMni, env.pick, env.allocError, env.keyFails);
      if r < 0 {
        return;
      }
      var i := r;
      SaneAt(segs, old(ids.slots), pins + maps, nextFile, -1, i);
      var s := Seg(size, 0, false, nextFile, Some(task));
      SaneAdd(segs, old(ids.slots), pins + maps, nextFile, i, s, ids.slots[i]);
      ids.SlotBelow(i);
      PageSumAdd(segs, i, s, ids.mni);
      segs := segs[i := s];
      nextFile := nextFile + 1;
      shmTot := shmTot + numpages;
      r := MakeId(ids.slots[i].seqNo, i, ids.shift);
      LiveIds(ids.slots, ids.shift, i);
      IdParts(ids.slots[i].seqNo, i, ids.shift);
    }

    /** What the allocators may do to newseg */
    ghost predicate Possible(env: Env)
      reads this, ids
      requires Valid()
    {
      && env.allocError > 0
      && (env.pick.Some? ==> env.pick.value !in ids.slots && env.pick.value < ids.CycleBound())
    }

    /**
     shmget (ipcget). Whatever it does, an id it returns finds a segment with the key asked
     for and at least the size asked for; with IPC_CREAT and IPC_EXCL, a new one.
     */
    method ShmGet(key: int, size: nat, creat: bool, excl: bool, denied: bool, task: nat, env: Env) returns (r: int)
      requires Valid() && size < WORD && Possible(env)
      modifies this`segs, this`shmTot, this`nextFile, ids
      ensures Valid()
      ensures key != IPC_PRIVATE && key !in old(ids.keys) && !creat ==> r == -ENOENT
      ensures key in old(ids.keys) ==>
                && segs == old(segs) && ids.slots == old(ids.slots)
                && old(ids.keys)[key] in segs
                && r == GetExisting(old(ids.keys)[key], segs[old(ids.keys)[key]], size, creat && excl, denied)
      ensures r < 0 ==> segs == old(segs) && ids.slots == old(ids.slots)
      ensures r >= 0 ==> Got(r, key, size)
      ensures r >= 0 && (key == IPC_PRIVATE || (creat && excl)) ==> Created(r, key, size, task, old(segs), old(ids.slots))
    {
      hide Sane, PageSum, Ids.Valid, Lookup, IdxOf, Created, Possible;
      if key == IPC_PRIVATE {
        ids.NoPrivateKey();
        r := NewSeg(key, size, task, env);
        CreatedGot(r, key, size, task, old(segs), old(ids.slots));
        return;
      }
      var found := ids.FindKey(key);
      if found.None? {
        if !creat {
          return -ENOENT;
        }
        r := NewSeg(key, size, task, env);
        CreatedGot(r, key, size, task, old(segs), old(ids.slots));
        return;
      }
      var i := found.value;
      SaneAt(segs, ids.slots, pins + maps, nextFile, -1, i);
      ids.SlotBelow(i);
      LiveIds(ids.slots, ids.shift, i);
      if creat && excl {
        return -EEXIST;
      }
      if segs[i].size < size {
        return -EINVAL;
      }
      if denied {
        return -EACCES;
      }
      return MakeId(ids.slots[i].seqNo, i, ids.shift);
    }

    /** What shmget answers for a key in use */
    ghost function GetExisting(i: nat, s: Seg, size: nat, excl: bool, denied: bool): int
      reads ids`slots
    {
      if excl then -EEXIST
      else if s.size < size then -EINVAL
      else if denied then -EACCES
      else if i in ids.slots then MakeId(ids.slots[i].seqNo, i, ids.shift)
      else 0
    }

    /** The id finds a live segment of this key and at least this size. */
    ghost predicate Got(r: nat, key: int, size: nat)
      reads this`segs, ids`slots
    {
      var found := Lookup(ids.slots, ids.shift, r);
      found.Some? && found.value in segs && found.value in ids.slots
      && ids.slots[found.value].key == key && segs[found.value].size >= size
    }

    lemma CreatedGot(r: int, key: int, size: nat, task: nat, segs0: Segs, slots0: Slots)
      requires r >= 0 ==> Created(r, key, size, task, segs0, slots0)
      ensures r >= 0 ==> Got(r, key, size)
    {
    }

    /** shm_mmap: the segment's own mmap may still refuse. */
    method Mmap(u: Use, error: nat) returns (err: int)
      requires Valid()
      modifies this`segs, this`shmTot, this`maps, ids`slots, ids`keys, ids`inUse, ids`maxIdx, ids`born
      ensures Valid()
      ensures err == if !Live(u, old(segs)) then -EINVAL else 0 - error
      ensures err == 0 ==>
                && maps == old(maps) + multiset{u}
                && u.idx in old(segs) && segs == Bumped(old(segs), u.idx, 1)
                && segs == old(segs)[u.idx := old(segs)[u.idx].(nattch := old(segs)[u.idx].nattch + 1)]
      ensures err != 0 ==> maps == old(maps)
      ensures err != 0 && (Live(u, old(segs)) ==> old(segs)[u.idx].nattch > 0) ==> segs == old(segs)
    {
      hide Books, Ids.Valid;
      err := Open(u);
      if err == 0 && error != 0 {
        Close(u);
        assert maps == old(maps);
        err := 0 - error;
      }
    }

    /**
     Any operations of other tasks. mine are the pins they do not own: everybody takes back
     only what he pinned himself.
     */
    method Others(ops: seq<Op>, mine: multiset<Use>)
      requires Valid() && mine <= pins
      modifies this, ids
      ensures Valid() && mine <= pins
      ensures ops == [] ==> segs == old(segs) && pins == old(pins) && forced == old(forced)
    {
      hide Books, Ids.Valid, Live, AfterLeave, AfterOrphans, Created, Got, MayDestroy, Lookup, IdxOf;
      for k := 0 to |ops|
        invariant Valid() && mine <= pins
        invariant k == 0 ==> segs == old(segs) && pins == old(pins) && forced == old(forced)
      {
        Other(ops[k], mine);
      }
    }

    method Other(op: Op, mine: multiset<Use>)
      requires Valid() && mine <= pins
      modifies this, ids
      ensures Valid() && mine <= pins
    {
      hide Books, Ids.Valid, Live, AfterLeave, AfterOrphans, Created, Got, MayDestroy, Lookup, IdxOf;
      match op {
        case Get(key, size, creat, excl, denied, task, env) =>
          if size < WORD && env.allocError > 0 {
            ids.NoneInUse();
            var free := env.pick.Some? && env.pick.value !in ids.slots && env.pick.value < ids.CycleBound();
            var _ := ShmGet(key, size, creat, excl, denied, task, if free then env else env.(pick := None));
          }
        case Remove(shmid, denied) => var _ := Rmid(shmid, denied);
        case StartAt(shmid, denied) => var _, _ := Pin(shmid, denied);
        case EndAt(shmid, u) =>
          if u in pins - mine && u.idx == IdxOf(shmid, ids.shift) {
            Unpin(shmid, u);
          }
        case NewMap(u, error) => var _ := Mmap(u, error);
        case Unmap(u) =>
          if u in maps {
            Close(u);
          }
        case Force(on) => SetForced(on);
        case Unlink(task, i) =>
          if i in segs && segs[i].creator == Some(task) {
            var _ := ExitUnlink(task, i);
          }
        case Finish(u) => ExitFinish(u);
      }
    }

    /**
     do_shmat, from finding the segment on, with other tasks running in both of its unlocked
     stretches. The last lookup goes by the index alone and is not checked; found says
     whether it met the pinned segment.
     */
    method DoShmat(shmid: nat, denied: bool, cloneError: nat, before: seq<Op>, mapError: nat, after: seq<Op>)
      returns (err: int, ghost found: bool)
      requires Valid()
      modifies this, ids
      ensures Valid()
      ensures found
      ensures var i := old(Lookup(ids.slots, ids.shift, shmid));
              && (i.None? ==> err == -EINVAL && segs == old(segs))
              && (i.Some? && denied ==> err == -EACCES && segs == old(segs))
              && (i.Some? && !denied && before == [] && after == [] ==>
                    && i.value in old(segs)
                    && err == (if cloneError != 0 then 0 - cloneError else 0 - mapError)
                    && segs == AfterShmat(old(segs), i.value, forced, err == 0)
                    && (err == 0 ==>
                          segs == old(segs)[i.value := old(segs)[i.value].(nattch := old(segs)[i.value].nattch + 1)])
                    && (err != 0 ==>
                          segs == if old(segs)[i.value].nattch == 0 && (old(segs)[i.value].dest || forced)
                                  then old(segs) - {i.value} else old(segs)))
    {
      hide Valid, Live, Lookup, IdxOf, AfterLeave, AfterShmat, MayDestroy, Bumped;
      LookupIdx(ids.slots, ids.shift, shmid);
      FoundIsSeg(shmid);
      found := true;
      var u;
      err, u := Pin(shmid, denied);
      if err == 0 {
        LiveSays(u, old(segs));
        PinnedLive(u);
        NotBumped(old(segs), u.idx);
        err, found := MapAndUnpin(shmid, u, cloneError, before, mapError, after);
        AfterShmatIs(old(segs), u.idx, forced, err == 0);
        AfterShmatSays(old(segs), u.idx, forced, err == 0);
      }
    }

    /** do_shmat from its first unlock on */
    method MapAndUnpin(shmid: nat, u: Use, cloneError: nat, before: seq<Op>, mapError: nat, after: seq<Op>)
      returns (err: int, ghost found: bool)
      requires Valid() && u in pins && u.idx == IdxOf(shmid, ids.shift)
      modifies this, ids
      ensures Valid() && found
      ensures before == [] && after == [] ==>
                && err == (if cloneError != 0 then 0 - cloneError else 0 - mapError)
                && forced == old(forced)
                && u.idx in old(segs)
                && segs == AfterLeave(Bumped(old(segs), u.idx, if err == 0 then 1 else 0), u.idx, forced)
    {
      hide Valid, Live, Lookup, IdxOf, AfterLeave, MayDestroy, Bumped;
      PinnedLive(u);
      NotBumped(segs, u.idx);
      Others(before, multiset{u});
      err := 0 - cloneError;
      if cloneError == 0 {
        PinnedLive(u);
        err := Mmap(u, mapError);
      }
      Others(after, multiset{u});
      PinnedLive(u);
      found := Live(u, segs);
      Unpin(shmid, u);
    }

    /** At every release of the locks: the count is that of the users, shm_tot that of the pages,
        and a segment marked for destruction is still in use and found by no key. */
    lemma Lifetimes(i: nat)
      requires Valid() && i in segs
      ensures segs[i].nattch == pins[Use(i, segs[i].file)] + maps[Use(i, segs[i].file)]
      ensures segs[i].dest ==> segs[i].nattch > 0 && forall k | k in ids.keys :: ids.keys[k] != i
      ensures shmTot == PageSum(segs, ids.mni)
    {
      assert Kept(i, segs[i], ids.slots[i].key, pins + maps, nextFile, -1);
    }

    lemma AllBelow()
      requires Valid()
      ensures forall i | i in segs :: i < ids.mni
    {
      SaneAt(segs, ids.slots, pins + maps, nextFile, -1, 0);
      forall i | i in segs
        ensures i < ids.mni
      {
        ids.SlotBelow(i);
      }
    }

    lemma PinnedLive(u: Use)
      requires Valid() && u in pins
      ensures Live(u, segs) && u.idx in segs && segs[u.idx].nattch > 0
    {
      UserFinds(segs, ids.slots, pins + maps, nextFile, u);
    }

    lemma FoundIsSeg(shmid: nat)
      requires Valid()
      ensures var i := Lookup(ids.slots, ids.shift, shmid); i.Some? ==> i.value in segs
    {
    }
  }

  lemma LookupIdx(slots: Slots, shift: nat, id: nat)
    ensures var i := Lookup(slots, shift, id); i.Some? ==> i.value == IdxOf(id, shift)
  {
  }

  lemma LiveSays(u: Use, segs: Segs)
    requires Live(u, segs)
    ensures u.idx in segs && segs[u.idx].file == u.file
  {
  }

  /** What do_shmat alone makes of the segments: one mapping more, or nothing. A segment
      without users is destroyed by a failed shmat if shm_rmid_forced is set. */
  function AfterShmat(segs: Segs, i: nat, forced: bool, mapped: bool): Segs
    requires i in segs
  {
    if mapped then segs[i := segs[i].(nattch := segs[i].nattch + 1)]
    else if MayDestroy(segs[i], forced) then segs - {i}
    else segs
  }

  lemma AfterShmatIs(segs: Segs, i: nat, forced: bool, mapped: bool)
    requires i in segs && segs[i].nattch >= 0
    ensures AfterLeave(Bumped(Bumped(segs, i, 1), i, if mapped then 1 else 0), i, forced)
            == AfterShmat(segs, i, forced, mapped)
  {
    var s := Bumped(Bumped(segs, i, 1), i, if mapped then 1 else 0);
    assert s - {i} == segs - {i};
    if !mapped && !MayDestroy(segs[i], forced) {
      assert AfterLeave(s, i, forced) == segs;
    }
  }

  lemma AfterShmatSays(segs: Segs, i: nat, forced: bool, mapped: bool)
    requires i in segs
    ensures mapped ==> AfterShmat(segs, i, forced, mapped) == segs[i := segs[i].(nattch := segs[i].nattch + 1)]
    ensures !mapped ==>
              AfterShmat(segs, i, forced, mapped) ==
              if segs[i].nattch == 0 && (segs[i].dest || forced) then segs - {i} else segs
  {
  }

  /** n users more */
  function Bumped(segs: Segs, i: nat, n: int): (s: Segs)
    requires i in segs
    ensures i in s
  {
    segs[i := segs[i].(nattch := segs[i].nattch + n)]
  }

  lemma NotBumped(segs: Segs, i: nat)
    requires i in segs
    ensures Bumped(segs, i, 0) == segs
    ensures Bumped(segs, i, 1)[i].nattch == segs[i].nattch + 1
  {
  }
}
