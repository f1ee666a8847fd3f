/**
 struct ipc_ids of ipc/util.c: the index table (an idr), the key table and the
 sequence numbers that make up the ids of System V IPC objects.

 The idr is a map from occupied indices to objects, the key table a map from keys
 to indices. idr_alloc_cyclic may hand out any free index below its bound. An id is
 a sequence number above shift bits of index.
 */
module IpcIds {
  import opened Options

  const IPC_PRIVATE: int := 0
  const ENOMEM: int := 12
  const EEXIST: int := 17
  const ENOSPC: int := 28

  /** struct kern_ipc_perm; obj tells the objects apart. */
  datatype Perm = Perm(key: int, seqNo: nat, obj: nat)

  /** One successful ipc_idr_alloc. The epoch is seq as if it never wrapped. */
  datatype Issue = Issue(obj: nat, epoch: nat, idx: nat)

  type Slots = map<nat, Perm>

  function Pow2(n: nat): (r: nat)
    ensures r > 0
  {
    if n == 0 then 1 else 2 * Pow2(n - 1)
  }

  /** ipcid_to_idx, ipcid_to_seqx, and the id made of both */
  function IdxOf(id: nat, shift: nat): nat {
    id % Pow2(shift)
  }

  function SeqOf(id: nat, shift: nat): int {
    id / Pow2(shift)
  }

  function MakeId(s: nat, idx: nat, shift: nat): nat {
    s * Pow2(shift) + idx
  }

  lemma IdParts(s: nat, idx: nat, shift: nat)
    requires idx < Pow2(shift)
    ensures IdxOf(MakeId(s, idx, shift), shift) == idx && SeqOf(MakeId(s, idx, shift), shift) == s
  {
    DivMod(s, Pow2(shift), idx);
  }

  /** What an id is with 15, and with 24, bits of index */
  lemma Shifts(s: nat, idx: nat)
    ensures MakeId(s, idx, 15) == s * 0x8000 + idx && MakeId(s, idx, 24) == s * 0x100_0000 + idx
  {
    assert Pow2(3) == 8;
    assert Pow2(6) == 2 * (2 * (2 * Pow2(3)));
    assert Pow2(9) == 2 * (2 * (2 * Pow2(6)));
    assert Pow2(12) == 2 * (2 * (2 * Pow2(9)));
    assert Pow2(15) == 2 * (2 * (2 * Pow2(12)));
    assert Pow2(18) == 2 * (2 * (2 * Pow2(15)));
    assert Pow2(21) == 2 * (2 * (2 * Pow2(18)));
    assert Pow2(24) == 2 * (2 * (2 * Pow2(21)));
  }

  lemma DivMod(s: nat, p: nat, idx: nat)
    requires idx < p
    ensures (s * p + idx) % p == idx && (s * p + idx) / p == s
  {
    var n := s * p + idx;
    var q, r := n / p, n % p;
    assert n == q * p + r && 0 <= r < p;
    if q < s {
      MulStep(q, s, p);
    } else if q > s {
      MulStep(s, q, p);
    }
  }

  lemma MulStep(x: int, y: int, m: nat)
    requires x < y
    ensures x * m + m <= y * m
  {
    assert (y - x - 1) * m >= 0;
  }

  // Counting occupied slots

  /** How many slots below k are occupied */
  function CountBelow(slots: Slots, k: nat): (n: nat)
    ensures n <= k
  {
    if k == 0 then 0 else CountBelow(slots, k - 1) + (if k - 1 in slots then 1 else 0)
  }

  lemma {:induction false} CountIs(slots: Slots, k: nat)
    ensures CountBelow(slots, k) == |set i | i in slots && i < k|
  {
    var s := set i | i in slots && i < k;
    if k == 0 {
      assert s == {};
    } else {
      CountIs(slots, k - 1);
      var t := set i | i in slots && i < k - 1;
      assert s == if k - 1 in slots then t + {k - 1} else t;
    }
  }

  lemma SubsetSize(a: set<nat>, b: set<nat>)
    requires a <= b
    ensures |a| <= |b| && (|a| == |b| ==> a == b)
  {
    assert b == a + (b - a) && a !! (b - a);
    assert |b| == |a| + |b - a|;
  }

  /** A scan has met every object once it has counted as many as there are. */
  lemma CountAll(slots: Slots, k: nat)
    ensures CountBelow(slots, k) <= |slots|
    ensures CountBelow(slots, k) == |slots| <==> forall i | i in slots :: i < k
  {
    CountIs(slots, k);
    var s := set i | i in slots && i < k;
    assert s <= slots.Keys && |slots.Keys| == |slots|;
    SubsetSize(s, slots.Keys);
    if |s| == |slots| {
      assert s == slots.Keys;
    }
    if forall i | i in slots :: i < k {
      assert s == slots.Keys;
    }
  }

  lemma CountStep(slots: Slots, k: nat)
    ensures CountBelow(slots, 0) == 0
    ensures CountBelow(slots, k + 1) == CountBelow(slots, k) + (if k in slots then 1 else 0)
  {
  }

  // The tables

  /** in_use, max_idx and the key table say the same as the slots. */
  ghost predicate TablesAgree(slots: Slots, keys: map<int, nat>, inUse: int, maxIdx: int) {
    && inUse == |slots|
    && maxIdx >= -1
    && (maxIdx >= 0 ==> maxIdx in slots)
    && (forall i | i in slots :: i <= maxIdx)
    && (forall k | k in keys :: k != IPC_PRIVATE && keys[k] in slots && slots[keys[k]].key == k)
    && (forall i | i in slots && slots[i].key != IPC_PRIVATE :: slots[i].key in keys && keys[slots[i].key] == i)
  }

  lemma TablesSay(slots: Slots, keys: map<int, nat>, inUse: int, maxIdx: int)
    requires TablesAgree(slots, keys, inUse, maxIdx)
    ensures inUse == |slots| && -1 <= maxIdx && (maxIdx >= 0 ==> maxIdx in slots)
    ensures forall i | i in slots :: i <= maxIdx
    ensures IPC_PRIVATE !in keys
  {
  }

  lemma TablesAdd(slots: Slots, keys: map<int, nat>, inUse: int, maxIdx: int, idx: nat, p: Perm)
    requires TablesAgree(slots, keys, inUse, maxIdx)
    requires idx !in slots && p.key !in keys
    ensures TablesAgree(slots[idx := p], if p.key == IPC_PRIVATE then keys else keys[p.key := idx],
                        inUse + 1, if idx > maxIdx then idx else maxIdx)
  {
    SlotAdded(slots, idx, p);
    var s, k := slots[idx := p], if p.key == IPC_PRIVATE then keys else keys[p.key := idx];
    forall i | i in s && s[i].key != IPC_PRIVATE
      ensures s[i].key in k && k[s[i].key] == i
    {
      if i != idx {
        assert slots[i].key in keys && keys[slots[i].key] == i;
      }
    }
    assert forall j | j in k :: j != IPC_PRIVATE && k[j] in s && s[k[j]].key == j;
  }

  lemma SlotAdded(slots: Slots, idx: nat, p: Perm)
    requires idx !in slots
    ensures |slots[idx := p]| == |slots| + 1
  {
    assert slots[idx := p].Keys == slots.Keys + {idx};
  }

  ghost predicate NoneAbove(slots: Slots, top: int) {
    forall i | top < i :: i !in slots
  }

  lemma NoneAboveRemoved(slots: Slots, keys: map<int, nat>, inUse: int, maxIdx: int, idx: nat)
    requires TablesAgree(slots, keys, inUse, maxIdx) && idx in slots
    ensures idx <= maxIdx && IPC_PRIVATE !in keys && NoneAbove(slots - {idx}, maxIdx)
    ensures idx == maxIdx ==> NoneAbove(slots - {idx}, idx - 1)
    ensures idx != maxIdx ==> maxIdx in slots
  {
  }

  lemma TablesRemove(slots: Slots, keys: map<int, nat>, inUse: int, maxIdx: int, idx: nat, top: int, left: Slots)
    requires TablesAgree(slots, keys, inUse, maxIdx)
    requires idx in slots
    requires -1 <= top <= maxIdx && (top >= 0 ==> top in slots && top != idx)
    requires left == slots - {idx} && NoneAbove(left, top)
    ensures TablesAgree(left, keys - {slots[idx].key}, inUse - 1, top)
  {
    assert left.Keys + {idx} == slots.Keys;
  }

  lemma TablesPrivate(slots: Slots, keys: map<int, nat>, inUse: int, maxIdx: int, idx: nat)
    requires TablesAgree(slots, keys, inUse, maxIdx)
    requires idx in slots
    ensures TablesAgree(slots[idx := slots[idx].(key := IPC_PRIVATE)], keys - {slots[idx].key}, inUse, maxIdx)
  {
    assert slots[idx := slots[idx].(key := IPC_PRIVATE)].Keys == slots.Keys;
  }

  // What was issued so far

  predicate Before(a: Issue, b: Issue) {
    a.epoch < b.epoch || (a.epoch == b.epoch && a.idx < b.idx)
  }

  ghost predicate Ordered(issued: seq<Issue>) {
    forall j, k | 0 <= j < k < |issued| :: Before(issued[j], issued[k])
  }

  /** The occupant of slot i got it in the last issue of index i. */
  ghost predicate BornAt(slots: Slots, i: nat, issued: seq<Issue>, b: nat, seqMax: nat)
    requires i in slots && seqMax > 0
  {
    && b < |issued|
    && issued[b].idx == i
    && issued[b].obj == slots[i].obj
    && slots[i].seqNo == issued[b].epoch % seqMax
    && (forall k | b < k < |issued| :: issued[k].idx != i)
  }

  ghost predicate History(slots: Slots, born: map<nat, nat>, issued: seq<Issue>, epoch: nat, lastIdx: int, seqMax: nat)
    requires seqMax > 0
  {
    && Ordered(issued)
    && (forall k | 0 <= k < |issued| :: issued[k].epoch < epoch || (issued[k].epoch == epoch && issued[k].idx <= lastIdx))
    && born.Keys == slots.Keys
    && (forall i | i in slots :: BornAt(slots, i, issued, born[i], seqMax))
  }

  lemma HistoryAlloc(slots: Slots, born: map<nat, nat>, issued: seq<Issue>, epoch: nat, lastIdx: int, seqMax: nat,
                     idx: nat, key: int, obj: nat, e: nat)
    requires seqMax > 0 && History(slots, born, issued, epoch, lastIdx, seqMax)
    requires idx !in slots
    requires e == if idx <= lastIdx then epoch + 1 else epoch
    ensures History(slots[idx := Perm(key, e % seqMax, obj)], born[idx := |issued|], issued + [Issue(obj, e, idx)],
                    e, idx, seqMax)
  {
    var s' := slots[idx := Perm(key, e % seqMax, obj)];
    var i' := issued + [Issue(obj, e, idx)];
    var b' := born[idx := |issued|];
    forall i | i in s'
      ensures BornAt(s', i, i', b'[i], seqMax)
    {
      if i != idx {
        assert BornAt(slots, i, issued, born[i], seqMax);
      }
    }
  }

  lemma HistoryRemove(slots: Slots, born: map<nat, nat>, issued: seq<Issue>, epoch: nat, lastIdx: int, seqMax: nat,
                      idx: nat)
    requires seqMax > 0 && History(slots, born, issued, epoch, lastIdx, seqMax)
    ensures History(slots - {idx}, born - {idx}, issued, epoch, lastIdx, seqMax)
  {
    forall i | i in slots - {idx}
      ensures BornAt(slots - {idx}, i, issued, (born - {idx})[i], seqMax)
    {
      assert BornAt(slots, i, issued, born[i], seqMax);
    }
  }

  lemma HistoryPrivate(slots: Slots, born: map<nat, nat>, issued: seq<Issue>, epoch: nat, lastIdx: int, seqMax: nat,
                       idx: nat)
    requires seqMax > 0 && History(slots, born, issued, epoch, lastIdx, seqMax)
    requires idx in slots
    ensures History(slots[idx := slots[idx].(key := IPC_PRIVATE)], born, issued, epoch, lastIdx, seqMax)
  {
    var s' := slots[idx := slots[idx].(key := IPC_PRIVATE)];
    assert s'.Keys == slots.Keys;
    forall i | i in s'
      ensures BornAt(s', i, issued, born[i], seqMax)
    {
      assert BornAt(slots, i, issued, born[i], seqMax);
    }
  }

  // Ids

  /** The id an issue was announced under */
  function IssuedId(r: Issue, seqMax: nat, shift: nat): nat
    requires seqMax > 0
  {
    MakeId(r.epoch % seqMax, r.idx, shift)
  }

  /** ipc_obtain_object_check */
  function Lookup(slots: Slots, shift: nat, id: nat): Option<nat> {
    var idx := IdxOf(id, shift);
    if idx in slots && slots[idx].seqNo == SeqOf(id, shift) then Some(idx) else None
  }

  /** Two issues share an id exactly if they share the index and their epochs differ by a
      multiple of the sequence range. */
  lemma SameId(a: Issue, b: Issue, seqMax: nat, shift: nat)
    requires seqMax > 0 && a.idx < Pow2(shift) && b.idx < Pow2(shift)
    ensures IssuedId(a, seqMax, shift) == IssuedId(b, seqMax, shift)
            <==> a.idx == b.idx && a.epoch % seqMax == b.epoch % seqMax
  {
    IdParts(a.epoch % seqMax, a.idx, shift);
    IdParts(b.epoch % seqMax, b.idx, shift);
  }

  lemma Congruent(a: nat, b: nat, m: nat)
    requires m > 0 && a < b && a % m == b % m
    ensures b >= a + m
  {
    assert a == a / m * m + a % m && b == b / m * m + b % m;
    if b / m < a / m {
      MulStep(b / m, a / m, m);
    } else if a / m < b / m {
      MulStep(a / m, b / m, m);
    }
  }

  lemma SameQuotient(a: nat, b: nat, m: nat)
    requires m > 0 && a / m == b / m && a < b
    ensures a % m < b % m
  {
    assert a == a / m * m + a % m && b == b / m * m + b % m;
  }

  lemma SmallerId(s: nat, i: nat, t: nat, j: nat, shift: nat)
    requires i < Pow2(shift)
    requires s < t || (s == t && i < j)
    ensures MakeId(s, i, shift) < MakeId(t, j, shift)
  {
    if s < t {
      MulStep(s, t, Pow2(shift));
    }
  }

  /** An id comes back only after seq has advanced through its whole range. */
  lemma NotReissuedEarly(issued: seq<Issue>, j: nat, k: nat, seqMax: nat, shift: nat)
    requires seqMax > 0 && Ordered(issued) && j < k < |issued|
    requires forall r | r in issued :: r.idx < Pow2(shift)
    requires IssuedId(issued[j], seqMax, shift) == IssuedId(issued[k], seqMax, shift)
    ensures issued[k].epoch >= issued[j].epoch + seqMax
  {
    SameId(issued[j], issued[k], seqMax, shift);
    assert Before(issued[j], issued[k]);
    Congruent(issued[j].epoch, issued[k].epoch, seqMax);
  }

  /** Between two wraps of seq, ids strictly increase. */
  lemma IdsIncrease(issued: seq<Issue>, j: nat, k: nat, seqMax: nat, shift: nat)
    requires seqMax > 0 && Ordered(issued) && j < k < |issued|
    requires forall r | r in issued :: r.idx < Pow2(shift)
    requires issued[j].epoch / seqMax == issued[k].epoch / seqMax
    ensures IssuedId(issued[j], seqMax, shift) < IssuedId(issued[k], seqMax, shift)
  {
    var a, b := issued[j], issued[k];
    assert Before(a, b);
    assert a in issued;
    if a.epoch < b.epoch {
      SameQuotient(a.epoch, b.epoch, seqMax);
    }
    SmallerId(a.epoch % seqMax, a.idx, b.epoch % seqMax, b.idx, shift);
  }

  /**
   A stale id never aliases: looking up the id of issue k finds the object of issue k or
   nothing, until seq has advanced through its whole range.
   */
  lemma StaleIds(slots: Slots, born: map<nat, nat>, issued: seq<Issue>, epoch: nat, lastIdx: int, seqMax: nat,
                 shift: nat, k: nat)
    requires seqMax > 0 && History(slots, born, issued, epoch, lastIdx, seqMax)
    requires forall r | r in issued :: r.idx < Pow2(shift)
    requires k < |issued| && epoch < issued[k].epoch + seqMax
    ensures var found := Lookup(slots, shift, IssuedId(issued[k], seqMax, shift));
            found.Some? ==> found.value in slots && born[found.value] == k && slots[found.value].obj == issued[k].obj
  {
    var r := issued[k];
    assert r in issued;
    IdParts(r.epoch % seqMax, r.idx, shift);
    var i := r.idx;
    if i in slots && slots[i].seqNo == r.epoch % seqMax {
      var b := born[i];
      assert BornAt(slots, i, issued, b, seqMax);
      if k < b {
        assert Before(issued[k], issued[b]);
        Congruent(issued[k].epoch, issued[b].epoch, seqMax);
      }
    }
  }

  /** A live object is found under its own id. */
  lemma LiveIds(slots: Slots, shift: nat, i: nat)
    requires i in slots && i < Pow2(shift)
    ensures Lookup(slots, shift, MakeId(slots[i].seqNo, i, shift)) == Some(i)
  {
    IdParts(slots[i].seqNo, i, shift);
  }

  ghost predicate InRange(slots: Slots, mni: nat) {
    forall i | i in slots :: i < mni
  }

  lemma InRangeAdd(slots: Slots, mni: nat, idx: nat, p: Perm)
    requires InRange(slots, mni) && (idx < mni || idx in slots)
    ensures InRange(slots[idx := p], mni)
  {
  }

  lemma InRangeRemove(slots: Slots, mni: nat, idx: nat)
    requires InRange(slots, mni)
    ensures InRange(slots - {idx}, mni)
  {
  }

  lemma SlotBack<T>(m: map<nat, T>, idx: nat, x: T)
    requires idx !in m
    ensures m[idx := x] - {idx} == m
  {
  }

  predicate Ascending(s: seq<nat>) {
    forall j, k | 0 <= j < k < |s| :: s[j] < s[k]
  }

  lemma AscendingAdd(s: seq<nat>, x: nat)
    requires Ascending(s) && forall i | i in s :: i < x
    ensures Ascending(s + [x])
  {
    forall j, k | 0 <= j < k < |s + [x]|
      ensures (s + [x])[j] < (s + [x])[k]
    {
      assert s[j] in s;
    }
  }

  class Ids {
    const shift: nat     // ipcmni_seq_shift()
    const mni: nat       // ipc_mni
    const seqMax: nat    // ipcid_seq_max()
    const minCycle: nat  // ipc_min_cycle
    var slots: Slots           // ipcs_idr
    var keys: map<int, nat>    // key_ht
    var inUse: int
    var seqNo: nat
    var lastIdx: int
    var maxIdx: int
    ghost var epoch: nat
    ghost var issued: seq<Issue>
    ghost var born: map<nat, nat>  // the issue that filled a slot

    ghost predicate Limits() {
      0 < mni <= Pow2(shift) && 0 < seqMax
    }

    ghost predicate Numbering()
      reads this`slots, this`seqNo, this`lastIdx, this`epoch, this`issued, this`born
    {
      && Limits()
      && (forall r | r in issued :: r.idx < mni)
      && -1 <= lastIdx < mni
      && seqNo == epoch % seqMax
      && History(slots, born, issued, epoch, lastIdx, seqMax)
    }

    ghost predicate Valid()
      reads this
    {
      Numbering() && TablesAgree(slots, keys, inUse, maxIdx) && InRange(slots, mni)
    }

    lemma SlotBelow(i: nat)
      requires Valid() && i in slots
      ensures i < mni <= Pow2(shift)
    {
    }

    lemma NoneInUse()
      requires Valid()
      ensures inUse >= 0 && (inUse == 0 <==> slots == map[])
    {
    }

    lemma NoPrivateKey()
      requires Valid()
      ensures IPC_PRIVATE !in keys
    {
    }

    /** ipc_init_ids */
    constructor (shift: nat, mni: nat, seqMax: nat, minCycle: nat)
      requires 0 < mni <= Pow2(shift) && 0 < seqMax
      ensures Valid() && slots == map[] && keys == map[] && issued == []
      ensures this.mni == mni && this.seqMax == seqMax && this.shift == shift && this.minCycle == minCycle
    {
      this.shift, this.mni, this.seqMax, this.minCycle := shift, mni, seqMax, minCycle;
      slots, keys, inUse, seqNo, lastIdx, maxIdx := map[], map[], 0, 0, -1, -1;
      epoch, issued, born := 0, [], map[];
    }

    /** The bound ipc_idr_alloc gives to the cyclic allocator */
    function CycleBound(): (b: int)
      requires inUse >= 0
      reads this`inUse
      ensures b <= mni && (b == mni || (b >= minCycle && 2 * b + 1 >= 3 * inUse))
      ensures b == mni || b == minCycle || 3 * inUse - 1 <= 2 * b <= 3 * inUse
    {
      var b := if inUse * 3 / 2 > minCycle then inUse * 3 / 2 else minCycle;
      if b < mni then b else mni
    }

    /** ipc_idr_alloc with the index the allocator picked */
    method IdrAlloc(key: int, obj: nat, idx: nat)
      requires Numbering() && idx !in slots && idx < mni
      modifies this`slots, this`seqNo, this`lastIdx, this`epoch, this`issued, this`born
      ensures Numbering()
      ensures epoch == if idx <= old(lastIdx) then old(epoch) + 1 else old(epoch)
      ensures lastIdx == idx
      ensures slots == old(slots)[idx := Perm(key, seqNo, obj)]
      ensures issued == old(issued) + [Issue(obj, epoch, idx)]
      ensures born == old(born)[idx := |old(issued)|]
    {
      hide History;
      ghost var e := if idx <= lastIdx then epoch + 1 else epoch;
      HistoryAlloc(slots, born, issued, epoch, lastIdx, seqMax, idx, key, obj, e);
      if idx <= lastIdx {
        NextMod(epoch, seqMax);
        seqNo := seqNo + 1;
        if seqNo >= seqMax {
          seqNo := 0;
        }
      }
      lastIdx := idx;
      slots := slots[idx := Perm(key, seqNo, obj)];
      born := born[idx := |issued|];
      issued := issued + [Issue(obj, e, idx)];
      epoch := e;
    }

    /** idr_remove */
    method IdrRemove(idx: nat)
      requires Numbering() && idx in slots
      modifies this`slots, this`born
      ensures Numbering()
      ensures slots == old(slots) - {idx} && born == old(born) - {idx}
    {
      HistoryRemove(slots, born, issued, epoch, lastIdx, seqMax, idx);
      slots := slots - {idx};
      born := born - {idx};
    }

    lemma KeysBorn()
      requires Numbering()
      ensures born.Keys == slots.Keys
    {
    }

    /** What a call of ipc_addid leaves in the slots, the key table and the births: on an
        error nothing, otherwise one new entry */
    ghost predicate Entered(slots0: Slots, keys0: map<int, nat>, born0: map<nat, nat>, n: nat, key: int, obj: nat, r: int)
      reads this`slots, this`keys, this`born, this`seqNo
    {
      if r < 0 then
        slots == slots0 && keys == keys0 && born == born0
      else
        && r !in slots0 && key !in keys0
        && slots == slots0[r := Perm(key, seqNo, obj)]
        && keys == (if key == IPC_PRIVATE then keys0 else keys0[key := r])
        && born == born0[r := n]
    }

    /**
     ipc_addid. pick is the free index the allocator chose, or None with its error;
     keyFails is set if the key table cannot grow. On a failed key insertion the index
     is given back, but the sequence number and last_idx stay advanced.
     */
    method AddId(key: int, obj: nat, limit: int, pick: Option<nat>, allocError: int, keyFails: bool)
      returns (r: int)
      requires Valid() && allocError > 0
      requires pick.Some? ==> pick.value !in slots && pick.value < CycleBound()
      modifies this
      ensures Valid()
      ensures old(inUse) >= limit || old(inUse) >= mni ==> r == -ENOSPC && issued == old(issued)
      ensures old(inUse) < limit && old(inUse) < mni && pick.None? ==> r == -allocError && issued == old(issued)
      ensures old(inUse) < limit && old(inUse) < mni && pick.Some? ==>
                && epoch == (if pick.value <= old(lastIdx) then old(epoch) + 1 else old(epoch))
                && issued == old(issued) + [Issue(obj, epoch, pick.value)]
                && r == (if key in old(keys) then -EEXIST
                         else if key != IPC_PRIVATE && keyFails then -ENOMEM else pick.value)
      ensures Entered(old(slots), old(keys), old(born), |old(issued)|, key, obj, r)
    {
      hide Numbering, TablesAgree, InRange;
      var max := if limit > mni then mni else limit;
      if inUse >= max {
        return -ENOSPC;
      }
      if pick.None? {
        return -allocError;
      }
      r := Enter(key, obj, pick.value, keyFails);
    }

    /** The second half of ipc_addid: the index is free, the key perhaps not. */
    method Enter(key: int, obj: nat, idx: nat, keyFails: bool) returns (r: int)
      requires Valid() && idx !in slots && idx < mni
      modifies this
      ensures Valid()
      ensures epoch == if idx <= old(lastIdx) then old(epoch) + 1 else old(epoch)
      ensures issued == old(issued) + [Issue(obj, epoch, idx)]
      ensures r == if key in old(keys) then -EEXIST else if key != IPC_PRIVATE && keyFails then -ENOMEM else idx
      ensures Entered(old(slots), old(keys), old(born), |old(issued)|, key, obj, r)
    {
      hide Numbering, TablesAgree, InRange;
      TablesSay(slots, keys, inUse, maxIdx);
      KeysBorn();
      IdrAlloc(key, obj, idx);
      if key != IPC_PRIVATE && (key in keys || keyFails) {
        GiveBack(idx, old(slots), old(born), slots[idx], |old(issued)|);
        return if key in keys then -EEXIST else -ENOMEM;
      }
      TablesAdd(old(slots), keys, inUse, maxIdx, idx, slots[idx]);
      InRangeAdd(old(slots), mni, idx, slots[idx]);
      if key != IPC_PRIVATE {
        keys := keys[key := idx];
      }
      inUse := inUse + 1;
      if idx > maxIdx {
        maxIdx := idx;
      }
      return idx;
    }

    /** idr_remove of the index just allocated */
    method GiveBack(idx: nat, ghost slots0: Slots, ghost born0: map<nat, nat>, ghost p: Perm, ghost b: nat)
      requires Numbering() && idx !in slots0 && idx !in born0
      requires slots == slots0[idx := p] && born == born0[idx := b]
      modifies this`slots, this`born
      ensures Numbering() && slots == slots0 && born == born0
    {
      hide Numbering;
      IdrRemove(idx);
      SlotBack(slots0, idx, p);
      SlotBack(born0, idx, b);
    }

    /** ipc_rmid of the object in slot idx */
    method RmId(idx: nat)
      requires Valid() && idx in slots
      modifies this`slots, this`keys, this`inUse, this`maxIdx, this`born
      ensures Valid()
      ensures slots == old(slots) - {idx}
      ensures keys == old(keys) - {old(slots)[idx].key}
      ensures born == old(born) - {idx}
    {
      hide Numbering, TablesAgree, InRange, NoneAbove;
      NoneAboveRemoved(slots, keys, inUse, maxIdx, idx);
      InRangeRemove(slots, mni, idx);
      Unslot(idx);
      assert Numbering() && InRange(slots, mni);
      inUse := inUse - 1;
      assert Numbering();
      if idx == maxIdx {
        maxIdx := TopBelow(idx);
        assert Numbering();
      }
      Removed(old(slots), old(keys), old(inUse), old(maxIdx), idx);
    }

    lemma Removed(slots0: Slots, keys0: map<int, nat>, inUse0: int, maxIdx0: int, idx: nat)
      requires TablesAgree(slots0, keys0, inUse0, maxIdx0) && idx in slots0
      requires -1 <= maxIdx <= maxIdx0 && (maxIdx >= 0 ==> maxIdx in slots0 && maxIdx != idx)
      requires slots == slots0 - {idx} && keys == keys0 - {slots0[idx].key} && inUse == inUse0 - 1 && NoneAbove(slots, maxIdx)
      ensures TablesAgree(slots, keys, inUse, maxIdx)
    {
      hide TablesAgree, NoneAbove;
      TablesRemove(slots0, keys0, inUse0, maxIdx0, idx, maxIdx, slots);
    }

    /** The object leaves the index table and the key table. */
    method Unslot(idx: nat)
      requires Numbering() && idx in slots && IPC_PRIVATE !in keys
      modifies this`slots, this`keys, this`born
      ensures Numbering() && slots == old(slots) - {idx} && keys == old(keys) - {old(slots)[idx].key} && born == old(born) - {idx}
    {
      hide Numbering;
      var perm := slots[idx];
      IdrRemove(idx);
      KhtRemove(perm);
    }

    /** The largest index left below idx, or -1 */
    method TopBelow(idx: nat) returns (top: int)
      requires NoneAbove(slots, idx - 1)
      ensures -1 <= top < idx && (top >= 0 ==> top in slots) && NoneAbove(slots, top)
    {
      top := idx - 1;
      while top != -1 && top !in slots
        invariant -1 <= top < idx
        invariant NoneAbove(slots, top)
      {
        top := top - 1;
      }
    }

    /** ipc_kht_remove */
    method KhtRemove(perm: Perm)
      requires IPC_PRIVATE !in keys
      modifies this`keys
      ensures keys == old(keys) - {perm.key}
    {
      if perm.key != IPC_PRIVATE {
        keys := keys - {perm.key};
      }
    }

    /** ipc_set_key_private */
    method SetKeyPrivate(idx: nat)
      requires Valid() && idx in slots
      modifies this`slots, this`keys
      ensures Valid()
      ensures slots == old(slots)[idx := old(slots)[idx].(key := IPC_PRIVATE)]
      ensures keys == old(keys) - {old(slots)[idx].key}
    {
      hide TablesAgree, History, InRange;
      TablesSay(slots, keys, inUse, maxIdx);
      TablesPrivate(slots, keys, inUse, maxIdx, idx);
      InRangeAdd(slots, mni, idx, slots[idx].(key := IPC_PRIVATE));
      HistoryPrivate(slots, born, issued, epoch, lastIdx, seqMax, idx);
      KhtRemove(slots[idx]);
      slots := slots[idx := slots[idx].(key := IPC_PRIVATE)];
    }

    /** ipc_findkey: the one object with this key, if there is one */
    method FindKey(key: int) returns (r: Option<nat>)
      requires Valid() && key != IPC_PRIVATE
      ensures r == if key in keys then Some(keys[key]) else None
      ensures r.Some? ==> r.value in slots && forall i :: i in slots && slots[i].key == key <==> i == r.value
      ensures r.None? ==> forall i | i in slots :: slots[i].key != key
    {
      r := if key in keys then Some(keys[key]) else None;
    }

    /** ipc_obtain_object_check */
    method ObtainObjectCheck(id: nat) returns (r: Option<nat>)
      requires Valid()
      ensures r == Lookup(slots, shift, id)
      ensures forall k | 0 <= k < |issued| && IssuedId(issued[k], seqMax, shift) == id && epoch < issued[k].epoch + seqMax ::
                r.Some? ==> r.value in slots && born[r.value] == k && slots[r.value].obj == issued[k].obj
    {
      r := ObtainObjectIdr(id);
      if r.Some? && slots[r.value].seqNo != SeqOf(id, shift) {
        r := None;
      }
      forall k | 0 <= k < |issued| && IssuedId(issued[k], seqMax, shift) == id && epoch < issued[k].epoch + seqMax
        ensures r.Some? ==> r.value in slots && born[r.value] == k && slots[r.value].obj == issued[k].obj
      {
        StaleIds(slots, born, issued, epoch, lastIdx, seqMax, shift, k);
      }
    }

    /** ipc_obtain_object_idr */
    method ObtainObjectIdr(id: nat) returns (r: Option<nat>)
      ensures r == if IdxOf(id, shift) in slots then Some(IdxOf(id, shift)) else None
    {
      var idx := IdxOf(id, shift);
      r := if idx in slots then Some(idx) else None;
    }

    /** sysvipc_find_ipc: the first object at pos or above; the count of objects below
        pos lets it stop early. */
    method FindIpc(pos: nat) returns (found: Option<nat>, newPos: nat)
      requires Valid()
      ensures found.Some? ==> found.value in slots && found.value >= pos && newPos == found.value + 1
      ensures found.Some? ==> forall i | pos <= i < found.value :: i !in slots
      ensures found.None? ==> newPos > pos && forall i | i in slots :: i < pos
    {
      hide Numbering, TablesAgree, CountBelow;
      TablesSay(slots, keys, inUse, maxIdx);
      CountStep(slots, 0);
      var total, id := 0, 0;
      while id < pos && total < inUse
        invariant 0 <= id <= pos && total == CountBelow(slots, id)
      {
        CountStep(slots, id);
        if id in slots {
          total := total + 1;
        }
        id := id + 1;
      }
      CountAll(slots, id);
      found := None;
      var p := pos;
      if total < inUse {
        while p < mni
          invariant pos <= p
          invariant forall i | pos <= i < p :: i !in slots
        {
          if p in slots {
            found := Some(p);
            break;
          }
          p := p + 1;
        }
      }
      newPos := p + 1;
    }

    /** sysvipc_proc_start and sysvipc_proc_next until nothing is left: every object is
        shown once, in ascending order. */
    method ShowAll() returns (shown: seq<nat>)
      requires Valid()
      ensures Ascending(shown)
      ensures forall i :: i in shown <==> i in slots
    {
      hide Numbering, TablesAgree;
      shown := [];
      var found, pos := FindIpc(0);
      while found.Some?
        invariant Ascending(shown)
        invariant found.Some? ==> found.value in slots && pos == found.value + 1
        invariant forall i | i in shown :: i in slots && (found.Some? ==> i < found.value)
        invariant forall i | i in slots && i !in shown :: found.Some? && i >= found.value
        decreases if found.Some? then mni - found.value else -1
      {
        AscendingAdd(shown, found.value);
        shown := shown + [found.value];
        found, pos := FindIpc(pos);
      }
    }

    /** The loop of shm_get_stat (ipc/shm.c): it has no bound on the index, and stops
        because in_use is exact. */
    method VisitInUse() returns (visited: seq<nat>)
      requires Valid()
      ensures Ascending(visited)
      ensures forall i :: i in visited <==> i in slots
    {
      hide Numbering, TablesAgree, CountBelow, InRange;
      TablesSay(slots, keys, inUse, maxIdx);
      CountStep(slots, 0);
      visited := [];
      var next := 0;
      while |visited| < inUse
        invariant |visited| == CountBelow(slots, next)
        invariant Ascending(visited)
        invariant forall i :: i in visited <==> i in slots && i < next
        decreases maxIdx + 1 - next
      {
        CountAll(slots, next);
        CountStep(slots, next);
        if next in slots {
          AscendingAdd(visited, next);
          visited := visited + [next];
        }
        next := next + 1;
      }
      CountAll(slots, next);
    }
  }

  lemma NextMod(e: nat, m: nat)
    requires m > 0
    ensures (e + 1) % m == if e % m + 1 >= m then 0 else e % m + 1
  {
    var q, r := e / m, e % m;
    assert e + 1 == q * m + r + 1;
    if r + 1 < m {
      DivMod(q, m, r + 1);
    } else {
      assert e + 1 == (q + 1) * m;
      DivMod(q + 1, m, 0);
    }
  }
}
