/**
 The table behind fio's locks on file names: a fixed set of entries, each on the list of entries
 in use or on the free list, found by the hash of the name. The functions are the critical
 sections under the table's own lock; the class carries them out in place.
 */
module FileLockTable {

  /** `value` is the entry's semaphore, `refs` counts the callers that looked the entry up. */
  datatype Entry = Entry(hash: nat, value: int, refs: int)

  datatype Table = Table(ffs: seq<Entry>, active: seq<nat>, spare: seq<nat>)

  predicate Sound(t: Table)
  {
    && (forall p :: 0 <= p < |t.active| ==> t.active[p] < |t.ffs|)
    && (forall p :: 0 <= p < |t.spare| ==> t.spare[p] < |t.ffs|)
  }

  /** Where the list of entries in use has the hash, at or after position p; its length if nowhere. */
  function Find(t: Table, hash: nat, p: nat): (r: nat)
    requires Sound(t) && p <= |t.active|
    ensures p <= r <= |t.active|
    ensures forall q :: p <= q < r ==> t.ffs[t.active[q]].hash != hash
    ensures r < |t.active| ==> t.ffs[t.active[r]].hash == hash
    decreases |t.active| - p
  {
    if p == |t.active| || t.ffs[t.active[p]].hash == hash then p else Find(t, hash, p + 1)
  }

  // ---- Sections under the table's lock ----

  function Bumped(t: Table, e: nat, more: int): Table
    requires e < |t.ffs|
  {
    t.(ffs := t.ffs[e := t.ffs[e].(refs := t.ffs[e].refs + more)])
  }

  function Taken(t: Table, hash: nat): Table
    requires Sound(t) && t.spare != []
  {
    var e := t.spare[0];
    Table(t.ffs[e := Entry(hash, t.ffs[e].value, 1)], [e] + t.active, t.spare[1..])
  }

  /** The result of a lookup: the new table and the entry, or no entry. */
  datatype Got = None | Got(t: Table, e: nat)

  /** The first lookup of a caller: an entry in use with this hash, or else a free one. */
  function GetSection(t: Table, hash: nat): Got
    requires Sound(t)
  {
    var p := Find(t, hash, 0);
    if p < |t.active| then Got(Bumped(t, t.active[p], 1), t.active[p])
    else if t.spare == [] then None
    else Got(Taken(t, hash), t.spare[0])
  }

  /** A later lookup, after sleeping for want of a free entry: it waits for a free entry first,
      even when it then puts that entry back because the hash has appeared meanwhile. */
  function AgainSection(t: Table, hash: nat): Got
    requires Sound(t)
  {
    if t.spare == [] then None else GetSection(t, hash)
  }

  function Without(xs: seq<nat>, p: nat): seq<nat>
    requires p < |xs|
  {
    xs[..p] + xs[p + 1..]
  }

  function UnlockSection(t: Table, hash: nat): Table
    requires Sound(t)
  {
    var p := Find(t, hash, 0);
    if p == |t.active| then
      t
    else
      var e := t.active[p];
      var f := t.ffs[e];
      var last := f.refs == 1;
      Table(t.ffs[e := Entry(f.hash, f.value + 1, f.refs - 1)],
            if last then Without(t.active, p) else t.active,
            if last then [e] + t.spare else t.spare)
  }

  // ---- The same, in place ----

  class LockTable {
    var ffs: array<Entry>
    var active: seq<nat>
    var spare: seq<nat>

    ghost function View(): Table
      reads this, ffs
    {
      Table(ffs[..], active, spare)
    }

    ghost predicate Valid()
      reads this, ffs
    {
      Sound(View())
    }

    /** Every entry free, in order, with its semaphore up. */
    constructor (count: nat)
      ensures Valid() && fresh(ffs) && ffs.Length == count
      ensures active == [] && |spare| == count
      ensures forall e :: 0 <= e < count ==> spare[e] == e && ffs[e].value == 1
    {
      ffs := new Entry[count](_ => Entry(0, 0, 0));
      active, spare := [], [];
      new;
      for i := 0 to count
        invariant fresh(ffs) && ffs.Length == count && active == [] && |spare| == i
        invariant forall e :: 0 <= e < i ==> spare[e] == e && ffs[e].value == 1
      {
        ffs[i] := ffs[i].(value := 1);
        spare := spare + [i];
      }
    }

    method HashFind(hash: nat) returns (p: nat)
      requires Valid()
      ensures p == Find(View(), hash, 0)
    {
      p := 0;
      while p < |active|
        invariant p <= |active|
        invariant Find(View(), hash, 0) == Find(View(), hash, p)
      {
        if ffs[active[p]].hash == hash {
          return;
        }
        p := p + 1;
      }
    }

    /** List an entry that was taken off the free list. */
    method List(e: nat, hash: nat)
      requires e < ffs.Length
      modifies this`active, ffs
      ensures View() == Table(old(ffs[..])[e := Entry(hash, old(ffs[e].value), 1)], [e] + old(active), spare)
    {
      ffs[e] := ffs[e].(hash := hash, refs := 0);
      active := [e] + active;
      ffs[e] := ffs[e].(refs := ffs[e].refs + 1);
    }

    /** Take a free entry, look again if the lock was dropped, and list the entry or put it back. */
    method TakeFree(hash: nat, dropped: bool) returns (found: bool, e: nat)
      requires Valid()
      requires !dropped ==> Find(View(), hash, 0) == |active|
      modifies this, ffs
      ensures Valid() && ffs == old(ffs)
      ensures found == (old(spare) != [])
      ensures !found ==> View() == old(View())
      ensures found ==> Got(View(), e) == GetSection(old(View()), hash)
    {
      e := 0;
      found := spare != [];
      if !found {
        return;
      }
      e := spare[0];
      spare := spare[1..];
      ghost var popped := View();
      if dropped {
        var p := HashFind(hash);
        FindIgnoresSpare(popped, old(View()), hash, 0);
        if p < |active| {
          spare := [e] + spare;
          e := active[p];
          ffs[e] := ffs[e].(refs := ffs[e].refs + 1);
          return;
        }
      }
      List(e, hash);
    }

    method Get(hash: nat) returns (found: bool, e: nat)
      requires Valid()
      modifies this, ffs
      ensures Valid() && ffs == old(ffs)
      ensures found == GetSection(old(View()), hash).Got?
      ensures !found ==> View() == old(View())
      ensures found ==> Got(View(), e) == GetSection(old(View()), hash)
    {
      var p := HashFind(hash);
      if p < |active| {
        found, e := true, active[p];
        ffs[e] := ffs[e].(refs := ffs[e].refs + 1);
      } else {
        found, e := TakeFree(hash, false);
      }
    }

    method GetAgain(hash: nat) returns (found: bool, e: nat)
      requires Valid()
      modifies this, ffs
      ensures Valid() && ffs == old(ffs)
      ensures found == AgainSection(old(View()), hash).Got?
      ensures !found ==> View() == old(View())
      ensures found ==> Got(View(), e) == AgainSection(old(View()), hash)
    {
      found, e := TakeFree(hash, true);
    }

    method Unlock(hash: nat)
      requires Valid()
      modifies this, ffs
      ensures Valid() && ffs == old(ffs)
      ensures View() == UnlockSection(old(View()), hash)
    {
      var p := HashFind(hash);
      if p < |active| {
        var e := active[p];
        ffs[e] := ffs[e].(refs := ffs[e].refs - 1);
        var refs := ffs[e].refs;
        ffs[e] := ffs[e].(value := ffs[e].value + 1);
        if refs == 0 {
          active := active[..p] + active[p + 1..];
          spare := [e] + spare;
        }
      }
    }
  }

  lemma {:induction false} FindIgnoresSpare(t: Table, u: Table, hash: nat, p: nat)
    requires Sound(t) && Sound(u) && t.ffs == u.ffs && t.active == u.active && p <= |t.active|
    ensures Find(t, hash, p) == Find(u, hash, p)
    decreases |t.active| - p
  {
    if p < |t.active| {
      FindIgnoresSpare(t, u, hash, p + 1);
    }
  }
}
