/**
  The timer queue.  Deadlines are kept in 32 bits, in a tree that is ordered
  relative to a clock reading replaced at every insertion; one timer of the
  event loop is re-armed lazily.  The ghost state is an ordinary set of timers
  with unbounded deadlines; `Valid` says that the tree is that set in order.
 */
module Timeout {
  import opened Types
  import opened Arithmetic

  const HALF: int := 0x8000_0000

  /** A true time as the 32-bit key stored for it. */
  function Key(t: int): nat {
    t % U32
  }

  /** `(int32_t) (key - ref)` */
  function Delta(key: nat, ref: nat): int {
    var d := (key - ref) % U32;
    if d >= HALF then d - U32 else d
  }

  /** The tree's comparator with reference point `ref`. */
  function Cmp(k1: nat, k2: nat, ref: nat): int {
    var t1, t2 := Delta(k1, ref), Delta(k2, ref);
    if t1 < t2 then -1 else if t1 > t2 then 1 else 0
  }

  /** Within half a wrap of the clock, nothing is lost in 32 bits. */
  lemma DeltaExact(due: int, now: int)
    requires -HALF <= due - now < HALF
    ensures Delta(Key(due), Key(now)) == due - now
  {
    var a, b := due / U32, now / U32;
    assert due == a * U32 + Key(due) && now == b * U32 + Key(now);
    ModShift(Key(due) - Key(now), a - b);
  }

  /** One millisecond outside that range the order is wrong: an overdue timer sorts last. */
  lemma OutsideTheWindow(now: nat)
    ensures Cmp(Key(now - HALF - 1), Key(now), Key(now)) == 1
  {
    var late := now - HALF - 1;
    DeltaExact(late + U32, now);
    ModShift(late, 1);
    DeltaExact(now, now);
  }

  /** When a timer is due, and the how-many-eth `Set` put it in. */
  datatype Stamp = Stamp(due: int, serial: nat)

  predicate Before(a: Stamp, b: Stamp) {
    a.due < b.due || (a.due == b.due && a.serial < b.serial)
  }

  datatype TimerNode = TimerNode(id: Ptr, key: nat)

  ghost function Ids(tree: seq<TimerNode>): set<Ptr> {
    set n | n in tree :: n.id
  }

  /** `tree` lists the timers of `pending`, earliest first and first-in first-out among equals. */
  ghost predicate Represents(tree: seq<TimerNode>, pending: map<Ptr, Stamp>) {
    && Ids(tree) == pending.Keys
    && Keyed(tree, pending)
    && Sorted(tree, pending)
  }

  ghost predicate Keyed(tree: seq<TimerNode>, pending: map<Ptr, Stamp>) {
    forall i :: 0 <= i < |tree| ==> tree[i].id in pending && tree[i].key == Key(pending[tree[i].id].due)
  }

  ghost predicate Sorted(tree: seq<TimerNode>, pending: map<Ptr, Stamp>)
    requires Keyed(tree, pending)
  {
    forall i, j :: 0 <= i < j < |tree| ==> Before(pending[tree[i].id], pending[tree[j].id])
  }

  lemma IdsConcat(s: seq<TimerNode>, t: seq<TimerNode>)
    ensures Ids(s + t) == Ids(s) + Ids(t)
  {
    assert forall n :: n in s + t <==> n in s || n in t;
  }

  /** The order is determined: there is one such list. */
  lemma {:induction false} RepresentationIsUnique(s: seq<TimerNode>, t: seq<TimerNode>, pending: map<Ptr, Stamp>)
    requires Represents(s, pending) && Represents(t, pending)
    ensures s == t
    decreases |s|
  {
    if s == [] {
      assert pending.Keys == {};
      assert t == [] by { assert forall n :: n in t ==> n.id in Ids(t); }
    } else {
      assert s[0].id in Ids(s);
      assert s[0].id in Ids(t) && t[0].id in Ids(s);
      var i :| 0 <= i < |t| && t[i].id == s[0].id;
      var j :| 0 <= j < |s| && s[j].id == t[0].id;
      assert i == 0;
      var rest := pending - {s[0].id};
      RepresentsTail(s, pending);
      RepresentsTail(t, pending);
      RepresentationIsUnique(s[1..], t[1..], rest);
    }
  }

  lemma RepresentsTail(s: seq<TimerNode>, pending: map<Ptr, Stamp>)
    requires s != [] && Represents(s, pending)
    ensures Represents(s[1..], pending - {s[0].id})
  {
    var rest := s[1..];
    assert forall i :: 0 <= i < |rest| ==> rest[i] == s[i + 1];
    forall i | 0 <= i < |rest|
      ensures rest[i].id != s[0].id
    {
      assert Before(pending[s[0].id], pending[s[i + 1].id]);
    }
    forall id | id in pending && id != s[0].id
      ensures id in Ids(rest)
    {
      assert id in Ids(s);
      var i :| 0 <= i < |s| && s[i].id == id;
      assert rest[i - 1].id == id;
    }
  }

  /** `avl_delete`: the tree without the node of `id`. */
  function Unlink(tree: seq<TimerNode>, id: Ptr): (r: seq<TimerNode>)
    ensures forall n :: n in r <==> n in tree && n.id != id
  {
    if tree == [] then []
    else (if tree[0].id == id then [] else [tree[0]]) + Unlink(tree[1..], id)
  }

  lemma UnlinkRepresents(tree: seq<TimerNode>, pending: map<Ptr, Stamp>, id: Ptr)
    requires Represents(tree, pending)
    ensures Represents(Unlink(tree, id), pending - {id})
    ensures tree != [] && tree[0].id != id ==> Unlink(tree, id) != [] && Unlink(tree, id)[0] == tree[0]
    ensures tree != [] && tree[0].id == id ==> Unlink(tree, id) == tree[1..]
  {
    if id in pending {
      assert id in Ids(tree);
      var i :| 0 <= i < |tree| && tree[i].id == id;
      forall j | 0 <= j < |tree| && j != i
        ensures tree[j].id != id
      {
        assert Before(pending[tree[if i < j then i else j].id], pending[tree[if i < j then j else i].id]);
      }
      UnlinkAt(tree, i);
      CutRepresents(tree, pending, i);
    } else {
      assert id !in Ids(tree);
      UnlinkAbsent(tree, id);
      assert pending - {id} == pending;
    }
  }

  lemma {:induction false} UnlinkAt(tree: seq<TimerNode>, i: nat)
    requires i < |tree| && forall j :: 0 <= j < |tree| && j != i ==> tree[j].id != tree[i].id
    ensures Unlink(tree, tree[i].id) == tree[..i] + tree[i + 1..]
  {
    if i == 0 {
      UnlinkAbsent(tree[1..], tree[0].id);
    } else {
      UnlinkAt(tree[1..], i - 1);
    }
  }

  lemma CutRepresents(tree: seq<TimerNode>, pending: map<Ptr, Stamp>, i: nat)
    requires Represents(tree, pending) && i < |tree|
    requires forall j :: 0 <= j < |tree| && j != i ==> tree[j].id != tree[i].id
    ensures Represents(tree[..i] + tree[i + 1..], pending - {tree[i].id})
  {
    CutIds(tree, i);
    CutSorted(tree, pending, i);
  }

  lemma CutIds(tree: seq<TimerNode>, i: nat)
    requires i < |tree|
    requires forall j :: 0 <= j < |tree| && j != i ==> tree[j].id != tree[i].id
    ensures Ids(tree[..i] + tree[i + 1..]) == Ids(tree) - {tree[i].id}
  {
    var front, back := tree[..i], tree[i + 1..];
    assert tree == front + ([tree[i]] + back);
    IdsConcat(front, [tree[i]] + back);
    IdsConcat([tree[i]], back);
    IdsConcat(front, back);
    assert forall n :: n in front || n in back ==> n.id != tree[i].id;
  }

  lemma CutSorted(tree: seq<TimerNode>, pending: map<Ptr, Stamp>, i: nat)
    requires Keyed(tree, pending) && Sorted(tree, pending) && i < |tree|
    requires forall j :: 0 <= j < |tree| && j != i ==> tree[j].id != tree[i].id
    ensures var r := tree[..i] + tree[i + 1..];
      Keyed(r, pending - {tree[i].id}) && Sorted(r, pending - {tree[i].id})
  {
    var r := tree[..i] + tree[i + 1..];
    assert forall k :: 0 <= k < |r| ==> r[k] == tree[if k < i then k else k + 1];
  }

  lemma {:induction false} UnlinkAbsent(tree: seq<TimerNode>, id: Ptr)
    requires forall n :: n in tree ==> n.id != id
    ensures Unlink(tree, id) == tree
  {
    if tree != [] {
      UnlinkAbsent(tree[1..], id);
    }
  }

  lemma InsertRepresents(tree: seq<TimerNode>, pending: map<Ptr, Stamp>, at: nat, id: Ptr, stamp: Stamp)
    requires Represents(tree, pending) && at <= |tree| && id !in pending
    requires forall i :: 0 <= i < at ==> Before(pending[tree[i].id], stamp)
    requires forall i :: at <= i < |tree| ==> Before(stamp, pending[tree[i].id])
    ensures Represents(tree[..at] + [TimerNode(id, Key(stamp.due))] + tree[at..], pending[id := stamp])
  {
    InsertIds(tree, at, TimerNode(id, Key(stamp.due)));
    InsertSorted(tree, pending, at, id, stamp);
  }

  lemma InsertIds(tree: seq<TimerNode>, at: nat, node: TimerNode)
    requires at <= |tree|
    ensures Ids(tree[..at] + [node] + tree[at..]) == Ids(tree) + {node.id}
  {
    var front, back := tree[..at], tree[at..];
    assert tree == front + back;
    IdsConcat(front, back);
    IdsConcat(front, [node]);
    IdsConcat(front + [node], back);
  }

  lemma InsertSorted(tree: seq<TimerNode>, pending: map<Ptr, Stamp>, at: nat, id: Ptr, stamp: Stamp)
    requires Keyed(tree, pending) && Sorted(tree, pending) && at <= |tree| && id !in pending
    requires forall i :: 0 <= i < at ==> Before(pending[tree[i].id], stamp)
    requires forall i :: at <= i < |tree| ==> Before(stamp, pending[tree[i].id])
    ensures var r := tree[..at] + [TimerNode(id, Key(stamp.due))] + tree[at..];
      Keyed(r, pending[id := stamp]) && Sorted(r, pending[id := stamp])
  {
    var node := TimerNode(id, Key(stamp.due));
    var r := tree[..at] + [node] + tree[at..];
    assert forall k :: 0 <= k < |r| ==> r[k] == if k < at then tree[k] else if k == at then node else tree[k - 1];
  }

  /** Every deadline is within half a wrap of `now`, every stamp from before `serial`. */
  ghost predicate Window(pending: map<Ptr, Stamp>, serial: nat, now: int) {
    forall id :: id in pending ==> -HALF <= pending[id].due - now < HALF && pending[id].serial < serial
  }

  lemma ReplaceStamp(pending: map<Ptr, Stamp>, id: Ptr, stamp: Stamp)
    ensures (pending - {id})[id := stamp] == pending[id := stamp]
    ensures id !in pending ==> pending - {id} == pending
  {
  }

  class TimeoutQueue {
    var tree: seq<TimerNode>
    var cmpPtr: nat
    /** When the event loop will call back, if at all. */
    var armed: Option<int>

    ghost var pending: map<Ptr, Stamp>
    ghost var serial: nat
    /** The latest reading of the clock. */
    ghost var clock: int

    ghost predicate Valid()
      reads this
    {
      && Represents(tree, pending)
      && (forall id :: id in pending ==> pending[id].serial < serial && pending[id].due < clock + HALF)
      && NeverLate()
    }

    /** The event loop calls back no later than the first deadline, or the next millisecond. */
    ghost predicate NeverLate()
      requires Represents(tree, pending)
      reads this
    {
      tree != [] ==> armed.Some? && armed.value <= Max(pending[tree[0].id].due, clock + 1)
    }

    /** No pending deadline has been missed by half a wrap of the clock (24 days). */
    ghost predicate Timely(now: int)
      reads this
    {
      clock <= now && forall id :: id in pending ==> now - HALF <= pending[id].due
    }

    static ghost function Max(a: int, b: int): int {
      if a < b then b else a
    }

    constructor ()
      ensures Valid() && tree == [] && pending == map[] && clock == 0
    {
      tree, cmpPtr, armed := [], 0, None;
      pending, serial, clock := map[], 0, 0;
    }

    predicate IsSet(id: Ptr)
      reads this
    {
      exists n :: n in tree && n.id == id
    }

    predicate IsFirst(id: Ptr)
      reads this
    {
      tree != [] && tree[0].id == id
    }

    method Recalc(time: nat)
      requires Represents(tree, pending) && clock <= time
      requires tree != [] ==> -HALF <= pending[tree[0].id].due - time < HALF
      modifies this`armed
      ensures tree == [] ==> armed == None
      ensures tree != [] ==> armed == Some(Max(pending[tree[0].id].due, time + 1))
    {
      if tree == [] {
        armed := None;
        return;
      }
      DeltaExact(pending[tree[0].id].due, time);
      var delta := Delta(tree[0].key, Key(time));
      if delta < 1 {
        delta := 1;
      }
      armed := Some(time + delta);
    }

    /** The end of the event loop's callback at `time`. */
    method Rearm(time: nat)
      requires Valid() && Timely(time)
      modifies this`armed, this`clock
      ensures Valid() && clock == time
      ensures tree == [] ==> armed == None
      ensures tree != [] ==> tree[0].id in pending && armed == Some(Max(pending[tree[0].id].due, time + 1))
    {
      clock := time;
      if tree != [] { assert tree[0].id in pending; }
      Recalc(time);
    }

    /** The first timer is due before every other one. */
    lemma FirstIsFirst()
      requires Represents(tree, pending)
      ensures tree == [] <==> pending == map[]
      ensures tree != [] ==> tree[0].id in pending
      ensures forall id :: tree != [] && id in pending && id != tree[0].id ==> Before(pending[tree[0].id], pending[id])
    {
      if tree != [] {
        forall id | id in pending && id != tree[0].id
          ensures Before(pending[tree[0].id], pending[id])
        {
          assert id in Ids(tree);
        }
      }
      assert tree != [] ==> tree[0].id in pending;
      assert tree == [] ==> pending.Keys == {};
    }

    /**
      The insertion point found by descending a search tree of any shape: each
      comparison is with an arbitrary node of the part still in question.
     */
    method Descend(key: nat, ghost stamp: Stamp, ghost now: nat) returns (at: nat)
      requires Represents(tree, pending) && cmpPtr == Key(now)
      requires key == Key(stamp.due) && -HALF <= stamp.due - now < HALF
      requires Window(pending, stamp.serial, now)
      ensures at <= |tree|
      ensures forall i :: 0 <= i < at ==> Before(pending[tree[i].id], stamp)
      ensures forall i :: at <= i < |tree| ==> Before(stamp, pending[tree[i].id])
    {
      var lo, hi := 0, |tree|;
      while lo < hi
        invariant 0 <= lo <= hi <= |tree|
        invariant forall i :: 0 <= i < lo ==> Before(pending[tree[i].id], stamp)
        invariant forall i :: hi <= i < |tree| ==> Before(stamp, pending[tree[i].id])
      {
        assert lo <= lo < hi;
        var mid :| lo <= mid < hi;
        DeltaExact(stamp.due, now);
        DeltaExact(pending[tree[mid].id].due, now);
        if Cmp(key, tree[mid].key, cmpPtr) < 0 {
          hi := mid;
        } else {
          lo := mid + 1;
        }
      }
      at := lo;
    }

    /** `avl_insert`, behind any equal keys */
    method Insert(id: Ptr, val: nat, ghost stamp: Stamp, ghost now: nat)
      requires Represents(tree, pending) && cmpPtr == Key(now) && id !in pending
      requires val == Key(stamp.due) && -HALF <= stamp.due - now < HALF
      requires Window(pending, stamp.serial, now)
      modifies this`tree, this`pending
      ensures Represents(tree, pending) && pending == old(pending)[id := stamp]
      ensures tree != [] && (tree[0].id == id || (old(tree) != [] && tree[0] == old(tree)[0]))
    {
      var at := Descend(val, stamp, now);
      InsertRepresents(tree, pending, at, id, stamp);
      tree := tree[..at] + [TimerNode(id, val)] + tree[at..];
      pending := pending[id := stamp];
    }

    /** `avl_delete` */
    method Delete(id: Ptr)
      requires Represents(tree, pending)
      modifies this`tree, this`pending
      ensures Represents(tree, pending) && pending == old(pending) - {id}
      ensures old(tree) != [] && old(tree)[0].id != id ==> tree != [] && tree[0] == old(tree)[0]
      ensures old(tree) != [] && old(tree)[0].id == id ==> tree == old(tree)[1..]
    {
      UnlinkRepresents(tree, pending, id);
      tree, pending := Unlink(tree, id), pending - {id};
    }

    lemma SetMembers(id: Ptr)
      requires Represents(tree, pending)
      ensures IsSet(id) <==> id in pending
    {
      assert id in Ids(tree) <==> id in pending;
    }

    /** Move `id` to its new place; `recalc` unless the first timer is another one, before and after. */
    method Place(id: Ptr, val: nat, ghost stamp: Stamp, ghost now: nat) returns (recalc: bool)
      requires Represents(tree, pending) && cmpPtr == Key(now)
      requires val == Key(stamp.due) && -HALF <= stamp.due - now < HALF
      requires Window(pending, stamp.serial, now)
      modifies this`tree, this`pending
      ensures Represents(tree, pending) && pending == old(pending)[id := stamp]
      ensures tree != []
      ensures recalc || (old(tree) != [] && tree[0] == old(tree)[0] && tree[0].id != id)
    {
      recalc := false;
      SetMembers(id);
      ReplaceStamp(pending, id, stamp);
      if IsSet(id) {
        recalc := IsFirst(id);
        Delete(id);
      }
      Insert(id, val, stamp, now);
      if IsFirst(id) {
        recalc := true;
      }
    }

    /** Arm or re-arm `id`, `msecs` from the clock reading `now`. */
    method Set(id: Ptr, msecs: int, now: nat)
      requires Valid() && Timely(now)
      requires -HALF <= msecs < HALF
      modifies this
      ensures Valid() && clock == now && Timely(now)
      ensures pending == old(pending)[id := Stamp(now + msecs, old(serial))]
      ensures serial == old(serial) + 1
    {
      ghost var stamp := Stamp(now + msecs, serial);
      cmpPtr := Key(now);
      var recalc := Place(id, Key(now + msecs), stamp, now);
      clock, serial := now, serial + 1;
      assert Window(pending, serial, now);
      assert tree[0].id in pending;
      if recalc {
        Recalc(now);
      }
    }

    /** Disarm `id`; the event loop's own timer stays as it is. */
    method Cancel(id: Ptr)
      requires Valid()
      modifies this`tree, this`pending
      ensures Valid()
      ensures pending == old(pending) - {id}
      ensures old(tree) != [] && old(tree)[0].id == id ==> tree == old(tree)[1..]
    {
      SetMembers(id);
      if !IsSet(id) {
        return;
      }
      Delete(id);
      if tree != [] && old(tree)[0].id == id {
        assert tree[0] == old(tree)[1];
        assert Before(old(pending)[old(tree)[0].id], old(pending)[old(tree)[1].id]);
      }
    }
  }
}
