/** Linked lists of the daemon seen as sequences: deletion in place and order. */
module Lists {

  ghost predicate NoDup<T(!new)>(s: seq<T>) {
    forall i, j :: 0 <= i < j < |s| ==> s[i] != s[j]
  }

  lemma NoDupSnoc<T(!new)>(s: seq<T>, x: T)
    requires NoDup(s) && x !in s
    ensures NoDup(s + [x])
  {
  }

  /** `s` after unlinking every element of `dead`; the survivors keep their order. */
  function Minus<T(==,!new)>(s: seq<T>, dead: set<T>): seq<T> {
    if s == [] then []
    else (if s[0] in dead then [] else [s[0]]) + Minus(s[1..], dead)
  }

  lemma {:induction false} MinusMembers<T(!new)>(s: seq<T>, dead: set<T>)
    ensures forall x :: x in Minus(s, dead) <==> x in s && x !in dead
  {
    if s != [] {
      MinusMembers(s[1..], dead);
    }
  }

  lemma {:induction false} MinusConcat<T(!new)>(s: seq<T>, t: seq<T>, dead: set<T>)
    ensures Minus(s + t, dead) == Minus(s, dead) + Minus(t, dead)
  {
    if s == [] {
      assert s + t == t;
    } else {
      assert (s + t)[1..] == s[1..] + t;
      MinusConcat(s[1..], t, dead);
    }
  }

  lemma {:induction false} MinusNoDup<T(!new)>(s: seq<T>, dead: set<T>)
    requires NoDup(s)
    ensures NoDup(Minus(s, dead))
  {
    if s != [] {
      MinusMembers(s[1..], dead);
      MinusNoDup(s[1..], dead);
    }
  }

  lemma {:induction false} MinusCompose<T(!new)>(s: seq<T>, dead: set<T>, more: set<T>)
    ensures Minus(Minus(s, dead), more) == Minus(s, dead + more)
  {
    if s != [] {
      MinusCompose(s[1..], dead, more);
      MinusConcat(if s[0] in dead then [] else [s[0]], Minus(s[1..], dead), more);
    }
  }

  lemma {:induction false} MinusNone<T(!new)>(s: seq<T>, dead: set<T>)
    requires forall x :: x in s ==> x !in dead
    ensures Minus(s, dead) == s
  {
    if s != [] {
      MinusNone(s[1..], dead);
    }
  }

  lemma {:induction false} MinusAll<T(!new)>(s: seq<T>, dead: set<T>)
    requires forall x :: x in s ==> x in dead
    ensures Minus(s, dead) == []
  {
    if s != [] {
      MinusAll(s[1..], dead);
    }
  }

  /** Unlinking one known position of a duplicate-free list is cutting it out. */
  lemma {:induction false} MinusAt<T(!new)>(s: seq<T>, i: nat)
    requires i < |s| && NoDup(s)
    ensures Minus(s, {s[i]}) == s[..i] + s[i + 1..]
  {
    if i == 0 {
      MinusNone(s[1..], {s[0]});
    } else {
      MinusAt(s[1..], i - 1);
    }
  }

  ghost function Elements<T(!new)>(s: seq<T>): set<T> {
    set x | x in s
  }

  lemma SubsetSize<T(!new)>(a: set<T>, b: set<T>)
    requires a <= b
    ensures |a| <= |b|
  {
    if a != b {
      assert b == a + (b - a);
    }
  }

  lemma ElementsSnoc<T(!new)>(s: seq<T>, x: T)
    ensures Elements(s + [x]) == Elements(s) + {x}
  {
  }

  lemma ElementsCut<T(!new)>(s: seq<T>, k: nat)
    requires k < |s|
    ensures Elements(s[..k + 1]) == Elements(s[..k]) + {s[k]}
  {
    assert s[..k + 1] == s[..k] + [s[k]];
    ElementsSnoc(s[..k], s[k]);
  }

  /** Some address is always free, whatever finite set is in use. */
  lemma {:induction false} FreshNat(used: set<nat>)
    ensures exists p: nat :: p !in used
  {
    var bound := Bound(used);
    assert bound !in used;
  }

  lemma {:induction false} Bound(used: set<nat>) returns (b: nat)
    ensures forall x :: x in used ==> x < b
  {
    if used == {} {
      b := 0;
    } else {
      var x :| x in used;
      var c := Bound(used - {x});
      b := if c <= x then x + 1 else c;
      assert forall y :: y in used ==> y == x || y in used - {x};
    }
  }
}
