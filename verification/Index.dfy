/**
  One side of a two-sided index: every entry is linked into the list of the one
  key that owns it.
 */
module Index {
  import opened Types
  import opened Lists

  ghost predicate Side(owner: map<Ptr, nat>, lists: map<nat, seq<Ptr>>) {
    && (forall p :: p in owner ==> owner[p] in lists && p in lists[owner[p]])
    && (forall k, p :: k in lists && p in lists[k] ==> p in owner && owner[p] == k)
    && (forall k :: k in lists ==> NoDup(lists[k]))
  }

  /** Unlink `dead`; keys stay, even with an empty list. */
  function Thin(lists: map<nat, seq<Ptr>>, dead: set<Ptr>): map<nat, seq<Ptr>> {
    map k | k in lists :: Minus(lists[k], dead)
  }

  /** Unlink `dead`; keys whose list becomes empty go. */
  function Prune(lists: map<nat, seq<Ptr>>, dead: set<Ptr>): map<nat, seq<Ptr>> {
    NonEmpty(Thin(lists, dead))
  }

  function NonEmpty(lists: map<nat, seq<Ptr>>): map<nat, seq<Ptr>> {
    map k | k in lists && lists[k] != [] :: lists[k]
  }

  lemma ThinSide(owner: map<Ptr, nat>, lists: map<nat, seq<Ptr>>, dead: set<Ptr>)
    requires Side(owner, lists)
    ensures Side(owner - dead, Thin(lists, dead))
  {
    var thin := Thin(lists, dead);
    forall k | k in thin
      ensures NoDup(thin[k]) && forall p :: p in thin[k] <==> p in lists[k] && p !in dead
    {
      MinusNoDup(lists[k], dead);
      MinusMembers(lists[k], dead);
    }
    ThinnedSide(owner, lists, dead, thin);
  }

  lemma ThinnedSide(owner: map<Ptr, nat>, lists: map<nat, seq<Ptr>>, dead: set<Ptr>, thin: map<nat, seq<Ptr>>)
    requires Side(owner, lists) && thin.Keys == lists.Keys
    requires forall k :: k in thin ==> NoDup(thin[k]) && forall p :: p in thin[k] <==> p in lists[k] && p !in dead
    ensures Side(owner - dead, thin)
  {
  }

  lemma PruneSide(owner: map<Ptr, nat>, lists: map<nat, seq<Ptr>>, dead: set<Ptr>)
    requires Side(owner, lists)
    ensures Side(owner - dead, Prune(lists, dead))
  {
    ThinSide(owner, lists, dead);
    NonEmptySide(owner - dead, Thin(lists, dead));
  }

  lemma NonEmptySide(owner: map<Ptr, nat>, lists: map<nat, seq<Ptr>>)
    requires Side(owner, lists)
    ensures Side(owner, NonEmpty(lists))
  {
  }

  lemma ThinCompose(lists: map<nat, seq<Ptr>>, dead: set<Ptr>, more: set<Ptr>)
    ensures Thin(Thin(lists, dead), more) == Thin(lists, dead + more)
  {
    forall k | k in lists
      ensures Minus(Minus(lists[k], dead), more) == Minus(lists[k], dead + more)
    {
      MinusCompose(lists[k], dead, more);
    }
  }

  lemma PruneCompose(lists: map<nat, seq<Ptr>>, dead: set<Ptr>, more: set<Ptr>)
    ensures Prune(Prune(lists, dead), more) == Prune(lists, dead + more)
  {
    var y, z := Prune(Prune(lists, dead), more), Prune(lists, dead + more);
    forall k | k in lists
      ensures k in y <==> k in z
      ensures k in y ==> y[k] == z[k]
    {
      MinusCompose(lists[k], dead, more);
      if Minus(lists[k], dead) == [] {
        assert Minus(Minus(lists[k], dead), more) == [];
      }
    }
  }

  lemma MinusAbsent(owner: map<Ptr, nat>, lists: map<nat, seq<Ptr>>, dead: set<Ptr>, k: nat)
    requires Side(owner, lists) && k in lists
    requires forall p :: p in dead && p in owner ==> owner[p] != k
    ensures Minus(lists[k], dead) == lists[k]
  {
    MinusNone(lists[k], dead);
  }

  /** Unlinking one entry touches the list of its owner only. */
  lemma ThinOne(owner: map<Ptr, nat>, lists: map<nat, seq<Ptr>>, p: Ptr)
    requires Side(owner, lists) && p in owner
    ensures Thin(lists, {p}) == lists[owner[p] := Minus(lists[owner[p]], {p})]
  {
    forall k | k in lists && k != owner[p]
      ensures Minus(lists[k], {p}) == lists[k]
    {
      MinusAbsent(owner, lists, {p}, k);
    }
  }

  lemma PruneOne(owner: map<Ptr, nat>, lists: map<nat, seq<Ptr>>, p: Ptr)
    requires Side(owner, lists) && p in owner
    requires forall k :: k in lists ==> lists[k] != []
    ensures var left := Minus(lists[owner[p]], {p});
      Prune(lists, {p}) == if left == [] then lists - {owner[p]} else lists[owner[p] := left]
  {
    ThinOne(owner, lists, p);
    NonEmptyUpdate(lists, owner[p], Minus(lists[owner[p]], {p}));
  }

  lemma NonEmptyUpdate(lists: map<nat, seq<Ptr>>, k: nat, left: seq<Ptr>)
    requires forall k :: k in lists ==> lists[k] != []
    ensures NonEmpty(lists[k := left]) == if left == [] then lists - {k} else lists[k := left]
  {
  }

  lemma NothingDead(lists: map<nat, seq<Ptr>>)
    ensures Thin(lists, {}) == lists
    ensures (forall k :: k in lists ==> lists[k] != []) ==> Prune(lists, {}) == lists
  {
    forall k | k in lists
      ensures Minus(lists[k], {}) == lists[k]
    {
      MinusNone(lists[k], {});
    }
  }

  lemma LinkSide(owner: map<Ptr, nat>, lists: map<nat, seq<Ptr>>, p: Ptr, k: nat)
    requires Side(owner, lists) && p !in owner && k in lists
    ensures Side(owner[p := k], lists[k := [p] + lists[k]])
  {
    assert p !in lists[k];
  }
}
