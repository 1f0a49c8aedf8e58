// The arrays of the store are trees: one for each place, with nodes of its own.
module BcCells {
  import opened BcStore
  import opened BcArrays

  // The objects a tree is made of.
  ghost function Parts(t: Tree): set<object>
    reads t
  {
    {t} + set n: Node | n in t.at.Values
  }

  ghost predicate Holds(A: Arith, t: Tree, m: map<int, Num>)
    reads t, t.at.Values
  {
    t.Valid() && t.zero == A.zero && t.Shows(m)
  }

  // Every place has its tree, and no two trees have an object in common.
  ghost predicate Held(A: Arith, ts: seq<Tree>, cells: seq<map<int, Num>>)
    reads ts, set i, n | 0 <= i < |ts| && n in ts[i].at.Values :: n
  {
    |ts| == |cells| && (forall i :: 0 <= i < |ts| ==> Holds(A, ts[i], cells[i]))
    && forall i, j :: 0 <= i < j < |ts| ==> Parts(ts[i]) !! Parts(ts[j])
  }

  // store_array into the array in use, which has a place: the trees show what the store
  // has afterwards.
  method StoreElement(A: Arith, ts: seq<Tree>, ghost s: Store, arr: nat, id: nat, index: nat, v: Num)
    requires Held(A, ts, s.cells) && id < |ts| && index <= BC_DIM_MAX
    requires PlaceOf(s, arr).Slot? && PlaceOf(s, arr).id == id
    modifies ts[id], ts[id].at.Values
    ensures Held(A, ts, SetElem(s, arr, index, v).cells)
  {
    hide Tree.Valid, Tree.Shows, Tree.Value;
    ghost var cells := SetElem(s, arr, index, v).cells;
    assert cells == s.cells[id := s.cells[id][index := v]];
    assert Holds(A, ts[id], s.cells[id]);
    ts[id].Put(index, v, s.cells[id]);
    forall i | 0 <= i < |ts| ensures Holds(A, ts[i], cells[i]) {
      if i != id {
        assert old(Holds(A, ts[i], s.cells[i]));
        assert old(Parts(ts[i]) !! Parts(ts[id]));
        assert ts[i] in old(Parts(ts[i])) && ts[id] in old(Parts(ts[id]));
        assert ts[i].at == old(ts[i].at);
        assert forall n :: n in ts[i].at.Values ==> n in old(Parts(ts[i])) && n !in old(ts[id].at.Values) by {
          assert forall n :: n in old(ts[id].at.Values) ==> n in old(Parts(ts[id]));
        }
        assert ts[i].Valid() && ts[i].Shows(s.cells[i]);
      }
    }
  }

  // An array is passed by value: a new place, whose tree shows the same elements.
  method CopyElements(A: Arith, ts: seq<Tree>, ghost s: Store, arr: nat, id: nat) returns (r: Tree)
    requires Held(A, ts, s.cells) && id < |ts| && PlaceOf(s, arr).Slot? && PlaceOf(s, arr).id == id
    ensures fresh(r) && fresh(r.at.Values) && Held(A, ts + [r], s.cells + [Elements(s, arr)])
  {
    hide Tree.Valid, Tree.Shows, Tree.Value;
    assert Holds(A, ts[id], s.cells[id]);
    if ts[id].depth == 0 {
      r := new Tree(A.zero);
      EmptyShows(ts[id], r, s.cells[id]);
    } else {
      r := CopyArray(ts[id]);
    }
  }

  lemma EmptyShows(t: Tree, r: Tree, m: map<int, Num>)
    requires t.Valid() && t.depth == 0 && t.Shows(m) && r.zero == t.zero && forall i: nat :: r.Value(i) == r.zero
    ensures r.Shows(m)
  {
    forall i: nat | i <= BC_DIM_MAX ensures r.Value(i) == if i in m then m[i] else r.zero {
      assert t.Value(i) == t.zero;
    }
  }
}
