/** List operations the components perform on arrays: swapping two slots of a
    copy, the splice-out/splice-in drag move, `filter`, `find` and `slice(0, n)`. */
module ListOps {

  import opened Wrappers

  /** `s` with the elements at `i` and `j` exchanged. */
  function Swapped<T>(s: seq<T>, i: nat, j: nat): (r: seq<T>)
    requires i < |s| && j < |s|
    ensures |r| == |s|
    ensures r[i] == s[j] && r[j] == s[i]
    ensures forall k :: 0 <= k < |s| && k != i && k != j ==> r[k] == s[k]
  {
    s[i := s[j]][j := s[i]]
  }

  /** Swapping is a permutation. */
  lemma SwappedPermutes<T>(s: seq<T>, i: nat, j: nat)
    requires i < |s| && j < |s|
    ensures multiset(Swapped(s, i, j)) == multiset(s)
  {
    if i != j {
      var t := s[i := s[j]];
      assert t[j] == s[j];
      assert multiset(t) == multiset(s) - multiset{s[i]} + multiset{s[j]};
      assert multiset(t[j := s[i]]) == multiset(t) - multiset{s[j]} + multiset{s[i]};
    }
  }

  /** Swapping the same two slots twice restores the list. */
  lemma SwappedTwice<T>(s: seq<T>, i: nat, j: nat)
    requires i < |s| && j < |s|
    ensures Swapped(Swapped(s, i, j), i, j) == s
  {
  }

  /** Copies `s` into a fresh array, exchanges two slots through a temporary
      and hands back the array's contents. */
  method SwapCopy<T>(s: seq<T>, i: nat, j: nat) returns (r: seq<T>)
    requires i < |s| && j < |s|
    ensures r == Swapped(s, i, j)
  {
    var a := new T[|s|](k requires 0 <= k < |s| => s[k]);
    var temp := a[i];
    a[i] := a[j];
    a[j] := temp;
    r := a[..];
  }

  /** Move the element at `index` one place up: a swap with its predecessor,
      nothing at the top. */
  function MoveUp<T>(s: seq<T>, index: nat): seq<T>
    requires index < |s|
  {
    if index > 0 then Swapped(s, index - 1, index) else s
  }

  /** Move the element at `index` one place down: a swap with its successor,
      nothing at the bottom. */
  function MoveDown<T>(s: seq<T>, index: nat): seq<T>
    requires index < |s|
  {
    if index < |s| - 1 then Swapped(s, index, index + 1) else s
  }

  /** Moving up keeps the length and the elements, and exchanges exactly the
      element and its predecessor when there is one. */
  lemma MoveUpEffect<T>(s: seq<T>, index: nat)
    requires index < |s|
    ensures |MoveUp(s, index)| == |s| && multiset(MoveUp(s, index)) == multiset(s)
    ensures index == 0 ==> MoveUp(s, index) == s
    ensures index > 0 ==> MoveUp(s, index)[index - 1] == s[index] && MoveUp(s, index)[index] == s[index - 1]
    ensures forall k :: 0 <= k < |s| && k != index && k != index - 1 ==> MoveUp(s, index)[k] == s[k]
  {
    if index > 0 { SwappedPermutes(s, index - 1, index); }
  }

  /** Moving down keeps the length and the elements, and exchanges exactly the
      element and its successor when there is one. */
  lemma MoveDownEffect<T>(s: seq<T>, index: nat)
    requires index < |s|
    ensures |MoveDown(s, index)| == |s| && multiset(MoveDown(s, index)) == multiset(s)
    ensures index == |s| - 1 ==> MoveDown(s, index) == s
    ensures index < |s| - 1 ==> MoveDown(s, index)[index + 1] == s[index] && MoveDown(s, index)[index] == s[index + 1]
    ensures forall k :: 0 <= k < |s| && k != index && k != index + 1 ==> MoveDown(s, index)[k] == s[k]
  {
    if index < |s| - 1 { SwappedPermutes(s, index, index + 1); }
  }

  /** Moving up and then moving the same element back down restores the list,
      and the other way round. */
  lemma MoveUpThenDown<T>(s: seq<T>, index: nat)
    requires index < |s|
    ensures index > 0 ==> MoveDown(MoveUp(s, index), index - 1) == s
    ensures index < |s| - 1 ==> MoveUp(MoveDown(s, index), index + 1) == s
  {
    if index > 0 { SwappedTwice(s, index - 1, index); }
    if index < |s| - 1 { SwappedTwice(s, index, index + 1); }
  }

  /** `s` without its element at `i` (`splice(i, 1)`). */
  function RemovedAt<T>(s: seq<T>, i: nat): (r: seq<T>)
    requires i < |s|
    ensures |r| == |s| - 1
    ensures forall k :: 0 <= k < i ==> r[k] == s[k]
    ensures forall k :: i <= k < |r| ==> r[k] == s[k + 1]
  {
    s[..i] + s[i + 1..]
  }

  /** `s` with `x` inserted before position `i` (`splice(i, 0, x)`). */
  function InsertedAt<T>(s: seq<T>, i: nat, x: T): (r: seq<T>)
    requires i <= |s|
    ensures |r| == |s| + 1 && r[i] == x
    ensures forall k :: 0 <= k < i ==> r[k] == s[k]
    ensures forall k :: i < k < |r| ==> r[k] == s[k - 1]
  {
    s[..i] + [x] + s[i..]
  }

  /** The drag-and-drop move: take the element at `src` out, then put it back
      in at `dst` of the shortened list. */
  function Moved<T>(s: seq<T>, src: nat, dst: nat): seq<T>
    requires src < |s| && dst < |s|
  {
    InsertedAt(RemovedAt(s, src), dst, s[src])
  }

  /** Position by position: the moved element lands on `dst` and the elements
      between the two positions shift by one towards `src`. */
  lemma MovedAt<T>(s: seq<T>, src: nat, dst: nat, k: nat)
    requires src < |s| && dst < |s| && k < |s|
    ensures |Moved(s, src, dst)| == |s|
    ensures Moved(s, src, dst)[k] ==
      if k == dst then s[src]
      else if src <= k < dst then s[k + 1]
      else if dst < k <= src then s[k - 1]
      else s[k]
  {
  }

  /** The move keeps the length, places the moved element at `dst`, is the
      identity when `src == dst`, and leaves the other elements in their
      relative order: removing `dst` from the result is removing `src` from
      the input. */
  lemma MovedProperties<T>(s: seq<T>, src: nat, dst: nat)
    requires src < |s| && dst < |s|
    ensures |Moved(s, src, dst)| == |s|
    ensures Moved(s, src, dst)[dst] == s[src]
    ensures src == dst ==> Moved(s, src, dst) == s
    ensures RemovedAt(Moved(s, src, dst), dst) == RemovedAt(s, src)
  {
    var t := RemovedAt(s, src);
    var r := Moved(s, src, dst);
    assert RemovedAt(r, dst) == t;
    if src == dst {
      forall k | 0 <= k < |s| ensures r[k] == s[k] {
        MovedAt(s, src, dst, k);
      }
    }
  }

  /** The move is a permutation of the list. */
  lemma MovedPermutes<T>(s: seq<T>, src: nat, dst: nat)
    requires src < |s| && dst < |s|
    ensures multiset(Moved(s, src, dst)) == multiset(s)
  {
    var t := RemovedAt(s, src);
    assert s == s[..src] + [s[src]] + s[src + 1..];
    assert multiset(s) == multiset(s[..src]) + multiset{s[src]} + multiset(s[src + 1..]);
    assert multiset(t) == multiset(s[..src]) + multiset(s[src + 1..]);
    assert t == t[..dst] + t[dst..];
    assert multiset(t) == multiset(t[..dst]) + multiset(t[dst..]);
    var r := Moved(s, src, dst);
    assert r == t[..dst] + [s[src]] + t[dst..];
    assert multiset(r) == multiset(t[..dst]) + multiset{s[src]} + multiset(t[dst..]);
    assert multiset(r) == multiset(t) + multiset{s[src]};
  }

  /** Dragging the element back from `dst` to `src` undoes the move. */
  lemma MovedBack<T>(s: seq<T>, src: nat, dst: nat)
    requires src < |s| && dst < |s|
    ensures Moved(Moved(s, src, dst), dst, src) == s
  {
    var r := Moved(s, src, dst);
    MovedProperties(s, src, dst);
    var b := Moved(r, dst, src);
    forall k | 0 <= k < |s| ensures b[k] == s[k] {
      MovedAt(r, dst, src, k);
      if k != src {
        if dst <= k < src { MovedAt(s, src, dst, k + 1); }
        else if src < k <= dst { MovedAt(s, src, dst, k - 1); }
        else { MovedAt(s, src, dst, k); }
      }
    }
  }

  /** `a[src..dst)` takes the slots one place further on; `a[dst]` keeps
      its old value and nothing else changes. */
  method ShiftDown<T>(a: array<T>, src: nat, dst: nat)
    requires src <= dst < a.Length
    modifies a
    ensures forall m :: 0 <= m < src ==> a[m] == old(a[m])
    ensures forall m :: src <= m < dst ==> a[m] == old(a[m + 1])
    ensures forall m :: dst <= m < a.Length ==> a[m] == old(a[m])
  {
    var k := src;
    while k < dst
      invariant src <= k <= dst
      invariant forall m :: 0 <= m < src ==> a[m] == old(a[m])
      invariant forall m :: src <= m < k ==> a[m] == old(a[m + 1])
      invariant forall m :: k <= m < a.Length ==> a[m] == old(a[m])
    {
      a[k] := a[k + 1];
      k := k + 1;
    }
  }

  /** `a(dst..src]` takes the slots one place back; `a[dst]` keeps its old
      value and nothing else changes. */
  method ShiftUp<T>(a: array<T>, src: nat, dst: nat)
    requires dst <= src < a.Length
    modifies a
    ensures forall m :: 0 <= m <= dst ==> a[m] == old(a[m])
    ensures forall m :: dst < m <= src ==> a[m] == old(a[m - 1])
    ensures forall m :: src < m < a.Length ==> a[m] == old(a[m])
  {
    var k := src;
    while k > dst
      invariant dst <= k <= src
      invariant forall m :: 0 <= m <= k ==> a[m] == old(a[m])
      invariant forall m :: k < m <= src ==> a[m] == old(a[m - 1])
      invariant forall m :: src < m < a.Length ==> a[m] == old(a[m])
    {
      a[k] := a[k - 1];
      k := k - 1;
    }
  }

  /** The move done in place on a copy: the slots between the two positions
      shift by one and the saved element is written at `dst`. */
  method MoveCopy<T>(s: seq<T>, src: nat, dst: nat) returns (r: seq<T>)
    requires src < |s| && dst < |s|
    ensures r == Moved(s, src, dst)
  {
    var a := new T[|s|](k requires 0 <= k < |s| => s[k]);
    assert a[..] == s;
    var moved := a[src];
    if src < dst {
      ShiftDown(a, src, dst);
    } else {
      ShiftUp(a, src, dst);
    }
    a[dst] := moved;
    r := a[..];
    forall k | 0 <= k < |s| ensures r[k] == Moved(s, src, dst)[k] {
      MovedAt(s, src, dst, k);
    }
  }

  /** `s.filter(keep)`: the kept elements in their original order. */
  function Filter<T>(s: seq<T>, keep: T -> bool): (r: seq<T>)
    ensures |r| <= |s|
    ensures forall k :: 0 <= k < |r| ==> r[k] in s && keep(r[k])
    ensures forall k :: 0 <= k < |s| && keep(s[k]) ==> s[k] in r
    decreases |s|
  {
    if s == [] then []
    else
      var rest := Filter(s[1..], keep);
      assert s == [s[0]] + s[1..];
      if keep(s[0]) then [s[0]] + rest else rest
  }

  /** Filtering distributes over concatenation, so the relative order of the
      kept elements is the input order. */
  lemma {:induction false} FilterAppend<T>(a: seq<T>, b: seq<T>, keep: T -> bool)
    ensures Filter(a + b, keep) == Filter(a, keep) + Filter(b, keep)
    decreases |a|
  {
    if a == [] {
      assert a + b == b;
    } else {
      assert (a + b)[1..] == a[1..] + b;
      FilterAppend(a[1..], b, keep);
    }
  }

  /** Filtering twice with the same test is filtering once. */
  lemma {:induction false} FilterIdempotent<T>(s: seq<T>, keep: T -> bool)
    ensures Filter(Filter(s, keep), keep) == Filter(s, keep)
    decreases |s|
  {
    if s != [] {
      FilterIdempotent(s[1..], keep);
    }
  }

  /** Filtering keeps everything exactly when every element passes. */
  lemma {:induction false} FilterAll<T>(s: seq<T>, keep: T -> bool)
    ensures Filter(s, keep) == s <==> forall k :: 0 <= k < |s| ==> keep(s[k])
    decreases |s|
  {
    if s != [] {
      FilterAll(s[1..], keep);
      if !keep(s[0]) {
        assert |Filter(s, keep)| < |s| by {
          assert Filter(s, keep) == Filter(s[1..], keep);
        }
      }
    }
  }

  /** Filtering keeps nothing exactly when no element passes. */
  lemma {:induction false} FilterNone<T>(s: seq<T>, keep: T -> bool)
    ensures Filter(s, keep) == [] <==> forall k :: 0 <= k < |s| ==> !keep(s[k])
    decreases |s|
  {
    if s != [] {
      FilterNone(s[1..], keep);
      assert forall k :: 1 <= k < |s| ==> s[k] == s[1..][k - 1];
    }
  }

  /** A stronger test keeps no more elements. */
  lemma {:induction false} FilterStronger<T>(s: seq<T>, weak: T -> bool, strong: T -> bool)
    requires forall x :: strong(x) ==> weak(x)
    ensures |Filter(s, strong)| <= |Filter(s, weak)|
    ensures forall k :: 0 <= k < |Filter(s, strong)| ==> Filter(s, strong)[k] in Filter(s, weak)
    decreases |s|
  {
    if s != [] {
      FilterStronger(s[1..], weak, strong);
    }
  }

  /** The number of elements that pass `keep`. */
  function CountWhere<T>(s: seq<T>, keep: T -> bool): (n: nat)
    ensures n == |Filter(s, keep)|
    decreases |s|
  {
    if s == [] then 0 else (if keep(s[0]) then 1 else 0) + CountWhere(s[1..], keep)
  }

  /** `s.find(p)`: the first element satisfying `p`. */
  function Find<T>(s: seq<T>, p: T -> bool): (r: Option<T>)
    ensures r.None? <==> forall k :: 0 <= k < |s| ==> !p(s[k])
    ensures r.Some? ==> exists k :: 0 <= k < |s| && s[k] == r.value && p(s[k]) && forall m :: 0 <= m < k ==> !p(s[m])
    decreases |s|
  {
    if s == [] then None
    else if p(s[0]) then Some(s[0])
    else
      var r := Find(s[1..], p);
      assert forall k :: 1 <= k < |s| ==> s[k] == s[1..][k - 1];
      r
  }

  /** The first element satisfying `p` is the one found. */
  lemma {:induction false} FindFirst<T>(s: seq<T>, p: T -> bool, k: nat)
    requires k < |s| && p(s[k])
    requires forall m :: 0 <= m < k ==> !p(s[m])
    ensures Find(s, p) == Some(s[k])
    decreases k
  {
    if k > 0 {
      assert !p(s[0]);
      FindFirst(s[1..], p, k - 1);
    }
  }

  /** `s.slice(0, n)`: at most the first `n` elements. */
  function Take<T>(s: seq<T>, n: nat): (r: seq<T>)
    ensures |r| == if |s| <= n then |s| else n
    ensures r == s[..|r|]
  {
    if |s| <= n then s else s[..n]
  }

  /** `s[s.length - 1]` of a non-empty list. */
  function Last<T>(s: seq<T>): T
    requires s != []
  {
    s[|s| - 1]
  }
}
