/**
 * How `createForm` lays the form out: the created wrappers are appended in row order
 * (confirmations leave nothing to append), then every fieldset, in document order, pulls in
 * the wrappers whose `data-fieldset` names it. A wrapper moves with everything inside it,
 * and the browser refuses to move a wrapper into a fieldset it contains. The layout fixes
 * the document order, which is the order of `form.elements`.
 */
module FormLayout {
  import opened Results
  import opened FormFields
  import opened FormBlock

  // ---------------------------------------------------------------- appended wrappers

  /** The wrappers appended to the form: every result but the confirmations, in row order. */
  function Appended(created: seq<Created>): seq<Wrapper> {
    if created == [] then []
    else
      var last := created[|created| - 1];
      Appended(created[..|created| - 1]) + (if last.Wrapped? then [last.wrapper] else [])
  }

  /** Appending keeps row order and a confirmation contributes nothing, wherever it stands. */
  lemma {:induction false} AppendedSkipsConfirmations(a: seq<Created>, c: Created, b: seq<Created>)
    ensures Appended(a + [c] + b) == Appended(a) + (if c.Wrapped? then [c.wrapper] else []) + Appended(b)
  {
    if b == [] {
      assert a + [c] + b == a + [c];
      assert (a + [c])[..|a + [c]| - 1] == a;
    } else {
      var b' := b[..|b| - 1];
      AppendedSkipsConfirmations(a, c, b');
      assert (a + [c] + b)[..|a + [c] + b| - 1] == a + [c] + b';
    }
  }

  // ---------------------------------------------------------------- the wrapper tree

  /**
   * A wrapper in the layout, by its position among the appended wrappers, with the
   * wrappers moved into its fieldset, in order.
   */
  datatype Node = Node(id: nat, members: seq<Node>)

  /** The wrapper positions in document order. */
  function Flat(f: seq<Node>): seq<nat>
    decreases f
  {
    if f == [] then [] else [f[0].id] + Flat(f[0].members) + Flat(f[1..])
  }

  /** How many times a position occurs in the layout. */
  function Occ(f: seq<Node>, k: nat): nat
    decreases f
  {
    if f == [] then 0 else (if f[0].id == k then 1 else 0) + Occ(f[0].members, k) + Occ(f[1..], k)
  }

  /** The layout holds each of the positions `0 .. n - 1` exactly once and nothing else. */
  ghost predicate HoldsEachOnce(f: seq<Node>, n: nat) {
    forall k: nat :: Occ(f, k) == (if k < n then 1 else 0)
  }

  /** The subtree of a wrapper, found in document order. */
  function Find(f: seq<Node>, id: nat): Option<Node>
    decreases f
  {
    if f == [] then None
    else if f[0].id == id then Some(f[0])
    else match Find(f[0].members, id)
      case Some(n) => Some(n)
      case None => Find(f[1..], id)
  }

  /** The layout with a wrapper and everything inside it taken out. */
  function Remove(f: seq<Node>, id: nat): seq<Node>
    decreases f
  {
    if f == [] then []
    else if f[0].id == id then Remove(f[1..], id)
    else [Node(f[0].id, Remove(f[0].members, id))] + Remove(f[1..], id)
  }

  /** The layout with a subtree appended at the end of a fieldset's members. */
  function AppendTo(f: seq<Node>, target: nat, x: Node): seq<Node>
    decreases f
  {
    if f == [] then []
    else
      var n := f[0];
      var members := AppendTo(n.members, target, x);
      [Node(n.id, if n.id == target then members + [x] else members)] + AppendTo(f[1..], target, x)
  }

  /** The wrapper `m` is the fieldset's own wrapper or one of its ancestors. */
  predicate InclusiveAncestor(f: seq<Node>, m: nat, target: nat) {
    match Find(f, m)
    case None => false
    case Some(n) => Occ([n], target) > 0
  }

  /** `fieldset.append(wrapper)`: the wrapper leaves its place and becomes the fieldset's last member. */
  function Move(f: seq<Node>, m: nat, target: nat): seq<Node> {
    match Find(f, m)
    case None => f
    case Some(n) => AppendTo(Remove(f, m), target, n)
  }

  // ---------------------------------------------------------------- grouping

  predicate IsFieldset(w: Wrapper) {
    w.content.FieldSetBox?
  }

  /** `fieldset.name`: the Name of the row that created the fieldset. */
  function FieldsetName(w: Wrapper): string
    requires IsFieldset(w)
  {
    w.content.field.name
  }

  /** `querySelectorAll('fieldset')` once every wrapper is appended: the fieldset positions in order. */
  function FieldsetIds(ws: seq<Wrapper>): (r: seq<nat>)
    ensures forall i :: 0 <= i < |r| ==> r[i] < |ws| && IsFieldset(ws[r[i]])
  {
    if ws == [] then []
    else FieldsetIds(ws[..|ws| - 1]) + (if IsFieldset(ws[|ws| - 1]) then [|ws| - 1] else [])
  }

  /** `querySelectorAll('[data-fieldset="name"]')`: the positions, in document order, of the wrappers naming it. */
  function Matches(ws: seq<Wrapper>, order: seq<nat>, name: string): (r: seq<nat>)
    ensures forall i :: 0 <= i < |r| ==> r[i] in order
  {
    if order == [] then []
    else
      var id := order[|order| - 1];
      Matches(ws, order[..|order| - 1], name)
        + (if id < |ws| && ws[id].fieldset == name then [id] else [])
  }

  /** The moves for one fieldset, in order; `None` when the browser refuses one. */
  function MoveAll(f: seq<Node>, target: nat, ms: seq<nat>): Option<seq<Node>>
    decreases |ms|
  {
    if ms == [] then Some(f)
    else if InclusiveAncestor(f, ms[0], target) then None
    else MoveAll(Move(f, ms[0], target), target, ms[1..])
  }

  /** The grouping step of every fieldset in `fs`, in order. */
  function Group(ws: seq<Wrapper>, f: seq<Node>, fs: seq<nat>): Option<seq<Node>>
    requires forall i :: 0 <= i < |fs| ==> fs[i] < |ws| && IsFieldset(ws[fs[i]])
    decreases |fs|
  {
    if fs == [] then Some(f)
    else
      var target := fs[0];
      match MoveAll(f, target, Matches(ws, Flat(f), FieldsetName(ws[target])))
      case None => None
      case Some(f') => Group(ws, f', fs[1..])
  }

  /** The appended wrappers side by side, in row order. */
  function Initial(n: nat): (f: seq<Node>)
    ensures |f| == n && forall i :: 0 <= i < n ==> f[i] == Node(i, [])
  {
    seq(n, i requires 0 <= i < n => Node(i, []))
  }

  /** The layout after grouping, or `None` when an append throws and the form is never built. */
  function Grouped(ws: seq<Wrapper>): Option<seq<Node>> {
    Group(ws, Initial(|ws|), FieldsetIds(ws))
  }

  /** The grouping loops of `createForm`. */
  method GroupFieldsets(ws: seq<Wrapper>) returns (layout: Option<seq<Node>>)
    ensures layout == Grouped(ws)
  {
    var forest := Initial(|ws|);
    var fieldsets := FieldsetIds(ws);
    var i := 0;
    while i < |fieldsets|
      invariant 0 <= i <= |fieldsets|
      invariant Grouped(ws) == Group(ws, forest, fieldsets[i..])
    {
      var target := fieldsets[i];
      var matches := Matches(ws, Flat(forest), FieldsetName(ws[target]));
      assert Group(ws, forest, fieldsets[i..]) ==
             match MoveAll(forest, target, matches)
             case None => None
             case Some(f') => Group(ws, f', fieldsets[i + 1..]);
      var j := 0;
      while j < |matches|
        invariant 0 <= j <= |matches|
        invariant Grouped(ws) ==
                  match MoveAll(forest, target, matches[j..])
                  case None => None
                  case Some(f') => Group(ws, f', fieldsets[i + 1..])
      {
        if InclusiveAncestor(forest, matches[j], target) {
          return None;
        }
        forest := Move(forest, matches[j], target);
        assert matches[j..][1..] == matches[j + 1..];
        j := j + 1;
      }
      i := i + 1;
    }
    return Some(forest);
  }

  // ---------------------------------------------------------------- what grouping preserves

  lemma OccCons(n: Node, rest: seq<Node>, k: nat)
    ensures Occ([n] + rest, k) == (if n.id == k then 1 else 0) + Occ(n.members, k) + Occ(rest, k)
  {
    assert ([n] + rest)[0] == n;
    assert ([n] + rest)[1..] == rest;
  }

  lemma {:induction false} OccAppend(a: seq<Node>, b: seq<Node>, k: nat)
    ensures Occ(a + b, k) == Occ(a, k) + Occ(b, k)
    decreases a
  {
    if a == [] {
      assert a + b == b;
    } else {
      OccAppend(a[1..], b, k);
      assert (a + b)[1..] == a[1..] + b;
      assert (a + b)[0] == a[0];
    }
  }

  /** A position is in the document order exactly when it occurs in the layout. */
  lemma {:induction false} FlatOcc(f: seq<Node>, k: nat)
    ensures k in Flat(f) <==> Occ(f, k) > 0
    decreases f
  {
    if f != [] {
      FlatOcc(f[0].members, k);
      FlatOcc(f[1..], k);
    }
  }

  lemma {:induction false} RemoveAbsent(f: seq<Node>, id: nat)
    requires Occ(f, id) == 0
    ensures Remove(f, id) == f
    decreases f
  {
    if f != [] {
      RemoveAbsent(f[0].members, id);
      RemoveAbsent(f[1..], id);
      assert f == [f[0]] + f[1..];
    }
  }

  lemma {:induction false} FindAbsent(f: seq<Node>, id: nat)
    requires Occ(f, id) == 0
    ensures Find(f, id).None?
    decreases f
  {
    if f != [] {
      FindAbsent(f[0].members, id);
      FindAbsent(f[1..], id);
    }
  }

  /** Taking out a wrapper that occurs once removes exactly its subtree. */
  lemma {:induction false} RemoveSplits(f: seq<Node>, id: nat, k: nat)
    requires Occ(f, id) == 1
    ensures Find(f, id).Some? && Find(f, id).value.id == id
    ensures Occ(f, k) == Occ(Remove(f, id), k) + Occ([Find(f, id).value], k)
    decreases f
  {
    var n, rest := f[0], f[1..];
    if n.id == id {
      RemoveAbsent(rest, id);
      OccCons(n, [], k);
    } else {
      OccCons(Node(n.id, Remove(n.members, id)), Remove(rest, id), k);
      if Occ(n.members, id) == 1 {
        RemoveSplits(n.members, id, k);
        RemoveAbsent(rest, id);
      } else {
        RemoveAbsent(n.members, id);
        FindAbsent(n.members, id);
        RemoveSplits(rest, id, k);
      }
    }
  }

  lemma {:induction false} AppendToAbsent(f: seq<Node>, target: nat, x: Node)
    requires Occ(f, target) == 0
    ensures AppendTo(f, target, x) == f
    decreases f
  {
    if f != [] {
      AppendToAbsent(f[0].members, target, x);
      AppendToAbsent(f[1..], target, x);
      assert f == [f[0]] + f[1..];
    }
  }

  /** Appending into a fieldset that occurs once adds exactly the appended subtree. */
  lemma {:induction false} AppendToAdds(f: seq<Node>, target: nat, x: Node, k: nat)
    requires Occ(f, target) == 1
    ensures Occ(AppendTo(f, target, x), k) == Occ(f, k) + Occ([x], k)
    decreases f
  {
    var n, rest := f[0], f[1..];
    var members := AppendTo(n.members, target, x);
    var n' := Node(n.id, if n.id == target then members + [x] else members);
    var rest' := AppendTo(rest, target, x);
    assert AppendTo(f, target, x) == [n'] + rest';
    OccCons(n', rest', k);
    if n.id == target {
      AppendToAbsent(n.members, target, x);
      AppendToAbsent(rest, target, x);
      OccAppend(n.members, [x], k);
    } else if Occ(n.members, target) == 1 {
      AppendToAdds(n.members, target, x, k);
      AppendToAbsent(rest, target, x);
    } else {
      AppendToAbsent(n.members, target, x);
      AppendToAdds(rest, target, x, k);
    }
  }

  /** A permitted move keeps every wrapper exactly once. */
  lemma MoveKeepsEachOnce(f: seq<Node>, n: nat, m: nat, target: nat)
    requires HoldsEachOnce(f, n) && m < n && target < n
    requires !InclusiveAncestor(f, m, target)
    ensures HoldsEachOnce(Move(f, m, target), n)
  {
    assert Occ(f, m) == 1;
    RemoveSplits(f, m, target);
    var sub := Find(f, m).value;
    var rest := Remove(f, m);
    forall k: nat ensures Occ(Move(f, m, target), k) == (if k < n then 1 else 0) {
      RemoveSplits(f, m, k);
      AppendToAdds(rest, target, sub, k);
    }
  }

  lemma {:induction false} MoveAllKeepsEachOnce(f: seq<Node>, n: nat, target: nat, ms: seq<nat>)
    requires HoldsEachOnce(f, n) && target < n
    requires forall i :: 0 <= i < |ms| ==> ms[i] < n
    ensures MoveAll(f, target, ms).Some? ==> HoldsEachOnce(MoveAll(f, target, ms).value, n)
    decreases |ms|
  {
    if ms != [] && !InclusiveAncestor(f, ms[0], target) {
      MoveKeepsEachOnce(f, n, ms[0], target);
      MoveAllKeepsEachOnce(Move(f, ms[0], target), n, target, ms[1..]);
    }
  }

  lemma MatchesInRange(ws: seq<Wrapper>, f: seq<Node>, name: string)
    requires HoldsEachOnce(f, |ws|)
    ensures forall i :: 0 <= i < |Matches(ws, Flat(f), name)| ==> Matches(ws, Flat(f), name)[i] < |ws|
  {
    var ms := Matches(ws, Flat(f), name);
    forall i | 0 <= i < |ms| ensures ms[i] < |ws| {
      FlatOcc(f, ms[i]);
    }
  }

  lemma {:induction false} GroupKeepsEachOnce(ws: seq<Wrapper>, f: seq<Node>, fs: seq<nat>)
    requires forall i :: 0 <= i < |fs| ==> fs[i] < |ws| && IsFieldset(ws[fs[i]])
    requires HoldsEachOnce(f, |ws|)
    ensures Group(ws, f, fs).Some? ==> HoldsEachOnce(Group(ws, f, fs).value, |ws|)
    decreases |fs|
  {
    if fs != [] {
      var ms := Matches(ws, Flat(f), FieldsetName(ws[fs[0]]));
      MatchesInRange(ws, f, FieldsetName(ws[fs[0]]));
      MoveAllKeepsEachOnce(f, |ws|, fs[0], ms);
      match MoveAll(f, fs[0], ms)
      case None =>
      case Some(f') => GroupKeepsEachOnce(ws, f', fs[1..]);
    }
  }

  lemma InitialHoldsEachOnce(n: nat)
    ensures HoldsEachOnce(Initial(n), n)
  {
    forall k: nat ensures Occ(Initial(n), k) == (if k < n then 1 else 0) {
      InitialOcc(n, k);
    }
  }

  lemma {:induction false} InitialOcc(n: nat, k: nat)
    ensures Occ(Initial(n), k) == (if k < n then 1 else 0)
  {
    if n > 0 {
      InitialOcc(n - 1, k);
      assert Initial(n) == Initial(n - 1) + [Node(n - 1, [])];
      OccAppend(Initial(n - 1), [Node(n - 1, [])], k);
      OccCons(Node(n - 1, []), [], k);
    }
  }

  /**
   * Grouping only moves wrappers: when the form is built, its layout holds every appended
   * wrapper exactly once, none lost and none duplicated.
   */
  lemma GroupingKeepsEveryWrapper(ws: seq<Wrapper>)
    ensures Grouped(ws).Some? ==> HoldsEachOnce(Grouped(ws).value, |ws|)
  {
    InitialHoldsEachOnce(|ws|);
    GroupKeepsEachOnce(ws, Initial(|ws|), FieldsetIds(ws));
  }

  // ---------------------------------------------------------------- where grouping puts a wrapper

  /** Some node of the list is wrapper `m`. */
  predicate HasMember(ms: seq<Node>, m: nat)
    decreases ms
  {
    ms != [] && (ms[0].id == m || HasMember(ms[1..], m))
  }

  /** In the layout, wrapper `m` is a direct member of the fieldset of wrapper `t`. */
  predicate MemberOf(f: seq<Node>, m: nat, t: nat)
    decreases f
  {
    f != [] && ((f[0].id == t && HasMember(f[0].members, m)) || MemberOf(f[0].members, m, t) || MemberOf(f[1..], m, t))
  }

  lemma {:induction false} HasMemberAppend(a: seq<Node>, b: seq<Node>, m: nat)
    ensures HasMember(a + b, m) <==> HasMember(a, m) || HasMember(b, m)
    decreases a
  {
    if a == [] {
      assert a + b == b;
    } else {
      HasMemberAppend(a[1..], b, m);
      assert (a + b)[1..] == a[1..] + b;
    }
  }

  lemma {:induction false} MemberOfAppend(a: seq<Node>, b: seq<Node>, m: nat, t: nat)
    ensures MemberOf(a + b, m, t) <==> MemberOf(a, m, t) || MemberOf(b, m, t)
    decreases a
  {
    if a == [] {
      assert a + b == b;
    } else {
      MemberOfAppend(a[1..], b, m, t);
      assert (a + b)[1..] == a[1..] + b;
    }
  }

  lemma {:induction false} HasMemberRemove(ms: seq<Node>, x: nat, m: nat)
    requires HasMember(ms, m) && m != x
    ensures HasMember(Remove(ms, x), m)
    decreases ms
  {
    if ms[0].id == x || ms[0].id != m {
      HasMemberRemove(ms[1..], x, m);
    }
  }

  lemma {:induction false} HasMemberAppendTo(ms: seq<Node>, target: nat, y: Node, m: nat)
    requires HasMember(ms, m)
    ensures HasMember(AppendTo(ms, target, y), m)
    decreases ms
  {
    if ms[0].id != m {
      HasMemberAppendTo(ms[1..], target, y, m);
    }
  }

  lemma {:induction false} FindOcc(f: seq<Node>, x: nat)
    requires Find(f, x).Some?
    ensures Occ(f, x) > 0
    decreases f
  {
    if f[0].id != x {
      if Find(f[0].members, x).Some? {
        FindOcc(f[0].members, x);
      } else {
        FindOcc(f[1..], x);
      }
    }
  }

  /** Taking out wrapper `x` keeps `m` in `t`, unless `t` went out with `x`'s subtree. */
  lemma {:induction false} MemberOfRemove(f: seq<Node>, x: nat, m: nat, t: nat)
    requires Occ(f, x) <= 1 && MemberOf(f, m, t) && m != x
    ensures MemberOf(Remove(f, x), m, t) || (Find(f, x).Some? && MemberOf([Find(f, x).value], m, t))
    decreases f
  {
    var n, rest := f[0], f[1..];
    if n.id == x {
      if MemberOf(rest, m, t) {
        RemoveAbsent(rest, x);
      } else {
        assert MemberOf([n], m, t) by {
          assert [n][0] == n && [n][1..] == [];
        }
      }
    } else {
      var n' := Node(n.id, Remove(n.members, x));
      assert Remove(f, x) == [n'] + Remove(rest, x);
      assert ([n'] + Remove(rest, x))[0] == n' && ([n'] + Remove(rest, x))[1..] == Remove(rest, x);
      if n.id == t && HasMember(n.members, m) {
        HasMemberRemove(n.members, x, m);
      } else if MemberOf(n.members, m, t) {
        MemberOfRemove(n.members, x, m, t);
      } else {
        MemberOfRemove(rest, x, m, t);
        if Find(rest, x).Some? && !MemberOf(Remove(rest, x), m, t) && Find(n.members, x).Some? {
          FindOcc(n.members, x);
          FindOcc(rest, x);
          assert false;
        }
      }
    }
  }

  lemma {:induction false} MemberOfAppendTo(f: seq<Node>, target: nat, y: Node, m: nat, t: nat)
    requires MemberOf(f, m, t)
    ensures MemberOf(AppendTo(f, target, y), m, t)
    decreases f
  {
    var n, rest := f[0], f[1..];
    var members := AppendTo(n.members, target, y);
    var n' := Node(n.id, if n.id == target then members + [y] else members);
    var rest' := AppendTo(rest, target, y);
    assert AppendTo(f, target, y) == [n'] + rest';
    assert ([n'] + rest')[0] == n' && ([n'] + rest')[1..] == rest';
    if n.id == t && HasMember(n.members, m) {
      HasMemberAppendTo(n.members, target, y, m);
      HasMemberAppend(members, [y], m);
    } else if MemberOf(n.members, m, t) {
      MemberOfAppendTo(n.members, target, y, m, t);
      MemberOfAppend(members, [y], m, t);
    } else {
      MemberOfAppendTo(rest, target, y, m, t);
    }
  }

  /** A subtree appended to a present fieldset keeps the memberships inside it. */
  lemma {:induction false} MemberOfAppendedInside(f: seq<Node>, target: nat, y: Node, m: nat, t: nat)
    requires Occ(f, target) > 0 && MemberOf([y], m, t)
    ensures MemberOf(AppendTo(f, target, y), m, t)
    decreases f
  {
    var n, rest := f[0], f[1..];
    var members := AppendTo(n.members, target, y);
    var n' := Node(n.id, if n.id == target then members + [y] else members);
    var rest' := AppendTo(rest, target, y);
    assert AppendTo(f, target, y) == [n'] + rest';
    assert ([n'] + rest')[0] == n' && ([n'] + rest')[1..] == rest';
    if n.id == target {
      MemberOfAppend(members, [y], m, t);
    } else if Occ(n.members, target) > 0 {
      MemberOfAppendedInside(n.members, target, y, m, t);
    } else {
      MemberOfAppendedInside(rest, target, y, m, t);
    }
  }

  /** A subtree appended to a present fieldset becomes one of its direct members. */
  lemma {:induction false} AppendToMakesMember(f: seq<Node>, target: nat, y: Node)
    requires Occ(f, target) > 0
    ensures MemberOf(AppendTo(f, target, y), y.id, target)
    decreases f
  {
    var n, rest := f[0], f[1..];
    var members := AppendTo(n.members, target, y);
    var n' := Node(n.id, if n.id == target then members + [y] else members);
    var rest' := AppendTo(rest, target, y);
    assert AppendTo(f, target, y) == [n'] + rest';
    assert ([n'] + rest')[0] == n' && ([n'] + rest')[1..] == rest';
    if n.id == target {
      HasMemberAppend(members, [y], y.id);
    } else if Occ(n.members, target) > 0 {
      AppendToMakesMember(n.members, target, y);
    } else {
      AppendToMakesMember(rest, target, y);
    }
  }

  /** After a permitted move the fieldset's own wrapper is still there, outside the moved subtree. */
  lemma TargetSurvivesRemove(f: seq<Node>, n: nat, x: nat, target: nat)
    requires HoldsEachOnce(f, n) && x < n && target < n
    requires !InclusiveAncestor(f, x, target)
    ensures Find(f, x).Some? && Occ(Remove(f, x), target) == 1
  {
    RemoveSplits(f, x, target);
  }

  /** Moving a wrapper other than `m` leaves `m` a direct member of `t`. */
  lemma MoveKeepsMember(f: seq<Node>, n: nat, x: nat, target: nat, m: nat, t: nat)
    requires HoldsEachOnce(f, n) && x < n && target < n
    requires !InclusiveAncestor(f, x, target)
    requires x != m && MemberOf(f, m, t)
    ensures MemberOf(Move(f, x, target), m, t)
  {
    TargetSurvivesRemove(f, n, x, target);
    var sub := Find(f, x).value;
    MemberOfRemove(f, x, m, t);
    if MemberOf(Remove(f, x), m, t) {
      MemberOfAppendTo(Remove(f, x), target, sub, m, t);
    } else {
      MemberOfAppendedInside(Remove(f, x), target, sub, m, t);
    }
  }

  /** Moving `m` into `t` makes it a direct member of `t`. */
  lemma MoveMakesMember(f: seq<Node>, n: nat, m: nat, t: nat)
    requires HoldsEachOnce(f, n) && m < n && t < n
    requires !InclusiveAncestor(f, m, t)
    ensures MemberOf(Move(f, m, t), m, t)
  {
    TargetSurvivesRemove(f, n, m, t);
    RemoveSplits(f, m, t);
    AppendToMakesMember(Remove(f, m), t, Find(f, m).value);
  }

  /**
   * One fieldset's moves leave `m` in `t` when it was there and is not moved elsewhere, and
   * put it there when the moves are into `t` and include it.
   */
  lemma {:induction false} MoveAllMember(f: seq<Node>, n: nat, target: nat, ms: seq<nat>, m: nat, t: nat)
    requires HoldsEachOnce(f, n) && target < n
    requires forall i :: 0 <= i < |ms| ==> ms[i] < n
    requires MemberOf(f, m, t) || (target == t && m in ms)
    requires target != t ==> m !in ms
    ensures MoveAll(f, target, ms).Some? ==> MemberOf(MoveAll(f, target, ms).value, m, t)
    decreases |ms|
  {
    if ms != [] && !InclusiveAncestor(f, ms[0], target) {
      var f' := Move(f, ms[0], target);
      MoveKeepsEachOnce(f, n, ms[0], target);
      if ms[0] == m {
        MoveMakesMember(f, n, m, t);
      } else if MemberOf(f, m, t) {
        MoveKeepsMember(f, n, ms[0], target, m, t);
      } else {
        assert m in ms[1..];
      }
      MoveAllMember(f', n, target, ms[1..], m, t);
    }
  }

  lemma {:induction false} MatchesOnlyNamed(ws: seq<Wrapper>, order: seq<nat>, name: string, m: nat)
    requires m in Matches(ws, order, name)
    ensures m < |ws| && ws[m].fieldset == name
  {
    var id := order[|order| - 1];
    if !(id < |ws| && ws[id].fieldset == name && id == m) {
      MatchesOnlyNamed(ws, order[..|order| - 1], name, m);
    }
  }

  lemma {:induction false} GroupMember(ws: seq<Wrapper>, f: seq<Node>, fs: seq<nat>, m: nat, t: nat)
    requires forall i :: 0 <= i < |fs| ==> fs[i] < |ws| && IsFieldset(ws[fs[i]])
    requires HoldsEachOnce(f, |ws|) && m < |ws| && t < |ws| && IsFieldset(ws[t])
    requires ws[m].fieldset == FieldsetName(ws[t])
    requires forall i :: 0 <= i < |fs| && FieldsetName(ws[fs[i]]) == FieldsetName(ws[t]) ==> fs[i] == t
    requires MemberOf(f, m, t) || t in fs
    ensures Group(ws, f, fs).Some? ==> MemberOf(Group(ws, f, fs).value, m, t)
    decreases |fs|
  {
    if fs != [] {
      var target := fs[0];
      var ms := Matches(ws, Flat(f), FieldsetName(ws[target]));
      MatchesInRange(ws, f, FieldsetName(ws[target]));
      MoveAllKeepsEachOnce(f, |ws|, target, ms);
      if target == t {
        FlatOcc(f, m);
        MatchesHas(ws, Flat(f), FieldsetName(ws[t]), m);
        MoveAllMember(f, |ws|, target, ms, m, t);
      } else {
        if m in ms {
          MatchesOnlyNamed(ws, Flat(f), FieldsetName(ws[target]), m);
        }
        if MemberOf(f, m, t) {
          MoveAllMember(f, |ws|, target, ms, m, t);
        }
      }
      match MoveAll(f, target, ms)
      case None =>
      case Some(f') =>
        assert MemberOf(f', m, t) || t in fs[1..];
        GroupMember(ws, f', fs[1..], m, t);
    }
  }

  /**
   * What grouping is for: when the form is built and `t` is the only fieldset with its
   * name, every other wrapper whose Fieldset column names it ends up a direct member of
   * that fieldset.
   */
  lemma GroupingNestsNamedWrappers(ws: seq<Wrapper>, t: nat, m: nat)
    requires t < |ws| && IsFieldset(ws[t])
    requires forall i :: 0 <= i < |ws| && IsFieldset(ws[i]) && FieldsetName(ws[i]) == FieldsetName(ws[t]) ==> i == t
    requires m < |ws| && m != t && ws[m].fieldset == FieldsetName(ws[t])
    ensures Grouped(ws).Some? ==> MemberOf(Grouped(ws).value, m, t)
  {
    InitialHoldsEachOnce(|ws|);
    FieldsetIdsHas(ws, t);
    GroupMember(ws, Initial(|ws|), FieldsetIds(ws), m, t);
  }

  // ---------------------------------------------------------------- when the form is not built

  lemma {:induction false} FindPresent(f: seq<Node>, id: nat)
    requires Occ(f, id) > 0
    ensures Find(f, id).Some? && Find(f, id).value.id == id
    decreases f
  {
    var n, rest := f[0], f[1..];
    if n.id != id {
      if Occ(n.members, id) > 0 {
        FindPresent(n.members, id);
      } else {
        FindAbsent(n.members, id);
        FindPresent(rest, id);
      }
    }
  }

  lemma {:induction false} MoveAllRefusesSelf(f: seq<Node>, n: nat, target: nat, ms: seq<nat>)
    requires HoldsEachOnce(f, n) && target < n
    requires forall i :: 0 <= i < |ms| ==> ms[i] < n
    requires target in ms
    ensures MoveAll(f, target, ms).None?
    decreases |ms|
  {
    if ms[0] == target {
      FindPresent(f, target);
      OccCons(Find(f, target).value, [], target);
    } else if !InclusiveAncestor(f, ms[0], target) {
      MoveKeepsEachOnce(f, n, ms[0], target);
      MoveAllRefusesSelf(Move(f, ms[0], target), n, target, ms[1..]);
    }
  }

  lemma {:induction false} MatchesHas(ws: seq<Wrapper>, order: seq<nat>, name: string, id: nat)
    requires id in order && id < |ws| && ws[id].fieldset == name
    ensures id in Matches(ws, order, name)
  {
    var init := order[..|order| - 1];
    if order[|order| - 1] != id {
      assert order == init + [order[|order| - 1]];
      MatchesHas(ws, init, name, id);
    }
  }

  lemma {:induction false} GroupRefusesSelfNamed(ws: seq<Wrapper>, f: seq<Node>, fs: seq<nat>, i: nat)
    requires forall j :: 0 <= j < |fs| ==> fs[j] < |ws| && IsFieldset(ws[fs[j]])
    requires HoldsEachOnce(f, |ws|)
    requires i in fs && ws[i].fieldset == FieldsetName(ws[i])
    ensures Group(ws, f, fs).None?
    decreases |fs|
  {
    var ms := Matches(ws, Flat(f), FieldsetName(ws[fs[0]]));
    MatchesInRange(ws, f, FieldsetName(ws[fs[0]]));
    if fs[0] == i {
      FlatOcc(f, i);
      MatchesHas(ws, Flat(f), FieldsetName(ws[i]), i);
      MoveAllRefusesSelf(f, |ws|, i, ms);
    } else {
      MoveAllKeepsEachOnce(f, |ws|, fs[0], ms);
      match MoveAll(f, fs[0], ms)
      case None =>
      case Some(f') => GroupRefusesSelfNamed(ws, f', fs[1..], i);
    }
  }

  lemma {:induction false} FieldsetIdsHas(ws: seq<Wrapper>, i: nat)
    requires i < |ws| && IsFieldset(ws[i])
    ensures i in FieldsetIds(ws)
  {
    if i < |ws| - 1 {
      FieldsetIdsHas(ws[..|ws| - 1], i);
    }
  }

  /**
   * A fieldset whose own wrapper carries its name (a row whose Fieldset equals its Name, both
   * empty included) is asked to take in its own wrapper: the append throws and the form is
   * never built.
   */
  lemma SelfNamedFieldsetBreaksTheForm(ws: seq<Wrapper>, i: nat)
    requires i < |ws| && IsFieldset(ws[i]) && ws[i].fieldset == FieldsetName(ws[i])
    ensures Grouped(ws) == None
  {
    InitialHoldsEachOnce(|ws|);
    FieldsetIdsHas(ws, i);
    GroupRefusesSelfNamed(ws, Initial(|ws|), FieldsetIds(ws), i);
  }

  /** Without fieldsets the wrappers stay side by side in row order. */
  lemma NoFieldsetsKeepsRowOrder(ws: seq<Wrapper>)
    requires forall i :: 0 <= i < |ws| ==> !IsFieldset(ws[i])
    ensures Grouped(ws) == Some(Initial(|ws|))
  {
    NoFieldsetIds(ws);
  }

  lemma {:induction false} NoFieldsetIds(ws: seq<Wrapper>)
    requires forall i :: 0 <= i < |ws| ==> !IsFieldset(ws[i])
    ensures FieldsetIds(ws) == []
  {
    if ws != [] {
      NoFieldsetIds(ws[..|ws| - 1]);
    }
  }

  // ---------------------------------------------------------------- the built form

  /** `form.elements` for a layout: each wrapper's controls, in document order. */
  function ControlsInOrder(ws: seq<Wrapper>, order: seq<nat>): seq<Element> {
    if order == [] then []
    else
      var id := order[|order| - 1];
      ControlsInOrder(ws, order[..|order| - 1]) + (if id < |ws| then Controls(ws[id].content) else [])
  }

  /**
   * `createForm` after the fetch: `null` when a creator threw, since `Promise.all` then
   * rejects; otherwise the creators' results appended, the fieldsets grouped, and the submit
   * control disabled by the deferred step, or `null` when grouping throws.
   */
  method CreateForm(created: seq<Created>) returns (form: Form?)
    ensures Thrown in created ==> form == null
    ensures Thrown !in created ==>
              var ws := Appended(created);
              match Grouped(ws)
              case None => form == null
              case Some(layout) => form != null && fresh(form)
                                   && form.elements == WithSubmitDisabled(ControlsInOrder(ws, Flat(layout)), true)
                                   && !form.bannerShown
  {
    if Thrown in created {
      return null;
    }
    var ws := Appended(created);
    var layout := GroupFieldsets(ws);
    if layout.None? {
      return null;
    }
    form := new Form(ControlsInOrder(ws, Flat(layout.value)));
  }
}
