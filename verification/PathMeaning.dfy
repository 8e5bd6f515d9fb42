/** What a joined path means: the place reached by walking it component by component, spelled in the shortest way. */
module PathMeaning {
  import opened Bytes
  import opened Paths
  import Lines

  /** A place: above the start by some levels, and from there down through names; a rooted walk never gets above. */
  datatype Place = Place(rooted: bool, up: nat, down: seq<Name>)

  function Go(p: Place, c: Name): Place {
    if c == [] || c == [46] then p
    else if c != [46, 46] then p.(down := p.down + [c])
    else if p.down != [] then p.(down := p.down[..|p.down| - 1])
    else if p.rooted then p
    else p.(up := p.up + 1)
  }

  function GoAll(p: Place, cs: seq<Name>): Place
    decreases |cs|
  {
    if cs == [] then p else GoAll(Go(p, cs[0]), cs[1..])
  }

  /** Where a path leads. */
  function PlaceOf(path: Name): Place {
    GoAll(Place(path != [] && path[0] == 47, 0, []), Lines.Split(path, 47))
  }

  function Ups(n: nat): (cs: seq<Name>)
    ensures |cs| == n && forall i :: 0 <= i < n ==> cs[i] == [46, 46]
  {
    seq(n, _ => [46, 46])
  }

  /** The shortest path to a place. */
  function SpellPlace(p: Place): Name {
    var cs := Ups(p.up) + p.down;
    if cs == [] then (if p.rooted then [47] else [46])
    else (if p.rooted then [47] else []) + Lines.Join(cs, 47)
  }

  predicate Proper(p: Place) {
    (forall i :: 0 <= i < |p.down| ==> p.down[i] != [46, 46]) && (p.rooted ==> p.up == 0)
  }

  lemma {:induction false} PushGoes(p: Place, c: Name)
    requires Proper(p)
    ensures Proper(Go(p, c))
    ensures Push(p.rooted, Ups(p.up) + p.down, c) == Ups(Go(p, c).up) + Go(p, c).down
  {
    var stack := Ups(p.up) + p.down;
    if c == [46, 46] {
      if p.down != [] {
        assert stack[..|stack| - 1] == Ups(p.up) + p.down[..|p.down| - 1];
      } else if !p.rooted {
        assert stack + [c] == Ups(p.up + 1) + [];
      }
    } else if c != [] && c != [46] {
      assert stack + [c] == Ups(p.up) + (p.down + [c]);
    }
  }

  lemma {:induction false} PushAllGoes(p: Place, cs: seq<Name>)
    requires Proper(p)
    ensures Proper(GoAll(p, cs)) && GoAll(p, cs).rooted == p.rooted
    ensures PushAll(p.rooted, Ups(p.up) + p.down, cs) == Ups(GoAll(p, cs).up) + GoAll(p, cs).down
    decreases |cs|
  {
    hide Push, Go, Ups;
    if cs != [] {
      PushGoes(p, cs[0]);
      assert Go(p, cs[0]).rooted == p.rooted by { GoKeepsRoot(p, cs[0]); }
      PushAllGoes(Go(p, cs[0]), cs[1..]);
    }
  }

  lemma {:induction false} GoKeepsRoot(p: Place, c: Name)
    ensures Go(p, c).rooted == p.rooted
  {
  }

  /** Cleaning a path spells the place it leads to. */
  lemma {:induction false} CleanSpells(path: Name)
    ensures Clean(path) == if path == [] then [46] else SpellPlace(PlaceOf(path))
  {
    hide PushAll, GoAll, Lines.Split, Lines.Join;
    if path != [] {
      var rooted := path[0] == 47;
      assert Ups(0) + [] == [];
      PushAllGoes(Place(rooted, 0, []), Lines.Split(path, 47));
    }
  }

  lemma {:induction false} SplitOfTwo(a: Name, b: Name)
    ensures Lines.Split(a + [47] + b, 47) == Lines.Split(a, 47) + Lines.Split(b, 47)
  {
    var x, y := Lines.Split(a, 47), Lines.Split(b, 47);
    JoinOfTwo(x, y);
    assert forall p :: p in x + y ==> p in x || p in y;
    Lines.SplitOfJoin(x + y, 47);
  }

  lemma {:induction false} JoinOfTwo(x: seq<Name>, y: seq<Name>)
    requires x != [] && y != []
    ensures Lines.Join(x + y, 47) == Lines.Join(x, 47) + [47] + Lines.Join(y, 47)
    decreases |x|
  {
    if |x| == 1 {
      assert (x + y)[1..] == y;
    } else {
      assert (x + y)[1..] == x[1..] + y;
      JoinOfTwo(x[1..], y);
    }
  }

  lemma {:induction false} GoFurther(p: Place, a: seq<Name>, b: seq<Name>)
    ensures GoAll(p, a + b) == GoAll(GoAll(p, a), b)
    decreases |a|
  {
    hide Go;
    if a == [] {
      assert a + b == b;
    } else {
      assert (a + b)[1..] == a[1..] + b;
      GoFurther(Go(p, a[0]), a[1..], b);
    }
  }

  /** A name joined to a path spells the place reached from where the path leads by walking the name, whatever the name is. */
  lemma {:induction false} JoinSpells(parent: Name, name: Name)
    requires name != []
    ensures JoinPath(parent, name) == SpellPlace(if parent == [] then PlaceOf(name) else GoAll(PlaceOf(parent), Lines.Split(name, 47)))
  {
    hide Clean, GoAll, Lines.Split, SpellPlace;
    if parent == [] {
      CleanSpells(name);
    } else {
      var whole := parent + [SLASH] + name;
      assert whole[0] == parent[0];
      CleanSpells(whole);
      SplitOfTwo(parent, name);
      GoFurther(Place(parent[0] == 47, 0, []), Lines.Split(parent, 47), Lines.Split(name, 47));
    }
  }
}
