/** Slash-separated paths of raw bytes: what `path.Join` does to a parent and a name. */
module Paths {
  import opened Bytes
  import Lines

  type Name = seq<Byte>

  const SLASH: Byte := 47
  const DOT: Byte := 46

  /** One component of a lexical clean: "." and "" vanish, ".." takes back the last ordinary component. */
  function Push(rooted: bool, stack: seq<Name>, c: Name): seq<Name> {
    if c == [] || c == [DOT] then stack
    else if c == [DOT, DOT] then
      if stack != [] && stack[|stack| - 1] != [DOT, DOT] then stack[..|stack| - 1]
      else if rooted then stack
      else stack + [c]
    else stack + [c]
  }

  function PushAll(rooted: bool, stack: seq<Name>, cs: seq<Name>): seq<Name>
    decreases |cs|
  {
    if cs == [] then stack else PushAll(rooted, Push(rooted, stack, cs[0]), cs[1..])
  }

  /** `path.Clean`. */
  function Clean(p: Name): Name {
    if p == [] then [DOT]
    else
      var rooted := p[0] == SLASH;
      var stack := PushAll(rooted, [], Lines.Split(p, SLASH));
      if stack == [] then (if rooted then [SLASH] else [DOT])
      else (if rooted then [SLASH] else []) + Lines.Join(stack, SLASH)
  }

  /** `path.Join(parent, name)`. */
  function JoinPath(parent: Name, name: Name): Name {
    if parent == [] && name == [] then []
    else if parent == [] then Clean(name)
    else Clean(parent + [SLASH] + name)
  }

  predicate Ordinary(c: Name) {
    c != [] && SLASH !in c && c != [DOT] && c != [DOT, DOT]
  }

  predicate AllOrdinary(cs: seq<Name>) {
    forall i :: 0 <= i < |cs| ==> Ordinary(cs[i])
  }

  /** The path of a list of components, root being the empty path. */
  function PathOf(cs: seq<Name>): Name {
    if cs == [] then [] else Lines.Join(cs, SLASH)
  }

  lemma {:induction false} PushOrdinary(rooted: bool, stack: seq<Name>, cs: seq<Name>)
    requires AllOrdinary(cs)
    ensures PushAll(rooted, stack, cs) == stack + cs
    decreases |cs|
  {
    if cs != [] {
      PushOrdinary(rooted, stack + [cs[0]], cs[1..]);
    }
  }

  lemma {:induction false} JoinSnoc(cs: seq<Name>, c: Name)
    requires cs != []
    ensures Lines.Join(cs + [c], SLASH) == Lines.Join(cs, SLASH) + [SLASH] + c
  {
    if |cs| == 1 {
      assert (cs + [c])[1..] == [c];
    } else {
      JoinSnoc(cs[1..], c);
      assert (cs + [c])[1..] == cs[1..] + [c];
    }
  }

  lemma {:induction false} CleanOrdinary(cs: seq<Name>)
    requires AllOrdinary(cs) && cs != []
    ensures Clean(PathOf(cs)) == PathOf(cs)
  {
    Lines.SplitOfJoin(cs, SLASH);
    PushOrdinary(false, [], cs);
    assert [] + cs == cs;
    assert cs[0] <= PathOf(cs) by {
      if |cs| == 1 { assert Lines.Join(cs, SLASH) == cs[0]; }
    }
    assert PathOf(cs)[0] == cs[0][0] && cs[0][0] in cs[0];
  }

  /** Joining ordinary names never rewrites them: the path spells the components. */
  lemma {:induction false} JoinOrdinary(cs: seq<Name>, c: Name)
    requires AllOrdinary(cs) && Ordinary(c)
    ensures JoinPath(PathOf(cs), c) == PathOf(cs + [c])
  {
    CleanOrdinary(cs + [c]);
    if cs == [] {
      assert [] + [c] == [c];
    } else {
      JoinSnoc(cs, c);
      assert PathOf(cs) != [] by {
        if |cs| == 1 { assert PathOf(cs) == cs[0]; }
      }
    }
  }
}
