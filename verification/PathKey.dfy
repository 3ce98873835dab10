/**
 The key of a destination path, its components' bytes joined by NUL (crates/flux-fs/src/claims.rs), and the lookup
 that splits the key again to reach a hard-link anchor (crates/flux-core/src/hardlinks.rs).
 */
module PathKey {
  import opened Basics
  import opened Joining

  /** What `Path::components` yields; everything but a normal component is dropped. */
  datatype Component = Normal(name: Bytes) | ParentDir | CurDir | RootDir | Prefix

  datatype Key = Key(bytes: Bytes) | DestinationError

  function Names(rel: seq<Component>): seq<Bytes> {
    if rel == [] then []
    else
      var rest := Names(rel[1..]);
      if rel[0].Normal? then [rel[0].name] + rest else rest
  }

  lemma {:induction false} NamesAppend(rel: seq<Component>, c: Component)
    ensures Names(rel + [c]) == Names(rel) + if c.Normal? then [c.name] else []
  {
    if rel != [] {
      NamesAppend(rel[1..], c);
      assert (rel + [c])[1..] == rel[1..] + [c];
    }
  }

  lemma {:induction false} NamesOfPrefix(rel: seq<Component>, n: nat)
    requires n <= |rel|
    ensures Names(rel[..n]) <= Names(rel)
    decreases |rel| - n
  {
    if n == |rel| {
      assert rel[..n] == rel;
    } else {
      NamesAppend(rel[..n], rel[n]);
      assert rel[..n + 1] == rel[..n] + [rel[n]];
      NamesOfPrefix(rel, n + 1);
    }
  }

  /** `FluxPathKey::from_relative`. */
  method FromRelative(rel: seq<Component>) returns (key: Key)
    ensures key == if Free(0, Names(rel)) then Key(Join(0, Names(rel))) else DestinationError
  {
    var out, first := [], true;
    for i := 0 to |rel|
      invariant first <==> Names(rel[..i]) == []
      invariant out == Join(0, Names(rel[..i]))
      invariant Free(0, Names(rel[..i]))
    {
      assert rel[..i + 1] == rel[..i] + [rel[i]];
      NamesAppend(rel[..i], rel[i]);
      assert Names(rel[..i]) + [] == Names(rel[..i]);
      if rel[i].Normal? {
        if 0 in rel[i].name {
          ghost var names := Names(rel[..i + 1]);
          NamesOfPrefix(rel, i + 1);
          assert Names(rel)[|names| - 1] == rel[i].name;
          return DestinationError;
        }
        JoinAppend(0, Names(rel[..i]), rel[i].name);
        if !first {
          out := out + [0];
        }
        first := false;
        out := out + rel[i].name;
      }
    }
    assert rel[..|rel|] == rel;
    return Key(out);
  }

  /**
   `anchor_parent`: a directory is the list of components opened from DEST. `decodes` is the platform's reading of
   stored bytes as a name, `opens` what opening a component below a directory answers.
   */
  method AnchorParent(target: Bytes, decodes: Bytes -> bool, opens: (seq<Bytes>, Bytes) -> bool)
    returns (r: Option<(seq<Bytes>, Bytes)>)
    ensures r == AnchorOf(Split(0, target), decodes, opens)
  {
    var components := Split(0, target);
    var name := components[|components| - 1];
    components := components[..|components| - 1];
    if !decodes(name) || name == [] {
      return None;
    }
    var dir := [];
    for i := 0 to |components|
      invariant dir == components[..i]
      invariant AllOpen(components[..i], decodes, opens)
    {
      AllOpenUpTo(components, i + 1, decodes, opens);
      assert components[..i + 1] == components[..i] + [components[i]];
      if !decodes(components[i]) || !opens(dir, components[i]) {
        return None;
      }
      dir := dir + [components[i]];
    }
    assert components[..|components|] == components;
    return Some((dir, name));
  }

  predicate AllOpen(dir: seq<Bytes>, decodes: Bytes -> bool, opens: (seq<Bytes>, Bytes) -> bool) {
    forall i | 0 <= i < |dir| :: decodes(dir[i]) && opens(dir[..i], dir[i])
  }

  lemma AllOpenUpTo(dir: seq<Bytes>, n: nat, decodes: Bytes -> bool, opens: (seq<Bytes>, Bytes) -> bool)
    requires 0 < n <= |dir| && AllOpen(dir[..n - 1], decodes, opens)
    ensures AllOpen(dir[..n], decodes, opens) <==> decodes(dir[n - 1]) && opens(dir[..n - 1], dir[n - 1])
    ensures AllOpen(dir, decodes, opens) ==> AllOpen(dir[..n], decodes, opens)
  {
    var head, most := dir[..n], dir[..n - 1];
    forall i | 0 <= i < n - 1
      ensures decodes(head[i]) && opens(head[..i], head[i])
    {
      assert head[i] == most[i] && head[..i] == most[..i];
    }
    assert head[..n - 1] == most;
    if AllOpen(dir, decodes, opens) {
      assert dir[..n - 1] == most;
      assert decodes(dir[n - 1]) && opens(dir[..n - 1], dir[n - 1]);
    }
  }

  /** The anchor of a list of components, if it is a name below directories that all open. */
  function AnchorOf(path: seq<Bytes>, decodes: Bytes -> bool, opens: (seq<Bytes>, Bytes) -> bool)
    : Option<(seq<Bytes>, Bytes)>
    requires path != []
  {
    var dir, name := path[..|path| - 1], path[|path| - 1];
    if decodes(name) && name != [] && AllOpen(dir, decodes, opens) then Some((dir, name)) else None
  }

  predicate AllNamed(parts: seq<Bytes>) {
    forall i | 0 <= i < |parts| :: parts[i] != []
  }

  /** Splitting the key of any path with a named component gives the path's names back. */
  lemma KeyRoundTrip(rel: seq<Component>)
    requires Free(0, Names(rel)) && Names(rel) != []
    ensures Split(0, Join(0, Names(rel))) == Names(rel)
  {
    SplitUndoesJoin(0, Names(rel));
  }

  lemma JoinOfNamed(parts: seq<Bytes>)
    requires AllNamed(parts)
    ensures Join(0, parts) == [] <==> parts == []
  {
  }

  /** Distinct lists of names have distinct keys. */
  lemma KeysAreInjective(a: seq<Bytes>, b: seq<Bytes>)
    requires Free(0, a) && Free(0, b) && AllNamed(a) && AllNamed(b)
    ensures Join(0, a) == Join(0, b) <==> a == b
  {
    JoinOfNamed(a);
    JoinOfNamed(b);
    if a != [] && b != [] {
      SplitUndoesJoin(0, a);
      SplitUndoesJoin(0, b);
    }
  }

  /** An anchor that is found is the one the key was made for. */
  lemma FoundAnchorsSpellTheKey(target: Bytes, decodes: Bytes -> bool, opens: (seq<Bytes>, Bytes) -> bool)
    requires AnchorOf(Split(0, target), decodes, opens).Some?
    ensures var r := AnchorOf(Split(0, target), decodes, opens).value;
      Join(0, r.0 + [r.1]) == target && r.1 != [] && Free(0, r.0 + [r.1])
  {
    hide Join, Split, AllOpen;
    JoinUndoesSplit(0, target);
    var parts := Split(0, target);
    assert parts == parts[..|parts| - 1] + [parts[|parts| - 1]];
  }

  /** The empty key, the key of DEST itself, has no anchor, and neither has any key that ends in a separator. */
  lemma NoAnchorForAnEmptyName(target: Bytes, decodes: Bytes -> bool, opens: (seq<Bytes>, Bytes) -> bool)
    requires target == [] || target[|target| - 1] == 0
    ensures AnchorOf(Split(0, target), decodes, opens) == None
  {
    LastPieceIsEmpty(target);
  }

  /** Where every name decodes and every directory opens, the key of a path leads to that path. */
  lemma TheAnchorOfAPath(rel: seq<Component>, decodes: Bytes -> bool, opens: (seq<Bytes>, Bytes) -> bool)
    requires Free(0, Names(rel)) && AllNamed(Names(rel)) && Names(rel) != []
    requires var dir := Names(rel)[..|Names(rel)| - 1]; AllOpen(dir, decodes, opens)
    requires decodes(Names(rel)[|Names(rel)| - 1])
    ensures AnchorOf(Split(0, Join(0, Names(rel))), decodes, opens)
         == Some((Names(rel)[..|Names(rel)| - 1], Names(rel)[|Names(rel)| - 1]))
  {
    KeyRoundTrip(rel);
  }

  lemma {:induction false} LastPieceIsEmpty(b: Bytes)
    requires b == [] || b[|b| - 1] == 0
    ensures Split(0, b)[|Split(0, b)| - 1] == []
  {
    if |b| > 1 {
      LastPieceIsEmpty(b[1..]);
      var rest := Split(0, b[1..]);
      JoinUndoesSplit(0, b[1..]);
    }
  }
}
