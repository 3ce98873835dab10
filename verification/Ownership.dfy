/** Which process of a PlusCal module owns which label (models/lockproto/run.py). */
module Ownership {
  import opened Basics

  type Id = string
  type Label = string

  /** The blocks of a module: their labels, the procedures they call, and which of them are processes. */
  datatype Program = Program(labels: map<Id, set<Label>>, calls: map<Id, set<Id>>, processes: set<Id>)

  function Called(p: Program, b: Id): set<Id> {
    if b in p.calls then p.calls[b] else {}
  }

  /** A chain of calls, each block there and each calling the next. */
  predicate Path(p: Program, path: seq<Id>) {
    && (forall i | 0 <= i < |path| :: path[i] in p.labels)
    && (forall i | 0 < i < |path| :: path[i] in Called(p, path[i - 1]))
  }

  ghost predicate Reaches(p: Program, from: Id, to: Id) {
    exists path | Path(p, path) :: path != [] && path[0] == from && path[|path| - 1] == to
  }

  /** A process owns a label if its calls lead to a block that defines it. */
  ghost predicate Owns(p: Program, root: Id, name: Label) {
    exists b | b in p.labels :: name in p.labels[b] && Reaches(p, root, b)
  }

  type Owners = map<Label, set<Id>>

  predicate Lists(owners: Owners, name: Label, root: Id) { name in owners && root in owners[name] }

  predicate NoneEmpty(owners: Owners) {
    forall l | l in owners :: owners[l] != {}
  }

  lemma ReachesItself(p: Program, b: Id)
    requires b in p.labels
    ensures Reaches(p, b, b)
  {
    assert Path(p, [b]);
  }

  lemma ReachesFurther(p: Program, from: Id, b: Id, c: Id)
    requires Reaches(p, from, b) && c in Called(p, b) && c in p.labels
    ensures Reaches(p, from, c)
  {
    var path :| Path(p, path) && path != [] && path[0] == from && path[|path| - 1] == b;
    assert Path(p, path + [c]);
  }

  /** Nothing to be followed is left: what a block in `seen` calls is in `seen` too, or is no block. */
  predicate Closed(p: Program, seen: set<Id>) {
    forall a, c | a in seen && c in Called(p, a) :: c in seen || c !in p.labels
  }

  lemma {:induction false} ClosedHoldsAllReached(p: Program, seen: set<Id>, path: seq<Id>)
    requires Closed(p, seen) && Path(p, path) && path != [] && path[0] in seen
    ensures path[|path| - 1] in seen
  {
    if |path| > 1 {
      var most := path[..|path| - 1];
      assert Path(p, most) by {
        forall i | 0 < i < |most|
          ensures most[i] in Called(p, most[i - 1])
        {
          assert path[i] in Called(p, path[i - 1]);
        }
      }
      ClosedHoldsAllReached(p, seen, most);
      assert path[|path| - 1] in Called(p, path[|path| - 2]);
    }
  }

  /** `owners.setdefault(label, set()).add(root)` for each label of a block. */
  method AddAll(owners: Owners, labels: set<Label>, root: Id) returns (r: Owners)
    requires NoneEmpty(owners)
    ensures NoneEmpty(r)
    ensures forall l, o :: Lists(r, l, o) <==> Lists(owners, l, o) || (o == root && l in labels)
  {
    r := owners;
    var rest := labels;
    while rest != {}
      invariant rest <= labels && NoneEmpty(r)
      invariant forall l, o :: Lists(r, l, o) <==> Lists(owners, l, o) || (o == root && l in labels - rest)
    {
      var name :| name in rest;
      ghost var was := r;
      r := r[name := (if name in r then r[name] else {}) + {root}];
      assert forall l, o :: Lists(r, l, o) <==> Lists(was, l, o) || (l == name && o == root);
      rest := rest - {name};
    }
  }

  /** `stack.extend(calls)`, in whatever order. */
  method Extend(stack: seq<Id>, calls: set<Id>) returns (r: seq<Id>)
    ensures forall b :: b in r <==> b in stack || b in calls
  {
    r := stack;
    var rest := calls;
    while rest != {}
      invariant rest <= calls
      invariant forall b :: b in r <==> b in stack || b in calls - rest
    {
      var b :| b in rest;
      r := r + [b];
      rest := rest - {b};
    }
  }

  /** Where the search from `root` stands. */
  ghost predicate Searching(p: Program, root: Id, seen: set<Id>, stack: seq<Id>) {
    && seen <= p.labels.Keys
    && (root in seen || root in stack)
    && (forall b | b in seen :: Reaches(p, root, b))
    && (forall b | b in stack && b in p.labels :: Reaches(p, root, b))
    && (forall a, c | a in seen && c in Called(p, a) :: c in seen || c in stack || c !in p.labels)
  }

  lemma Visited(p: Program, root: Id, seen: set<Id>, stack: seq<Id>, b: Id, more: seq<Id>)
    requires Searching(p, root, seen, stack + [b]) && b in p.labels
    requires forall c :: c in more <==> c in stack || c in Called(p, b)
    ensures Searching(p, root, seen + {b}, more)
  {
    hide Reaches;
    forall c | c in more && c in p.labels
      ensures Reaches(p, root, c)
    {
      if c !in stack {
        assert Reaches(p, root, b);
        ReachesFurther(p, root, b, c);
      } else {
        assert c in stack + [b];
      }
    }
  }

  lemma Skipped(p: Program, root: Id, seen: set<Id>, stack: seq<Id>, b: Id)
    requires Searching(p, root, seen, stack + [b]) && (b in seen || b !in p.labels) && root in p.labels
    ensures Searching(p, root, seen, stack)
  {
    hide Reaches;
    assert forall c :: c in stack ==> c in stack + [b];
  }

  /** What the labels of the blocks seen so far add to the owners. */
  ghost predicate Recorded(p: Program, before: Owners, owners: Owners, root: Id, seen: set<Id>) {
    && NoneEmpty(owners)
    && forall l, o :: Lists(owners, l, o) <==> Lists(before, l, o) || (o == root && InSome(p, seen, l))
  }

  predicate InSome(p: Program, seen: set<Id>, l: Label) {
    exists b | b in seen :: b in p.labels && l in p.labels[b]
  }

  lemma SearchIsDone(p: Program, root: Id, seen: set<Id>)
    requires Searching(p, root, seen, []) && root in p.labels
    ensures forall b :: b in seen <==> b in p.labels && Reaches(p, root, b)
    ensures forall l :: InSome(p, seen, l) <==> Owns(p, root, l)
  {
    forall b | b in p.labels && Reaches(p, root, b)
      ensures b in seen
    {
      var path :| Path(p, path) && path != [] && path[0] == root && path[|path| - 1] == b;
      ClosedHoldsAllReached(p, seen, path);
    }
  }

  /** The search from one process: it ends on cyclic calls too, for no block is entered twice. */
  method Search(p: Program, root: Id, before: Owners) returns (owners: Owners)
    requires root in p.labels && NoneEmpty(before)
    ensures NoneEmpty(owners)
    ensures forall l, o :: Lists(owners, l, o) <==> Lists(before, l, o) || (o == root && Owns(p, root, l))
  {
    hide Searching, Reaches, InSome, Owns;
    owners := before;
    var seen: set<Id>, stack := {}, [root];
    assert Searching(p, root, seen, stack) by { Begins(p, root); }
    assert Recorded(p, before, owners, root, seen) by { NothingYet(p); }
    while stack != []
      invariant seen <= p.labels.Keys
      invariant Searching(p, root, seen, stack)
      invariant Recorded(p, before, owners, root, seen)
      decreases |p.labels.Keys - seen|, |stack|
    {
      var b := stack[|stack| - 1];
      assert stack == stack[..|stack| - 1] + [b];
      stack := stack[..|stack| - 1];
      if b in seen || b !in p.labels {
        Skipped(p, root, seen, stack, b);
      } else {
        OneMore(p, seen, b);
        var more := Extend(stack, Called(p, b));
        Visited(p, root, seen, stack, b, more);
        Fewer(p.labels.Keys, seen, b);
        seen := seen + {b};
        owners := AddAll(owners, p.labels[b], root);
        stack := more;
      }
    }
    SearchIsDone(p, root, seen);
  }

  lemma Fewer(all: set<Id>, seen: set<Id>, b: Id)
    requires b in all - seen
    ensures |all - (seen + {b})| < |all - seen|
  {
    assert all - seen == (all - (seen + {b})) + {b};
  }

  lemma Begins(p: Program, root: Id)
    requires root in p.labels
    ensures Searching(p, root, {}, [root])
  {
    ReachesItself(p, root);
  }

  lemma NothingYet(p: Program)
    ensures forall l :: !InSome(p, {}, l)
  {
  }

  lemma OneMore(p: Program, seen: set<Id>, b: Id)
    requires b in p.labels
    ensures forall l :: InSome(p, seen + {b}, l) <==> InSome(p, seen, l) || l in p.labels[b]
  {
    forall l | InSome(p, seen, l) || l in p.labels[b]
      ensures InSome(p, seen + {b}, l)
    {
      if InSome(p, seen, l) {
        var c :| c in seen && c in p.labels && l in p.labels[c];
        assert c in seen + {b};
      } else {
        assert b in seen + {b};
      }
    }
  }

  /** The ownership of a module is exact reachability through calls, from every process. */
  method OwnersOf(p: Program) returns (owners: Owners)
    requires p.processes <= p.labels.Keys
    ensures NoneEmpty(owners)
    ensures forall l, o :: Lists(owners, l, o) <==> o in p.processes && Owns(p, o, l)
  {
    hide Owns;
    owners := map[];
    var rest := p.processes;
    while rest != {}
      invariant rest <= p.processes && NoneEmpty(owners)
      invariant forall l, o :: Lists(owners, l, o) <==> o in p.processes - rest && Owns(p, o, l)
    {
      var root :| root in rest;
      owners := Search(p, root, owners);
      rest := rest - {root};
    }
  }

  // ---------------------------------------------------------------------------------------------
  // Exemption

  /** What a constant of a run's configuration may be; only an empty set matters here. */
  datatype Constant = SetOf(elements: set<string>) | Other

  /** The set a process ranges over, `None` for a process of one value. */
  type Sets = map<Id, Option<string>>

  predicate Uninstantiated(sets: Sets, constants: map<string, Constant>, o: Id) {
    o in sets && sets[o].Some? && sets[o].value in constants && constants[sets[o].value] == SetOf({})
  }

  /** `is_exempt`. */
  method IsExempt(pluscal: bool, owners: Owners, sets: Sets, name: Label, constants: map<string, Constant>)
    returns (r: bool)
    ensures r <==> pluscal && name in owners && owners[name] != {} &&
                   forall o | o in owners[name] :: Uninstantiated(sets, constants, o)
  {
    if !pluscal {
      return false;
    }
    var mine := if name in owners then owners[name] else {};
    if mine == {} {
      return false;
    }
    var rest := mine;
    while rest != {}
      invariant rest <= mine
      invariant forall o | o in mine - rest :: Uninstantiated(sets, constants, o)
    {
      var o :| o in rest;
      if o !in sets || sets[o].None? {
        return false;
      }
      if sets[o].value !in constants || constants[sets[o].value] != SetOf({}) {
        return false;
      }
      rest := rest - {o};
    }
    return true;
  }

  /** A label is exempt exactly when some process owns it and none of its owners runs in this configuration. */
  method Gate(p: Program, sets: Sets, name: Label, constants: map<string, Constant>) returns (exempt: bool)
    requires p.processes <= p.labels.Keys
    ensures exempt <==>
      && (exists o | o in p.processes :: Owns(p, o, name))
      && (forall o | o in p.processes && Owns(p, o, name) :: Uninstantiated(sets, constants, o))
  {
    hide Owns;
    var owners := OwnersOf(p);
    exempt := IsExempt(true, owners, sets, name, constants);
    assert forall o :: Lists(owners, name, o) <==> o in p.processes && Owns(p, o, name);
    if name in owners {
      var o :| o in owners[name];
      assert Lists(owners, name, o);
      assert forall o | o in owners[name] :: Lists(owners, name, o);
    }
  }
}
