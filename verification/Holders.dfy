/** Holder and Module as the objects they are. */
module Holders {
  import opened Arithmetic

  class Module {
    var refcnt: int

    constructor ()
      ensures refcnt == 1
    {
      refcnt := 1;
    }

    method Ref()
      modifies this
      ensures refcnt == old(refcnt) + 1
    {
      refcnt := refcnt + 1;
    }

    method Unref()
      modifies this
      ensures refcnt == old(refcnt) - 1
    {
      refcnt := refcnt - 1;
    }
  }

  /** A procedure, function or plugin, which names the module it comes from. */
  datatype Target = Null | Target(name: nat, owner: Module)

  function Modules(t: Target): set<Module> { if t.Null? then {} else {t.owner} }

  class Holder {
    var target: Target

    /** 1 when the target belongs to `m`. */
    function Share(m: Module): int
      reads this
    {
      One(m in Modules(target))
    }

    constructor (t: Target)
      modifies Modules(t)
      ensures target == t
      ensures forall m :: m in Modules(t) ==> m.refcnt == old(m.refcnt) + Share(m)
    {
      target := t;
      new;
      if target.Target? {
        target.owner.Ref();
      }
    }

    constructor Copy(rhs: Holder)
      modifies Modules(rhs.target)
      ensures target == rhs.target == old(rhs.target)
      ensures forall m :: m in Modules(target) ==> m.refcnt == old(m.refcnt) + Share(m)
    {
      target := rhs.target;
      new;
      if target.Target? {
        target.owner.Ref();
      }
    }

    constructor Move(rhs: Holder)
      modifies rhs
      ensures target == old(rhs.target) && rhs.target == Null
    {
      target := rhs.target;
      new;
      rhs.target := Null;
    }

    /** Copy assignment. */
    method Assign(rhs: Holder)
      modifies this, Modules(target), Modules(rhs.target)
      ensures target == rhs.target == old(rhs.target)
      ensures forall m :: m in old(Modules(target) + Modules(rhs.target)) ==>
                m.refcnt - Share(m) == old(m.refcnt) - old(Share(m))
    {
      if this != rhs {
        if target.Target? {
          target.owner.Unref();
        }
        target := rhs.target;
        if target.Target? {
          target.owner.Ref();
        }
      }
    }

    /** Move assignment. */
    method Take(rhs: Holder)
      modifies this, rhs, Modules(target)
      ensures target == old(rhs.target)
      ensures this != rhs ==> rhs.target == Null
      ensures forall m :: m in old(Modules(target)) ==>
                m.refcnt - Share(m) - rhs.Share(m) == old(m.refcnt) - old(Share(m)) - old(rhs.Share(m))
    {
      if this != rhs {
        if target.Target? {
          target.owner.Unref();
        }
        target := rhs.target;
        rhs.target := Null;
      }
    }

    method Reset()
      modifies this, Modules(target)
      ensures target == Null
      ensures forall m :: m in old(Modules(target)) ==> m.refcnt == old(m.refcnt) - old(Share(m))
    {
      if target.Target? {
        target.owner.Unref();
        target := Null;
      }
    }

    /** The destructor. */
    method Destroy()
      modifies this, Modules(target)
      ensures target == Null
      ensures forall m :: m in old(Modules(target)) ==> m.refcnt == old(m.refcnt) - old(Share(m))
    {
      if target.Target? {
        target.owner.Unref();
        target := Null;
      }
    }
  }

  // ---- The whole population

  /** The holders in `hs` whose target belongs to `m`. */
  ghost function Owners(hs: set<Holder>, m: Module): set<Holder>
    reads hs
  {
    set h | h in hs && h.Share(m) == 1
  }

  /** The counter of `m` is 1 plus the number of holders whose target belongs to it. */
  ghost predicate Counted(hs: set<Holder>, m: Module)
    reads hs, m
  {
    m.refcnt == 1 + |Owners(hs, m)|
  }

  /** Sets that differ at most in two elements differ in size by those. */
  lemma SameOthers<T>(a: set<T>, b: set<T>, h: T, r: T)
    requires forall k :: k != h && k != r ==> (k in a <==> k in b)
    ensures |a| - One(h in a) - (if r != h then One(r in a) else 0)
         == |b| - One(h in b) - (if r != h then One(r in b) else 0)
  {
    Without(a, h, r);
    Without(b, h, r);
    assert a - {h} - {r} == b - {h} - {r};
  }

  lemma Without<T>(a: set<T>, h: T, r: T)
    ensures |a - {h} - {r}| == |a| - One(h in a) - (if r != h then One(r in a) else 0)
  {
    assert |a - {h}| == |a| - One(h in a);
    assert r != h ==> (r in a - {h} <==> r in a);
  }

  /** A new holder adds its share to the owners. */
  lemma OwnersJoined(hs: set<Holder>, h: Holder, m: Module)
    requires h !in hs
    ensures |Owners(hs + {h}, m)| == |Owners(hs, m)| + h.Share(m)
  {
    assert Owners(hs + {h}, m) == if h.Share(m) == 1 then Owners(hs, m) + {h} else Owners(hs, m);
  }

  /** All holders alive and all modules they may point into. Its methods are the calls a program can make. */
  class Population {
    ghost var holders: set<Holder>
    ghost const modules: set<Module>

    /** Targets belong to the modules, and every counter is right. */
    ghost predicate Valid()
      reads this, holders, modules
    {
      && (forall h :: h in holders ==> Modules(h.target) <= modules)
      && (forall m :: m in modules ==> Counted(holders, m))
    }

    /** Freshly loaded modules, and no holder. */
    constructor (ghost modules: set<Module>)
      requires forall m :: m in modules ==> m.refcnt == 1
      ensures Valid() && holders == {} && this.modules == modules
    {
      holders := {};
      this.modules := modules;
      new;
      assert forall m :: m in modules ==> Owners({}, m) == {};
    }

    method Construct(t: Target) returns (h: Holder)
      requires Valid() && Modules(t) <= modules
      modifies this, Modules(t)
      ensures Valid() && fresh(h) && holders == old(holders) + {h} && h.target == t
    {
      h := new Holder(t);
      forall m | m in modules ensures Counted(holders + {h}, m) {
        OwnersJoined(holders, h, m);
      }
      holders := holders + {h};
    }

    method CopyConstruct(rhs: Holder) returns (h: Holder)
      requires Valid() && rhs in holders
      modifies this, Modules(rhs.target)
      ensures Valid() && fresh(h) && holders == old(holders) + {h} && h.target == rhs.target
    {
      h := new Holder.Copy(rhs);
      forall m | m in modules ensures Counted(holders + {h}, m) {
        OwnersJoined(holders, h, m);
      }
      holders := holders + {h};
    }

    /** Who owned each module, taken before a call. */
    ghost function Ownership(): (o: map<Module, set<Holder>>)
      reads this, holders
      ensures o.Keys == modules && forall m :: m in modules ==> o[m] == Owners(holders, m)
    {
      map m | m in modules :: Owners(holders, m)
    }

    method CopyAssign(h: Holder, rhs: Holder)
      requires Valid() && h in holders && rhs in holders
      modifies h, Modules(h.target), Modules(rhs.target)
      ensures Valid() && h.target == old(rhs.target)
    {
      ghost var was := Ownership();
      h.Assign(rhs);
      forall m | m in modules ensures Counted(holders, m) {
        SameOthers(was[m], Owners(holders, m), h, rhs);
      }
    }

    method MoveAssign(h: Holder, rhs: Holder)
      requires Valid() && h in holders && rhs in holders
      modifies h, rhs, Modules(h.target)
      ensures Valid() && h.target == old(rhs.target) && (h != rhs ==> rhs.target == Null)
    {
      ghost var was := Ownership();
      h.Take(rhs);
      forall m | m in modules ensures Counted(holders, m) {
        SameOthers(was[m], Owners(holders, m), h, rhs);
      }
    }

    method Reset(h: Holder)
      requires Valid() && h in holders
      modifies h, Modules(h.target)
      ensures Valid() && h.target == Null
    {
      ghost var was := Ownership();
      h.Reset();
      forall m | m in modules ensures Counted(holders, m) {
        SameOthers(was[m], Owners(holders, m), h, h);
      }
    }

    method MoveConstruct(rhs: Holder) returns (h: Holder)
      requires Valid() && rhs in holders
      modifies this, rhs
      ensures Valid() && fresh(h) && holders == old(holders) + {h}
      ensures h.target == old(rhs.target) && rhs.target == Null
    {
      ghost var was := Ownership();
      h := new Holder.Move(rhs);
      forall m | m in modules ensures Counted(holders + {h}, m) {
        SameOthers(was[m], Owners(holders + {h}, m), h, rhs);
      }
      holders := holders + {h};
    }

    method Destroy(h: Holder)
      requires Valid() && h in holders
      modifies this, h, Modules(h.target)
      ensures Valid() && holders == old(holders) - {h}
    {
      ghost var was := Ownership();
      h.Destroy();
      forall m | m in modules ensures Counted(holders - {h}, m) {
        SameOthers(was[m], Owners(holders - {h}, m), h, h);
      }
      holders := holders - {h};
    }
  }
}
