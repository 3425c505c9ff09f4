/**
  A model of a minimal service-locator registry: a single-owner table that
  binds each capability key of a closed enumeration to one owned instance,
  together with the action that destroys that instance on teardown.

  Instance pointers are opaque ids. Running a release action is modelled by
  appending the id it destroys to a ghost log, so ownership ("released
  exactly once") can be stated and checked.
 */
module DependencyInjection {

  // ---------------------------------------------------------------------
  // Capability identity
  // ---------------------------------------------------------------------

  /** The closed enumeration of keys the registry is indexed by. */
  datatype DependencyInjectionEntities = Foo | Bar

  /** Every key of the enumeration. */
  function AllKeys(): set<DependencyInjectionEntities>
  {
    {Foo, Bar}
  }

  /** The enumeration is closed: every key is listed in AllKeys. */
  lemma KeyIsListed(id: DependencyInjectionEntities)
    ensures id in AllKeys()
  {
  }

  /** The abstract capability types a caller registers and queries by. */
  datatype Interface = IFoo | IBar

  /** The declared association of each capability type with its key. */
  function ResolveTypeID(i: Interface): (id: DependencyInjectionEntities)
    ensures InterfaceOf(id) == i
  {
    match i
    case IFoo => Foo
    case IBar => Bar
  }

  /** The association read backwards: the one capability a key stands for. */
  function InterfaceOf(id: DependencyInjectionEntities): (i: Interface)
  {
    match id
    case Foo => IFoo
    case Bar => IBar
  }

  /** Distinct capabilities never share a key, and every key is used. */
  lemma ResolveTypeIDIsBijective()
    ensures forall i, j :: ResolveTypeID(i) == ResolveTypeID(j) ==> i == j
    ensures forall id :: ResolveTypeID(InterfaceOf(id)) == id
  {
    forall i, j | ResolveTypeID(i) == ResolveTypeID(j) ensures i == j {
      assert InterfaceOf(ResolveTypeID(i)) == i;
    }
  }

  // ---------------------------------------------------------------------
  // Entries
  // ---------------------------------------------------------------------

  /** An instance pointer, seen only through its identity. */
  type InstanceId = nat

  /**
    The release action captured at registration: delete `target` through
    a pointer of capability type `asType`.
   */
  datatype ReleaseAction = DeleteAs(asType: Interface, target: InstanceId)

  /**
    The effect of running a release action: the one instance it destroys.
    Running it is modelled by logging this id.
   */
  function Destroys(action: ReleaseAction): InstanceId
  {
    action.target
  }

  /** What the table stores per key: the instance and its release action. */
  datatype EntryHolder = EntryHolder(entryInstance: InstanceId, entryDestructor: ReleaseAction)

  /**
    The entry built when `instance` is registered as capability `i`: its
    release action destroys exactly that instance, through type `i`.
   */
  function MakeEntry(i: Interface, instance: InstanceId): (e: EntryHolder)
    ensures e.entryInstance == instance
    ensures Destroys(e.entryDestructor) == instance
    ensures e.entryDestructor.asType == i
  {
    EntryHolder(instance, DeleteAs(i, instance))
  }

  // ---------------------------------------------------------------------
  // The table as a value
  // ---------------------------------------------------------------------

  /** At most one entry per key, by construction of `map`. */
  type Table = map<DependencyInjectionEntities, EntryHolder>

  /** One entry per key: a table never holds more entries than there are keys. */
  lemma AtMostOneEntryPerKey(t: Table)
    ensures |t| <= |AllKeys()|
  {
    forall id | id in t ensures id in AllKeys() { KeyIsListed(id); }
    SubsetSize(t.Keys, AllKeys());
  }

  /**
    Every entry's release action destroys exactly the instance stored
    beside it, through the capability type its key stands for.
   */
  ghost predicate WellFormed(t: Table)
  {
    forall id | id in t ::
      Destroys(t[id].entryDestructor) == t[id].entryInstance &&
      ResolveTypeID(t[id].entryDestructor.asType) == id
  }

  /** A subset is no larger than its superset. */
  lemma {:induction false} SubsetSize(a: set<DependencyInjectionEntities>, b: set<DependencyInjectionEntities>)
    requires a <= b
    ensures |a| <= |b|
    decreases b
  {
    if b != {} {
      var x :| x in b;
      SubsetSize(a - {x}, b - {x});
    }
  }

  /** A table with a key has an entry to pick. */
  lemma NonEmpty(t: Table)
    requires t.Keys != {}
    ensures exists id :: id in t
  {
  }

  /** Removing a bound key shrinks the table. */
  lemma Shrinks(t: Table, id: DependencyInjectionEntities)
    requires id in t
    ensures |t - {id}| < |t|
  {
  }

  /** The instances the table owns, one occurrence per entry. */
  ghost function Held(t: Table): multiset<InstanceId>
    decreases |t|
  {
    if t.Keys == {} then multiset{}
    else
      NonEmpty(t);
      var id :| id in t;
      Shrinks(t, id);
      multiset{t[id].entryInstance} + Held(t - {id})
  }

  /** The entry Held takes first, named. */
  lemma HeldUnfold(t: Table) returns (first: DependencyInjectionEntities)
    requires t.Keys != {}
    ensures first in t && Held(t) == multiset{t[first].entryInstance} + Held(t - {first})
  {
    var h := Held(t);
    first :| first in t.Keys && h == multiset{t[first].entryInstance} + Held(t - {first});
  }

  /** Held does not depend on which entry is taken first. */
  lemma {:induction false} HeldRemove(t: Table, id: DependencyInjectionEntities)
    requires id in t
    ensures Held(t) == multiset{t[id].entryInstance} + Held(t - {id})
    decreases |t|
  {
    var first := HeldUnfold(t);
    if first != id {
      var withoutFirst, withoutId := t - {first}, t - {id};
      assert withoutId - {first} == withoutFirst - {id};
      Shrinks(t, first);
      Shrinks(t, id);
      HeldRemove(withoutFirst, id);
      HeldRemove(withoutId, first);
    }
  }

  /** An owned instance: each entry's instance occurs in Held. */
  lemma HeldContains(t: Table, id: DependencyInjectionEntities)
    requires id in t
    ensures t[id].entryInstance in Held(t)
  {
    HeldRemove(t, id);
  }

  /** Adding an entry under a fresh key adds exactly its instance to Held. */
  lemma HeldInsert(t: Table, id: DependencyInjectionEntities, e: EntryHolder)
    requires id !in t
    ensures Held(t[id := e]) == Held(t) + multiset{e.entryInstance}
  {
    HeldRemove(t[id := e], id);
    assert t[id := e] - {id} == t;
  }

  /**
    The table after registering `instance` as capability `i`, whose key
    must not be bound yet.
   */
  function Register(t: Table, i: Interface, instance: InstanceId): (r: Table)
    requires ResolveTypeID(i) !in t
    ensures r.Keys == t.Keys + {ResolveTypeID(i)}
    ensures |r| == |t| + 1
    ensures r[ResolveTypeID(i)] == MakeEntry(i, instance)
    ensures forall id | id in t :: r[id] == t[id]
    ensures Held(r) == Held(t) + multiset{instance}
    ensures WellFormed(t) ==> WellFormed(r)
  {
    var id := ResolveTypeID(i);
    HeldInsert(t, id, MakeEntry(i, instance));
    assert (t[id := MakeEntry(i, instance)]).Keys == t.Keys + {id};
    t[id := MakeEntry(i, instance)]
  }

  /**
    The instance bound to capability `i`: one the table owns, and the one
    that entry's release action destroys.
   */
  function Lookup(t: Table, i: Interface): (instance: InstanceId)
    requires ResolveTypeID(i) in t
    ensures instance in Held(t)
    ensures WellFormed(t) ==> Destroys(t[ResolveTypeID(i)].entryDestructor) == instance
  {
    HeldContains(t, ResolveTypeID(i));
    t[ResolveTypeID(i)].entryInstance
  }

  /** A registered instance is what a later query of its capability returns. */
  lemma LookupAfterRegister(t: Table, i: Interface, instance: InstanceId)
    requires ResolveTypeID(i) !in t
    ensures Lookup(Register(t, i, instance), i) == instance
  {
  }

  /**
    Registering another capability leaves every existing binding intact
    and queryable with the same answer.
   */
  lemma RegisterKeepsBindings(t: Table, i: Interface, instance: InstanceId, j: Interface)
    requires ResolveTypeID(i) !in t
    requires ResolveTypeID(j) in t
    ensures i != j
    ensures ResolveTypeID(j) in Register(t, i, instance)
    ensures Lookup(Register(t, i, instance), j) == Lookup(t, j)
  {
  }

  /** Running one entry's release action moves its instance from the table to the log. */
  lemma ReleaseOne(log: seq<InstanceId>, t: Table, id: DependencyInjectionEntities)
    requires id in t && WellFormed(t)
    ensures WellFormed(t - {id}) && |t - {id}| < |t|
    ensures multiset(log + [Destroys(t[id].entryDestructor)]) + Held(t - {id}) == multiset(log) + Held(t)
  {
    HeldRemove(t, id);
    Shrinks(t, id);
  }

  // ---------------------------------------------------------------------
  // The container object
  // ---------------------------------------------------------------------

  class DependencyInjectionContainer {
    /** The table, updated in place. */
    var m_container: Table
    /** Every release action run so far, in order: the id it destroyed. */
    ghost var released: seq<InstanceId>
    /** Every instance ever handed over by RegisterInstance. */
    ghost var registered: multiset<InstanceId>

    /**
      Each entry releases its own instance, and every instance handed over
      is either still owned or has been released, as often as it was
      handed over: nothing leaks, nothing is released twice.
     */
    ghost predicate Valid()
      reads this
    {
      WellFormed(m_container) &&
      multiset(released) + Held(m_container) == registered
    }

    constructor ()
      ensures Valid()
      ensures m_container == map[] && released == [] && registered == multiset{}
    {
      m_container := map[];
      released := [];
      registered := multiset{};
    }

    /** Hands `instance` over to the container as capability `i`. */
    method RegisterInstance(i: Interface, instance: InstanceId)
      requires Valid()
      requires ResolveTypeID(i) !in m_container
      modifies this
      ensures Valid()
      ensures m_container == Register(old(m_container), i, instance)
      ensures released == old(released)
      ensures registered == old(registered) + multiset{instance}
    {
      var id := ResolveTypeID(i);
      if id !in m_container {
        m_container := Register(m_container, i, instance);
        registered := registered + multiset{instance};
      } else {
        assert false;
      }
    }

    /** The instance bound to capability `i`; nothing changes. */
    method QueryInstance(i: Interface) returns (instance: InstanceId)
      requires Valid()
      requires ResolveTypeID(i) in m_container
      ensures instance == Lookup(m_container, i)
      ensures instance in Held(m_container) && instance in registered
    {
      var id := ResolveTypeID(i);
      if id in m_container {
        instance := m_container[id].entryInstance;
        HeldContains(m_container, id);
      } else {
        assert false;
      }
    }

    /**
      Runs every entry's release action once, in no particular order, and
      empties the table.
     */
    method Free()
      requires Valid()
      modifies this
      ensures Valid()
      ensures m_container == map[]
      ensures |old(released)| <= |released| && released[..|old(released)|] == old(released)
      ensures multiset(released) == multiset(old(released)) + Held(old(m_container))
      ensures multiset(released) == registered == old(registered)
    {
      var pending := m_container;
      ghost var done: seq<InstanceId> := [];
      while pending != map[]
        invariant unchanged(this)
        invariant WellFormed(pending)
        invariant multiset(done) + Held(pending) == Held(m_container)
        decreases |pending|
      {
        var id :| id in pending;
        ReleaseOne(done, pending, id);
        done := done + [Destroys(pending[id].entryDestructor)];
        pending := pending - {id};
      }
      assert pending.Keys == {};
      released := released + done;
      m_container := map[];
      assert Held(m_container) == multiset{};
    }
  }

  // ---------------------------------------------------------------------
  // Client-side consequences
  // ---------------------------------------------------------------------

  /** Free on an empty container releases nothing. */
  method FreeEmpty(d: DependencyInjectionContainer)
    requires d.Valid() && d.m_container == map[]
    modifies d
    ensures d.Valid() && d.m_container == map[]
    ensures d.released == old(d.released)
  {
    d.Free();
    assert |d.released| == |old(d.released)| by {
      assert |multiset(d.released)| == |multiset(old(d.released))|;
    }
  }

  /** Calling Free twice has the effect of calling it once. */
  method FreeTwice(d: DependencyInjectionContainer) returns (ghost once: seq<InstanceId>)
    requires d.Valid()
    modifies d
    ensures |old(d.released)| <= |once| && once[..|old(d.released)|] == old(d.released)
    ensures multiset(once) == multiset(old(d.released)) + Held(old(d.m_container))
    ensures d.Valid() && d.m_container == map[]
    ensures d.released == once && d.registered == old(d.registered)
  {
    d.Free();
    once := d.released;
    FreeEmpty(d);
  }

  /** After Free, a capability can be registered and queried again. */
  method ReuseAfterFree(d: DependencyInjectionContainer, i: Interface, instance: InstanceId)
    returns (queried: InstanceId)
    requires d.Valid()
    modifies d
    ensures d.Valid()
    ensures queried == instance
    ensures d.m_container == map[ResolveTypeID(i) := MakeEntry(i, instance)]
  {
    d.Free();
    d.RegisterInstance(i, instance);
    queried := d.QueryInstance(i);
  }

  /**
    Register two capabilities, query each, release all: each query returns
    its own instance, and both instances are released exactly once.
   */
  method TwoCapabilitiesScenario(foo: InstanceId, bar: InstanceId)
    returns (fooQueried: InstanceId, barQueried: InstanceId, ghost releasedLog: seq<InstanceId>)
    ensures fooQueried == foo && barQueried == bar
    ensures multiset(releasedLog) == multiset{foo, bar}
  {
    var container := new DependencyInjectionContainer();
    container.RegisterInstance(IFoo, foo);
    container.RegisterInstance(IBar, bar);
    fooQueried := container.QueryInstance(IFoo);
    barQueried := container.QueryInstance(IBar);
    container.Free();
    releasedLog := container.released;
  }
}
