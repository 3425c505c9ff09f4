# Dependency-injection container

A Dafny model of `DependencyInjectionContainer` from `dep-inj-container.cpp`,
a service-locator registry. The registry is a single-owner table. It maps each
key of a closed enumeration (`DependencyInjectionEntities`: `Foo`, `Bar`) to
one entry. An entry holds an instance pointer and the release action captured
when the instance was registered.

- **Capability identity.** `InterfaceTypeIDResolver` and the
  `REGISTER_DEPENDENCY_ENTITY` declarations become the total function
  `ResolveTypeID` from the capability types (`IFoo`, `IBar`) to keys.
- **Instances** are opaque ids (`InstanceId`).
- **Release actions.** The closure `delete static_cast<TInterface *>(instance)`
  becomes the value `DeleteAs(TInterface, instance)`. `Destroys` names the one
  instance it deletes.
- **The container** is a class. Its field `m_container` is a
  `map<DependencyInjectionEntities, EntryHolder>` that the methods reassign.
  Two ghost fields track ownership:
  - `released` logs every release action run, in order.
  - `registered` is the multiset of every instance ever handed over.

  The object invariant `Valid()` says two things. Every entry's release action
  destroys exactly its own instance. And `released` plus the instances still
  held (`Held`) make up exactly `registered`. So every instance handed over is
  either still held or has been released, as many times as it was handed over.
- **The pure layer.** `Register` and `Lookup` describe the table transitions
  as functions on values. The class methods are proved against them.
- **Faults.** The two `assert(false)` paths (double registration, query of an
  unbound key) are preconditions of the methods.

Notes on the source:

- The release action deletes through a pointer of the *capability* type
  (`static_cast<TInterface *>`), not of the concrete type. It is correct only
  because `IFoo` and `IBar` declare virtual destructors. The model records the
  capability type in `DeleteAs`, and `WellFormed` ties it to the entry's key.
- The container has no destructor that calls `Free`. Instances still held when
  a container goes away are not released. The model has no implicit teardown.
  Its guarantee is that after `Free`, `multiset(released) == registered`.
- With assertions compiled out, a second `RegisterInstance` for a bound key
  does nothing. A `QueryInstance` for an unbound key falls off the end of a
  non-void function, which is undefined behaviour. The model treats both as
  precondition violations.

## Model

| member | source | states |
|---|---|---|
| `DependencyInjection.ResolveTypeID` | dep-inj-container.cpp:14-23 | each capability type resolves to a key that maps back to that same capability type |
| `DependencyInjection.ResolveTypeIDIsBijective` | dep-inj-container.cpp:109-121 | distinct capability types never share a key, and every key stands for some capability type |
| `DependencyInjection.KeyIsListed` | dep-inj-container.cpp:8-12 | the key enumeration is closed: every key is one of `Foo`, `Bar` |
| `DependencyInjection.AtMostOneEntryPerKey` | dep-inj-container.cpp:80 | the table holds at most one entry per key, so never more entries than there are keys |
| `DependencyInjection.MakeEntry` | dep-inj-container.cpp:36-38 | the entry built at registration stores the given instance, and its release action destroys exactly that instance through the registered capability type |
| `DependencyInjection.HeldRemove` | dep-inj-container.cpp:60-61 | the multiset of owned instances does not depend on which entry is visited first, so any iteration order accounts for every entry once |
| `DependencyInjection.HeldContains` | dep-inj-container.cpp:53 | every stored instance is among the instances the table owns |
| `DependencyInjection.HeldInsert` | dep-inj-container.cpp:36 | inserting an entry under an unbound key adds exactly its instance to the owned instances |
| `DependencyInjection.Register` | dep-inj-container.cpp:32-39 | registering under an unbound key adds exactly that key, leaves every other entry unchanged, grows the table by one, adds the instance to the owned multiset once, and keeps every release action tied to its own instance |
| `DependencyInjection.Lookup` | dep-inj-container.cpp:49-53 | the instance found for a bound capability is owned by the table and is exactly what that entry's release action destroys |
| `DependencyInjection.LookupAfterRegister` | dep-inj-container.cpp:36-53 | querying a capability just registered returns the registered instance |
| `DependencyInjection.RegisterKeepsBindings` | dep-inj-container.cpp:34-43 | registering a different capability leaves every existing binding bound and queried with the same instance; a bound key can only come from a different capability |
| `DependencyInjection.ReleaseOne` | dep-inj-container.cpp:60-61 | running one entry's release action moves its instance from the owned multiset to the release log, and the rest of the table stays well formed |
| `DependencyInjection.DependencyInjectionContainer.constructor` | dep-inj-container.cpp:80 | a new container is empty, has released nothing and owns nothing |
| `DependencyInjection.DependencyInjectionContainer.RegisterInstance` | dep-inj-container.cpp:29-44 | for an unbound key the table becomes `Register` of the old table, the instance is owned, nothing is released, and the ownership invariant holds; a bound key is a precondition violation |
| `DependencyInjection.DependencyInjectionContainer.QueryInstance` | dep-inj-container.cpp:46-56 | returns the instance bound to the capability's key, which is owned and was registered; changes nothing; an unbound key is a precondition violation |
| `DependencyInjection.DependencyInjectionContainer.Free` | dep-inj-container.cpp:58-64 | runs every entry's release action exactly once in some order, only appends to the log, and empties the table; afterwards every instance ever registered has been released exactly as often as it was registered |
| `DependencyInjection.FreeEmpty` | dep-inj-container.cpp:58-64 | `Free` on an empty container releases nothing |
| `DependencyInjection.FreeTwice` | dep-inj-container.cpp:58-64 | calling `Free` twice has the same effect as calling it once: the first call keeps the old log as a prefix and adds exactly the held instances, and the second call leaves the log, the empty table and `registered` exactly as the first call left them |
| `DependencyInjection.ReuseAfterFree` | dep-inj-container.cpp:29-64 | after `Free` a capability can be registered again, and querying it returns the new instance |
| `DependencyInjection.TwoCapabilitiesScenario` | dep-inj-container.cpp:127-138 | registering `IFoo` and `IBar`, then querying each, returns each one's own instance; `Free` then releases both exactly once, in either order |

## Left out

- `main` is left out, along with the demonstration classes `IFoo`, `IBar`, `Foo` and `Bar` (their printing and virtual dispatch). Only the call sequence of `main` is kept, as `TwoCapabilitiesScenario`.
- Real `delete`, the `std::function` closure and the `void *` type erasure are left out. They are C++ memory management. Running a release action is modelled as appending the destroyed id to the ghost log `released`.
- The template and macro machinery is left out. A capability type without a declared key is a build error, so nothing about it can be checked at run time. The association is a total function on a closed datatype.
- `assert`/abort behaviour and release-build undefined behaviour are left out. Both fault paths are preconditions instead of modelled outcomes.
- The lifetime of the reference that `QueryInstance` returns, and aliasing through it, are not modelled. The model returns the instance id.
- The iteration order of `unordered_map` is not modelled. `Free` picks keys in an arbitrary order.
- Nothing stops the same pointer being registered under two keys, in the source or in the model. The model then releases it twice, and `registered` counts it twice. The source gives a double `delete` in this case.
- A null instance pointer is not modelled. The source does not reject one: `delete` on null destroys nothing, and `QueryInstance` would dereference it. `InstanceId` has no null, so the model would log a null as destroyed.
- Thread safety is left out. The source is single-threaded.
