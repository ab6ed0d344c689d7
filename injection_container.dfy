/**
 * `InjectionContainer`: one addressable registry. It owns a binder and a
 * reflection cache, registers itself in its binder on construction, keeps an
 * ordered list of AOT extensions, and forwards the binding operations to its
 * binder.
 */
module Container {
  import opened Wrappers
  import opened Seqs
  import opened Bindings
  import opened Binders
  import BindingFactory

  /** The callbacks an extension has received, in order. */
  datatype AotNotice = Registered(container: object) | Unregistered(container: object)

  /**
   * An `IContainerAOT` extension, compared by reference. `types` holds every
   * type the object is an instance of, so the type test `is T` is `T in types`.
   * What `OnRegister`/`OnUnregister` do is not part of this model; each call is
   * recorded in `notifications`.
   */
  class ContainerAot {
    const types: set<TypeToken>
    ghost var notifications: seq<AotNotice>

    constructor (types: set<TypeToken>)
      ensures this.types == types && notifications == []
    {
      this.types := types;
      notifications := [];
    }

    method OnRegister(container: object)
      modifies this`notifications
      ensures notifications == old(notifications) + [Registered(container)]
    {
      notifications := notifications + [Registered(container)];
    }

    method OnUnregister(container: object)
      modifies this`notifications
      ensures notifications == old(notifications) + [Unregistered(container)]
    {
      notifications := notifications + [Unregistered(container)];
    }
  }

  /** One call of `Injector.Inject(obj)` on a container. */
  datatype Injection = Injection(container: object, obj: object)

  /** The calls of `Injector.Inject` made on any container, in call order. */
  class InjectionLog {
    ghost var entries: seq<Injection>

    constructor ()
      ensures entries == []
    {
      entries := [];
    }
  }

  /** The reflection cache a container owns; its contents are not part of this model. */
  class ReflectionCache {
    constructor ()
    {
    }
  }

  /** `list.OfTheType<T, IContainerAOT>()`: the extensions that are a `T`, in list order. */
  function OfType(s: seq<ContainerAot>, t: TypeToken): (r: seq<ContainerAot>)
    ensures forall e :: e in r ==> e in s && t in e.types
    ensures forall e :: e in s ==> (e in r <==> t in e.types)
  {
    if s == [] then []
    else
      (if t in s[0].types then [s[0]] else []) + OfType(s[1..], t)
  }

  /** The list with every extension that is a `T` taken out, the others in their order. */
  function WithoutType(s: seq<ContainerAot>, t: TypeToken): (r: seq<ContainerAot>)
    ensures forall e :: e in r ==> e in s && t !in e.types
    ensures forall e :: e in s ==> (e in r <==> t !in e.types)
  {
    if s == [] then []
    else
      (if t in s[0].types then [] else [s[0]]) + WithoutType(s[1..], t)
  }

  /** An extension of type `T` occurs in `OfType` as often as in the list. */
  lemma {:induction false} OfTypeCount(s: seq<ContainerAot>, t: TypeToken, e: ContainerAot)
    ensures multiset(OfType(s, t))[e] == if t in e.types then multiset(s)[e] else 0
  {
    if s != [] {
      assert s == [s[0]] + s[1..];
      OfTypeCount(s[1..], t, e);
    }
  }

  /** Unregistering the extensions of `OfType` one by one reaches each extension of type `T` once per occurrence. */
  lemma OfTypeCalls(s: seq<ContainerAot>, t: TypeToken, e: ContainerAot)
    ensures Count(OfType(s, t), e, |OfType(s, t)|) == if t in e.types then multiset(s)[e] else 0
  {
    var r := OfType(s, t);
    CountPrefix(r, e, |r|);
    assert r[..|r|] == r;
    OfTypeCount(s, t, e);
  }

  /** An extension not of type `T` occurs in `WithoutType` as often as in the list. */
  lemma {:induction false} WithoutTypeCount(s: seq<ContainerAot>, t: TypeToken, e: ContainerAot)
    ensures multiset(WithoutType(s, t))[e] == if t in e.types then 0 else multiset(s)[e]
  {
    if s != [] {
      assert s == [s[0]] + s[1..];
      WithoutTypeCount(s[1..], t, e);
    }
  }

  /** The list once the first `n` extensions that are a `T` have been removed. */
  function DropOfType(s: seq<ContainerAot>, t: TypeToken, n: nat): seq<ContainerAot>
  {
    if n == 0 || s == [] then s
    else if t in s[0].types then DropOfType(s[1..], t, n - 1)
    else [s[0]] + DropOfType(s[1..], t, n)
  }

  /**
   * Removing the first occurrence of the `i`-th extension of type `T` from the
   * list that has lost the first `i` of them removes exactly that one.
   */
  lemma {:induction false} DropOfTypeStep(s: seq<ContainerAot>, t: TypeToken, i: nat)
    requires i < |OfType(s, t)|
    ensures OfType(s, t)[i] in DropOfType(s, t, i)
    ensures RemoveFirst(DropOfType(s, t, i), OfType(s, t)[i]) == DropOfType(s, t, i + 1)
    decreases |s|, 1
  {
    if t in s[0].types {
      DropStepAtTyped(s, t, i);
    } else {
      DropStepAtOther(s, t, i);
    }
  }

  /** `DropOfTypeStep` when the list starts with an extension of type `T`. */
  lemma {:induction false} DropStepAtTyped(s: seq<ContainerAot>, t: TypeToken, i: nat)
    requires s != [] && t in s[0].types
    requires i < |OfType(s, t)|
    ensures OfType(s, t)[i] in DropOfType(s, t, i)
    ensures RemoveFirst(DropOfType(s, t, i), OfType(s, t)[i]) == DropOfType(s, t, i + 1)
    decreases |s|, 0
  {
    var rest := OfType(s[1..], t);
    assert OfType(s, t) == [s[0]] + rest;
    if i == 0 {
      assert DropOfType(s, t, 1) == s[1..];
    } else {
      assert OfType(s, t)[i] == rest[i - 1];
      DropOfTypeStep(s[1..], t, i - 1);
    }
  }

  /** `DropOfTypeStep` when the list starts with an extension of another type. */
  lemma {:induction false} DropStepAtOther(s: seq<ContainerAot>, t: TypeToken, i: nat)
    requires s != [] && t !in s[0].types
    requires i < |OfType(s, t)|
    ensures OfType(s, t)[i] in DropOfType(s, t, i)
    ensures RemoveFirst(DropOfType(s, t, i), OfType(s, t)[i]) == DropOfType(s, t, i + 1)
    decreases |s|, 0
  {
    var x := OfType(s, t)[i];
    assert OfType(s, t) == OfType(s[1..], t);
    assert t in x.types;
    DropOfTypeStep(s[1..], t, i);
    assert DropOfType(s, t, i) == [s[0]] + DropOfType(s[1..], t, i);
    assert DropOfType(s, t, i + 1) == [s[0]] + DropOfType(s[1..], t, i + 1);
  }

  /** Once every extension of type `T` has been removed one by one, the list is `WithoutType`. */
  lemma {:induction false} DropAllOfType(s: seq<ContainerAot>, t: TypeToken)
    ensures DropOfType(s, t, |OfType(s, t)|) == WithoutType(s, t)
  {
    if s != [] {
      DropAllOfType(s[1..], t);
      if t !in s[0].types && |OfType(s[1..], t)| == 0 {
        assert DropOfType(s, t, 0) == [s[0]] + DropOfType(s[1..], t, 0);
      }
    }
  }

  /** The binding a container registers for itself: `IInjectionContainer`, built by `Bind<T>`, with the container as its value. */
  function SelfBinding(binder: object, container: object): Binding
  {
    BindingFactory.CreateDefault(binder, IInjectionContainerType, TEMP).(values := [container])
  }

  /** Storing into an empty binder leaves exactly one bucket holding exactly that binding. */
  lemma StoredInEmpty(b: Binding)
    ensures Stored(map[], b) == map[b.typeKey := [b]]
  {
    var empty: TypeBindings := map[];
    assert BucketOf(empty, b.typeKey) + [b] == [b];
    assert empty[b.typeKey := [b]].Keys == {b.typeKey};
  }

  class InjectionContainer {
    /** The container id; `None` is `null`. Only the constructors set it. */
    const id: Option<Id>
    var cache: ReflectionCache?
    var binder: Binder?
    /** The AOT list; `None` until the first `RegisterAOT`. */
    var aot: Option<seq<ContainerAot>>

    /** `InjectionContainer()`; `rules` is the behaviour of the new `InjectionBinder`. */
    constructor (rules: BinderRules)
      ensures id == None && aot == None
      ensures fresh(cache) && fresh(binder) && binder.rules == rules
      ensures binder.bindingStorage == [SelfBinding(binder, this)]
      ensures binder.typeBindings == map[IInjectionContainerType := [SelfBinding(binder, this)]]
    {
      id := None;
      cache := new ReflectionCache();
      binder := new Binder(rules);
      aot := None;
      new;
      RegisterItself();
      StoredInEmpty(SelfBinding(binder, this));
    }

    /** `InjectionContainer(object id)`. */
    constructor WithId(id: Option<Id>, rules: BinderRules)
      ensures this.id == id && aot == None
      ensures fresh(cache) && fresh(binder) && binder.rules == rules
      ensures binder.bindingStorage == [SelfBinding(binder, this)]
      ensures binder.typeBindings == map[IInjectionContainerType := [SelfBinding(binder, this)]]
    {
      this.id := id;
      cache := new ReflectionCache();
      binder := new Binder(rules);
      aot := None;
      new;
      RegisterItself();
      StoredInEmpty(SelfBinding(binder, this));
    }

    /** `InjectionContainer(IReflectionCache cache)`. */
    constructor WithCache(cache: ReflectionCache?, rules: BinderRules)
      ensures id == None && this.cache == cache && aot == None
      ensures fresh(binder) && binder.rules == rules
      ensures binder.bindingStorage == [SelfBinding(binder, this)]
      ensures binder.typeBindings == map[IInjectionContainerType := [SelfBinding(binder, this)]]
    {
      id := None;
      this.cache := cache;
      binder := new Binder(rules);
      aot := None;
      new;
      RegisterItself();
      StoredInEmpty(SelfBinding(binder, this));
    }

    /** `InjectionContainer(object id, IReflectionCache cache)`. */
    constructor WithIdAndCache(id: Option<Id>, cache: ReflectionCache?, rules: BinderRules)
      ensures this.id == id && this.cache == cache && aot == None
      ensures fresh(binder) && binder.rules == rules
      ensures binder.bindingStorage == [SelfBinding(binder, this)]
      ensures binder.typeBindings == map[IInjectionContainerType := [SelfBinding(binder, this)]]
    {
      this.id := id;
      this.cache := cache;
      binder := new Binder(rules);
      aot := None;
      new;
      RegisterItself();
      StoredInEmpty(SelfBinding(binder, this));
    }

    /** `InjectionContainer(IReflectionCache cache, InjectionBinder binder)`: the given binder gains the self binding. */
    constructor WithCacheAndBinder(cache: ReflectionCache?, binder: Binder)
      modifies binder`bindingStorage, binder`typeBindings
      ensures id == None && this.cache == cache && this.binder == binder && aot == None
      ensures binder.bindingStorage == old(binder.bindingStorage) + [SelfBinding(binder, this)]
      ensures binder.typeBindings == Stored(old(binder.typeBindings), SelfBinding(binder, this))
    {
      id := None;
      this.cache := cache;
      this.binder := binder;
      aot := None;
      new;
      RegisterItself();
    }

    /** `InjectionContainer(object id, IReflectionCache cache, InjectionBinder binder)`. */
    constructor WithIdCacheAndBinder(id: Option<Id>, cache: ReflectionCache?, binder: Binder)
      modifies binder`bindingStorage, binder`typeBindings
      ensures this.id == id && this.cache == cache && this.binder == binder && aot == None
      ensures binder.bindingStorage == old(binder.bindingStorage) + [SelfBinding(binder, this)]
      ensures binder.typeBindings == Stored(old(binder.typeBindings), SelfBinding(binder, this))
    {
      this.id := id;
      this.cache := cache;
      this.binder := binder;
      aot := None;
      new;
      RegisterItself();
    }

    /** `Dispose()`: drop the cache and the binder; nothing else is torn down. */
    method Dispose()
      modifies this`cache, this`binder
      ensures cache == null && binder == null
    {
      cache := null;
      binder := null;
    }

    /** `Injector.Inject(obj)`: its effect on `obj` is not part of this model; the call is recorded in `log`. */
    method Inject(obj: object, log: InjectionLog)
      modifies log`entries
      ensures log.entries == old(log.entries) + [Injection(this, obj)]
    {
      log.entries := log.entries + [Injection(this, obj)];
    }

    /** The AOT list, reading an absent one as empty. */
    function AotList(): seq<ContainerAot>
      reads this`aot
    {
      aot.GetOr([])
    }

    /** `RegisterAOT(extension)`: create the list if absent, append, notify once. Duplicates are accepted. */
    method RegisterAOT(extension: ContainerAot)
      modifies this`aot, extension`notifications
      ensures aot == Some(old(AotList()) + [extension])
      ensures extension.notifications == old(extension.notifications) + [Registered(this)]
    {
      if aot == None {
        aot := Some([]);
      }
      aot := Some(aot.value + [extension]);
      extension.OnRegister(this);
    }

    /** `UnregisterAOT(aot)`: remove the first occurrence and notify once; an absent extension changes nothing. */
    method UnregisterAOT(extension: ContainerAot)
      requires aot.Some?
      modifies this`aot, extension`notifications
      ensures extension !in old(aot.value) ==>
        aot == old(aot) && extension.notifications == old(extension.notifications)
      ensures extension in old(aot.value) ==>
        aot == Some(RemoveFirst(old(aot.value), extension)) &&
        extension.notifications == old(extension.notifications) + [Unregistered(this)]
    {
      if extension !in aot.value {
        return;
      }
      aot := Some(RemoveFirst(aot.value, extension));
      extension.OnUnregister(this);
    }

    /**
     * `UnregisterAOT<T>()`: unregister, one call each, the extensions of type
     * `T` found in the list on entry. No `T` remains, the others keep their
     * order, and each removed extension is notified once per occurrence.
     */
    method UnregisterAOTOfType(t: TypeToken)
      requires aot.Some?
      modifies this`aot, (set e | e in aot.value)`notifications
      ensures aot == Some(WithoutType(old(aot.value), t))
      ensures forall e :: e in old(aot.value) ==>
        e.notifications == old(e.notifications) +
          Copies(Unregistered(this), if t in e.types then multiset(old(aot.value))[e] else 0)
    {
      ghost var s0 := aot.value;
      var toUnregister := OfType(aot.value, t);
      var length := |toUnregister|;
      for i := 0 to length
        invariant aot == Some(DropOfType(s0, t, i))
        invariant forall e :: e in s0 ==>
          e.notifications == old(e.notifications) + Copies(Unregistered(this), Count(toUnregister, e, i))
      {
        var x := toUnregister[i];
        assert x in s0;
        DropOfTypeStep(s0, t, i);
        CopiesSnoc(Unregistered(this), Count(toUnregister, x, i));
        UnregisterAOT(x);
      }
      DropAllOfType(s0, t);
      forall e | e in s0
        ensures Count(toUnregister, e, length) == if t in e.types then multiset(s0)[e] else 0
      {
        OfTypeCalls(s0, t, e);
      }
    }

    /** `RegisterItself()`: bind `IInjectionContainer` and add this container as the binding's value. */
    method RegisterItself()
      requires binder != null
      modifies binder`bindingStorage, binder`typeBindings
      ensures binder.bindingStorage == old(binder.bindingStorage) + [SelfBinding(binder, this)]
      ensures binder.typeBindings == Stored(old(binder.typeBindings), SelfBinding(binder, this))
    {
      ghost var bucket := BucketOf(binder.typeBindings, IInjectionContainerType);
      ghost var storage := binder.bindingStorage;
      var b := BindSingleton(IInjectionContainerType);
      assert binder.typeBindings[IInjectionContainerType] == bucket + [b];
      binder.To(IInjectionContainerType, |binder.typeBindings[IInjectionContainerType]| - 1, |binder.bindingStorage| - 1, this);
      assert b.(values := b.values + [this]) == SelfBinding(binder, this);
      assert (bucket + [b])[|bucket| := SelfBinding(binder, this)] == bucket + [SelfBinding(binder, this)];
      assert (storage + [b])[|storage| := SelfBinding(binder, this)] == storage + [SelfBinding(binder, this)];
    }

    /** `Bind<T>()`: the binder's `Bind<T>()`, a TEMP binding with the default MULTIPLE constraint. */
    method BindOf(typeOfT: TypeToken) returns (b: Binding)
      requires binder != null
      modifies binder`bindingStorage, binder`typeBindings
      ensures BindingFactory.IsNewBinding(b, binder, typeOfT, TEMP, MULTIPLE)
      ensures binder.bindingStorage == old(binder.bindingStorage) + [b]
      ensures binder.typeBindings == Stored(old(binder.typeBindings), b)
    {
      b := binder.Bind(typeOfT, TEMP);
    }

    /** `BindSingleton<T>()`: the same single `binder.Bind<T>()` call as `Bind<T>()`. */
    method BindSingleton(typeOfT: TypeToken) returns (b: Binding)
      requires binder != null
      modifies binder`bindingStorage, binder`typeBindings
      ensures BindingFactory.IsNewBinding(b, binder, typeOfT, TEMP, MULTIPLE)
      ensures binder.bindingStorage == old(binder.bindingStorage) + [b]
      ensures binder.typeBindings == Stored(old(binder.typeBindings), b)
    {
      b := binder.Bind(typeOfT, TEMP);
    }

    /** `BindFactory<T>()`: the same single `binder.Bind<T>()` call as `Bind<T>()`. */
    method BindFactory(typeOfT: TypeToken) returns (b: Binding)
      requires binder != null
      modifies binder`bindingStorage, binder`typeBindings
      ensures BindingFactory.IsNewBinding(b, binder, typeOfT, TEMP, MULTIPLE)
      ensures binder.bindingStorage == old(binder.bindingStorage) + [b]
      ensures binder.typeBindings == Stored(old(binder.typeBindings), b)
    {
      b := binder.Bind(typeOfT, TEMP);
    }

    /** `Bind(type, bindingType)`: a MULTIPLE binding of the given binding type, stored by the binder. */
    method Bind(t: TypeToken, bindingType: BindingType) returns (b: Binding)
      requires binder != null
      modifies binder`bindingStorage, binder`typeBindings
      ensures BindingFactory.IsNewBinding(b, binder, t, bindingType, MULTIPLE)
      ensures binder.bindingStorage == old(binder.bindingStorage) + [b]
      ensures binder.typeBindings == Stored(old(binder.typeBindings), b)
    {
      b := binder.Bind(t, bindingType);
    }

    /** `MultipleBind(types, bindingTypes)`: whatever the binder's rule does. */
    method MultipleBind(types: seq<TypeToken>, bindingTypes: seq<BindingType>)
      requires binder != null
      modifies binder`bindingStorage, binder`typeBindings
      ensures binder.State() == binder.rules.multipleBind(old(binder.State()), types, bindingTypes)
    {
      binder.MultipleBind(types, bindingTypes);
    }

    /** `GetBindingsByType(type)` and `GetBindingsByType<T>()`: the type's bucket, `None` when the binder has none. */
    method GetBindingsByType(t: TypeToken) returns (r: Option<seq<Binding>>)
      requires binder != null
      ensures r.None? <==> t !in binder.typeBindings
      ensures r.Some? ==> r.value == binder.typeBindings[t]
    {
      r := binder.GetBindingsByType(t);
    }

    /** `GetBindingsById(id)`. */
    method GetBindingsById(id: Option<Id>) returns (r: seq<Binding>)
      requires binder != null
      ensures r == binder.rules.bindingsById(binder.State(), id)
    {
      r := binder.rules.bindingsById(binder.State(), id);
    }

    /** `GetAllBindings()`. */
    method GetAllBindings() returns (r: seq<Binding>)
      requires binder != null
      ensures r == binder.rules.allBindings(binder.State())
    {
      r := binder.rules.allBindings(binder.State());
    }

    /** `GetSameNullIdBinding(binding)`. */
    method GetSameNullIdBinding(binding: Binding) returns (r: seq<Binding>)
      requires binder != null
      ensures r == binder.rules.sameNullIdBindings(binder.State(), binding)
    {
      r := binder.rules.sameNullIdBindings(binder.State(), binding);
    }

    /** `GetBinding(type, id)` and `GetBinding<T>(id)`; `None` is `null`. */
    method GetBinding(t: TypeToken, id: Option<Id>) returns (r: Option<Binding>)
      requires binder != null
      ensures r == binder.rules.bindingOf(binder.State(), t, id)
    {
      r := binder.rules.bindingOf(binder.State(), t, id);
    }

    /** `UnbindByType(type)` and `UnbindByType<T>()`. */
    method UnbindByType(t: TypeToken)
      requires binder != null
      modifies binder`bindingStorage, binder`typeBindings
      ensures binder.State() == binder.rules.remove(old(binder.State()), Removal.UnbindByType(t))
    {
      binder.Perform(Removal.UnbindByType(t));
    }

    /** `UnbindNullIdBindingByType(type)` and `UnbindNullIdBindingByType<T>()`. */
    method UnbindNullIdBindingByType(t: TypeToken)
      requires binder != null
      modifies binder`bindingStorage, binder`typeBindings
      ensures binder.State() == binder.rules.remove(old(binder.State()), Removal.UnbindNullIdBindingByType(t))
    {
      binder.Perform(Removal.UnbindNullIdBindingByType(t));
    }

    /** `Unbind(type, id)` and `Unbind<T>(id)`. */
    method Unbind(t: TypeToken, id: Option<Id>)
      requires binder != null
      modifies binder`bindingStorage, binder`typeBindings
      ensures binder.State() == binder.rules.remove(old(binder.State()), Removal.Unbind(t, id))
    {
      binder.Perform(Removal.Unbind(t, id));
    }

    /** `Unbind(binding)`. */
    method UnbindBinding(binding: Binding)
      requires binder != null
      modifies binder`bindingStorage, binder`typeBindings
      ensures binder.State() == binder.rules.remove(old(binder.State()), Removal.UnbindBinding(binding))
    {
      binder.Perform(Removal.UnbindBinding(binding));
    }

    /** `RemoveValue(binding, value)`. */
    method RemoveValue(binding: Binding, value: object)
      requires binder != null
      modifies binder`bindingStorage, binder`typeBindings
      ensures binder.State() == binder.rules.remove(old(binder.State()), Removal.RemoveValue(binding, value))
    {
      binder.Perform(Removal.RemoveValue(binding, value));
    }

    /** `RemoveValues(binding, values)`. */
    method RemoveValues(binding: Binding, values: seq<object>)
      requires binder != null
      modifies binder`bindingStorage, binder`typeBindings
      ensures binder.State() == binder.rules.remove(old(binder.State()), Removal.RemoveValues(binding, values))
    {
      binder.Perform(Removal.RemoveValues(binding, values));
    }

    /** `RemoveBinding(binding)`. */
    method RemoveBinding(binding: Binding)
      requires binder != null
      modifies binder`bindingStorage, binder`typeBindings
      ensures binder.State() == binder.rules.remove(old(binder.State()), Removal.RemoveBinding(binding))
    {
      binder.Perform(Removal.RemoveBinding(binding));
    }

    /** `RemoveBinding(type, id)`. */
    method RemoveBindingByTypeAndId(t: TypeToken, id: Option<Id>)
      requires binder != null
      modifies binder`bindingStorage, binder`typeBindings
      ensures binder.State() == binder.rules.remove(old(binder.State()), Removal.RemoveBindingByTypeAndId(t, id))
    {
      binder.Perform(Removal.RemoveBindingByTypeAndId(t, id));
    }

    /** `Storing(binding)`: the binder appends it to its type's bucket. */
    method Storing(binding: Binding)
      requires binder != null
      modifies binder`bindingStorage, binder`typeBindings
      ensures binder.bindingStorage == old(binder.bindingStorage) + [binding]
      ensures binder.typeBindings == Stored(old(binder.typeBindings), binding)
    {
      binder.Storing(binding);
    }
  }
}
