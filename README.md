# uMVVMCS dependency-injection core in Dafny

This project models three pieces of the uMVVMCS dependency-injection registry
and proves properties of them.

- **Binding factory** (`BindingFactory`, `binding_factory.dfy`). Every entry
  point builds a binding record. Each convenience entry point fixes its
  constraint: MULTIPLE by default, SINGLE or POOL. The general forms,
  `Create(binder, type, bt, constraint)` and `Create<T>(binder, bt,
  constraint)`, take the constraint as an argument. The generic overloads take `typeof(T)` as an
  explicit type token.
- **Injection container** (`Container.InjectionContainer`,
  `injection_container.dfy`). This is a class with the container's own
  fields:
  - the id, set only by the constructors;
  - the reflection cache;
  - the binder;
  - the optional AOT extension list.

  The constructors register the container in its binder under
  `IInjectionContainer`. `RegisterAOT`, `UnregisterAOT(aot)` and
  `UnregisterAOT<T>` change the list in place and call back the extensions.
  The callbacks are recorded per extension in a ghost `notifications` log.
  The bind, query, unbind and remove methods forward to the binder.
- **Injection routing** (`InjectionUtil`, `injection_util.dfy`).
  - `IsExistOnContainer` and `IsExistOnBinder` are nested scans. They ask
    whether `obj` is already a value, by reference, of a binding in the bucket
    of its exact runtime type.
  - `Inject(obj, id)` walks the container list. It calls
    `container.Inject(obj)` on every container that the id test lets through
    and that does not hold `obj` yet.
  - `Inject(obj)` fans out over the type's attributes.
  - Every `container.Inject(obj)` call is recorded as an entry of a shared
    ghost `InjectionLog`. The routing methods are proved to append exactly
    the calls described by the specification functions `Targets`, `Plan` and
    `Injected`. These functions are evaluated on the containers' state at
    entry (`Views`).

The binder behind a container is kept abstract, in `Binders.Binder`:
- Its state has two parts, as in the binder the container uses:
  - `bindingStorage`, the flat list of every stored binding in storing order;
  - `typeBindings`, the by-type index, a map from a type token to a sequence
    of bindings. A missing key is the `null` bucket.
- `Storing` appends the binding to both parts. `Bind` builds the factory's
  default binding and stores it. `To` on a MULTIPLE binding appends a value
  to both stored copies.
- Every other binder behaviour is a function held in `rules` and left
  unconstrained. Each such function takes the whole state, storage and
  index together (`BinderState`). This covers the queries other than the
  by-type lookup, `MultipleBind` and the removal rules. Two binders that
  stored the same bindings in different orders therefore have different
  states, and a rule may answer them differently.

`Bindings` holds the binding record, whose fields are those of `IBinding`.
`Seqs` holds the `List.Remove` model and small sequence facts. `Wrappers`
holds `Option`.

Two facts about the code shape the model:
- `GetBindingsByType` answers `null` (here `None`) for a type with no
  bucket, and its callers test for that `null` bucket
  (`InjectionUtil.cs:91`, `:117`).
- `Create` has no `null` check on the type (`BindingFactory.cs:118-127`).

Where the doc-comments in the code and the code itself disagree, the model
follows the code:
- `BindSingleton<T>` and `BindFactory<T>` do exactly what `Bind<T>` does,
  although their doc-comments describe singleton and factory bindings.
- The doc-comment of `Bind(type, bindingType)`
  (`InjectionContainer.cs:200-202`) describes a SINGLE binding, while that of
  `Bind<T>()` (`InjectionContainer.cs:176-178`) describes a TEMP/MULTIPLE one.
  Both methods only forward to the binder's `Bind`, so the constraint is
  decided by the binder. The model takes MULTIPLE for both: the binder is
  modelled as building its binding with the factory's default entry point,
  which is MULTIPLE (`BindingFactory.cs:42-48`). The binder's own code is not
  part of this model.

## Model

| member | source | states |
|---|---|---|
| BindingFactory.Create | Script/uMVVMCS/Framework/Binding/BindingFactory.cs:118-127 | the binding's binder, type, binding type and constraint are exactly the arguments; it has no id, no values and no condition |
| BindingFactory.CreateOf | Script/uMVVMCS/Framework/Binding/BindingFactory.cs:107-113 | the generic general form builds a new binding for `typeof(T)` with the given binding type and constraint |
| BindingFactory.CreateDefault | Script/uMVVMCS/Framework/Binding/BindingFactory.cs:42-48 | without a constraint argument, the new binding's constraint is MULTIPLE |
| BindingFactory.CreateDefaultOf | Script/uMVVMCS/Framework/Binding/BindingFactory.cs:32-37 | the generic default form builds a MULTIPLE binding for `typeof(T)` |
| BindingFactory.CreateSingle | Script/uMVVMCS/Framework/Binding/BindingFactory.cs:67-73 | the new binding's constraint is SINGLE |
| BindingFactory.CreateSingleOf | Script/uMVVMCS/Framework/Binding/BindingFactory.cs:57-62 | the generic form builds a SINGLE binding for `typeof(T)` |
| BindingFactory.CreatePool | Script/uMVVMCS/Framework/Binding/BindingFactory.cs:92-100 | the `Type` overload, which constructs the binding itself, yields a new POOL binding |
| BindingFactory.CreatePoolOf | Script/uMVVMCS/Framework/Binding/BindingFactory.cs:82-87 | the generic form yields a new POOL binding for `typeof(T)` |
| BindingFactory.CreatePoolAgreesWithCreate | Script/uMVVMCS/Framework/Binding/BindingFactory.cs:82-100 | `CreatePool(binder, type, bt)` equals `Create(binder, type, bt, POOL)`, and both POOL overloads agree |
| BindingFactory.GenericOverloadsAgree | Script/uMVVMCS/Framework/Binding/BindingFactory.cs:32-113 | each generic overload equals its `Type` overload applied to `typeof(T)` |
| Container.InjectionContainer.constructor | Script/uMVVMCS/Framework/Container/InjectionContainer.cs:36-39 | id is null and the AOT list is absent; the fresh binder's storage is exactly the self binding, and its index exactly one bucket, `IInjectionContainer`, with that binding |
| Container.InjectionContainer.WithId | Script/uMVVMCS/Framework/Container/InjectionContainer.cs:41-45 | the id is stored; the fresh binder's storage and index hold only the self binding |
| Container.InjectionContainer.WithCache | Script/uMVVMCS/Framework/Container/InjectionContainer.cs:47-50 | id is null and the given cache is kept; the fresh binder's storage and index hold only the self binding |
| Container.InjectionContainer.WithIdAndCache | Script/uMVVMCS/Framework/Container/InjectionContainer.cs:52-56 | id and cache are stored; the fresh binder's storage and index hold only the self binding |
| Container.InjectionContainer.WithCacheAndBinder | Script/uMVVMCS/Framework/Container/InjectionContainer.cs:58-61 | id is null; the given binder gains the self binding at the end of its storage and of the `IInjectionContainer` bucket, and is otherwise unchanged |
| Container.InjectionContainer.WithIdCacheAndBinder | Script/uMVVMCS/Framework/Container/InjectionContainer.cs:63-67 | the id is stored; the given binder gains the self binding at the end of its storage and of the `IInjectionContainer` bucket, and is otherwise unchanged |
| Container.InjectionContainer.RegisterItself | Script/uMVVMCS/Framework/Container/InjectionContainer.cs:387-390 | the binder gains a MULTIPLE `IInjectionContainer` binding whose only value is this container, appended to its storage and to that bucket; nothing else changes |
| Container.InjectionContainer.Dispose | Script/uMVVMCS/Framework/Container/InjectionContainer.cs:76-80 | cache and binder become null |
| Container.InjectionContainer.Inject | Script/uMVVMCS/Util/InjectionUtil.cs:78 | one `container.Inject(obj)` call is recorded at the end of the shared injection log |
| Container.InjectionContainer.RegisterAOT | Script/uMVVMCS/Framework/Container/InjectionContainer.cs:99-109 | the list is created if absent; the extension is appended after the unchanged earlier entries, duplicates included; `OnRegister` is called once |
| Container.InjectionContainer.UnregisterAOT | Script/uMVVMCS/Framework/Container/InjectionContainer.cs:132-140 | an absent extension changes nothing and gets no callback; a present one loses exactly its first occurrence and gets one `OnUnregister` |
| Container.InjectionContainer.UnregisterAOTOfType | Script/uMVVMCS/Framework/Container/InjectionContainer.cs:114-127 | the list becomes `WithoutType`: no `T` remains and the others keep their order; each extension of type `T` receives one `OnUnregister` per occurrence and the others receive none |
| Container.OfType | Script/uMVVMCS/Framework/Container/InjectionContainer.cs:117 | `OfTheType<T>` keeps exactly the list's extensions that are a `T` |
| Container.OfTypeCount | Script/uMVVMCS/Framework/Container/InjectionContainer.cs:117 | an extension of type `T` occurs in `OfTheType<T>` as often as in the list; other extensions do not occur |
| Container.OfTypeCalls | Script/uMVVMCS/Framework/Container/InjectionContainer.cs:117-124 | the loop over `OfTheType<T>` visits each extension of type `T` once per occurrence in the list |
| Container.WithoutType | Script/uMVVMCS/Framework/Container/InjectionContainer.cs:114-127 | an extension remains after `UnregisterAOT<T>` exactly when it is in the list and not a `T` |
| Container.WithoutTypeCount | Script/uMVVMCS/Framework/Container/InjectionContainer.cs:114-127 | extensions that are not a `T` keep all their occurrences; a `T` keeps none |
| Container.DropOfTypeStep | Script/uMVVMCS/Framework/Container/InjectionContainer.cs:121-124 | at step `i`, the `i`-th extension of type `T` is still in the list, and removing its first occurrence removes the next `T` in list order |
| Container.DropAllOfType | Script/uMVVMCS/Framework/Container/InjectionContainer.cs:120-124 | once every collected extension has been removed one by one, the list is exactly `WithoutType` |
| Container.InjectionContainer.BindOf | Script/uMVVMCS/Framework/Container/InjectionContainer.cs:179-182 | `Bind<T>()` returns a new TEMP/MULTIPLE binding owned by the binder and stores it at the end of the binder's storage and of its bucket |
| Container.InjectionContainer.BindSingleton | Script/uMVVMCS/Framework/Container/InjectionContainer.cs:187-190 | the same result and the same store as `Bind<T>()` |
| Container.InjectionContainer.BindFactory | Script/uMVVMCS/Framework/Container/InjectionContainer.cs:195-198 | the same result and the same store as `Bind<T>()` |
| Container.InjectionContainer.Bind | Script/uMVVMCS/Framework/Container/InjectionContainer.cs:203-206 | a new MULTIPLE binding of the given binding type, stored at the end of the binder's storage and of its bucket |
| Container.InjectionContainer.MultipleBind | Script/uMVVMCS/Framework/Container/InjectionContainer.cs:211-214 | the binder's storage and index become what the binder's own rule makes of them |
| Container.InjectionContainer.GetBindingsByType | Script/uMVVMCS/Framework/Container/InjectionContainer.cs:223-234 | `null` exactly when the binder has no bucket for the type, otherwise that bucket |
| Container.InjectionContainer.GetBindingsById | Script/uMVVMCS/Framework/Container/InjectionContainer.cs:239-242 | the binder's rule applied to its current storage and index and the id; nothing changes |
| Container.InjectionContainer.GetAllBindings | Script/uMVVMCS/Framework/Container/InjectionContainer.cs:247-250 | the binder's rule applied to its current storage and index; nothing changes |
| Container.InjectionContainer.GetSameNullIdBinding | Script/uMVVMCS/Framework/Container/InjectionContainer.cs:255-258 | the binder's rule applied to its current storage and index and the binding; nothing changes |
| Container.InjectionContainer.GetBinding | Script/uMVVMCS/Framework/Container/InjectionContainer.cs:263-274 | the binder's rule applied to its current storage and index, the type and the id; nothing changes |
| Container.InjectionContainer.UnbindByType | Script/uMVVMCS/Framework/Container/InjectionContainer.cs:283-294 | the binder performs exactly this removal and nothing else changes |
| Container.InjectionContainer.UnbindNullIdBindingByType | Script/uMVVMCS/Framework/Container/InjectionContainer.cs:299-310 | the binder performs exactly this removal |
| Container.InjectionContainer.Unbind | Script/uMVVMCS/Framework/Container/InjectionContainer.cs:315-326 | the binder performs exactly this removal |
| Container.InjectionContainer.UnbindBinding | Script/uMVVMCS/Framework/Container/InjectionContainer.cs:331-334 | the binder performs exactly this removal |
| Container.InjectionContainer.RemoveValue | Script/uMVVMCS/Framework/Container/InjectionContainer.cs:343-346 | the binder performs exactly this removal |
| Container.InjectionContainer.RemoveValues | Script/uMVVMCS/Framework/Container/InjectionContainer.cs:351-354 | the binder performs exactly this removal |
| Container.InjectionContainer.RemoveBinding | Script/uMVVMCS/Framework/Container/InjectionContainer.cs:359-362 | the binder performs exactly this removal |
| Container.InjectionContainer.RemoveBindingByTypeAndId | Script/uMVVMCS/Framework/Container/InjectionContainer.cs:367-370 | the binder performs exactly this removal |
| Container.InjectionContainer.Storing | Script/uMVVMCS/Framework/Container/InjectionContainer.cs:377-380 | the binding is appended at the end of the binder's storage and of its type's bucket; nothing else changes |
| Seqs.RemoveFirst | Script/uMVVMCS/Framework/Container/InjectionContainer.cs:136 | `List.Remove` shortens the list by one exactly when the item is present and leaves it unchanged otherwise |
| Seqs.RemoveFirstAt | Script/uMVVMCS/Framework/Container/InjectionContainer.cs:136 | when `k` is the first position holding the item, the result is the list without position `k`, the rest in order |
| Seqs.RemoveFirstMultiset | Script/uMVVMCS/Framework/Container/InjectionContainer.cs:136 | exactly one copy of the item leaves the list's bag of elements |
| InjectionUtil.FindReference | Script/uMVVMCS/Util/InjectionUtil.cs:93-106 | the nested scan with early return is true exactly when some binding holds `obj` by reference |
| InjectionUtil.IsExistOnContainer | Script/uMVVMCS/Util/InjectionUtil.cs:86-107 | true exactly when a binding in the bucket of `obj`'s exact runtime type holds `obj` by reference; false for a `null` bucket |
| InjectionUtil.IsExistOnBinder | Script/uMVVMCS/Util/InjectionUtil.cs:112-133 | the same answer asked of the binder directly, so it agrees with `IsExistOnContainer` on the container's binder; false for a `null` bucket |
| InjectionUtil.InjectById | Script/uMVVMCS/Util/InjectionUtil.cs:63-81 | the log gains one `container.Inject(obj)` per container of `Targets`, in list order, evaluated on the state at entry |
| InjectionUtil.InjectByAttributes | Script/uMVVMCS/Util/InjectionUtil.cs:40-51 | the flag is true exactly when some attribute is an `InjectFromContainer`; the log gains the calls of `Inject(obj, a.id)` for each such attribute, in attribute order |
| InjectionUtil.Inject | Script/uMVVMCS/Util/InjectionUtil.cs:31-56 | the log gains exactly the calls of `Injected`: the attribute plan, or `Inject(obj, null)` when no attribute routes, including when there are no attributes |
| InjectionUtil.PlanWithoutContainerAttribute | Script/uMVVMCS/Util/InjectionUtil.cs:42-54 | attributes without an `InjectFromContainer` cause no injection before the fallback |
| InjectionUtil.TargetsMembership | Script/uMVVMCS/Util/InjectionUtil.cs:68-80 | a container is injected if and only if some position of the list holding it passes the id test and does not hold `obj` |
| InjectionUtil.InjectedByIdExactly | Script/uMVVMCS/Util/InjectionUtil.cs:71-76 | on the current state, `Inject(obj, id)` injects a container exactly when it is listed, its binder does not hold `obj`, and either `id` is null or the container's non-null id equals `id`; a null-id container is never chosen for a non-null `id` |
| InjectionUtil.TargetsCount | Script/uMVVMCS/Util/InjectionUtil.cs:68-80 | a container is injected no more often than it occurs in the list |
| InjectionUtil.TargetsAtMostOnce | Script/uMVVMCS/Util/InjectionUtil.cs:68-80 | in a list without repeated containers, each container is injected at most once per `Inject(obj, id)` |
| InjectionUtil.ContainerIdsEmpty | Script/uMVVMCS/Util/InjectionUtil.cs:46-54 | the attributes yield no routing id exactly when none is an `InjectFromContainer`, which is when the fallback runs |
| InjectionUtil.PlanIsTargetsFor | Script/uMVVMCS/Util/InjectionUtil.cs:42-51 | the attribute loop injects what one `Inject(obj, id)` per attribute id would inject, in attribute order |
| InjectionUtil.InjectedRoutes | Script/uMVVMCS/Util/InjectionUtil.cs:31-56 | `Inject(obj)` injects what `Inject(obj, id)` injects for each routing id in turn: every `InjectFromContainer` id in attribute order when there is one, otherwise `null` exactly once |

## Left out

- The binder implementation (`InjectionBinder`) and the `Binding` class are not part of this model.
  - The binder is its storage list and its by-type index. `Storing` appends to both, `Bind` builds a default MULTIPLE binding and stores it, and `To` appends a value to a MULTIPLE binding.
  - The queries other than the by-type lookup (`GetBindingsById`, `GetAllBindings`, `GetSameNullIdBinding`, `GetBinding`), `MultipleBind` and all removal rules are unconstrained functions of the storage and the index, held in `BinderRules`. For these the model states that the container's answer or new binder state is the binder rule applied to the binder's state at the call, and that nothing else of the container changes. What the rules compute (for example which bindings `GetBindingsById` returns, or that the removals keep the storage and the index consistent) is not modelled.
  - The binder's generic entry points `Bind<T>()`, `UnbindByType<T>()`, `UnbindNullIdBindingByType<T>()` and `Unbind<T>(id)`, which the container's generic overloads call (`InjectionContainer.cs:181`, `:285`, `:301`, `:317`), are assumed to behave as the corresponding `Type` overload applied to `typeof(T)`. The model has only the `Type` forms.
  - The `IBindingFactory` that `MultipleBind` returns is not modelled.
  - The binder's before/after add and remove events are not modelled.
- The `Binding` constructor's defaults (no id, no values, no condition) are assumed, because its source is not available.
- Bindings are values in the model. Their identity, and the fact that each factory call allocates a fresh object, are not captured. `To` therefore rewrites the stored copy.
- `To` on SINGLE and POOL bindings is not modelled. Only the MULTIPLE case that `RegisterItself` uses is defined.
- The binder's AOT event forwarding (`InjectionContainer.cs:146-168`) is not modelled. It is C# delegate plumbing.
- `RegisterAOT<T>()` is not modelled. It resolves `T` through `Injector.Resolve<T>`, which is not part of this model.
- `Injector.Inject(obj)` is not modelled beyond the call itself. What it does to `obj` is outside this model: each call is only recorded in a shared log, in call order, and it is assumed to change no container's bindings. The routing is therefore evaluated on the containers' state at entry, although the code re-runs `IsExistOnContainer` before each call (`InjectionUtil.cs:75-76`).
- The extension callbacks `OnRegister` and `OnUnregister` are recorded only. They are assumed not to call back into the container.
- Reflection is not modelled.
  - `obj.GetType()` is a parameter (`objType`).
  - `GetCustomAttributes(true)` is the `attributes` parameter.
  - An extension's runtime type and supertypes are its `types` set, so `is T` is membership.
- The reflection cache's contents and `ICommandPool` are not modelled; neither has behaviour here.
- `ContextRoot.containersData` is a parameter: the container list in its current order.
- `null` arguments are excluded by the parameter types, so their error paths are not modelled:
  - `RegisterAOT(null)` appends `null` to the list (`InjectionContainer.cs:104`) and then throws when calling `OnRegister` (`:106`), leaving the list one entry longer;
  - `Inject(null)`, `IsExistOnContainer(null, container)` and `IsExistOnBinder(null, binder)` throw at `obj.GetType()` (`InjectionUtil.cs:34`, `:89`, `:115`);
  - the constructors given a `null` binder (`InjectionContainer.cs:58`, `:63`) throw in `RegisterItself`.
- The source dereferences fields that may be null. The model turns these into preconditions:
  - `UnregisterAOT` and `UnregisterAOT<T>` require the AOT list to exist.
  - The forwarding methods require a binder, so a disposed container cannot call them.
  - The routing methods require every container the id test lets through to have a binder.
- Container ids are strings and compared by value. `Equals` on arbitrary id objects is not modelled.
- InjectionUtil.TargetsAtMostOnce: stated only for a container list without repeats. A container listed twice can be injected once per occurrence (`TargetsCount`).
- The factory rejects no `null` type and `RegisterAOT` rejects no duplicates. The code has neither check, so neither is modelled.
