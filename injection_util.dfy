/**
 * `InjectionUtil`: routing an object to the containers that should inject
 * into it. A container is skipped when the object is already one of its
 * binding values (by reference, in the bucket of the object's exact runtime
 * type); with a target id, only containers carrying that id are considered.
 */
module InjectionUtil {
  import opened Wrappers
  import opened Seqs
  import opened Bindings
  import opened Binders
  import opened Container

  /** Some binding of `bindings` holds `obj` among its values, by reference. */
  predicate HoldsReference(bindings: seq<Binding>, obj: object)
  {
    exists i :: 0 <= i < |bindings| && obj in bindings[i].values
  }

  /** `obj`, whose runtime type is `objType`, is a value of a binding in the bucket for that exact type. */
  predicate Holds(tb: TypeBindings, objType: TypeToken, obj: object)
  {
    objType in tb && HoldsReference(tb[objType], obj)
  }

  /** The same test asked of a binder's current bindings. */
  predicate ExistsOnBinder(binder: Binder, objType: TypeToken, obj: object)
    reads binder
  {
    Holds(binder.typeBindings, objType, obj)
  }

  /** The nested scan of `IsExistOnContainer`/`IsExistOnBinder`: every value of every binding, stopping at the first match. */
  method FindReference(bindings: seq<Binding>, obj: object) returns (isExist: bool)
    ensures isExist == HoldsReference(bindings, obj)
  {
    isExist := false;
    for i := 0 to |bindings|
      invariant forall j :: 0 <= j < i ==> obj !in bindings[j].values
    {
      var length := |bindings[i].values|;
      for n := 0 to length
        invariant obj !in bindings[i].values[..n]
      {
        if bindings[i].values[n] == obj {
          isExist := true;
          return;
        }
      }
      assert bindings[i].values[..length] == bindings[i].values;
    }
  }

  /**
   * `IsExistOnContainer(obj, container)`, with `objType` standing for
   * `obj.GetType()`: a `null` bucket answers false.
   */
  method IsExistOnContainer(obj: object, objType: TypeToken, container: InjectionContainer) returns (isExist: bool)
    requires container.binder != null
    ensures isExist == ExistsOnBinder(container.binder, objType, obj)
    ensures objType !in container.binder.typeBindings ==> !isExist
  {
    var bindings := container.GetBindingsByType(objType);
    if bindings == None {
      return false;
    }
    isExist := FindReference(bindings.value, obj);
  }

  /** `IsExistOnBinder(obj, binder)`: the same test asked of a binder directly. */
  method IsExistOnBinder(obj: object, objType: TypeToken, binder: Binder) returns (isExist: bool)
    ensures isExist == ExistsOnBinder(binder, objType, obj)
    ensures objType !in binder.typeBindings ==> !isExist
  {
    var bindings := binder.GetBindingsByType(objType);
    if bindings == None {
      return false;
    }
    isExist := FindReference(bindings.value, obj);
  }

  /** The id test of `Inject(obj, id)`: a `null` target addresses every container, otherwise only one whose non-null id equals it. */
  predicate Addressed(containerId: Option<Id>, id: Option<Id>)
  {
    id.None? || (containerId.Some? && containerId == id)
  }

  /** Every container the id test lets through still has its binder (has not been disposed). */
  predicate Injectable(cs: seq<InjectionContainer>, id: Option<Id>)
    reads (set c | c in cs)`binder
  {
    forall i :: 0 <= i < |cs| && Addressed(cs[i].id, id) ==> cs[i].binder != null
  }

  /**
   * What `Inject(obj, id)` looks at in a container: its id, and whether its
   * binder already holds `obj` (a disposed container reads as not holding it).
   */
  datatype View = View(id: Option<Id>, holds: bool)

  function ViewOf(c: InjectionContainer, obj: object, objType: TypeToken): (v: View)
    reads c`binder, c.binder
    ensures v.id == c.id
    ensures c.binder != null ==> (v.holds <==> ExistsOnBinder(c.binder, objType, obj))
  {
    View(c.id, c.binder != null && ExistsOnBinder(c.binder, objType, obj))
  }

  /** The views of a container list, position by position. */
  function Views(cs: seq<InjectionContainer>, obj: object, objType: TypeToken): (vs: seq<View>)
    reads (set c | c in cs)`binder, set c | c in cs :: c.binder
    ensures |vs| == |cs|
    ensures forall k :: 0 <= k < |cs| ==> vs[k] == ViewOf(cs[k], obj, objType)
  {
    if cs == [] then [] else [ViewOf(cs[0], obj, objType)] + Views(cs[1..], obj, objType)
  }

  /** A container seen as `v` is injected: the id test lets it through and it does not hold `obj` yet. */
  predicate Routed(v: View, id: Option<Id>)
  {
    Addressed(v.id, id) && !v.holds
  }

  /** The containers among the first `n` of `cs` that `Inject(obj, id)` injects, in list order. */
  function Targets(cs: seq<InjectionContainer>, vs: seq<View>, id: Option<Id>, n: nat): seq<InjectionContainer>
    requires |vs| == |cs| && n <= |cs|
  {
    if n == 0 then []
    else Targets(cs, vs, id, n - 1) + (if Routed(vs[n - 1], id) then [cs[n - 1]] else [])
  }

  /** The log entries of injecting `obj` into each of `cs`, in order. */
  function Calls(cs: seq<InjectionContainer>, obj: object): (r: seq<Injection>)
    ensures |r| == |cs|
    ensures forall k :: 0 <= k < |cs| ==> r[k] == Injection(cs[k], obj)
  {
    seq(|cs|, k requires 0 <= k < |cs| => Injection(cs[k], obj))
  }

  /** Injecting into two runs of containers logs the two runs one after the other. */
  lemma CallsAppend(a: seq<InjectionContainer>, b: seq<InjectionContainer>, obj: object)
    ensures Calls(a + b, obj) == Calls(a, obj) + Calls(b, obj)
  {
  }

  /** One more container of the list adds its call to the log exactly when it is routed. */
  lemma TargetsStep(cs: seq<InjectionContainer>, vs: seq<View>, id: Option<Id>, i: nat, obj: object)
    requires |vs| == |cs| && i < |cs|
    ensures Calls(Targets(cs, vs, id, i + 1), obj)
      == Calls(Targets(cs, vs, id, i), obj) + if Routed(vs[i], id) then [Injection(cs[i], obj)] else []
  {
    CallsAppend(Targets(cs, vs, id, i), if Routed(vs[i], id) then [cs[i]] else [], obj);
  }

  /**
   * `Inject(obj, id)` over the container list (`ContextRoot.containersData`):
   * the log gains one `container.Inject(obj)` per container of `Targets`, in
   * list order, with the views the containers have on entry.
   */
  method InjectById(obj: object, objType: TypeToken, id: Option<Id>, containers: seq<InjectionContainer>, log: InjectionLog)
    requires Injectable(containers, id)
    modifies log`entries
    ensures log.entries == old(log.entries)
      + Calls(Targets(containers, old(Views(containers, obj, objType)), id, |containers|), obj)
  {
    ghost var vs := Views(containers, obj, objType);
    for i := 0 to |containers|
      invariant log.entries == old(log.entries) + Calls(Targets(containers, vs, id, i), obj)
    {
      var container := containers[i];
      assert vs[i] == ViewOf(container, obj, objType);
      ghost var before := log.entries;
      TargetsStep(containers, vs, id, i, obj);
      var injectOnContainer := container.id.Some? && container.id == id;
      if id.None? || injectOnContainer {
        var isExist := IsExistOnContainer(obj, objType, container);
        if !isExist {
          container.Inject(obj, log);
        }
      }
      ghost var step := if Routed(vs[i], id) then [Injection(container, obj)] else [];
      assert log.entries == before + step;
      AppendAssoc(old(log.entries), Calls(Targets(containers, vs, id, i), obj), step);
    }
  }

  /** A type attribute as far as routing is concerned: `InjectFromContainer(id)` or any other. */
  datatype Attribute = InjectFromContainer(id: Option<Id>) | OtherAttribute(name: string)

  /** One of the first `n` attributes is an `InjectFromContainer`. */
  predicate HasInjectFromContainer(attributes: seq<Attribute>, n: nat)
    requires n <= |attributes|
  {
    exists k :: 0 <= k < n && attributes[k].InjectFromContainer?
  }

  /** Every id `Inject(obj)` routes with addresses only containers that still have their binder. */
  predicate InjectableFor(cs: seq<InjectionContainer>, attributes: seq<Attribute>)
    reads (set c | c in cs)`binder
  {
    (forall k :: 0 <= k < |attributes| && attributes[k].InjectFromContainer? ==> Injectable(cs, attributes[k].id))
    && (!HasInjectFromContainer(attributes, |attributes|) ==> Injectable(cs, None))
  }

  /** `Inject(obj, a.id)` for each `InjectFromContainer` attribute `a` among the first `n`, in attribute order. */
  function Plan(cs: seq<InjectionContainer>, vs: seq<View>, attributes: seq<Attribute>, n: nat): seq<InjectionContainer>
    requires |vs| == |cs| && n <= |attributes|
  {
    if n == 0 then []
    else
      var a := attributes[n - 1];
      Plan(cs, vs, attributes, n - 1) + (if a.InjectFromContainer? then Targets(cs, vs, a.id, |cs|) else [])
  }

  /** The containers `Inject(obj)` injects, in order: the plan of the attributes, or `Inject(obj, null)` when none routes. */
  function Injected(cs: seq<InjectionContainer>, vs: seq<View>, attributes: seq<Attribute>): seq<InjectionContainer>
    requires |vs| == |cs|
  {
    if HasInjectFromContainer(attributes, |attributes|) then Plan(cs, vs, attributes, |attributes|)
    else Targets(cs, vs, None, |cs|)
  }

  /** One more attribute adds the calls of its `Inject(obj, a.id)` to the log, or nothing. */
  lemma PlanStep(cs: seq<InjectionContainer>, vs: seq<View>, attributes: seq<Attribute>, i: nat, obj: object)
    requires |vs| == |cs| && i < |attributes|
    ensures Calls(Plan(cs, vs, attributes, i + 1), obj)
      == Calls(Plan(cs, vs, attributes, i), obj)
         + if attributes[i].InjectFromContainer? then Calls(Targets(cs, vs, attributes[i].id, |cs|), obj) else []
  {
    var a := attributes[i];
    CallsAppend(Plan(cs, vs, attributes, i), if a.InjectFromContainer? then Targets(cs, vs, a.id, |cs|) else [], obj);
  }

  /**
   * The loop of `Inject(obj)`: `Inject(obj, a.id)` for each
   * `InjectFromContainer` attribute `a`, in attribute order; the result is
   * the flag `containInjectFromContainer`.
   */
  method InjectByAttributes(obj: object, objType: TypeToken, attributes: seq<Attribute>, containers: seq<InjectionContainer>, log: InjectionLog)
    returns (containInjectFromContainer: bool)
    requires forall k :: 0 <= k < |attributes| && attributes[k].InjectFromContainer? ==> Injectable(containers, attributes[k].id)
    modifies log`entries
    ensures containInjectFromContainer == HasInjectFromContainer(attributes, |attributes|)
    ensures log.entries == old(log.entries)
      + Calls(Plan(containers, old(Views(containers, obj, objType)), attributes, |attributes|), obj)
  {
    ghost var vs := Views(containers, obj, objType);
    containInjectFromContainer := false;
    for i := 0 to |attributes|
      invariant containInjectFromContainer == HasInjectFromContainer(attributes, i)
      invariant log.entries == old(log.entries) + Calls(Plan(containers, vs, attributes, i), obj)
    {
      var attribute := attributes[i];
      ghost var before := log.entries;
      PlanStep(containers, vs, attributes, i, obj);
      if attribute.InjectFromContainer? {
        assert Views(containers, obj, objType) == vs;
        InjectById(obj, objType, attribute.id, containers, log);
        assert log.entries == before + Calls(Targets(containers, vs, attribute.id, |containers|), obj);
        containInjectFromContainer := true;
      }
      ghost var step := if attribute.InjectFromContainer? then Calls(Targets(containers, vs, attribute.id, |containers|), obj) else [];
      assert log.entries == before + step;
      AppendAssoc(old(log.entries), Calls(Plan(containers, vs, attributes, i), obj), step);
    }
  }

  /**
   * `Inject(obj)`: `Inject(obj, a.id)` once per `InjectFromContainer`
   * attribute, in attribute order, then `Inject(obj, null)` once if there was
   * none. `attributes` stands for `obj.GetType().GetCustomAttributes(true)`.
   */
  method Inject(obj: object, objType: TypeToken, attributes: seq<Attribute>, containers: seq<InjectionContainer>, log: InjectionLog)
    requires InjectableFor(containers, attributes)
    modifies log`entries
    ensures log.entries == old(log.entries)
      + Calls(Injected(containers, old(Views(containers, obj, objType)), attributes), obj)
  {
    ghost var vs := Views(containers, obj, objType);
    if |attributes| == 0 {
      assert !HasInjectFromContainer(attributes, |attributes|);
      InjectById(obj, objType, None, containers, log);
    } else {
      var containInjectFromContainer := InjectByAttributes(obj, objType, attributes, containers, log);
      if !containInjectFromContainer {
        PlanWithoutContainerAttribute(containers, vs, attributes, |attributes|);
        assert Calls([], obj) == [];
        assert log.entries == old(log.entries) + [] == old(log.entries);
        assert forall k :: 0 <= k < |containers| ==> ViewOf(containers[k], obj, objType) == vs[k];
        assert Views(containers, obj, objType) == vs;
        InjectById(obj, objType, None, containers, log);
      }
    }
  }

  /** Attributes without an `InjectFromContainer` contribute nothing to the plan. */
  lemma {:induction false} PlanWithoutContainerAttribute(cs: seq<InjectionContainer>, vs: seq<View>, attributes: seq<Attribute>, n: nat)
    requires |vs| == |cs| && n <= |attributes|
    requires forall k :: 0 <= k < n ==> !attributes[k].InjectFromContainer?
    ensures Plan(cs, vs, attributes, n) == []
  {
    if n > 0 {
      PlanWithoutContainerAttribute(cs, vs, attributes, n - 1);
    }
  }

  /** A container is among the targets exactly when some position holding it is routed. */
  lemma {:induction false} TargetsMembership(cs: seq<InjectionContainer>, vs: seq<View>, id: Option<Id>, n: nat, c: InjectionContainer)
    requires |vs| == |cs| && n <= |cs|
    ensures c in Targets(cs, vs, id, n) <==> exists k :: 0 <= k < n && cs[k] == c && Routed(vs[k], id)
  {
    if n > 0 {
      TargetsMembership(cs, vs, id, n - 1, c);
      var last := if Routed(vs[n - 1], id) then [cs[n - 1]] else [];
      assert c in Targets(cs, vs, id, n) <==> c in Targets(cs, vs, id, n - 1) || c in last;
    }
  }

  /**
   * `Inject(obj, id)` with the views the containers have: a container is
   * injected exactly when it is in the list, the id test lets it through
   * (every container for a `null` id; for a non-null id only a container with
   * a non-null id equal to it), and its binder does not already hold `obj`.
   */
  lemma InjectedByIdExactly(cs: seq<InjectionContainer>, obj: object, objType: TypeToken, id: Option<Id>, c: InjectionContainer)
    requires Injectable(cs, id)
    ensures c in Targets(cs, Views(cs, obj, objType), id, |cs|) <==>
      c in cs && Addressed(c.id, id) && c.binder != null && !ExistsOnBinder(c.binder, objType, obj)
  {
    var vs := Views(cs, obj, objType);
    TargetsMembership(cs, vs, id, |cs|, c);
    if c in cs && Addressed(c.id, id) && c.binder != null && !ExistsOnBinder(c.binder, objType, obj) {
      var k :| 0 <= k < |cs| && cs[k] == c;
      assert Routed(vs[k], id);
    }
  }

  /** A container is injected no more often than it occurs among the first `n` of the list. */
  lemma {:induction false} TargetsCount(cs: seq<InjectionContainer>, vs: seq<View>, id: Option<Id>, n: nat, c: InjectionContainer)
    requires |vs| == |cs| && n <= |cs|
    ensures multiset(Targets(cs, vs, id, n))[c] <= Count(cs, c, n)
  {
    if n > 0 {
      TargetsCount(cs, vs, id, n - 1, c);
    }
  }

  /** In a list without repeated containers, `Inject(obj, id)` injects each container at most once. */
  lemma TargetsAtMostOnce(cs: seq<InjectionContainer>, vs: seq<View>, id: Option<Id>, c: InjectionContainer)
    requires |vs| == |cs|
    requires forall i, j :: 0 <= i < j < |cs| ==> cs[i] != cs[j]
    ensures multiset(Targets(cs, vs, id, |cs|))[c] <= 1
  {
    TargetsCount(cs, vs, id, |cs|, c);
    CountPrefix(cs, c, |cs|);
    assert cs[..|cs|] == cs;
    DistinctOccursOnce(cs, c);
  }

  /** The ids of the `InjectFromContainer` attributes among the first `n`, in attribute order. */
  function ContainerIds(attributes: seq<Attribute>, n: nat): seq<Option<Id>>
    requires n <= |attributes|
  {
    if n == 0 then []
    else ContainerIds(attributes, n - 1) + if attributes[n - 1].InjectFromContainer? then [attributes[n - 1].id] else []
  }

  /** There is an id to route with exactly when there is an `InjectFromContainer` attribute. */
  lemma {:induction false} ContainerIdsEmpty(attributes: seq<Attribute>, n: nat)
    requires n <= |attributes|
    ensures ContainerIds(attributes, n) == [] <==> !HasInjectFromContainer(attributes, n)
  {
    if n > 0 {
      ContainerIdsEmpty(attributes, n - 1);
      if attributes[n - 1].InjectFromContainer? {
        assert HasInjectFromContainer(attributes, n);
      } else {
        assert HasInjectFromContainer(attributes, n) ==> HasInjectFromContainer(attributes, n - 1);
      }
    }
  }

  /** The ids `Inject(obj)` calls `Inject(obj, id)` with, in call order: the attribute ids, or a single `null`. */
  function RoutingIds(attributes: seq<Attribute>): seq<Option<Id>>
  {
    var ids := ContainerIds(attributes, |attributes|);
    if ids == [] then [None] else ids
  }

  /** The containers injected by `Inject(obj, id)` for each id of `ids`, one call after the other. */
  function TargetsFor(cs: seq<InjectionContainer>, vs: seq<View>, ids: seq<Option<Id>>): seq<InjectionContainer>
    requires |vs| == |cs|
  {
    if ids == [] then [] else TargetsFor(cs, vs, ids[..|ids| - 1]) + Targets(cs, vs, ids[|ids| - 1], |cs|)
  }

  /** The attribute loop is one `Inject(obj, id)` per attribute id, in attribute order. */
  lemma {:induction false} PlanIsTargetsFor(cs: seq<InjectionContainer>, vs: seq<View>, attributes: seq<Attribute>, n: nat)
    requires |vs| == |cs| && n <= |attributes|
    ensures Plan(cs, vs, attributes, n) == TargetsFor(cs, vs, ContainerIds(attributes, n))
  {
    if n > 0 {
      PlanIsTargetsFor(cs, vs, attributes, n - 1);
      var a := attributes[n - 1];
      var ids := ContainerIds(attributes, n - 1);
      if a.InjectFromContainer? {
        var ids' := ids + [a.id];
        assert ContainerIds(attributes, n) == ids';
        assert ids'[..|ids|] == ids;
      } else {
        assert ContainerIds(attributes, n) == ids + [] == ids;
        assert Plan(cs, vs, attributes, n) == Plan(cs, vs, attributes, n - 1) + [];
      }
    }
  }

  /**
   * `Inject(obj)` injects what `Inject(obj, id)` injects for each routing id in
   * turn: once per `InjectFromContainer` attribute, in attribute order, and
   * `Inject(obj, null)` exactly once when there is no such attribute.
   */
  lemma InjectedRoutes(cs: seq<InjectionContainer>, vs: seq<View>, attributes: seq<Attribute>)
    requires |vs| == |cs|
    ensures Injected(cs, vs, attributes) == TargetsFor(cs, vs, RoutingIds(attributes))
    ensures HasInjectFromContainer(attributes, |attributes|) ==> RoutingIds(attributes) == ContainerIds(attributes, |attributes|)
    ensures !HasInjectFromContainer(attributes, |attributes|) ==> RoutingIds(attributes) == [None]
  {
    ContainerIdsEmpty(attributes, |attributes|);
    if HasInjectFromContainer(attributes, |attributes|) {
      PlanIsTargetsFor(cs, vs, attributes, |attributes|);
    } else {
      var fallback: seq<Option<Id>> := [None];
      assert fallback[..0] == [];
      assert TargetsFor(cs, vs, fallback) == [] + Targets(cs, vs, None, |cs|);
    }
  }
}
