/**
 * The binder a container forwards to. Its source is not part of this model.
 * The state is the flat storage of every binding, in storing order
 * (`bindingStorage`), and the by-type index (`typeBindings`). `Storing`, `Bind`
 * and `To` on a MULTIPLE binding are defined here (a new binding built by the
 * factory's default entry point is appended to the storage and to its type's
 * bucket; `To` appends a value); every other behaviour - the queries that are
 * not a plain index lookup, `MultipleBind` and all the removal rules - is a
 * parameter of the binder (`rules`), a function of the whole state, left
 * unconstrained.
 */
module Binders {
  import opened Wrappers
  import opened Bindings
  import BindingFactory

  /** The removal operations of `IBinder`, as requests. */
  datatype Removal =
    | UnbindByType(typeKey: TypeToken)
    | UnbindNullIdBindingByType(typeKey: TypeToken)
    | Unbind(typeKey: TypeToken, id: Option<Id>)
    | UnbindBinding(binding: Binding)
    | RemoveValue(binding: Binding, value: object)
    | RemoveValues(binding: Binding, values: seq<object>)
    | RemoveBinding(binding: Binding)
    | RemoveBindingByTypeAndId(typeKey: TypeToken, id: Option<Id>)

  /** What a binder holds: every binding in storing order, and the same bindings indexed by type. */
  datatype BinderState = BinderState(storage: seq<Binding>, byType: TypeBindings)

  /** The binder behaviour that the model does not define, one function of the binder's state per operation. */
  datatype BinderRules = BinderRules(
    bindingsById: (BinderState, Option<Id>) -> seq<Binding>,
    allBindings: BinderState -> seq<Binding>,
    sameNullIdBindings: (BinderState, Binding) -> seq<Binding>,
    bindingOf: (BinderState, TypeToken, Option<Id>) -> Option<Binding>,
    multipleBind: (BinderState, seq<TypeToken>, seq<BindingType>) -> BinderState,
    remove: (BinderState, Removal) -> BinderState)

  /** The bucket for `t`, reading a missing one as empty. */
  function BucketOf(tb: TypeBindings, t: TypeToken): seq<Binding>
  {
    if t in tb then tb[t] else []
  }

  /** The index after `b` has been stored: appended at the end of its type's bucket. */
  function Stored(tb: TypeBindings, b: Binding): TypeBindings
  {
    tb[b.typeKey := BucketOf(tb, b.typeKey) + [b]]
  }

  class Binder {
    var bindingStorage: seq<Binding>
    var typeBindings: TypeBindings
    const rules: BinderRules

    constructor (rules: BinderRules)
      ensures bindingStorage == [] && typeBindings == map[] && this.rules == rules
    {
      bindingStorage := [];
      typeBindings := map[];
      this.rules := rules;
    }

    /** The storage and the index together. */
    function State(): BinderState
      reads this`bindingStorage, this`typeBindings
    {
      BinderState(bindingStorage, typeBindings)
    }

    /** `GetBindingsByType(type)`: the bucket, or `None` for the `null` bucket. */
    function GetBindingsByType(t: TypeToken): Option<seq<Binding>>
      reads this
    {
      if t in typeBindings then Some(typeBindings[t]) else None
    }

    /** `Storing(binding)`: append to the storage and to the bucket of the binding's type. */
    method Storing(b: Binding)
      modifies this`bindingStorage, this`typeBindings
      ensures bindingStorage == old(bindingStorage) + [b]
      ensures typeBindings == Stored(old(typeBindings), b)
    {
      bindingStorage := bindingStorage + [b];
      typeBindings := Stored(typeBindings, b);
    }

    /** `Bind(type, bindingType)`: build a default (MULTIPLE) binding owned by this binder and store it. */
    method Bind(t: TypeToken, bindingType: BindingType) returns (b: Binding)
      modifies this`bindingStorage, this`typeBindings
      ensures b == BindingFactory.CreateDefault(this, t, bindingType)
      ensures bindingStorage == old(bindingStorage) + [b]
      ensures typeBindings == Stored(old(typeBindings), b)
    {
      b := BindingFactory.CreateDefault(this, t, bindingType);
      Storing(b);
    }

    /**
     * `binding.To(instance)` on the MULTIPLE binding stored at position `slot`
     * of the bucket for `t` and at position `stored` of the storage: the value
     * is appended. Bindings are values here, so both stored copies are
     * rewritten in place of the one shared object.
     */
    method To(t: TypeToken, slot: nat, stored: nat, instance: object)
      requires t in typeBindings && slot < |typeBindings[t]|
      requires stored < |bindingStorage| && bindingStorage[stored] == typeBindings[t][slot]
      requires typeBindings[t][slot].constraint == MULTIPLE
      modifies this`bindingStorage, this`typeBindings
      ensures bindingStorage == old(bindingStorage)[stored := old(bindingStorage[stored]).(values := old(bindingStorage[stored].values) + [instance])]
      ensures typeBindings == old(typeBindings)[t := old(typeBindings[t])[slot := old(typeBindings[t][slot]).(values := old(typeBindings[t][slot].values) + [instance])]]
    {
      var b := typeBindings[t][slot];
      var b' := b.(values := b.values + [instance]);
      bindingStorage := bindingStorage[stored := b'];
      typeBindings := typeBindings[t := typeBindings[t][slot := b']];
    }

    /** `MultipleBind(types, bindingTypes)`, by the binder's own rule. */
    method MultipleBind(types: seq<TypeToken>, bindingTypes: seq<BindingType>)
      modifies this`bindingStorage, this`typeBindings
      ensures State() == rules.multipleBind(old(State()), types, bindingTypes)
    {
      var next := rules.multipleBind(State(), types, bindingTypes);
      bindingStorage, typeBindings := next.storage, next.byType;
    }

    /** Any removal operation, by the binder's own rule. */
    method Perform(op: Removal)
      modifies this`bindingStorage, this`typeBindings
      ensures State() == rules.remove(old(State()), op)
    {
      var next := rules.remove(State(), op);
      bindingStorage, typeBindings := next.storage, next.byType;
    }
  }
}
