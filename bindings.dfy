/**
 * The binding record of the registry (the fields of `IBinding`) and the value
 * types it is built from.
 */
module Bindings {
  import opened Wrappers

  /** A runtime type (`System.Type`), identified by its full name. */
  datatype TypeToken = TypeToken(name: string)

  /** The type key under which every container registers itself. */
  const IInjectionContainerType: TypeToken := TypeToken("IInjectionContainer")

  /** Identifiers of bindings and containers; `Equals` on them is value equality. */
  type Id = string

  /** How a binding produces its values. */
  datatype BindingType = TEMP | SINGLETON | FACTORY | POOL | VALUE

  /** How many values a binding may hold. */
  datatype ConstraintType = SINGLE | MULTIPLE | POOL

  /**
   * An opaque handle for a `Condition` delegate; the delegate's code is not
   * part of this model, only whether one is attached.
   */
  type ConditionHandle = nat

  /**
   * One registration. `binder` is the owning binder (any object implementing
   * `IBinder`); `values` is the ordered value list, compared by reference.
   */
  datatype Binding = Binding(
    binder: object,
    typeKey: TypeToken,
    bindingType: BindingType,
    constraint: ConstraintType,
    id: Option<Id>,
    values: seq<object>,
    condition: Option<ConditionHandle>)

  /** The by-type index of a binder; a missing key is the `null` bucket. */
  type TypeBindings = map<TypeToken, seq<Binding>>
}
