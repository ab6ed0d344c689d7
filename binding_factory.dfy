/**
 * `BindingFactory`: builds binding records. Every entry point fixes the
 * constraint and yields a binding whose owner, type and binding type are the
 * arguments, with no id, no values and no condition yet.
 */
module BindingFactory {
  import opened Wrappers
  import opened Bindings

  /** `b` is a binding just built from these arguments: nothing configured on it yet. */
  predicate IsNewBinding(b: Binding, binder: object, typeKey: TypeToken, bindingType: BindingType, constraint: ConstraintType)
  {
    && b.binder == binder && b.typeKey == typeKey
    && b.bindingType == bindingType && b.constraint == constraint
    && b.id == None && b.values == [] && b.condition == None
  }

  /** The general form `Create(binder, typeKey, bindingType, constraint)`. */
  function Create(binder: object, typeKey: TypeToken, bindingType: BindingType, constraint: ConstraintType): (b: Binding)
    ensures IsNewBinding(b, binder, typeKey, bindingType, constraint)
  {
    Binding(binder, typeKey, bindingType, constraint, None, [], None)
  }

  /** `Create<T>(binder, bindingType, constraint)`, with `typeOfT` standing for `typeof(T)`. */
  function CreateOf(binder: object, typeOfT: TypeToken, bindingType: BindingType, constraint: ConstraintType): (b: Binding)
    ensures IsNewBinding(b, binder, typeOfT, bindingType, constraint)
  {
    Create(binder, typeOfT, bindingType, constraint)
  }

  /** `Create(binder, typeKey, bindingType)`: the default constraint is MULTIPLE. */
  function CreateDefault(binder: object, typeKey: TypeToken, bindingType: BindingType): (b: Binding)
    ensures IsNewBinding(b, binder, typeKey, bindingType, MULTIPLE)
  {
    Create(binder, typeKey, bindingType, MULTIPLE)
  }

  /** `Create<T>(binder, bindingType)`. */
  function CreateDefaultOf(binder: object, typeOfT: TypeToken, bindingType: BindingType): (b: Binding)
    ensures IsNewBinding(b, binder, typeOfT, bindingType, MULTIPLE)
  {
    Create(binder, typeOfT, bindingType, MULTIPLE)
  }

  /** `CreateSingle(binder, typeKey, bindingType)`: constraint SINGLE. */
  function CreateSingle(binder: object, typeKey: TypeToken, bindingType: BindingType): (b: Binding)
    ensures IsNewBinding(b, binder, typeKey, bindingType, SINGLE)
  {
    Create(binder, typeKey, bindingType, SINGLE)
  }

  /** `CreateSingle<T>(binder, bindingType)`. */
  function CreateSingleOf(binder: object, typeOfT: TypeToken, bindingType: BindingType): (b: Binding)
    ensures IsNewBinding(b, binder, typeOfT, bindingType, SINGLE)
  {
    Create(binder, typeOfT, bindingType, SINGLE)
  }

  /** `CreatePool(binder, typeKey, bindingType)`: builds the POOL binding itself rather than delegating. */
  function CreatePool(binder: object, typeKey: TypeToken, bindingType: BindingType): (b: Binding)
    ensures IsNewBinding(b, binder, typeKey, bindingType, ConstraintType.POOL)
  {
    Binding(binder, typeKey, bindingType, ConstraintType.POOL, None, [], None)
  }

  /** `CreatePool<T>(binder, bindingType)`: delegates to the general form with POOL. */
  function CreatePoolOf(binder: object, typeOfT: TypeToken, bindingType: BindingType): (b: Binding)
    ensures IsNewBinding(b, binder, typeOfT, bindingType, ConstraintType.POOL)
  {
    Create(binder, typeOfT, bindingType, ConstraintType.POOL)
  }

  /** A new binding is determined by its arguments: two new bindings built from the same arguments are equal. */
  lemma NewBindingUnique(b1: Binding, b2: Binding, binder: object, typeKey: TypeToken, bindingType: BindingType, constraint: ConstraintType)
    requires IsNewBinding(b1, binder, typeKey, bindingType, constraint)
    requires IsNewBinding(b2, binder, typeKey, bindingType, constraint)
    ensures b1 == b2
  {
  }

  /** The two POOL entry points agree with the general form, although only the generic one delegates to it. */
  lemma CreatePoolAgreesWithCreate(binder: object, typeKey: TypeToken, bindingType: BindingType)
    ensures CreatePool(binder, typeKey, bindingType) == Create(binder, typeKey, bindingType, ConstraintType.POOL)
    ensures CreatePoolOf(binder, typeKey, bindingType) == CreatePool(binder, typeKey, bindingType)
  {
    NewBindingUnique(CreatePool(binder, typeKey, bindingType), Create(binder, typeKey, bindingType, ConstraintType.POOL),
      binder, typeKey, bindingType, ConstraintType.POOL);
  }

  /** Every generic overload is its `Type` overload applied to `typeof(T)`. */
  lemma GenericOverloadsAgree(binder: object, typeOfT: TypeToken, bindingType: BindingType, constraint: ConstraintType)
    ensures CreateOf(binder, typeOfT, bindingType, constraint) == Create(binder, typeOfT, bindingType, constraint)
    ensures CreateDefaultOf(binder, typeOfT, bindingType) == CreateDefault(binder, typeOfT, bindingType)
    ensures CreateSingleOf(binder, typeOfT, bindingType) == CreateSingle(binder, typeOfT, bindingType)
    ensures CreatePoolOf(binder, typeOfT, bindingType) == CreatePool(binder, typeOfT, bindingType)
  {
    CreatePoolAgreesWithCreate(binder, typeOfT, bindingType);
  }
}
