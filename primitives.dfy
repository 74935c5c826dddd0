/** `Entity`: the base of every domain entity, with equality by identity. */
module Primitives {
  import opened Wrappers
  import opened DotNet

  /** What `GetType()` returns: the concrete runtime type of an object, and
      whether that type derives from `Entity`. */
  datatype RuntimeType = RuntimeType(fullName: string, derivesFromEntity: bool)

  /** An entity instance: its concrete type and its init-only `Id`. */
  datatype Entity = Entity(runtimeType: RuntimeType, id: Guid)

  /** Any value `Equals(object)` can be handed. */
  datatype Object =
    | Null
    | EntityObject(entity: Entity)
    | OtherObject(runtimeType: RuntimeType)

  /** What the runtime guarantees: an object is an `Entity` exactly when its
      runtime type derives from `Entity`. */
  predicate WellTyped(o: Object) {
    match o
    case Null => true
    case EntityObject(e) => e.runtimeType.derivesFromEntity
    case OtherObject(t) => !t.derivesFromEntity
  }

  function GetType(o: Object): RuntimeType
    requires !o.Null?
  {
    match o
    case EntityObject(e) => e.runtimeType
    case OtherObject(t) => t
  }

  /** The identity an entity is compared by: concrete type and `Id`. */
  function Identity(e: Entity): (RuntimeType, Guid) {
    (e.runtimeType, e.id)
  }

  /** `Equals(Entity other)`: false for null, false for another concrete type,
      otherwise compares the `Id`s. */
  function EqualsEntity(self: Entity, other: Option<Entity>): (r: bool)
    ensures other.None? ==> !r
    ensures other.Some? ==> (r <==> Identity(other.value) == Identity(self))
  {
    if other.None? then false
    else if other.value.runtimeType != self.runtimeType then false
    else other.value.id == self.id
  }

  /** `Equals(object obj)`: the null check, the type check, the `is Entity`
      pattern, then the `Id`s. It agrees with `Equals(Entity)`. */
  function EqualsObject(self: Entity, obj: Object): (r: bool)
    ensures r <==> obj.EntityObject? && EqualsEntity(self, Some(obj.entity))
  {
    if obj.Null? then false
    else if GetType(obj) != self.runtimeType then false
    else if !obj.EntityObject? then false
    else obj.entity.id == self.id
  }

  /** `GetHashCode()`: the hash of the `Id` alone. `Guid.GetHashCode` is not
      part of this model, so it is passed in as `guidHash`. */
  function GetHashCode(self: Entity, guidHash: Guid -> int): int {
    guidHash(self.id)
  }

  /** `operator ==`: both operands non-null and `first.Equals(second)`;
      the overload chosen for an `Entity` argument is `Equals(Entity)`. */
  function Eq(first: Option<Entity>, second: Option<Entity>): (r: bool)
    ensures r ==> first.Some? && second.Some?
    ensures first.Some? && second.Some? ==> (r <==> Identity(first.value) == Identity(second.value))
  {
    first.Some? && second.Some? && EqualsEntity(first.value, second)
  }

  /** `operator !=`: the negation of `==`, so true whenever an operand is null. */
  function Ne(first: Option<Entity>, second: Option<Entity>): (r: bool)
    ensures r <==> !Eq(first, second)
    ensures first.None? || second.None? ==> r
  {
    !Eq(first, second)
  }

  // ----- lemmas ---------------------------------------------------------

  /** Both `Equals` overloads return false for null. */
  lemma EqualsNullIsFalse(self: Entity)
    ensures !EqualsEntity(self, None)
    ensures !EqualsObject(self, Null)
  {
  }

  /** Same `Id` but another concrete type: not equal. */
  lemma DifferentTypeNotEqual(self: Entity, other: Entity)
    requires other.runtimeType != self.runtimeType
    ensures !EqualsEntity(self, Some(other))
    ensures !EqualsObject(self, EntityObject(other))
  {
  }

  /** For well-typed objects the `is not Entity` test never decides the
      result: once the runtime types match, the object is an entity. */
  lemma EntityPatternIsRedundant(self: Entity, obj: Object)
    requires self.runtimeType.derivesFromEntity && WellTyped(obj)
    requires !obj.Null? && GetType(obj) == self.runtimeType
    ensures obj.EntityObject?
  {
  }

  /** On non-null entities `Equals` is an equivalence relation. */
  lemma EqualsReflexive(a: Entity)
    ensures EqualsEntity(a, Some(a))
  {
  }

  lemma EqualsSymmetric(a: Entity, b: Entity)
    ensures EqualsEntity(a, Some(b)) <==> EqualsEntity(b, Some(a))
  {
  }

  lemma EqualsTransitive(a: Entity, b: Entity, c: Entity)
    requires EqualsEntity(a, Some(b)) && EqualsEntity(b, Some(c))
    ensures EqualsEntity(a, Some(c))
  {
  }

  /** Equal entities have equal hash codes, whatever `Guid.GetHashCode` is. */
  lemma EqualsImpliesEqualHash(a: Entity, b: Entity, guidHash: Guid -> int)
    requires EqualsEntity(a, Some(b))
    ensures GetHashCode(a, guidHash) == GetHashCode(b, guidHash)
  {
  }

  /** `null == null` is false and `null != null` is true. */
  lemma NullOperands()
    ensures !Eq(None, None) && Ne(None, None)
  {
  }

  /** `==` on two non-null entities is `Equals`, and `==` is symmetric. */
  lemma EqMatchesEquals(a: Entity, b: Entity)
    ensures Eq(Some(a), Some(b)) == EqualsEntity(a, Some(b))
    ensures Eq(Some(a), Some(b)) == Eq(Some(b), Some(a))
  {
  }
}
