/** `org.eclipse.lsp4j.jsonrpc.messages.Either`: the two-alternative union used
    for protocol fields whose JSON shape varies, and the flattening of nested
    `Either<...>` type arguments into the list of alternatives a field may
    take. Java reflection is replaced by the type terms `JavaType`. */
module Messages {
  import opened JavaLang

  /** An `Either<L, R>`: two final fields, each possibly null. Both are set
      only by the constructor, so a value never changes once built. The
      (protected) constructor itself is `Either(left, right)`. */
  datatype Either<L, R> = Either(left: Option<L>, right: Option<R>)
  {
    function GetLeft(): (l: Option<L>) { left }

    function GetRight(): (r: Option<R>) { right }

    /** `isLeft()` looks only at whether the left field is non-null. */
    predicate IsLeft() { left.Some? }

    /** `isRight()` looks only at whether the right field is non-null. */
    predicate IsRight() { right.Some? }

    /** The union invariant: exactly one alternative is present. */
    predicate HasExactlyOneSide() { IsLeft() != IsRight() }
  }

  /** `Either.forLeft(left)`. The `@NonNull` annotation is not checked here,
      so the argument is a nullable reference. */
  function ForLeft<L, R>(left: Option<L>): (e: Either<L, R>)
    ensures e.IsLeft() <==> left.Some?
    ensures !e.IsRight()
    ensures e.GetLeft() == left && e.GetRight() == None
  {
    Either(left, None)
  }

  /** `Either.forRight(right)`, likewise unchecked. */
  function ForRight<L, R>(right: Option<R>): (e: Either<L, R>)
    ensures e.IsRight() <==> right.Some?
    ensures !e.IsLeft()
    ensures e.GetRight() == right && e.GetLeft() == None
  {
    Either(None, right)
  }

  /** A factory given a non-null argument builds a union with exactly that
      alternative. */
  lemma FactoriesHaveExactlyOneSide<L, R>(l: L, r: R)
    ensures ForLeft<L, R>(Some(l)).HasExactlyOneSide() && ForLeft<L, R>(Some(l)).GetLeft() == Some(l)
    ensures ForRight<L, R>(Some(r)).HasExactlyOneSide() && ForRight<L, R>(Some(r)).GetRight() == Some(r)
  {
  }

  /** Without the `@NonNull` precondition the invariant fails: `forLeft(null)`
      and `forRight(null)` build a union with neither alternative. */
  lemma NullFactoryArgumentHasNoSide<L, R>()
    ensures !ForLeft<L, R>(None).IsLeft() && !ForLeft<L, R>(None).IsRight()
    ensures !ForRight<L, R>(None).IsLeft() && !ForRight<L, R>(None).IsRight()
  {
  }

  // ----- Types -----------------------------------------------------------

  /** A `Class` object: its name, and whether `Either.class.isAssignableFrom`
      holds of it (it is `Either` or one of its subclasses). */
  datatype ClassRef = ClassRef(name: string, assignableToEither: bool)

  /** A `java.lang.reflect.Type`: a class, a parameterized type (its raw type
      and its actual type arguments in order), or any other kind of type
      (a type variable, a wildcard, a generic array type). */
  datatype JavaType =
    | ClassType(cls: ClassRef)
    | Parameterized(rawType: JavaType, typeArguments: seq<JavaType>)
    | OtherType(name: string)

  /** `isEither(Class<?> cls)`. */
  predicate IsEitherClass(cls: ClassRef)
  {
    cls.assignableToEither
  }

  /** `isEither(ParameterizedType type)`: tests the raw type. */
  predicate IsEitherParameterized(t: JavaType)
    requires t.Parameterized?
    decreases t, 0
  {
    IsEither(t.rawType)
  }

  /** `isEither(Type type)`: dispatches on the kind of type. */
  predicate IsEither(t: JavaType)
    decreases t, 1
  {
    match t
    case Parameterized(_, _) => IsEitherParameterized(t)
    case ClassType(cls) => IsEitherClass(cls)
    case OtherType(_) => false
  }

  /** The class a type erases to: itself for a class, the erasure of the raw
      type for a parameterized type, none for any other kind of type. */
  function Erasure(t: JavaType): (c: Option<ClassRef>)
  {
    match t
    case ClassType(cls) => Some(cls)
    case Parameterized(raw, _) => Erasure(raw)
    case OtherType(_) => None
  }

  /** A type is an `Either` exactly when it erases to `Either` or a subclass. */
  lemma {:induction false} IsEitherIffErasesToEither(t: JavaType)
    ensures IsEither(t) <==> Erasure(t).Some? && Erasure(t).value.assignableToEither
  {
    match t
    case ClassType(_) =>
    case OtherType(_) =>
    case Parameterized(raw, _) => IsEitherIffErasesToEither(raw);
  }

  // ----- Flattening, as a specification ------------------------------------

  /** The `ClassCastException` thrown by the cast to `ParameterizedType` when
      an `Either` type reached by the flattening is a raw class. */
  datatype ClassCastException = ClassCastException(notParameterized: JavaType)

  /** What `getDisjoinTypes(t)` returns: `[t]` for a type that is not an
      `Either`, otherwise the flattenings of its type arguments, concatenated
      in order. */
  function DisjoinTypes(t: JavaType): (r: Result<seq<JavaType>, ClassCastException>)
    decreases t
  {
    if !IsEither(t) then Success([t])
    else if !t.Parameterized? then Failure(ClassCastException(t))
    else DisjoinTypesOf(t.typeArguments)
  }

  /** The flattenings of a list of type arguments, concatenated in order; the
      first failure, if any, is the result. */
  function DisjoinTypesOf(ts: seq<JavaType>): (r: Result<seq<JavaType>, ClassCastException>)
    decreases ts
  {
    if ts == [] then Success([])
    else
      match DisjoinTypesOf(ts[..|ts| - 1])
      case Failure(e) => Failure(e)
      case Success(front) =>
        match DisjoinTypes(ts[|ts| - 1])
        case Failure(e) => Failure(e)
        case Success(back) => Success(front + back)
  }

  /** Concatenates two flattenings; the left failure comes first. */
  function AppendResults(a: Result<seq<JavaType>, ClassCastException>, b: Result<seq<JavaType>, ClassCastException>)
    : (r: Result<seq<JavaType>, ClassCastException>)
  {
    match a
    case Failure(e) => Failure(e)
    case Success(xs) =>
      match b
      case Failure(e) => Failure(e)
      case Success(ys) => Success(xs + ys)
  }

  /** Flattening is left to right: the flattening of two consecutive runs of
      type arguments is the flattening of the first followed by that of the
      second. */
  lemma {:induction false} DisjoinTypesOfAppend(xs: seq<JavaType>, ys: seq<JavaType>)
    ensures DisjoinTypesOf(xs + ys) == AppendResults(DisjoinTypesOf(xs), DisjoinTypesOf(ys))
    decreases |ys|
  {
    if ys == [] {
      assert xs + ys == xs;
      match DisjoinTypesOf(xs)
      case Failure(_) =>
      case Success(v) => assert v + [] == v;
    } else {
      var n := |ys| - 1;
      assert (xs + ys)[..|xs + ys| - 1] == xs + ys[..n];
      assert (xs + ys)[|xs + ys| - 1] == ys[n];
      DisjoinTypesOfAppend(xs, ys[..n]);
      match (DisjoinTypesOf(xs), DisjoinTypesOf(ys[..n]), DisjoinTypes(ys[n]))
      case (Success(a), Success(b), Success(c)) => assert a + b + c == a + (b + c);
      case _ =>
    }
  }

  /** `t` is one of the leaves of the `Either` structure of `root`: a type that
      is not an `Either`, reached from `root` through type arguments of
      parameterized `Either` types only. */
  predicate IsLeafOf(x: JavaType, root: JavaType)
    decreases root
  {
    if !IsEither(root) then x == root
    else (root.Parameterized? &&
          exists i :: 0 <= i < |root.typeArguments| && IsLeafOf(x, root.typeArguments[i]))
  }

  /** An `Either` type without type arguments is reached from `root`. */
  predicate ReachesRawEither(root: JavaType)
    decreases root
  {
    IsEither(root) &&
    (!root.Parameterized? ||
     exists i :: 0 <= i < |root.typeArguments| && ReachesRawEither(root.typeArguments[i]))
  }

  /** The number of leaves, counted head first. */
  function LeafCount(t: JavaType): (n: nat)
    decreases t
  {
    if !IsEither(t) then 1
    else if !t.Parameterized? then 0
    else LeafCountOf(t.typeArguments)
  }

  function LeafCountOf(ts: seq<JavaType>): (n: nat)
    decreases ts
  {
    if ts == [] then 0 else LeafCount(ts[0]) + LeafCountOf(ts[1..])
  }

  /** Leaves are never `Either` types. */
  lemma {:induction false} LeafIsNotEither(x: JavaType, root: JavaType)
    requires IsLeafOf(x, root)
    ensures !IsEither(x)
    decreases root
  {
    if IsEither(root) {
      var i :| 0 <= i < |root.typeArguments| && IsLeafOf(x, root.typeArguments[i]);
      LeafIsNotEither(x, root.typeArguments[i]);
    }
  }

  /** Flattening fails exactly when a raw `Either` is reached. */
  lemma {:induction false} DisjoinTypesFailsIffRawEither(t: JavaType)
    ensures DisjoinTypes(t).Failure? <==> ReachesRawEither(t)
    decreases t
  {
    if IsEither(t) && t.Parameterized? {
      DisjoinTypesOfFailsIffRawEither(t.typeArguments);
    }
  }

  lemma {:induction false} DisjoinTypesOfFailsIffRawEither(ts: seq<JavaType>)
    ensures DisjoinTypesOf(ts).Failure? <==> exists i :: 0 <= i < |ts| && ReachesRawEither(ts[i])
    decreases ts
  {
    if ts != [] {
      var front := ts[..|ts| - 1];
      DisjoinTypesOfFailsIffRawEither(front);
      DisjoinTypesFailsIffRawEither(ts[|ts| - 1]);
      if exists i :: 0 <= i < |ts| && ReachesRawEither(ts[i]) {
        var i :| 0 <= i < |ts| && ReachesRawEither(ts[i]);
        if i < |ts| - 1 {
          assert front[i] == ts[i];
        }
      }
      if exists i :: 0 <= i < |front| && ReachesRawEither(front[i]) {
        var i :| 0 <= i < |front| && ReachesRawEither(front[i]);
        assert ts[i] == front[i];
      }
    }
  }

  /** Every type in a successful flattening is a leaf of the input, and every
      leaf of the input is in it. */
  lemma {:induction false} DisjoinTypesAreTheLeaves(t: JavaType, x: JavaType)
    requires DisjoinTypes(t).Success?
    ensures x in DisjoinTypes(t).value <==> IsLeafOf(x, t)
    decreases t
  {
    if IsEither(t) {
      DisjoinTypesOfAreTheLeaves(t.typeArguments, x);
    }
  }

  lemma {:induction false} DisjoinTypesOfAreTheLeaves(ts: seq<JavaType>, x: JavaType)
    requires DisjoinTypesOf(ts).Success?
    ensures x in DisjoinTypesOf(ts).value <==> exists i :: 0 <= i < |ts| && IsLeafOf(x, ts[i])
    decreases ts
  {
    if ts != [] {
      var front, last := ts[..|ts| - 1], ts[|ts| - 1];
      DisjoinTypesOfAreTheLeaves(front, x);
      DisjoinTypesAreTheLeaves(last, x);
      if exists i :: 0 <= i < |ts| && IsLeafOf(x, ts[i]) {
        var i :| 0 <= i < |ts| && IsLeafOf(x, ts[i]);
        if i < |ts| - 1 {
          assert front[i] == ts[i];
        }
      }
      if exists i :: 0 <= i < |front| && IsLeafOf(x, front[i]) {
        var i :| 0 <= i < |front| && IsLeafOf(x, front[i]);
        assert ts[i] == front[i];
      }
    }
  }

  /** No `Either` is left in a successful flattening. */
  lemma NoEitherInDisjoinTypes(t: JavaType)
    requires DisjoinTypes(t).Success?
    ensures forall x :: x in DisjoinTypes(t).value ==> !IsEither(x)
  {
    forall x | x in DisjoinTypes(t).value
      ensures !IsEither(x)
    {
      DisjoinTypesAreTheLeaves(t, x);
      LeafIsNotEither(x, t);
    }
  }

  lemma {:induction false} LeafCountOfSnoc(ts: seq<JavaType>, t: JavaType)
    ensures LeafCountOf(ts + [t]) == LeafCountOf(ts) + LeafCount(t)
    decreases |ts|
  {
    if ts == [] {
      assert ([] + [t])[1..] == [];
    } else {
      assert (ts + [t])[1..] == ts[1..] + [t];
      LeafCountOfSnoc(ts[1..], t);
    }
  }

  /** A successful flattening has one entry per leaf, leaves counted with
      their multiplicity. */
  lemma {:induction false} DisjoinTypesCountsLeaves(t: JavaType)
    requires DisjoinTypes(t).Success?
    ensures |DisjoinTypes(t).value| == LeafCount(t)
    decreases t
  {
    if IsEither(t) {
      DisjoinTypesOfCountsLeaves(t.typeArguments);
    }
  }

  lemma {:induction false} DisjoinTypesOfCountsLeaves(ts: seq<JavaType>)
    requires DisjoinTypesOf(ts).Success?
    ensures |DisjoinTypesOf(ts).value| == LeafCountOf(ts)
    decreases ts
  {
    if ts != [] {
      var front, last := ts[..|ts| - 1], ts[|ts| - 1];
      assert ts == front + [last];
      DisjoinTypesOfCountsLeaves(front);
      DisjoinTypesCountsLeaves(last);
      LeafCountOfSnoc(front, last);
    }
  }

  /** Flattening a flattening changes nothing. */
  lemma {:induction false} DisjoinTypesOfLeavesIsIdentity(ts: seq<JavaType>)
    requires forall x :: x in ts ==> !IsEither(x)
    ensures DisjoinTypesOf(ts) == Success(ts)
    decreases ts
  {
    if ts != [] {
      var front := ts[..|ts| - 1];
      DisjoinTypesOfLeavesIsIdentity(front);
      assert front + [ts[|ts| - 1]] == ts;
    }
  }

  lemma DisjoinTypesIsIdempotent(t: JavaType)
    requires DisjoinTypes(t).Success?
    ensures DisjoinTypesOf(DisjoinTypes(t).value) == DisjoinTypes(t)
  {
    NoEitherInDisjoinTypes(t);
    DisjoinTypesOfLeavesIsIdentity(DisjoinTypes(t).value);
  }

  lemma DisjoinTypesOfSingleton(t: JavaType)
    ensures DisjoinTypesOf([t]) == DisjoinTypes(t)
  {
    assert [t][..0] == [];
    match DisjoinTypes(t)
    case Failure(_) =>
    case Success(v) => assert [] + v == v;
  }

  /** A parameterized `Either` flattens to the flattening of its arguments. */
  lemma ParameterizedEither(either: ClassRef, args: seq<JavaType>)
    requires either.assignableToEither
    ensures IsEither(Parameterized(ClassType(either), args))
    ensures DisjoinTypes(Parameterized(ClassType(either), args)) == DisjoinTypesOf(args)
  {
    assert IsEither(ClassType(either));
    assert IsEitherParameterized(Parameterized(ClassType(either), args));
  }

  /** `Either<Either<A, B>, C>` flattens to `[A, B, C]`. */
  lemma NestedLeftEitherExample(either: ClassRef, a: JavaType, b: JavaType, c: JavaType)
    requires either.assignableToEither
    requires !IsEither(a) && !IsEither(b) && !IsEither(c)
    ensures DisjoinTypes(Parameterized(ClassType(either), [Parameterized(ClassType(either), [a, b]), c]))
            == Success([a, b, c])
  {
    var inner := Parameterized(ClassType(either), [a, b]);
    ParameterizedEither(either, [a, b]);
    ParameterizedEither(either, [inner, c]);
    DisjoinTypesOfLeavesIsIdentity([a, b]);
    DisjoinTypesOfLeavesIsIdentity([c]);
    DisjoinTypesOfSingleton(inner);
    assert [inner, c] == [inner] + [c];
    DisjoinTypesOfAppend([inner], [c]);
    assert [a, b] + [c] == [a, b, c];
  }

  /** `Either<A, Either<B, C>>` flattens to `[A, B, C]` too. */
  lemma NestedRightEitherExample(either: ClassRef, a: JavaType, b: JavaType, c: JavaType)
    requires either.assignableToEither
    requires !IsEither(a) && !IsEither(b) && !IsEither(c)
    ensures DisjoinTypes(Parameterized(ClassType(either), [a, Parameterized(ClassType(either), [b, c])]))
            == Success([a, b, c])
  {
    var inner := Parameterized(ClassType(either), [b, c]);
    ParameterizedEither(either, [b, c]);
    ParameterizedEither(either, [a, inner]);
    DisjoinTypesOfLeavesIsIdentity([b, c]);
    DisjoinTypesOfLeavesIsIdentity([a]);
    DisjoinTypesOfSingleton(inner);
    assert [a, inner] == [a] + [inner];
    DisjoinTypesOfAppend([a], [inner]);
    assert [a] + [b, c] == [a, b, c];
  }

  /** `Either<A, Either>` with a raw `Either` argument cannot be flattened. */
  lemma RawEitherArgumentExample(either: ClassRef, a: JavaType)
    requires either.assignableToEither
    requires !IsEither(a)
    ensures DisjoinTypes(Parameterized(ClassType(either), [a, ClassType(either)]))
            == Failure(ClassCastException(ClassType(either)))
  {
    var raw := ClassType(either);
    ParameterizedEither(either, [a, raw]);
    assert IsEither(raw);
    DisjoinTypesOfLeavesIsIdentity([a]);
    DisjoinTypesOfSingleton(raw);
    assert [a, raw] == [a] + [raw];
    DisjoinTypesOfAppend([a], [raw]);
  }

  /** Collecting `Either<A, Either>` appends `A` before it throws on the raw
      `Either`. */
  lemma RawEitherArgumentAppendsLeaf(either: ClassRef, a: JavaType)
    requires either.assignableToEither
    requires !IsEither(a)
    ensures AppendedBeforeThrow(Parameterized(ClassType(either), [a, ClassType(either)])) == [a]
  {
    var raw := ClassType(either);
    ParameterizedEither(either, [a, raw]);
    assert IsEither(raw);
    DisjoinTypesOfSingleton(a);
    assert [a, raw][..1] == [a];
    assert AppendedBeforeThrow(raw) == [];
    assert AppendedBeforeThrowOf([a, raw]) == [a] + [];
  }

  // ----- Flattening, as the source does it ---------------------------------

  /** The `ArrayList<Type>` that `collectDisjoinTypes` appends to. */
  class TypeList {
    var elements: seq<JavaType>

    constructor ()
      ensures elements == []
    {
      elements := [];
    }

    /** `types.add(type)`. */
    method Add(t: JavaType)
      modifies this
      ensures elements == old(elements) + [t]
    {
      elements := elements + [t];
    }
  }

  lemma {:induction false} PrefixFailureIsFailure(ts: seq<JavaType>, k: nat, e: ClassCastException)
    requires k <= |ts|
    requires DisjoinTypesOf(ts[..k]) == Failure(e)
    ensures DisjoinTypesOf(ts) == Failure(e)
    decreases |ts| - k
  {
    if k < |ts| {
      assert ts[..k + 1][..k] == ts[..k];
      PrefixFailureIsFailure(ts, k + 1, e);
    } else {
      assert ts[..k] == ts;
    }
  }

  /** What `collectDisjoinTypes(t, types)` has appended to `types` when it
      returns or throws: the leaves of `t` in order, up to the first raw
      `Either` reached, where the exception stops it. */
  function AppendedBeforeThrow(t: JavaType): (appended: seq<JavaType>)
    decreases t
  {
    if !IsEither(t) then [t]
    else if !t.Parameterized? then []
    else AppendedBeforeThrowOf(t.typeArguments)
  }

  /** The same for a list of type arguments visited in order: the arguments
      before the first failing one are appended whole, the failing one only
      up to its own raw `Either`, and later ones not at all. */
  function AppendedBeforeThrowOf(ts: seq<JavaType>): (appended: seq<JavaType>)
    decreases ts
  {
    if ts == [] then []
    else
      match DisjoinTypesOf(ts[..|ts| - 1])
      case Failure(_) => AppendedBeforeThrowOf(ts[..|ts| - 1])
      case Success(front) => front + AppendedBeforeThrow(ts[|ts| - 1])
  }

  /** When the flattening succeeds, everything is appended: the flattening. */
  lemma {:induction false} AppendedBeforeThrowOnSuccess(t: JavaType)
    requires DisjoinTypes(t).Success?
    ensures AppendedBeforeThrow(t) == DisjoinTypes(t).value
    decreases t, 1
  {
    if IsEither(t) && t.Parameterized? {
      AppendedBeforeThrowOfOnSuccess(t.typeArguments);
    }
  }

  lemma {:induction false} AppendedBeforeThrowOfOnSuccess(ts: seq<JavaType>)
    requires DisjoinTypesOf(ts).Success?
    ensures AppendedBeforeThrowOf(ts) == DisjoinTypesOf(ts).value
    decreases ts, 0
  {
    if ts != [] {
      AppendedBeforeThrowOnSuccess(ts[|ts| - 1]);
    }
  }

  /** Once a prefix of the arguments fails, the later arguments append
      nothing. */
  lemma {:induction false} PrefixFailureKeepsAppended(ts: seq<JavaType>, k: nat)
    requires k <= |ts|
    requires DisjoinTypesOf(ts[..k]).Failure?
    ensures AppendedBeforeThrowOf(ts) == AppendedBeforeThrowOf(ts[..k])
    decreases |ts| - k
  {
    if k < |ts| {
      assert ts[..k + 1][..k] == ts[..k];
      PrefixFailureKeepsAppended(ts, k + 1);
    } else {
      assert ts[..k] == ts;
    }
  }

  /** `collectDisjoinTypes(type, types)`: appends the flattening of `t` to
      `types` and returns `types`. When a raw `Either` is reached it throws,
      leaving in `types` what was appended before. */
  method CollectDisjoinTypes(t: JavaType, types: TypeList) returns (r: Result<TypeList, ClassCastException>)
    modifies types
    decreases t
    ensures r.Success? <==> DisjoinTypes(t).Success?
    ensures r.Success? ==> r.value == types && types.elements == old(types.elements) + DisjoinTypes(t).value
    ensures r.Failure? ==> DisjoinTypes(t) == Failure(r.error)
    ensures r.Failure? ==> types.elements == old(types.elements) + AppendedBeforeThrow(t)
  {
    if IsEither(t) {
      if !t.Parameterized? {
        return Failure(ClassCastException(t));
      }
      var arguments := t.typeArguments;
      for i := 0 to |arguments|
        invariant DisjoinTypesOf(arguments[..i]).Success?
        invariant types.elements == old(types.elements) + DisjoinTypesOf(arguments[..i]).value
      {
        assert arguments[..i + 1][..i] == arguments[..i];
        var nested := CollectDisjoinTypes(arguments[i], types);
        if nested.Failure? {
          PrefixFailureIsFailure(arguments, i + 1, nested.error);
          PrefixFailureKeepsAppended(arguments, i + 1);
          return Failure(nested.error);
        }
      }
      assert arguments[..|arguments|] == arguments;
    } else {
      types.Add(t);
    }
    return Success(types);
  }

  /** `getDisjoinTypes(type)`: the flattening collected into a new list. */
  method GetDisjoinTypes(t: JavaType) returns (r: Result<TypeList, ClassCastException>)
    ensures r.Success? <==> DisjoinTypes(t).Success?
    ensures r.Success? ==> fresh(r.value) && r.value.elements == DisjoinTypes(t).value
    ensures r.Failure? ==> DisjoinTypes(t) == Failure(r.error)
  {
    var types := new TypeList();
    r := CollectDisjoinTypes(t, types);
  }
}
