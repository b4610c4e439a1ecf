/** `org.eclipse.lsp4j.debug.VariablesArguments`: the arguments of the Debug
    Adapter Protocol 'variables' request. */
module Variables {
  import opened JavaLang
  import opened DebugTypes

  class VariablesArguments {
    /** The variable reference (`@NonNull Integer`). */
    var variablesReference: Option<Int32>
    /** Optional filter: named or indexed children only. */
    var filter: Option<VariablesArgumentsFilter>
    /** Optional index of the first variable to return. */
    var start: Option<Int32>
    /** Optional number of variables to return. */
    var count: Option<Int32>
    /** Optional details on how to format the values. */
    var format: Option<ValueFormat>

    /** No constructor is declared: Java's default one leaves every field null. */
    constructor ()
      ensures variablesReference == None && filter == None && start == None
      ensures count == None && format == None
    {
      variablesReference, filter, start, count, format := None, None, None, None, None;
    }

    /** `setVariablesReference`: rejects null before assigning, so a rejected
        call keeps the old value. */
    method SetVariablesReference(variablesReference: Option<Int32>) returns (r: Outcome<NullPropertyException>)
      modifies this`variablesReference
      ensures variablesReference.Some? ==> r == Pass && this.variablesReference == variablesReference
      ensures variablesReference.None? ==>
                r == Fail(NullProperty("variablesReference")) &&
                this.variablesReference == old(this.variablesReference)
    {
      var checked := CheckNotNull(variablesReference, "variablesReference");
      if checked.Failure? {
        return Fail(checked.error);
      }
      this.variablesReference := Some(checked.value);
      return Pass;
    }

    /** `setFilter`: optional, null accepted. */
    method SetFilter(filter: Option<VariablesArgumentsFilter>)
      modifies this`filter
      ensures this.filter == filter
    {
      this.filter := filter;
    }

    /** `setStart`: optional, null accepted. */
    method SetStart(start: Option<Int32>)
      modifies this`start
      ensures this.start == start
    {
      this.start := start;
    }

    /** `setCount`: optional, null accepted. */
    method SetCount(count: Option<Int32>)
      modifies this`count
      ensures this.count == count
    {
      this.count := count;
    }

    /** `setFormat`: optional, null accepted. */
    method SetFormat(format: Option<ValueFormat>)
      modifies this`format
      ensures this.format == format
    {
      this.format := format;
    }

    /** `equals(obj)`: true for the same object; false for null or an object
        of another class; otherwise null-aware equality of all five fields. */
    function Equals(obj: object?): (eq: bool)
      reads this, obj
      ensures eq <==> obj != null && obj is VariablesArguments &&
                      (obj as VariablesArguments).variablesReference == variablesReference &&
                      (obj as VariablesArguments).filter == filter &&
                      (obj as VariablesArguments).start == start &&
                      (obj as VariablesArguments).count == count &&
                      (obj as VariablesArguments).format == format
    {
      if this == obj then true
      else if obj == null then false
      else if !(obj is VariablesArguments) then false
      else
        var other := obj as VariablesArguments;
        && NullSafeEquals(variablesReference, other.variablesReference)
        && NullSafeEquals(filter, other.filter)
        && NullSafeEquals(start, other.start)
        && NullSafeEquals(count, other.count)
        && NullSafeEquals(format, other.format)
    }

    /** `hashCode()` over the five fields in declaration order, given the
        field types' hash codes. */
    function HashCode(hashInteger: Int32 -> Int32, hashFilter: VariablesArgumentsFilter -> Int32,
                      hashFormat: ValueFormat -> Int32): (hash: Int32)
      reads this
    {
      HashAll([HashOf(variablesReference, hashInteger), HashOf(filter, hashFilter),
               HashOf(start, hashInteger), HashOf(count, hashInteger), HashOf(format, hashFormat)])
    }
  }

  /** `equals` is an equivalence relation. */
  lemma EqualsIsEquivalence(a: VariablesArguments, b: VariablesArguments, c: VariablesArguments)
    ensures a.Equals(a)
    ensures a.Equals(b) ==> b.Equals(a)
    ensures a.Equals(b) && b.Equals(c) ==> a.Equals(c)
  {
  }

  /** Equal objects have equal hash codes, whatever the field types' hash
      codes are. */
  lemma EqualsImpliesEqualHashCodes(a: VariablesArguments, b: VariablesArguments,
                                    hashInteger: Int32 -> Int32, hashFilter: VariablesArgumentsFilter -> Int32,
                                    hashFormat: ValueFormat -> Int32)
    requires a.Equals(b)
    ensures a.HashCode(hashInteger, hashFilter, hashFormat) == b.HashCode(hashInteger, hashFilter, hashFormat)
  {
  }
}
