/** `org.eclipse.lsp4j.debug.StepOutArguments`: the arguments of the Debug
    Adapter Protocol 'stepOut' request. */
module StepOut {
  import opened JavaLang

  class StepOutArguments {
    /** Execute 'stepOut' for this thread (`@NonNull Integer`). */
    var threadId: Option<Int32>

    /** No constructor is declared: Java's default one leaves the field null. */
    constructor ()
      ensures threadId == None
    {
      threadId := None;
    }

    /** `setThreadId`: rejects null before assigning, so a rejected call
        keeps the old value. */
    method SetThreadId(threadId: Option<Int32>) returns (r: Outcome<NullPropertyException>)
      modifies this`threadId
      ensures threadId.Some? ==> r == Pass && this.threadId == threadId
      ensures threadId.None? ==> r == Fail(NullProperty("threadId")) && this.threadId == old(this.threadId)
    {
      var checked := CheckNotNull(threadId, "threadId");
      if checked.Failure? {
        return Fail(checked.error);
      }
      this.threadId := Some(checked.value);
      return Pass;
    }

    /** `equals(obj)`: true for the same object; false for null or an object
        of another class; otherwise null-aware equality of `threadId`. */
    function Equals(obj: object?): (eq: bool)
      reads this, obj
      ensures eq <==> obj != null && obj is StepOutArguments && (obj as StepOutArguments).threadId == threadId
    {
      if this == obj then true
      else if obj == null then false
      else if !(obj is StepOutArguments) then false
      else
        var other := obj as StepOutArguments;
        NullSafeEquals(threadId, other.threadId)
    }

    /** `hashCode()`: `31 * 1 + hash(threadId)`, given `Integer.hashCode`. */
    function HashCode(hashInteger: Int32 -> Int32): (hash: Int32)
      reads this
    {
      Wrap32(PRIME * 1 + HashOf(threadId, hashInteger))
    }
  }

  /** An object with no thread id hashes to 31. */
  lemma HashCodeWithoutThreadId(a: StepOutArguments, hashInteger: Int32 -> Int32)
    requires a.threadId == None
    ensures a.HashCode(hashInteger) == 31
  {
  }

  /** `equals` is an equivalence relation. */
  lemma EqualsIsEquivalence(a: StepOutArguments, b: StepOutArguments, c: StepOutArguments)
    ensures a.Equals(a)
    ensures a.Equals(b) ==> b.Equals(a)
    ensures a.Equals(b) && b.Equals(c) ==> a.Equals(c)
  {
  }

  /** Equal objects have equal hash codes, whatever `Integer.hashCode` is. */
  lemma EqualsImpliesEqualHashCodes(a: StepOutArguments, b: StepOutArguments, hashInteger: Int32 -> Int32)
    requires a.Equals(b)
    ensures a.HashCode(hashInteger) == b.HashCode(hashInteger)
  {
  }
}
