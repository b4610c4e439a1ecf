/** `org.eclipse.lsp4j.debug.StepInArguments`: the arguments of the Debug
    Adapter Protocol 'stepIn' request. */
module StepIn {
  import opened JavaLang

  class StepInArguments {
    /** Execute 'stepIn' for this thread (`@NonNull Long`). */
    var threadId: Option<Int64>
    /** Optional id of the target to step into. */
    var targetId: Option<Int64>

    /** No constructor is declared: Java's default one leaves both fields null. */
    constructor ()
      ensures threadId == None && targetId == None
    {
      threadId, targetId := None, None;
    }

    /** `setThreadId`: throws `IllegalArgumentException("Property must not be
        null: threadId")` before assigning, so a rejected call keeps the old
        value; `targetId` is never touched. */
    method SetThreadId(threadId: Option<Int64>) returns (r: Outcome<NullPropertyException>)
      modifies this`threadId
      ensures threadId.Some? ==> r == Pass && this.threadId == threadId
      ensures threadId.None? ==> r == Fail(NullProperty("threadId")) && this.threadId == old(this.threadId)
    {
      if threadId.None? {
        return Fail(NullProperty("threadId"));
      }
      this.threadId := threadId;
      return Pass;
    }

    /** `setTargetId`: an optional property, so null is accepted. */
    method SetTargetId(targetId: Option<Int64>)
      modifies this`targetId
      ensures this.targetId == targetId
    {
      this.targetId := targetId;
    }

    /** `equals(obj)`: true for the same object; false for null or an object
        of another class; otherwise null-aware equality of both fields. */
    function Equals(obj: object?): (eq: bool)
      reads this, obj
      ensures eq <==> obj != null && obj is StepInArguments &&
                      (obj as StepInArguments).threadId == threadId &&
                      (obj as StepInArguments).targetId == targetId
    {
      if this == obj then true
      else if obj == null then false
      else if !(obj is StepInArguments) then false
      else
        var other := obj as StepInArguments;
        NullSafeEquals(threadId, other.threadId) && NullSafeEquals(targetId, other.targetId)
    }

    /** `hashCode()` over `threadId` and `targetId`, given `Long.hashCode`. */
    function HashCode(hashLong: Int64 -> Int32): (hash: Int32)
      reads this
    {
      var result := HashStep(1, HashOf(threadId, hashLong));
      HashStep(result, HashOf(targetId, hashLong))
    }
  }

  /** `equals` is an equivalence relation. */
  lemma EqualsIsEquivalence(a: StepInArguments, b: StepInArguments, c: StepInArguments)
    ensures a.Equals(a)
    ensures a.Equals(b) ==> b.Equals(a)
    ensures a.Equals(b) && b.Equals(c) ==> a.Equals(c)
  {
  }

  /** Equal objects have equal hash codes, whatever `Long.hashCode` is. */
  lemma EqualsImpliesEqualHashCodes(a: StepInArguments, b: StepInArguments, hashLong: Int64 -> Int32)
    requires a.Equals(b)
    ensures a.HashCode(hashLong) == b.HashCode(hashLong)
  {
  }
}
