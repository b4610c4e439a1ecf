/** `org.eclipse.lsp4j.debug.RestartFrameArguments`: the arguments of the
    Debug Adapter Protocol 'restartFrame' request. */
module RestartFrame {
  import opened JavaLang

  class RestartFrameArguments {
    /** Restart this stack frame (`@NonNull Long`). */
    var frameId: Option<Int64>

    /** No constructor is declared: Java's default one leaves the field null. */
    constructor ()
      ensures frameId == None
    {
      frameId := None;
    }

    /** `setFrameId`: rejects null before assigning, so a rejected call keeps
        the old value. */
    method SetFrameId(frameId: Option<Int64>) returns (r: Outcome<NullPropertyException>)
      modifies this`frameId
      ensures frameId.Some? ==> r == Pass && this.frameId == frameId
      ensures frameId.None? ==> r == Fail(NullProperty("frameId")) && this.frameId == old(this.frameId)
    {
      var checked := CheckNotNull(frameId, "frameId");
      if checked.Failure? {
        return Fail(checked.error);
      }
      this.frameId := Some(checked.value);
      return Pass;
    }

    /** `equals(obj)`: true for the same object; false for null or an object
        of another class; otherwise null-aware equality of `frameId`. */
    function Equals(obj: object?): (eq: bool)
      reads this, obj
      ensures eq <==> obj != null && obj is RestartFrameArguments && (obj as RestartFrameArguments).frameId == frameId
    {
      if this == obj then true
      else if obj == null then false
      else if !(obj is RestartFrameArguments) then false
      else
        var other := obj as RestartFrameArguments;
        NullSafeEquals(frameId, other.frameId)
    }

    /** `hashCode()`: `31 * 1 + hash(frameId)`, given `Long.hashCode`. */
    function HashCode(hashLong: Int64 -> Int32): (hash: Int32)
      reads this
    {
      Wrap32(PRIME * 1 + HashOf(frameId, hashLong))
    }
  }

  /** An object with no frame id hashes to 31. */
  lemma HashCodeWithoutFrameId(a: RestartFrameArguments, hashLong: Int64 -> Int32)
    requires a.frameId == None
    ensures a.HashCode(hashLong) == 31
  {
  }

  /** `equals` is an equivalence relation. */
  lemma EqualsIsEquivalence(a: RestartFrameArguments, b: RestartFrameArguments, c: RestartFrameArguments)
    ensures a.Equals(a)
    ensures a.Equals(b) ==> b.Equals(a)
    ensures a.Equals(b) && b.Equals(c) ==> a.Equals(c)
  {
  }

  /** Equal objects have equal hash codes, whatever `Long.hashCode` is. */
  lemma EqualsImpliesEqualHashCodes(a: RestartFrameArguments, b: RestartFrameArguments, hashLong: Int64 -> Int32)
    requires a.Equals(b)
    ensures a.HashCode(hashLong) == b.HashCode(hashLong)
  {
  }
}
