/** `org.eclipse.lsp4j.debug.StackTraceArguments`: the arguments of the Debug
    Adapter Protocol 'stackTrace' request. */
module StackTrace {
  import opened JavaLang
  import opened DebugTypes

  class StackTraceArguments {
    /** Retrieve the stack trace for this thread (`@NonNull Long`). */
    var threadId: Option<Int64>
    /** Optional index of the first frame to return. */
    var startFrame: Option<Int64>
    /** Optional maximum number of frames to return. */
    var levels: Option<Int64>
    /** Optional details on how to format the stack frames. */
    var format: Option<StackFrameFormat>

    /** No constructor is declared: Java's default one leaves every field null. */
    constructor ()
      ensures threadId == None && startFrame == None && levels == None && format == None
    {
      threadId, startFrame, levels, format := None, None, None, None;
    }

    /** `setThreadId`: rejects null before assigning, so a rejected call keeps
        the old value. */
    method SetThreadId(threadId: Option<Int64>) returns (r: Outcome<NullPropertyException>)
      modifies this`threadId
      ensures threadId.Some? ==> r == Pass && this.threadId == threadId
      ensures threadId.None? ==> r == Fail(NullProperty("threadId")) && this.threadId == old(this.threadId)
    {
      var checked := CheckNotNull(threadId, "threadId");
      if checked.Failure? {
        return Fail(checked.error);
      }
      this.threadId := Some(checked.value);
      return Pass;
    }

    /** `setStartFrame`: optional, null accepted. */
    method SetStartFrame(startFrame: Option<Int64>)
      modifies this`startFrame
      ensures this.startFrame == startFrame
    {
      this.startFrame := startFrame;
    }

    /** `setLevels`: optional, null accepted. */
    method SetLevels(levels: Option<Int64>)
      modifies this`levels
      ensures this.levels == levels
    {
      this.levels := levels;
    }

    /** `setFormat`: optional, null accepted. */
    method SetFormat(format: Option<StackFrameFormat>)
      modifies this`format
      ensures this.format == format
    {
      this.format := format;
    }

    /** `equals(obj)`: true for the same object; false for null or an object
        of another class; otherwise null-aware equality of all four fields. */
    function Equals(obj: object?): (eq: bool)
      reads this, obj
      ensures eq <==> obj != null && obj is StackTraceArguments &&
                      (obj as StackTraceArguments).threadId == threadId &&
                      (obj as StackTraceArguments).startFrame == startFrame &&
                      (obj as StackTraceArguments).levels == levels &&
                      (obj as StackTraceArguments).format == format
    {
      if this == obj then true
      else if obj == null then false
      else if !(obj is StackTraceArguments) then false
      else
        var other := obj as StackTraceArguments;
        && NullSafeEquals(threadId, other.threadId)
        && NullSafeEquals(startFrame, other.startFrame)
        && NullSafeEquals(levels, other.levels)
        && NullSafeEquals(format, other.format)
    }

    /** `hashCode()` over the four fields in declaration order, given
        `Long.hashCode` and `StackFrameFormat.hashCode`. */
    function HashCode(hashLong: Int64 -> Int32, hashFormat: StackFrameFormat -> Int32): (hash: Int32)
      reads this
    {
      HashAll([HashOf(threadId, hashLong), HashOf(startFrame, hashLong),
               HashOf(levels, hashLong), HashOf(format, hashFormat)])
    }
  }

  /** `equals` is an equivalence relation. */
  lemma EqualsIsEquivalence(a: StackTraceArguments, b: StackTraceArguments, c: StackTraceArguments)
    ensures a.Equals(a)
    ensures a.Equals(b) ==> b.Equals(a)
    ensures a.Equals(b) && b.Equals(c) ==> a.Equals(c)
  {
  }

  /** Equal objects have equal hash codes, whatever the field types' hash
      codes are. */
  lemma EqualsImpliesEqualHashCodes(a: StackTraceArguments, b: StackTraceArguments,
                                    hashLong: Int64 -> Int32, hashFormat: StackFrameFormat -> Int32)
    requires a.Equals(b)
    ensures a.HashCode(hashLong, hashFormat) == b.HashCode(hashLong, hashFormat)
  {
  }
}
