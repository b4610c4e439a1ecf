/** `org.eclipse.lsp4j.SemanticTokensRangeParams`: the parameters of the
    `textDocument/semanticTokens/range` request. Its only constructor
    rejects null, and so do both setters, so neither field is ever null. */
module SemanticTokens {
  import opened JavaLang
  import opened LspTypes

  class SemanticTokensRangeParams {
    /** The text document (`@NonNull`). */
    var textDocument: Option<TextDocumentIdentifier>
    /** The range the semantic tokens are requested for (`@NonNull`). */
    var range: Option<Range>

    /** The class invariant: both fields are non-null. */
    ghost predicate Valid()
      reads this
    {
      textDocument.Some? && range.Some?
    }

    /** Allocation with both values already checked; see `New`. */
    constructor Init(textDocument: TextDocumentIdentifier, range: Range)
      ensures Valid()
      ensures this.textDocument == Some(textDocument) && this.range == Some(range)
    {
      this.textDocument := Some(textDocument);
      this.range := Some(range);
    }

    /** `setTextDocument`: rejects null before assigning, so a rejected call
        keeps the old value. */
    method SetTextDocument(textDocument: Option<TextDocumentIdentifier>) returns (r: Outcome<NullPropertyException>)
      requires Valid()
      modifies this`textDocument
      ensures Valid()
      ensures textDocument.Some? ==> r == Pass && this.textDocument == textDocument
      ensures textDocument.None? ==>
                r == Fail(NullProperty("textDocument")) && this.textDocument == old(this.textDocument)
    {
      var checked := CheckNotNull(textDocument, "textDocument");
      if checked.Failure? {
        return Fail(checked.error);
      }
      this.textDocument := Some(checked.value);
      return Pass;
    }

    /** `setRange`: rejects null before assigning, so a rejected call keeps
        the old value. */
    method SetRange(range: Option<Range>) returns (r: Outcome<NullPropertyException>)
      requires Valid()
      modifies this`range
      ensures Valid()
      ensures range.Some? ==> r == Pass && this.range == range
      ensures range.None? ==> r == Fail(NullProperty("range")) && this.range == old(this.range)
    {
      var checked := CheckNotNull(range, "range");
      if checked.Failure? {
        return Fail(checked.error);
      }
      this.range := Some(checked.value);
      return Pass;
    }

    /** `equals(obj)`: true for the same object; false for null or an object
        of another class; otherwise null-aware equality of both fields. */
    function Equals(obj: object?): (eq: bool)
      reads this, obj
      ensures eq <==> obj != null && obj is SemanticTokensRangeParams &&
                      (obj as SemanticTokensRangeParams).textDocument == textDocument &&
                      (obj as SemanticTokensRangeParams).range == range
    {
      if this == obj then true
      else if obj == null then false
      else if !(obj is SemanticTokensRangeParams) then false
      else
        var other := obj as SemanticTokensRangeParams;
        NullSafeEquals(textDocument, other.textDocument) && NullSafeEquals(range, other.range)
    }

    /** `hashCode()` over `textDocument` and `range`, given their hash codes. */
    function HashCode(hashTextDocument: TextDocumentIdentifier -> Int32, hashRange: Range -> Int32): (hash: Int32)
      reads this
    {
      var result := HashStep(1, HashOf(textDocument, hashTextDocument));
      HashStep(result, HashOf(range, hashRange))
    }
  }

  /** `new SemanticTokensRangeParams(textDocument, range)`: checks
      `textDocument`, then `range`, and throws on the first that is null. */
  method New(textDocument: Option<TextDocumentIdentifier>, range: Option<Range>)
    returns (r: Result<SemanticTokensRangeParams, NullPropertyException>)
    ensures r.Success? <==> textDocument.Some? && range.Some?
    ensures r.Success? ==> fresh(r.value) && r.value.Valid() &&
                           r.value.textDocument == textDocument && r.value.range == range
    ensures textDocument.None? ==> r == Failure(NullProperty("textDocument"))
    ensures textDocument.Some? && range.None? ==> r == Failure(NullProperty("range"))
  {
    var checkedDocument := CheckNotNull(textDocument, "textDocument");
    if checkedDocument.Failure? {
      return Failure(checkedDocument.error);
    }
    var checkedRange := CheckNotNull(range, "range");
    if checkedRange.Failure? {
      return Failure(checkedRange.error);
    }
    var params := new SemanticTokensRangeParams.Init(checkedDocument.value, checkedRange.value);
    return Success(params);
  }

  /** `equals` is an equivalence relation. */
  lemma EqualsIsEquivalence(a: SemanticTokensRangeParams, b: SemanticTokensRangeParams, c: SemanticTokensRangeParams)
    ensures a.Equals(a)
    ensures a.Equals(b) ==> b.Equals(a)
    ensures a.Equals(b) && b.Equals(c) ==> a.Equals(c)
  {
  }

  /** Equal objects have equal hash codes, whatever the field types' hash
      codes are. */
  lemma EqualsImpliesEqualHashCodes(a: SemanticTokensRangeParams, b: SemanticTokensRangeParams,
                                    hashTextDocument: TextDocumentIdentifier -> Int32, hashRange: Range -> Int32)
    requires a.Equals(b)
    ensures a.HashCode(hashTextDocument, hashRange) == b.HashCode(hashTextDocument, hashRange)
  {
  }
}
