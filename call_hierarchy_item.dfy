/** `org.eclipse.lsp4j.CallHierarchyItem`: one item of a call hierarchy.
    Five of its seven properties are `@NonNull` and their setters reject
    null; no constructor is declared, so a new item has every field null
    and non-null is not an invariant of the class. */
module CallHierarchy {
  import opened JavaLang
  import opened LspTypes

  class CallHierarchyItem {
    /** The name of the item (`@NonNull`). */
    var name: Option<string>
    /** More detail, e.g. the signature of a function. */
    var detail: Option<string>
    /** The kind of the item (`@NonNull`). */
    var kind: Option<SymbolKind>
    /** Tags for the item: an array whose elements may themselves be null. */
    var tags: Option<seq<Option<SymbolTag>>>
    /** The resource identifier of the item (`@NonNull`). */
    var uri: Option<string>
    /** The range enclosing the symbol (`@NonNull`). */
    var range: Option<Range>
    /** The range to select when the symbol is picked (`@NonNull`). */
    var selectionRange: Option<Range>

    /** No constructor is declared: Java's default one leaves every field null. */
    constructor ()
      ensures name == None && detail == None && kind == None && tags == None
      ensures uri == None && range == None && selectionRange == None
    {
      name, detail, kind, tags := None, None, None, None;
      uri, range, selectionRange := None, None, None;
    }

    /** `setName`: rejects null before assigning. */
    method SetName(name: Option<string>) returns (r: Outcome<NullPropertyException>)
      modifies this`name
      ensures name.Some? ==> r == Pass && this.name == name
      ensures name.None? ==> r == Fail(NullProperty("name")) && this.name == old(this.name)
    {
      var checked := CheckNotNull(name, "name");
      if checked.Failure? {
        return Fail(checked.error);
      }
      this.name := Some(checked.value);
      return Pass;
    }

    /** `setDetail`: null accepted. */
    method SetDetail(detail: Option<string>)
      modifies this`detail
      ensures this.detail == detail
    {
      this.detail := detail;
    }

    /** `setKind`: rejects null before assigning. */
    method SetKind(kind: Option<SymbolKind>) returns (r: Outcome<NullPropertyException>)
      modifies this`kind
      ensures kind.Some? ==> r == Pass && this.kind == kind
      ensures kind.None? ==> r == Fail(NullProperty("kind")) && this.kind == old(this.kind)
    {
      var checked := CheckNotNull(kind, "kind");
      if checked.Failure? {
        return Fail(checked.error);
      }
      this.kind := Some(checked.value);
      return Pass;
    }

    /** `setTags`: null accepted. */
    method SetTags(tags: Option<seq<Option<SymbolTag>>>)
      modifies this`tags
      ensures this.tags == tags
    {
      this.tags := tags;
    }

    /** `setUri`: rejects null before assigning. */
    method SetUri(uri: Option<string>) returns (r: Outcome<NullPropertyException>)
      modifies this`uri
      ensures uri.Some? ==> r == Pass && this.uri == uri
      ensures uri.None? ==> r == Fail(NullProperty("uri")) && this.uri == old(this.uri)
    {
      var checked := CheckNotNull(uri, "uri");
      if checked.Failure? {
        return Fail(checked.error);
      }
      this.uri := Some(checked.value);
      return Pass;
    }

    /** `setRange`: rejects null before assigning. */
    method SetRange(range: Option<Range>) returns (r: Outcome<NullPropertyException>)
      modifies this`range
      ensures range.Some? ==> r == Pass && this.range == range
      ensures range.None? ==> r == Fail(NullProperty("range")) && this.range == old(this.range)
    {
      var checked := CheckNotNull(range, "range");
      if checked.Failure? {
        return Fail(checked.error);
      }
      this.range := Some(checked.value);
      return Pass;
    }

    /** `setSelectionRange`: rejects null before assigning. */
    method SetSelectionRange(selectionRange: Option<Range>) returns (r: Outcome<NullPropertyException>)
      modifies this`selectionRange
      ensures selectionRange.Some? ==> r == Pass && this.selectionRange == selectionRange
      ensures selectionRange.None? ==>
                r == Fail(NullProperty("selectionRange")) && this.selectionRange == old(this.selectionRange)
    {
      var checked := CheckNotNull(selectionRange, "selectionRange");
      if checked.Failure? {
        return Fail(checked.error);
      }
      this.selectionRange := Some(checked.value);
      return Pass;
    }

    /** `equals(obj)`: true for the same object; false for null or an object
        of another class; otherwise null-aware equality of all seven fields,
        `tags` compared element by element with `Arrays.deepEquals`. */
    function Equals(obj: object?): (eq: bool)
      reads this, obj
      ensures eq <==> obj != null && obj is CallHierarchyItem &&
                      (obj as CallHierarchyItem).name == name &&
                      (obj as CallHierarchyItem).detail == detail &&
                      (obj as CallHierarchyItem).kind == kind &&
                      (obj as CallHierarchyItem).tags == tags &&
                      (obj as CallHierarchyItem).uri == uri &&
                      (obj as CallHierarchyItem).range == range &&
                      (obj as CallHierarchyItem).selectionRange == selectionRange
    {
      if this == obj then true
      else if obj == null then false
      else if !(obj is CallHierarchyItem) then false
      else
        var other := obj as CallHierarchyItem;
        DeepEqualsIsContentEquality(tags, other.tags);
        && NullSafeEquals(name, other.name)
        && NullSafeEquals(detail, other.detail)
        && NullSafeEquals(kind, other.kind)
        && (if tags.None? then other.tags.None? else DeepEquals(tags, other.tags))
        && NullSafeEquals(uri, other.uri)
        && NullSafeEquals(range, other.range)
        && NullSafeEquals(selectionRange, other.selectionRange)
    }

    /** `hashCode()` over the seven fields in declaration order, `tags`
        hashed with `Arrays.deepHashCode`, given the field types' hash codes. */
    function HashCode(hashString: string -> Int32, hashKind: SymbolKind -> Int32,
                      hashTag: SymbolTag -> Int32, hashRange: Range -> Int32): (hash: Int32)
      reads this
    {
      var tagsHash := match tags case None => 0 case Some(a) => DeepHashCode(a, hashTag);
      HashAll([HashOf(name, hashString), HashOf(detail, hashString), HashOf(kind, hashKind),
               tagsHash, HashOf(uri, hashString), HashOf(range, hashRange),
               HashOf(selectionRange, hashRange)])
    }
  }

  /** `equals` is an equivalence relation. */
  lemma EqualsIsEquivalence(a: CallHierarchyItem, b: CallHierarchyItem, c: CallHierarchyItem)
    ensures a.Equals(a)
    ensures a.Equals(b) ==> b.Equals(a)
    ensures a.Equals(b) && b.Equals(c) ==> a.Equals(c)
  {
  }

  /** Equal items have equal hash codes, whatever the field types' hash codes
      are; in particular element-wise equal tag arrays hash alike. */
  lemma EqualsImpliesEqualHashCodes(a: CallHierarchyItem, b: CallHierarchyItem,
                                    hashString: string -> Int32, hashKind: SymbolKind -> Int32,
                                    hashTag: SymbolTag -> Int32, hashRange: Range -> Int32)
    requires a.Equals(b)
    ensures a.HashCode(hashString, hashKind, hashTag, hashRange) == b.HashCode(hashString, hashKind, hashTag, hashRange)
  {
  }
}
