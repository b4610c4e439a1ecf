/** Protocol value types that the modelled records hold but whose classes are
    not part of this model. Each is compared by its own `equals`, modelled
    as value equality; its `hashCode` is passed to the `HashCode` functions
    that need it. */
module LspTypes {
  /** `org.eclipse.lsp4j.Range`. */
  type Range(==)

  /** `org.eclipse.lsp4j.TextDocumentIdentifier`. */
  type TextDocumentIdentifier(==)

  /** The enum `org.eclipse.lsp4j.SymbolKind`. */
  type SymbolKind(==)

  /** The enum `org.eclipse.lsp4j.SymbolTag`. */
  type SymbolTag(==)
}

module DebugTypes {
  /** `org.eclipse.lsp4j.debug.ValueFormat`. */
  type ValueFormat(==)

  /** The enum `org.eclipse.lsp4j.debug.VariablesArgumentsFilter`. */
  type VariablesArgumentsFilter(==)

  /** `org.eclipse.lsp4j.debug.StackFrameFormat`. */
  type StackFrameFormat(==)
}
