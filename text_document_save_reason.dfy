/** `org.eclipse.lsp4j.TextDocumentSaveReason`: the reason a text document is
    saved, sent with the `textDocument/willSave` notification as the integer
    1, 2 or 3. */
module SaveReasons {
  import opened JavaLang

  /** The `IllegalArgumentException("Illegal enum value: " + value)` thrown by
      `forValue`. */
  datatype IllegalEnumValueException = IllegalEnumValue(value: int)

  /** The enum constants, in declaration order. */
  datatype TextDocumentSaveReason =
    | Manual      // manually triggered: the user pressed save, debugging started, or an API call
    | AfterDelay  // automatic after a delay
    | FocusOut    // the editor lost focus
  {
    /** `getValue()`: the integer given to the constant's constructor. */
    function GetValue(): (value: Int32)
      ensures 1 <= value <= 3
    {
      match this
      case Manual => 1
      case AfterDelay => 2
      case FocusOut => 3
    }
  }

  /** `TextDocumentSaveReason.values()`: every constant, in declaration order.
      Each constant's value is its 1-based position, which is what `forValue`
      relies on. */
  function Values(): (all: seq<TextDocumentSaveReason>)
    ensures |all| == 3
    ensures forall i :: 0 <= i < |all| ==> all[i].GetValue() == i + 1
    ensures forall r: TextDocumentSaveReason :: all[r.GetValue() - 1] == r
  {
    [Manual, AfterDelay, FocusOut]
  }

  /** `forValue(value)`: the constant at position `value - 1` of `values()`,
      or an exception when `value` is outside 1..3. */
  function ForValue(value: Int32): (r: Result<TextDocumentSaveReason, IllegalEnumValueException>)
    ensures r.Success? <==> 1 <= value <= 3
    ensures r.Success? ==> r.value.GetValue() == value
    ensures r.Failure? ==> r.error == IllegalEnumValue(value)
  {
    var allValues := Values();
    if value < 1 || value > |allValues| then Failure(IllegalEnumValue(value))
    else Success(allValues[value - 1])
  }

  /** Decoding an encoded reason gives it back. */
  lemma ForValueOfGetValue(r: TextDocumentSaveReason)
    ensures ForValue(r.GetValue()) == Success(r)
  {
  }

  /** Encoding a decoded integer gives it back. */
  lemma GetValueOfForValue(value: Int32)
    requires ForValue(value).Success?
    ensures ForValue(value).value.GetValue() == value
  {
  }

  /** Distinct constants have distinct values, all in 1..3. */
  lemma GetValueIsInjective(r: TextDocumentSaveReason, s: TextDocumentSaveReason)
    ensures 1 <= r.GetValue() <= 3
    ensures r.GetValue() == s.GetValue() ==> r == s
  {
  }
}
