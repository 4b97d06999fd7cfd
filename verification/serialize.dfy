/** The writer half of the persistence grammar (src/file/Serialize.java): every
    property is written as `<tabs>"<name>": <value><ending>`, where the ending is
    an optional ',' followed by an optional newline. */
module Serializer {
  import opened Text

  /** `n` tab characters; a negative count writes none. */
  function AddTabs(n: int): (s: string)
    ensures |s| == (if n < 0 then 0 else n)
    ensures forall i :: 0 <= i < |s| ==> s[i] == '\t'
  {
    if n <= 0 then "" else AddTabs(n - 1) + "\t"
  }

  /** The separator written after a property: the comma comes first. */
  function AddEnding(newline: bool, comma: bool): (s: string)
    ensures |s| == (if comma then 1 else 0) + (if newline then 1 else 0)
    ensures comma ==> s[0] == ','
    ensures newline ==> s[|s| - 1] == '\n'
  {
    (if comma then "," else "") + (if newline then "\n" else "")
  }

  function Quote(s: string): string {
    "\"" + s + "\""
  }

  /** The part of a property line before its value. */
  function Key(name: string, tabs: int): string {
    AddTabs(tabs) + Quote(name) + ": "
  }

  function AddStringProperty(name: string, value: string, tabs: int, newline: bool, comma: bool): string {
    Key(name, tabs) + Quote(value) + AddEnding(newline, comma)
  }

  function AddIntProperty(name: string, value: int, tabs: int, newline: bool, comma: bool): string {
    Key(name, tabs) + IntText(value) + AddEnding(newline, comma)
  }

  /** Floats carry an 'f' suffix after Java's Float.toString text. */
  function AddFloatProperty(name: string, value: real, tabs: int, newline: bool, comma: bool): string
    requires Printable(value)
  {
    Key(name, tabs) + FloatText(value) + "f" + AddEnding(newline, comma)
  }

  function BoolText(b: bool): string {
    if b then "true" else "false"
  }

  function AddBooleanProperty(name: string, value: bool, tabs: int, newline: bool, comma: bool): string {
    Key(name, tabs) + BoolText(value) + AddEnding(newline, comma)
  }

  function BeginObjectProperty(name: string, tabs: int): string {
    AddTabs(tabs) + Quote(name) + ": {" + AddEnding(true, false)
  }

  function CloseObjectProperty(tabs: int): string {
    AddTabs(tabs) + "}"
  }
}
