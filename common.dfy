/** Small value types shared by every view of the boarding-house ledger. */
module Common {

  datatype Option<T> = None | Some(value: T)

  /** What a save handler did: wrote to the tables, or returned early with a reason. */
  datatype Outcome<E> = Done | Rejected(reason: E)

  /**
   * The outcome of converting a form text field with Python's float(), int() or
   * Decimal(): the field was left blank, the text is not a number, or it is one.
   * Amounts are in centavos.
   */
  datatype NumberField = Blank | NotANumber | Number(value: int)

  /** The badge colours the views paint status cells with. */
  datatype Color =
    | Green | Red | Orange | Grey
    | Orange700 | Green700 | Red700 | Grey700 | Blue700

  /** What a table cell holds: a text control, or a badge container wrapping a status text. */
  datatype CellContent = TextControl(value: string) | Badge(text: string, color: Color)

  /**
   * `cell.content.value`: a text control has a value; a container has no
   * such attribute, so reading it raises (None here).
   */
  function ContentValue(c: CellContent): (r: Option<string>)
    ensures r.None? <==> c.Badge?
    ensures c.TextControl? ==> r == Some(c.value)
  {
    if c.TextControl? then Some(c.value) else None
  }
}
