/**
 * print_id: how one uid or gid is written under the three display modes.
 */
module Format {
  import opened Wrappers
  import Decimal

  /** enum display: FULL is `id(name)`, NAMES the name alone, NUMBERS the number alone. */
  datatype Display = Full | Names | Numbers

  /**
   * The text print_id writes for `id`, whose database name is `name` (None when the
   * lookup failed). The body follows the two conditionals of the C code; the
   * postconditions give the outcome mode by mode.
   */
  function PrintId(name: Option<string>, id: nat, mode: Display): (s: string)
    ensures s == match mode
      case Numbers => Decimal.Render(id)
      case Names => (if name.Some? then name.value else Decimal.Render(id))
      case Full => Decimal.Render(id) + (if name.Some? then "(" + name.value + ")" else [])
    ensures mode == Names && (name.None? || name.value != []) ==> s != []
  {
    (if mode == Full || mode == Numbers || name.None? then Decimal.Render(id) else [])
    + (if name.Some? then
         (if mode == Full then "(" + name.value + ")"
          else if mode == Names then name.value
          else [])
       else [])
  }

  /** In NUMBERS mode, and in NAMES mode without a name, the id reads back from the text. */
  lemma NumericReadsBack(name: Option<string>, id: nat, mode: Display)
    requires mode == Numbers || (mode == Names && name.None?)
    ensures Decimal.IsDigits(PrintId(name, id, mode))
    ensures Decimal.Parse(PrintId(name, id, mode)) == id
  {
    Decimal.ParseRender(id);
  }

  /** In FULL mode the leading digits of the text read back as the id, name or no name. */
  lemma FullReadsBack(name: Option<string>, id: nat)
    ensures Decimal.Parse(Decimal.LeadingDigits(PrintId(name, id, Full))) == id
  {
    var digits := Decimal.Render(id);
    var rest := if name.Some? then "(" + name.value + ")" else [];
    assert PrintId(name, id, Full) == digits + rest;
    Decimal.LeadingDigitsOf(digits, rest);
    Decimal.ParseRender(id);
  }

  /** print_id writes no newline unless the name itself holds one. */
  lemma NoNewline(name: Option<string>, id: nat, mode: Display)
    requires name.Some? ==> '\n' !in name.value
    ensures '\n' !in PrintId(name, id, mode)
  {
  }
}
