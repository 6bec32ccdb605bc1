/** The identity and name every customer and employee has (`src/models/Person.ts`).
    Customers and employees hold a `Person` instead of inheriting from it. */
module People {
  import opened Wrappers
  import opened Text

  class Person {
    /** Immutable: the source offers a getter and no setter. */
    const id: string
    var name: string

    /** The constructor stores both values without validating the name. */
    constructor(id: string, name: string)
      ensures this.id == id && this.name == name
    {
      this.id := id;
      this.name := name;
    }

    /** The `name` setter: a blank value is rejected and the name kept;
        otherwise the trimmed value is stored. */
    method SetName(value: string) returns (r: Outcome)
      modifies this`name
      ensures r.Fail? <==> IsBlank(value)
      ensures r.Fail? ==> r.error == EmptyName && name == old(name)
      ensures r.Pass? ==> Some(name) == CheckedName(value)
    {
      match CheckedName(value)
      case None =>
        r := Fail(EmptyName);
      case Some(n) =>
        name := n;
        r := Pass;
    }
  }
}
