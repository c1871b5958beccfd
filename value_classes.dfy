/** `get_value_class` (PyDSS/value_storage.py): the closed lookup from a
    class name to a value record class. */
module ValueClasses {
  import opened Errors

  /** The classes the lookup can return. */
  datatype ValueClass = ValueByNumberClass | ValueByLabelClass

  /** The name each class is looked up by. */
  function ClassName(c: ValueClass): string
  {
    match c
    case ValueByNumberClass => "ValueByNumber"
    case ValueByLabelClass => "ValueByLabel"
  }

  /** `str(exc)` of the InvalidParameter raised for an unknown name. */
  function InvalidClassMessage(className: string): string
  {
    "invalid class name=" + className
  }

  /** `get_value_class(class_name)`: the class named `className`, and
      InvalidParameter for every other name. */
  function GetValueClass(className: string): (r: Result<ValueClass>)
    ensures r.Ok? <==> className == "ValueByNumber" || className == "ValueByLabel"
    ensures r.Ok? ==> ClassName(r.value) == className
    ensures r.Err? ==> r.error == InvalidParameter(InvalidClassMessage(className))
  {
    if className == "ValueByNumber" then Ok(ValueByNumberClass)
    else if className == "ValueByLabel" then Ok(ValueByLabelClass)
    else Err(InvalidParameter(InvalidClassMessage(className)))
  }

  /** Looking a class up by its own name gives it back, so the lookup is
      onto the two classes and neither name is shadowed. */
  lemma LookupByName(c: ValueClass)
    ensures GetValueClass(ClassName(c)) == Ok(c)
  {
  }

  /** `ValueByString` is a value record class but not one the lookup knows. */
  lemma StringClassRefused()
    ensures GetValueClass("ValueByString") == Err(InvalidParameter("invalid class name=ValueByString"))
  {
  }
}
