/** The two data sources a condition reads: a record (ModelInterface) and a
    bag of submitted, not yet saved values (PropertyValueBag). Both are shown
    only through their use, so both are maps from property name to value. */
module Data {
  import opened PhpValues

  /** The property values of a record. */
  type Record = map<string, Value>

  /** The pending input values, keyed by property name. */
  type InputBag = map<string, Value>

  /** `$model->getProperty($name)`; a property the record lacks reads as null. */
  function GetProperty(model: Record, name: string): Value {
    if name in model then model[name] else Null
  }

  /** `$input->hasPropertyValue($name)` */
  predicate HasPropertyValue(input: InputBag, name: string) {
    name in input
  }

  /** `$input->getPropertyValue($name)` */
  function GetPropertyValue(input: InputBag, name: string): Value
    requires HasPropertyValue(input, name)
  {
    input[name]
  }
}
