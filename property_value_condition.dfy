/** PropertyValueCondition: a property is visible or editable when the value
    of one named property equals an expected value, strictly or loosely. */
module PropertyConditions {
  import opened Wrappers
  import opened PhpValues
  import opened Data
  import opened Palettes

  /** The value the condition compares: a pending input value wins over the
      record's value; with neither an input holding the property nor a record
      there is nothing to compare. */
  function ResolveValue(name: string, model: Option<Record>, input: Option<InputBag>): Option<Value> {
    if input.Some? && HasPropertyValue(input.value, name) then Some(GetPropertyValue(input.value, name))
    else if model.Some? then Some(GetProperty(model.value, name))
    else None
  }

  /** `===` when strict, `==` otherwise. */
  predicate Compare(strict: bool, value: Value, expected: Value) {
    if strict then StrictEquals(value, expected) else LooseEquals(value, expected)
  }

  /** The decision of a condition with the given fields. */
  predicate Matches(name: string, expected: Value, strict: bool,
                    model: Option<Record>, input: Option<InputBag>) {
    match ResolveValue(name, model, input)
    case None => false
    case Some(value) => Compare(strict, value, expected)
  }

  class PropertyValueCondition {
    var propertyName: string
    var propertyValue: Value
    var strict: bool

    /** The name is cast to string and the flag to bool; without arguments
        the condition compares property '' loosely with null. */
    constructor (propertyName: Value := Str(""), propertyValue: Value := Null, strict: Value := Bool(false))
      ensures GetPropertyName() == ToStr(propertyName)
      ensures GetPropertyValue() == propertyValue
      ensures GetStrict() == ToBool(strict)
    {
      this.propertyName := ToStr(propertyName);
      this.propertyValue := propertyValue;
      this.strict := ToBool(strict);
    }

    method SetPropertyName(propertyName: Value) returns (self: PropertyValueCondition)
      modifies this
      ensures self == this
      ensures GetPropertyName() == ToStr(propertyName)
      ensures GetPropertyValue() == old(propertyValue) && GetStrict() == old(strict)
    {
      this.propertyName := ToStr(propertyName);
      self := this;
    }

    function GetPropertyName(): string
      reads this
    {
      propertyName
    }

    method SetPropertyValue(propertyValue: Value) returns (self: PropertyValueCondition)
      modifies this
      ensures self == this
      ensures GetPropertyValue() == propertyValue
      ensures GetPropertyName() == old(propertyName) && GetStrict() == old(strict)
    {
      this.propertyValue := propertyValue;
      self := this;
    }

    function GetPropertyValue(): Value
      reads this
    {
      propertyValue
    }

    method SetStrict(strict: Value) returns (self: PropertyValueCondition)
      modifies this
      ensures self == this
      ensures GetStrict() == ToBool(strict)
      ensures GetPropertyName() == old(propertyName) && GetPropertyValue() == old(propertyValue)
    {
      this.strict := ToBool(strict);
      self := this;
    }

    function GetStrict(): bool
      reads this
    {
      strict
    }

    /** The property and legend the condition is asked about play no part. */
    function Match(model: Option<Record>, input: Option<InputBag>,
                   property: Option<Property>, legend: Legend?): (r: bool)
      reads this
      ensures r ==> (input.Some? && propertyName in input.value) || model.Some?
      ensures input.Some? && propertyName in input.value ==>
                (r <==> Compare(strict, input.value[propertyName], propertyValue))
      ensures (input.None? || propertyName !in input.value) && model.Some? ==>
                (r <==> Compare(strict, GetProperty(model.value, propertyName), propertyValue))
    {
      Matches(propertyName, propertyValue, strict, model, input)
    }

    /** __clone is empty: PHP copies the three fields. */
    method Clone() returns (c: PropertyValueCondition)
      ensures fresh(c)
      ensures c.GetPropertyName() == propertyName
      ensures c.GetPropertyValue() == propertyValue
      ensures c.GetStrict() == strict
    {
      c := new PropertyValueCondition(Str(propertyName), propertyValue, Bool(strict));
    }
  }

  /** A pending input value for the property is the one compared; the record's
      value is ignored, even when it differs. */
  lemma MatchPrefersInput(c: PropertyValueCondition, model: Option<Record>, input: InputBag,
                          property: Option<Property>, legend: Legend?)
    requires c.propertyName in input
    ensures c.Match(model, Some(input), property, legend)
            == Compare(c.strict, input[c.propertyName], c.propertyValue)
  {
  }

  /** Without an input value for the property, a record supplies the value
      (null when the record lacks the property). */
  lemma MatchFallsBackToModel(c: PropertyValueCondition, model: Record, input: Option<InputBag>,
                              property: Option<Property>, legend: Legend?)
    requires input.None? || c.propertyName !in input.value
    ensures c.Match(Some(model), input, property, legend)
            == Compare(c.strict, GetProperty(model, c.propertyName), c.propertyValue)
  {
  }

  /** Without a usable input and without a record the condition fails closed. */
  lemma MatchWithoutSourcesIsFalse(c: PropertyValueCondition, input: Option<InputBag>,
                                   property: Option<Property>, legend: Legend?)
    requires input.None? || c.propertyName !in input.value
    ensures !c.Match(None, input, property, legend)
  {
  }

  /** Of two conditions on the same property and expected value, the strict one
      matching implies the loose one matching, for every pair of sources. */
  lemma StrictMatchImpliesLooseMatch(strictOne: PropertyValueCondition, looseOne: PropertyValueCondition,
                                     model: Option<Record>, input: Option<InputBag>,
                                     property: Option<Property>, legend: Legend?)
    requires strictOne.propertyName == looseOne.propertyName
    requires strictOne.propertyValue == looseOne.propertyValue
    requires strictOne.strict && !looseOne.strict
    ensures strictOne.Match(model, input, property, legend) ==> looseOne.Match(model, input, property, legend)
  {
    match ResolveValue(strictOne.propertyName, model, input)
    case None =>
    case Some(v) => StrictImpliesLoose(v, strictOne.propertyValue);
  }

  /** The result depends on the record and the input only. */
  lemma MatchIgnoresContext(c: PropertyValueCondition, model: Option<Record>, input: Option<InputBag>,
                            p1: Option<Property>, l1: Legend?, p2: Option<Property>, l2: Legend?)
    ensures c.Match(model, input, p1, l1) == c.Match(model, input, p2, l2)
  {
  }

  /** Worked cases: 1 against input '1' fails strictly and holds loosely;
      an input 'B' wins over a record 'A'; a record 'A' alone is compared. */
  lemma MatchExamples(name: string)
    ensures Matches(name, Int(1), true, None, Some(map[name := Str("1")])) == false
    ensures Matches(name, Int(1), false, None, Some(map[name := Str("1")])) == true
    ensures Matches(name, Str("B"), true, Some(map[name := Str("A")]), Some(map[name := Str("B")]))
    ensures Matches(name, Str("A"), true, Some(map[name := Str("A")]), None)
  {
    LooseCoercions();
  }

}
