/** Palettes: an ordered set of legends, held by object identity, with an
    optional condition deciding whether the palette applies to a record. */
module Palettes {
  import opened Wrappers
  import opened Errors
  import opened PhpValues
  import opened Data
  import opened Seqs

  /** An editable property descriptor, opaque to the palette. */
  datatype Property = Property(name: string)

  /** What a legend shows for a record and an input bag; legend internals
      (its properties and their conditions) are not part of this model. */
  type PropertyFilter = (Option<Record>, InputBag) -> seq<Property>

  /** What a palette condition decides for a record and an input bag. */
  type PaletteRule = (Option<Record>, InputBag) -> bool

  class Legend {
    var name: string
    /** The back-reference to the palette the legend was last added to. */
    var palette: Palette?
    var filter: PropertyFilter

    constructor (name: string, filter: PropertyFilter)
      ensures this.name == name && this.filter == filter && palette == null
    {
      this.name := name;
      this.filter := filter;
      palette := null;
    }

    function GetName(): string
      reads this
    {
      name
    }

    function GetProperties(model: Option<Record>, input: InputBag): seq<Property>
      reads this
    {
      filter(model, input)
    }

    method SetPalette(palette: Palette?)
      modifies this`palette
      ensures this.palette == palette
    {
      this.palette := palette;
    }

    /** PHP's default object copy: every field copied, the back-reference too. */
    method Clone() returns (c: Legend)
      ensures fresh(c)
      ensures c.name == name && c.filter == filter && c.palette == palette
    {
      c := new Legend(name, filter);
      c.palette := palette;
    }
  }

  class PaletteCondition {
    var rule: PaletteRule

    constructor (rule: PaletteRule)
      ensures this.rule == rule
    {
      this.rule := rule;
    }

    function Match(model: Option<Record>, input: InputBag): bool
      reads this
    {
      rule(model, input)
    }

    method Clone() returns (c: PaletteCondition)
      ensures fresh(c) && c.rule == rule
    {
      c := new PaletteCondition(rule);
    }
  }

  /** The legends' visible properties, concatenated in legend order. */
  function PropertiesOf(legends: seq<Legend>, model: Option<Record>, input: InputBag): seq<Property>
    reads legends
  {
    if legends == [] then []
    else legends[0].GetProperties(model, input) + PropertiesOf(legends[1..], model, input)
  }

  /** One more legend at the end adds its properties at the end. */
  lemma {:induction false} PropertiesOfAppend(legends: seq<Legend>, l: Legend, model: Option<Record>, input: InputBag)
    ensures PropertiesOf(legends + [l], model, input)
            == PropertiesOf(legends, model, input) + l.GetProperties(model, input)
  {
    if legends != [] {
      assert (legends + [l])[1..] == legends[1..] + [l];
      PropertiesOfAppend(legends[1..], l, model, input);
    }
  }

  /** Reference definitions: the number of properties the legends show, and
      the bag of them, legend by legend. */
  function PropertyCount(legends: seq<Legend>, model: Option<Record>, input: InputBag): nat
    reads legends
  {
    if legends == [] then 0
    else |legends[0].GetProperties(model, input)| + PropertyCount(legends[1..], model, input)
  }

  function PropertyBag(legends: seq<Legend>, model: Option<Record>, input: InputBag): multiset<Property>
    reads legends
  {
    if legends == [] then multiset{}
    else multiset(legends[0].GetProperties(model, input)) + PropertyBag(legends[1..], model, input)
  }

  /** The aggregation neither drops nor merges: every legend contributes all
      of its properties, duplicates included, so the result is exactly as long
      as the legends' lists together and holds exactly the union of their bags. */
  lemma PropertiesOfContents(legends: seq<Legend>, model: Option<Record>, input: InputBag)
    ensures |PropertiesOf(legends, model, input)| == PropertyCount(legends, model, input)
    ensures multiset(PropertiesOf(legends, model, input)) == PropertyBag(legends, model, input)
    ensures forall i :: 0 <= i < |legends| ==>
              multiset(legends[i].GetProperties(model, input)) <= multiset(PropertiesOf(legends, model, input))
    ensures forall p :: p in PropertiesOf(legends, model, input) <==>
              exists i :: 0 <= i < |legends| && p in legends[i].GetProperties(model, input)
  {
    PropertiesOfCounts(legends, model, input);
    forall i | 0 <= i < |legends|
      ensures multiset(legends[i].GetProperties(model, input)) <= multiset(PropertiesOf(legends, model, input))
    {
      PropertiesOfIncludes(legends, i, model, input);
    }
    forall p
      ensures p in PropertiesOf(legends, model, input) <==>
              exists i :: 0 <= i < |legends| && p in legends[i].GetProperties(model, input)
    {
      PropertiesOfMember(legends, p, model, input);
    }
  }

  lemma {:induction false} PropertiesOfCounts(legends: seq<Legend>, model: Option<Record>, input: InputBag)
    ensures |PropertiesOf(legends, model, input)| == PropertyCount(legends, model, input)
    ensures multiset(PropertiesOf(legends, model, input)) == PropertyBag(legends, model, input)
  {
    if legends != [] {
      PropertiesOfCounts(legends[1..], model, input);
    }
  }

  lemma {:induction false} PropertiesOfIncludes(legends: seq<Legend>, i: nat, model: Option<Record>, input: InputBag)
    requires i < |legends|
    ensures multiset(legends[i].GetProperties(model, input)) <= multiset(PropertiesOf(legends, model, input))
  {
    if i > 0 {
      assert legends[i] == legends[1..][i - 1];
      PropertiesOfIncludes(legends[1..], i - 1, model, input);
    }
  }

  lemma {:induction false} PropertiesOfMember(legends: seq<Legend>, p: Property, model: Option<Record>, input: InputBag)
    ensures p in PropertiesOf(legends, model, input) <==>
            exists i :: 0 <= i < |legends| && p in legends[i].GetProperties(model, input)
  {
    if legends != [] {
      PropertiesOfMember(legends[1..], p, model, input);
      if p in PropertiesOf(legends, model, input) && p !in legends[0].GetProperties(model, input) {
        var j :| 0 <= j < |legends[1..]| && p in legends[1..][j].GetProperties(model, input);
        assert legends[j + 1] == legends[1..][j];
      }
      if exists i :: 0 <= i < |legends| && p in legends[i].GetProperties(model, input) {
        var i :| 0 <= i < |legends| && p in legends[i].GetProperties(model, input);
        if i > 0 {
          assert legends[i] == legends[1..][i - 1];
        }
      }
    }
  }

  /** Two legends [P1] and [P2] give [P1, P2]. */
  lemma PropertiesOfTwoLegends(l1: Legend, l2: Legend, model: Option<Record>, input: InputBag)
    ensures PropertiesOf([l1, l2], model, input)
            == l1.GetProperties(model, input) + l2.GetProperties(model, input)
  {
    assert [l1, l2] == [l1] + [l2];
    PropertiesOfAppend([l1], l2, model, input);
    assert [l1][1..] == [];
    assert PropertiesOf([l1], model, input) == l1.GetProperties(model, input) + [];
  }

  /** PHP's `==` between a legend's name and the name asked for. */
  predicate NamesMatch(legendName: string, name: string) {
    LooseEquals(Str(legendName), Str(name))
  }

  class Palette {
    /** Null until setName is called. */
    var name: Option<string>
    /** The legends in insertion order; the source keys them by object hash. */
    var legends: seq<Legend>
    var condition: PaletteCondition?

    /** One entry per object: the array is keyed by spl_object_hash. */
    ghost predicate Valid()
      reads this
    {
      NoDup(legends)
    }

    constructor ()
      ensures Valid() && name == None && legends == [] && condition == null
    {
      name := None;
      legends := [];
      condition := null;
    }

    method SetName(name: Value) returns (self: Palette)
      modifies this`name
      ensures self == this && GetName() == Some(ToStr(name))
    {
      this.name := Some(ToStr(name));
      self := this;
    }

    function GetName(): Option<string>
      reads this
    {
      name
    }

    method GetProperties(model: Option<Record>, input: InputBag) returns (properties: seq<Property>)
      ensures properties == PropertiesOf(legends, model, input)
    {
      properties := [];
      var i := 0;
      while i < |legends|
        invariant 0 <= i <= |legends|
        invariant properties == PropertiesOf(legends[..i], model, input)
      {
        PropertiesOfAppend(legends[..i], legends[i], model, input);
        assert legends[..i + 1] == legends[..i] + [legends[i]];
        properties := properties + legends[i].GetProperties(model, input);
        i := i + 1;
      }
      assert legends[..i] == legends;
    }

    method ClearLegends() returns (self: Palette)
      modifies this`legends
      ensures self == this && Valid() && legends == []
    {
      legends := [];
      self := this;
    }

    method SetLegends(ls: seq<Legend>) returns (self: Palette)
      modifies this`legends, ls`palette
      ensures self == this && Valid()
      ensures legends == AppendAll([], ls)
      ensures forall l :: l in ls ==> l.palette == this
    {
      self := ClearLegends();
      self := AddLegends(ls);
    }

    method AddLegends(ls: seq<Legend>) returns (self: Palette)
      requires Valid()
      modifies this`legends, ls`palette
      ensures self == this && Valid()
      ensures legends == AppendAll(old(legends), ls)
      ensures forall l :: l in ls ==> l.palette == this
    {
      var i := 0;
      while i < |ls|
        invariant 0 <= i <= |ls|
        invariant Valid()
        invariant legends == AppendAll(old(legends), ls[..i])
        invariant forall j :: 0 <= j < i ==> ls[j].palette == this
      {
        assert ls[..i + 1][..i] == ls[..i];
        self := AddLegend(ls[i]);
        i := i + 1;
      }
      assert ls[..i] == ls;
      self := this;
    }

    method HasLegend(name: string) returns (found: bool)
      ensures found <==> exists i :: 0 <= i < |legends| && NamesMatch(legends[i].name, name)
    {
      var i := 0;
      while i < |legends|
        invariant 0 <= i <= |legends|
        invariant forall j :: 0 <= j < i ==> !NamesMatch(legends[j].name, name)
      {
        if NamesMatch(legends[i].GetName(), name) {
          return true;
        }
        i := i + 1;
      }
      return false;
    }

    /** Legends are held by identity: a contained legend sits at exactly one
        position of a valid palette, and an absent one at none. */
    function ContainsLegend(legend: Legend): (r: bool)
      reads this
      ensures !r ==> forall i :: 0 <= i < |legends| ==> legends[i] != legend
      ensures r && Valid() ==>
                exists i :: 0 <= i < |legends| && legends[i] == legend &&
                            forall j :: 0 <= j < |legends| && legends[j] == legend ==> j == i
    {
      legend in legends
    }

    method AddLegend(legend: Legend) returns (self: Palette)
      requires Valid()
      modifies this`legends, legend`palette
      ensures self == this && Valid()
      ensures legends == AppendIfAbsent(old(legends), legend)
      ensures ContainsLegend(legend) && legend.palette == this
    {
      AppendIfAbsentSpec(legends, legend);
      legends := AppendIfAbsent(legends, legend);
      legend.SetPalette(this);
      self := this;
    }

    method RemoveLegend(legend: Legend) returns (self: Palette)
      requires Valid()
      modifies this`legends
      ensures self == this && Valid()
      ensures legends == Without(old(legends), legend)
      ensures !ContainsLegend(legend)
    {
      WithoutNoDup(legends, legend);
      WithoutMembers(legends, legend);
      legends := Without(legends, legend);
      self := this;
    }

    method GetLegend(name: string) returns (r: Result<Legend, Error>)
      ensures r.Success? <==> exists i :: 0 <= i < |legends| && NamesMatch(legends[i].name, name)
      ensures r.Success? ==> exists i :: 0 <= i < |legends| && legends[i] == r.value
                               && NamesMatch(legends[i].name, name)
                               && forall j :: 0 <= j < i ==> !NamesMatch(legends[j].name, name)
      ensures r.Failure? ==> r.error == Runtime("Legend \"" + name + "\" does not exists")
    {
      var i := 0;
      while i < |legends|
        invariant 0 <= i <= |legends|
        invariant forall j :: 0 <= j < i ==> !NamesMatch(legends[j].name, name)
      {
        if NamesMatch(legends[i].GetName(), name) {
          return Success(legends[i]);
        }
        i := i + 1;
      }
      return Failure(Runtime("Legend \"" + name + "\" does not exists"));
    }

    /** `array_values($this->legends)` */
    function GetLegends(): (r: seq<Legend>)
      reads this
      requires Valid()
      ensures NoDup(r)
      ensures forall i :: 0 <= i < |r| ==> ContainsLegend(r[i])
      ensures forall i :: 0 <= i < |legends| ==> legends[i] in r
      ensures r == legends
    {
      legends
    }

    method SetCondition(condition: PaletteCondition?)
      modifies this`condition
      ensures GetCondition() == condition
    {
      this.condition := condition;
    }

    function GetCondition(): PaletteCondition?
      reads this
    {
      condition
    }

    /** __clone as written: the loop runs over a freshly emptied local array,
        so the copy has no legends, and cloning a null condition is a fatal
        error. The copy starts as PHP's field-by-field copy of this palette. */
    method CloneAsWritten() returns (r: Result<Palette, Error>)
      ensures r.Failure? <==> condition == null
      ensures r.Failure? ==> r.error == Fatal("__clone method called on non-object")
      ensures r.Success? ==> fresh(r.value) && r.value.legends == [] && r.value.name == name
                             && r.value.condition != null && fresh(r.value.condition)
                             && r.value.condition.rule == condition.rule
    {
      var copy := new Palette();
      copy.name := name;
      copy.legends := legends;
      copy.condition := condition;
      // The foreach runs over the empty local array, so it copies nothing.
      var local: seq<Legend> := [];
      copy.legends := local;
      if condition == null {
        return Failure(Fatal("__clone method called on non-object"));
      }
      var c := condition.Clone();
      copy.condition := c;
      r := Success(copy);
    }

    /** __clone as intended: every legend and the condition, when there is
        one, are copied, so the copy can change without affecting this palette. */
    method Clone() returns (copy: Palette)
      requires Valid()
      ensures fresh(copy) && copy.Valid() && copy.name == name
      ensures |copy.legends| == |legends|
      ensures forall i :: 0 <= i < |legends| ==>
                fresh(copy.legends[i]) && copy.legends[i].name == legends[i].name
                && copy.legends[i].filter == legends[i].filter
                && copy.legends[i].palette == legends[i].palette
      ensures copy.condition == null <==> condition == null
      ensures condition != null ==> fresh(copy.condition) && copy.condition.rule == condition.rule
    {
      var copied: seq<Legend> := [];
      var i := 0;
      while i < |legends|
        invariant 0 <= i <= |legends| && |copied| == i && NoDup(copied)
        invariant forall j :: 0 <= j < i ==>
                    fresh(copied[j]) && copied[j].name == legends[j].name
                    && copied[j].filter == legends[j].filter
                    && copied[j].palette == legends[j].palette
      {
        var c := legends[i].Clone();
        copied := copied + [c];
        i := i + 1;
      }
      copy := new Palette();
      copy.name := name;
      copy.legends := copied;
      if condition != null {
        var c := condition.Clone();
        copy.condition := c;
      }
    }
  }

  /** A palette with one legend whose copy, taken as written, has none. */
  method CloneDropsLegendsWitness() returns (original: Palette, copy: Palette)
    ensures |original.legends| == 1 && copy.legends == []
  {
    original := new Palette();
    var legend := new Legend("title", (model: Option<Record>, input: InputBag) => []);
    var _ := original.AddLegend(legend);
    var condition := new PaletteCondition((model: Option<Record>, input: InputBag) => true);
    original.SetCondition(condition);
    var r := original.CloneAsWritten();
    copy := r.value;
  }

  /** A palette without a condition cannot be copied as written. */
  method CloneNullConditionWitness() returns (r: Result<Palette, Error>)
    ensures r.Failure?
  {
    var palette := new Palette();
    r := palette.CloneAsWritten();
  }
}
