/** The definition registry of a data definition (DefaultContainer): one
    definition object per well-known name, kept in the order of first
    registration, as the keys of a PHP array are. */
module DefinitionRegistry {
  import opened Wrappers
  import opened Errors
  import opened PhpValues
  import opened Seqs

  /** The marker interfaces a definition may implement beyond DefinitionInterface. */
  datatype Kind = BasicKind | PropertiesKind | PalettesKind | DataProviderKind

  /** Any value handed to addDefinitions: an opaque object that may or may not
      implement DefinitionInterface, and the typed interfaces it implements. */
  datatype Entry = Entry(id: nat, isDefinition: bool, kinds: set<Kind>)

  /** An object implementing DefinitionInterface. */
  type Definition = e: Entry | e.isDefinition witness Entry(0, true, {})

  /** The NAME constants of the four typed definition interfaces. */
  const BasicName: string := "basic"
  const PropertiesName: string := "properties"
  const PalettesName: string := "palettes"
  const DataProviderName: string := "dataprovider"

  /** The registry's contents: the array's keys in order and its entries. */
  datatype Store = Store(names: seq<string>, definitions: map<string, Definition>)

  /** The key order lists exactly the registered names, each once. */
  ghost predicate Wf(s: Store) {
    && NoDup(s.names)
    && forall n :: n in s.names <==> n in s.definitions
  }

  const Empty: Store := Store([], map[])

  /** `isset($this->definitions[$name])`; a stored definition is never null. */
  predicate Has(s: Store, name: string) {
    name in s.definitions
  }

  function Get(s: Store, name: string): Result<Definition, Error> {
    if !Has(s, name) then
      Failure(InvalidArgument("Definition " + name + " is not registered in the configuration."))
    else
      Success(s.definitions[name])
  }

  /** `$this->definitions[$name] = $definition` */
  function Put(s: Store, name: string, d: Definition): Store {
    Store(AppendIfAbsent(s.names, name), s.definitions[name := d])
  }

  /** `unset($this->definitions[$name])` */
  function Remove(s: Store, name: string): Store {
    Store(Without(s.names, name), s.definitions - {name})
  }

  /** The names of a batch of entries, in iteration order. */
  function EntryNames(entries: seq<(string, Entry)>): (r: seq<string>)
    ensures |r| == |entries|
    ensures forall i :: 0 <= i < |entries| ==> r[i] == entries[i].0
  {
    if entries == [] then []
    else EntryNames(entries[..|entries| - 1]) + [entries[|entries| - 1].0]
  }

  predicate AllDefinitions(entries: seq<(string, Entry)>) {
    forall i :: 0 <= i < |entries| ==> entries[i].1.isDefinition
  }

  /** The entries stored one by one, in iteration order. */
  function PutAll(s: Store, entries: seq<(string, Entry)>): Store
    requires AllDefinitions(entries)
  {
    if entries == [] then s
    else
      var last := entries[|entries| - 1];
      Put(PutAll(s, entries[..|entries| - 1]), last.0, last.1)
  }

  /** The position of the first entry that is not a DefinitionInterface. */
  function FirstInvalid(entries: seq<(string, Entry)>): (r: Option<nat>)
    ensures r.None? <==> AllDefinitions(entries)
    ensures r.Some? ==> r.value < |entries| && !entries[r.value].1.isDefinition
                        && forall j :: 0 <= j < r.value ==> entries[j].1.isDefinition
  {
    if entries == [] then None
    else if !entries[0].1.isDefinition then Some(0)
    else match FirstInvalid(entries[1..])
      case None => None
      case Some(k) => Some(k + 1)
  }

  /** addDefinitions: the store and the outcome after the foreach loop. It
      stops at the first entry that is not a definition, with the entries
      before it already stored. */
  function AddAll(s: Store, entries: seq<(string, Entry)>): (Store, Outcome<Error>) {
    match FirstInvalid(entries)
    case None => (PutAll(s, entries), Pass)
    case Some(k) =>
      (PutAll(s, entries[..k]),
       Fail(InvalidArgument("Definition " + entries[k].0 + " does not implement DefinitionInterface.")))
  }

  /** getDefinition throws exactly when hasDefinition is false, and otherwise
      returns the stored definition. */
  lemma GetSpec(s: Store, name: string)
    ensures Get(s, name).Failure? <==> !Has(s, name)
    ensures Get(s, name).Success? ==> Get(s, name).value == s.definitions[name]
    ensures Get(s, name).Failure? ==> Get(s, name).error.InvalidArgument?
  {
  }

  /** The empty registry: no names, and hasDefinition false for every name. */
  lemma EmptySpec(name: string)
    ensures Wf(Empty) && Empty.names == [] && !Has(Empty, name)
  {
  }

  /** After setDefinition(n, d): n is registered with d, every other name keeps
      its entry, an existing name keeps its place and a new one goes last. */
  lemma PutSpec(s: Store, name: string, d: Definition)
    requires Wf(s)
    ensures Wf(Put(s, name, d))
    ensures Has(Put(s, name, d), name) && Get(Put(s, name, d), name) == Success(d)
    ensures forall m :: m != name ==> Get(Put(s, name, d), m) == Get(s, m)
    ensures Has(s, name) ==> Put(s, name, d).names == s.names
    ensures !Has(s, name) ==> Put(s, name, d).names == s.names + [name]
  {
    AppendIfAbsentSpec(s.names, name);
  }

  /** After removeDefinition(n): n is gone, every other name keeps its entry and
      the remaining names keep their order; removing an absent name is a no-op. */
  lemma RemoveSpec(s: Store, name: string)
    requires Wf(s)
    ensures Wf(Remove(s, name))
    ensures !Has(Remove(s, name), name)
    ensures forall m :: m != name ==> Get(Remove(s, name), m) == Get(s, m)
    ensures !Has(s, name) ==> Remove(s, name) == s
    ensures forall i :: 0 <= i < |s.names| && s.names[i] == name ==>
              Remove(s, name).names == s.names[..i] + s.names[i + 1..]
  {
    WithoutMembers(s.names, name);
    WithoutNoDup(s.names, name);
    if !Has(s, name) {
      WithoutAbsent(s.names, name);
      assert s.definitions - {name} == s.definitions;
    }
    forall i | 0 <= i < |s.names| && s.names[i] == name
      ensures Remove(s, name).names == s.names[..i] + s.names[i + 1..]
    {
      WithoutSplice(s.names, name, i);
    }
  }

  /** After storing a batch: the key order is the old one with the batch's new
      names appended in iteration order, the batch's names are registered, and
      names outside the batch keep their entry. */
  lemma {:induction false} PutAllSpec(s: Store, entries: seq<(string, Entry)>)
    requires Wf(s) && AllDefinitions(entries)
    ensures Wf(PutAll(s, entries))
    ensures PutAll(s, entries).names == AppendAll(s.names, EntryNames(entries))
    ensures forall i :: 0 <= i < |entries| ==> Has(PutAll(s, entries), entries[i].0)
    ensures forall m :: m !in EntryNames(entries) ==> Get(PutAll(s, entries), m) == Get(s, m)
  {
    if entries != [] {
      var init := entries[..|entries| - 1];
      var last := entries[|entries| - 1];
      assert AllDefinitions(init);
      PutAllSpec(s, init);
      PutSpec(PutAll(s, init), last.0, last.1);
      assert EntryNames(entries)[..|entries| - 1] == EntryNames(init);
      forall i | 0 <= i < |entries| ensures Has(PutAll(s, entries), entries[i].0) {
        if i < |entries| - 1 {
          assert entries[i] == init[i];
        }
      }
      forall m | m !in EntryNames(entries) ensures Get(PutAll(s, entries), m) == Get(s, m) {
        assert EntryNames(entries) == EntryNames(init) + [last.0];
      }
    }
  }

  /** With distinct names, as the keys of a PHP array are, each name of a
      stored batch holds the definition of its own entry. */
  lemma {:induction false} PutAllValues(s: Store, entries: seq<(string, Entry)>)
    requires AllDefinitions(entries) && NoDup(EntryNames(entries))
    ensures forall i :: 0 <= i < |entries| ==> Get(PutAll(s, entries), entries[i].0) == Success(entries[i].1)
  {
    if entries != [] {
      var n := |entries| - 1;
      var init := entries[..n];
      assert AllDefinitions(init);
      assert EntryNames(init) == EntryNames(entries)[..n];
      assert NoDup(EntryNames(init));
      PutAllValues(s, init);
      forall i | 0 <= i < |entries|
        ensures Get(PutAll(s, entries), entries[i].0) == Success(entries[i].1)
      {
        if i < n {
          assert entries[i] == init[i];
          assert EntryNames(entries)[i] != EntryNames(entries)[n];
        }
      }
    }
  }

  /** A batch of definitions only succeeds and is stored completely: with
      distinct names, getDefinition of each name returns its entry. */
  lemma AddAllSuccess(s: Store, entries: seq<(string, Entry)>)
    requires Wf(s) && AllDefinitions(entries)
    ensures AddAll(s, entries).1 == Pass
    ensures Wf(AddAll(s, entries).0)
    ensures forall i :: 0 <= i < |entries| ==> Has(AddAll(s, entries).0, entries[i].0)
    ensures NoDup(EntryNames(entries)) ==>
              forall i :: 0 <= i < |entries| ==> Get(AddAll(s, entries).0, entries[i].0) == Success(entries[i].1)
  {
    PutAllSpec(s, entries);
    if NoDup(EntryNames(entries)) {
      PutAllValues(s, entries);
    }
  }

  /** The first invalid position is determined by the entries before it, and
      the batch then stores exactly the entries before it. */
  lemma FirstInvalidAt(s: Store, entries: seq<(string, Entry)>, k: nat)
    requires k < |entries| && !entries[k].1.isDefinition && AllDefinitions(entries[..k])
    ensures FirstInvalid(entries) == Some(k)
    ensures AddAll(s, entries) ==
              (PutAll(s, entries[..k]),
               Fail(InvalidArgument("Definition " + entries[k].0 + " does not implement DefinitionInterface.")))
  {
    assert !AllDefinitions(entries);
  }

  /** A batch holding a non-definition at position k fails with an invalid
      argument naming that entry, and still leaves the k entries before it
      stored (with distinct names, each with its own definition) while every
      other name keeps its entry: the call is not all-or-nothing. */
  lemma AddAllFailure(s: Store, entries: seq<(string, Entry)>, k: nat)
    requires Wf(s)
    requires k < |entries| && !entries[k].1.isDefinition && AllDefinitions(entries[..k])
    ensures AddAll(s, entries).1 ==
              Fail(InvalidArgument("Definition " + entries[k].0 + " does not implement DefinitionInterface."))
    ensures Wf(AddAll(s, entries).0)
    ensures forall i :: 0 <= i < k ==> Has(AddAll(s, entries).0, entries[i].0)
    ensures NoDup(EntryNames(entries)) ==>
              forall i :: 0 <= i < k ==> Get(AddAll(s, entries).0, entries[i].0) == Success(entries[i].1)
    ensures forall m :: m !in EntryNames(entries[..k]) ==> Get(AddAll(s, entries).0, m) == Get(s, m)
  {
    FirstInvalidAt(s, entries, k);
    PutAllSpec(s, entries[..k]);
    PrefixStored(s, entries, k);
    if NoDup(EntryNames(entries)) {
      PrefixValues(s, entries, k);
    }
  }

  /** Storing the first k entries of a batch registers each of their names. */
  lemma PrefixStored(s: Store, entries: seq<(string, Entry)>, k: nat)
    requires Wf(s)
    requires k <= |entries| && AllDefinitions(entries[..k])
    ensures forall i :: 0 <= i < k ==> Has(PutAll(s, entries[..k]), entries[i].0)
  {
    PutAllSpec(s, entries[..k]);
    forall i | 0 <= i < k ensures Has(PutAll(s, entries[..k]), entries[i].0) {
      assert entries[..k][i] == entries[i];
    }
  }

  /** With distinct names, each of the first k names holds its own entry. */
  lemma PrefixValues(s: Store, entries: seq<(string, Entry)>, k: nat)
    requires k <= |entries| && AllDefinitions(entries[..k]) && NoDup(EntryNames(entries))
    ensures forall i :: 0 <= i < k ==> Get(PutAll(s, entries[..k]), entries[i].0) == Success(entries[i].1)
  {
    var prefix := entries[..k];
    assert EntryNames(prefix) == EntryNames(entries)[..k];
    PutAllValues(s, prefix);
    forall i | 0 <= i < k ensures Get(PutAll(s, prefix), entries[i].0) == Success(entries[i].1) {
      assert prefix[i] == entries[i];
    }
  }

  /** A concrete batch that fails and still changes the registry. */
  lemma AddAllNotAtomic()
    ensures var entries := [("a", Entry(1, true, {})), ("b", Entry(2, false, {}))];
            AddAll(Empty, entries).1.Fail? && Has(AddAll(Empty, entries).0, "a")
  {
    var entries := [("a", Entry(1, true, {})), ("b", Entry(2, false, {}))];
    AddAllFailure(Empty, entries, 1);
  }

  class DefaultContainer {
    var name: string
    /** The array's entries. */
    var definitions: map<string, Definition>
    /** The array's key order. */
    var names: seq<string>

    function State(): Store
      reads this
    {
      Store(names, definitions)
    }

    ghost predicate Valid()
      reads this
    {
      Wf(State())
    }

    /** The definitions array is left uninitialised in the source; here it
        starts empty. The null that PHP starts with behaves the same for
        hasDefinition, getDefinition and assignment, but getDefinitionNames on
        null warns and returns null where the model returns no names. */
    constructor (name: Value)
      ensures Valid() && State() == Empty
      ensures GetName() == ToStr(name)
    {
      this.name := ToStr(name);
      definitions := map[];
      names := [];
    }

    function GetName(): string
      reads this
    {
      name
    }

    /** A name is registered exactly when it is among the definition names. */
    function HasDefinition(definitionName: string): (r: bool)
      reads this
      ensures r <==> definitionName in definitions
      ensures Valid() ==> (r <==> definitionName in names)
    {
      Has(State(), definitionName)
    }

    method ClearDefinitions()
      modifies this`definitions, this`names
      ensures Valid() && State() == Empty
    {
      definitions := map[];
      names := [];
    }

    /** Clear, then add. The source chains addDefinitions onto the null that
        clearDefinitions returns; this is the evident intent, the code as
        written is SetDefinitionsAsWritten. */
    method SetDefinitions(entries: seq<(string, Entry)>) returns (r: Outcome<Error>)
      modifies this`definitions, this`names
      ensures Valid()
      ensures (State(), r) == AddAll(Empty, entries)
    {
      ClearDefinitions();
      r := AddDefinitions(entries);
    }

    /** setDefinitions as written: the registry is cleared, then calling
        addDefinitions on null is a fatal error. */
    method SetDefinitionsAsWritten(entries: seq<(string, Entry)>) returns (r: Outcome<Error>)
      modifies this`definitions, this`names
      ensures Valid() && State() == Empty
      ensures r == Fail(Fatal("Call to a member function addDefinitions() on a non-object"))
    {
      ClearDefinitions();
      r := Fail(Fatal("Call to a member function addDefinitions() on a non-object"));
    }

    method AddDefinitions(entries: seq<(string, Entry)>) returns (r: Outcome<Error>)
      requires Valid()
      modifies this`definitions, this`names
      ensures Valid()
      ensures (State(), r) == AddAll(old(State()), entries)
    {
      var i := 0;
      while i < |entries|
        invariant 0 <= i <= |entries|
        invariant Valid()
        invariant AllDefinitions(entries[..i])
        invariant State() == PutAll(old(State()), entries[..i])
      {
        var (definitionName, definition) := entries[i];
        if !definition.isDefinition {
          r := Fail(InvalidArgument("Definition " + definitionName + " does not implement DefinitionInterface."));
          return;
        }
        assert entries[..i + 1][..i] == entries[..i];
        SetDefinition(definitionName, definition);
        i := i + 1;
      }
      assert entries[..i] == entries;
      r := Pass;
    }

    method SetDefinition(definitionName: string, definition: Definition)
      requires Valid()
      modifies this`definitions, this`names
      ensures Valid()
      ensures State() == Put(old(State()), definitionName, definition)
    {
      PutSpec(State(), definitionName, definition);
      definitions := definitions[definitionName := definition];
      names := AppendIfAbsent(names, definitionName);
    }

    method RemoveDefinition(definitionName: string)
      requires Valid()
      modifies this`definitions, this`names
      ensures Valid()
      ensures State() == Remove(old(State()), definitionName)
    {
      RemoveSpec(State(), definitionName);
      definitions := definitions - {definitionName};
      names := Without(names, definitionName);
    }

    /** The registered definition, or the invalid-argument error naming the
        unregistered name. */
    function GetDefinition(definitionName: string): (r: Result<Definition, Error>)
      reads this
      ensures r.Success? <==> HasDefinition(definitionName)
      ensures r.Success? ==> r.value == definitions[definitionName]
      ensures r.Failure? ==>
                r.error == InvalidArgument("Definition " + definitionName + " is not registered in the configuration.")
    {
      Get(State(), definitionName)
    }

    /** `array_keys($this->definitions)`: every registered name once, in order. */
    function GetDefinitionNames(): (r: seq<string>)
      reads this
      requires Valid()
      ensures NoDup(r)
      ensures forall n :: n in r <==> HasDefinition(n)
    {
      names
    }

    function HasBasicDefinition(): bool
      reads this
    {
      HasDefinition(BasicName)
    }

    method SetBasicDefinition(definition: Definition)
      requires Valid() && BasicKind in definition.kinds
      modifies this`definitions, this`names
      ensures Valid() && State() == Put(old(State()), BasicName, definition)
    {
      SetDefinition(BasicName, definition);
    }

    function GetBasicDefinition(): Result<Definition, Error>
      reads this
    {
      GetDefinition(BasicName)
    }

    function HasPropertiesDefinition(): bool
      reads this
    {
      HasDefinition(PropertiesName)
    }

    method SetPropertiesDefinition(definition: Definition)
      requires Valid() && PropertiesKind in definition.kinds
      modifies this`definitions, this`names
      ensures Valid() && State() == Put(old(State()), PropertiesName, definition)
    {
      SetDefinition(PropertiesName, definition);
    }

    function GetPropertiesDefinition(): Result<Definition, Error>
      reads this
    {
      GetDefinition(PropertiesName)
    }

    function HasPalettesDefinition(): bool
      reads this
    {
      HasDefinition(PalettesName)
    }

    method SetPalettesDefinition(definition: Definition)
      requires Valid() && PalettesKind in definition.kinds
      modifies this`definitions, this`names
      ensures Valid() && State() == Put(old(State()), PalettesName, definition)
    {
      SetDefinition(PalettesName, definition);
    }

    function GetPalettesDefinition(): Result<Definition, Error>
      reads this
    {
      GetDefinition(PalettesName)
    }

    function HasDataProviderDefinition(): bool
      reads this
    {
      HasDefinition(DataProviderName)
    }

    method SetDataProviderDefinition(definition: Definition)
      requires Valid() && DataProviderKind in definition.kinds
      modifies this`definitions, this`names
      ensures Valid() && State() == Put(old(State()), DataProviderName, definition)
    {
      SetDefinition(DataProviderName, definition);
    }

    function GetDataProviderDefinition(): Result<Definition, Error>
      reads this
    {
      GetDefinition(DataProviderName)
    }
  }

  /** Each typed accessor is the generic one on its well-known name. */
  lemma TypedAccessorsDelegate(c: DefaultContainer)
    ensures c.HasBasicDefinition() == c.HasDefinition(BasicName)
    ensures c.GetBasicDefinition() == c.GetDefinition(BasicName)
    ensures c.HasPropertiesDefinition() == c.HasDefinition(PropertiesName)
    ensures c.GetPropertiesDefinition() == c.GetDefinition(PropertiesName)
    ensures c.HasPalettesDefinition() == c.HasDefinition(PalettesName)
    ensures c.GetPalettesDefinition() == c.GetDefinition(PalettesName)
    ensures c.HasDataProviderDefinition() == c.HasDefinition(DataProviderName)
    ensures c.GetDataProviderDefinition() == c.GetDefinition(DataProviderName)
  {
  }

  /** A typed getter returns whatever is stored under its name, which need not
      implement the typed interface: setDefinition does not check it. */
  lemma TypedGetterUnchecked(s: Store)
    requires Wf(s)
    ensures var plain: Definition := Entry(7, true, {});
            Get(Put(s, BasicName, plain), BasicName) == Success(plain) && BasicKind !in plain.kinds
  {
    PutSpec(s, BasicName, Entry(7, true, {}));
  }
}
