/**
 * The mock-data registry of MockData.js: a singleton holding one plain
 * JavaScript object `{}` that maps keys to stored values.
 *
 * Existence is JavaScript truthiness of `registry[key]`, so a stored falsy
 * value counts as absent. Because the registry is a plain object, a lookup
 * also finds the members it inherits from Object.prototype (`toString`,
 * `constructor`, `__proto__`, ...), which are all truthy.
 */
module MockRegistry {
  import opened JsValue

  /** The members every `{}` inherits from Object.prototype. */
  const InheritedKeys: set<string> := {
    "constructor", "hasOwnProperty", "isPrototypeOf", "propertyIsEnumerable",
    "toLocaleString", "toString", "valueOf", "__defineGetter__",
    "__defineSetter__", "__lookupGetter__", "__lookupSetter__", "__proto__"
  }

  /** The own properties of the registry object. */
  type Registry = map<string, Value>

  /** A registry has no own property that shadows an inherited member. */
  ghost predicate NoShadowing(reg: Registry) {
    reg.Keys !! InheritedKeys
  }

  /** The property name `obj[key]` looks up: the key converted to a string. */
  function PropertyKey(key: Value): string {
    ToString(key)
  }

  /** `registry[name]`: an own property, else an inherited member, else undefined. */
  function Lookup(reg: Registry, name: string): (v: Value)
    ensures name in reg ==> v == reg[name]
    ensures name !in reg && name !in InheritedKeys ==> v == Undefined
    ensures name !in reg && name in InheritedKeys ==> Truthy(v)
  {
    if name in reg then reg[name]
    else if name == "__proto__" then Obj("[object Object]")
    else if name == "constructor" then Obj("function Object() { [native code] }")
    else if name in InheritedKeys then Obj("function " + name + "() { [native code] }")
    else Undefined
  }

  /** Whether the registry holds data under `key`, as the guards of all three operations decide it. */
  predicate Exists(reg: Registry, key: Value) {
    Truthy(Lookup(reg, PropertyKey(key)))
  }

  function AlreadyExists(key: Value): Value {
    NewError("Key " + ToString(key) + " already exists")
  }

  const NotAString: Value := NewError("The key must be of type string")

  function DoesNotExist(key: Value): Value {
    NewError("Data with key " + ToString(key) + " doesn't exist")
  }

  /** addData(key, value): the registry afterwards, or the error it throws. */
  function Add(reg: Registry, key: Value, value: Value): (r: Completion<Registry>)
    ensures Exists(reg, key) ==> r == Abrupt(AlreadyExists(key))
    ensures !Exists(reg, key) && !key.Str? ==> r == Abrupt(NotAString)
    ensures r.Normal? <==> !Exists(reg, key) && key.Str?
    ensures r.Normal? ==> key.s in r.value && r.value[key.s] == value
    ensures r.Normal? ==> forall name :: name != key.s ==> Lookup(r.value, name) == Lookup(reg, name)
    ensures r.Normal? && NoShadowing(reg) ==> NoShadowing(r.value)
  {
    if Exists(reg, key) then Abrupt(AlreadyExists(key))
    else if !key.Str? then Abrupt(NotAString)
    else Normal(reg[key.s := value])
  }

  /** getData(key): the stored value, or the error it throws. */
  function Get(reg: Registry, key: Value): (r: Completion<Value>)
    ensures r.Normal? <==> Exists(reg, key)
    ensures r.Normal? ==> r.value == Lookup(reg, PropertyKey(key)) && Truthy(r.value)
    ensures r.Abrupt? ==> r.thrown == DoesNotExist(key)
  {
    if !Exists(reg, key) then Abrupt(DoesNotExist(key))
    else Normal(Lookup(reg, PropertyKey(key)))
  }

  /** deleteData(key): the registry afterwards, or the error it throws. */
  function Delete(reg: Registry, key: Value): (r: Completion<Registry>)
    ensures r.Normal? <==> Exists(reg, key)
    ensures r.Normal? ==> r.value.Keys == reg.Keys - {PropertyKey(key)}
    ensures r.Normal? ==> forall name :: name in r.value ==> r.value[name] == reg[name]
    ensures r.Abrupt? ==> r.thrown == DoesNotExist(key)
  {
    if !Exists(reg, key) then Abrupt(DoesNotExist(key))
    else Normal(reg - {PropertyKey(key)})
  }

  /** Data added under a string key reads back as the same value when that value is truthy. */
  lemma AddThenGet(reg: Registry, key: Value, value: Value)
    requires Add(reg, key, value).Normal?
    ensures Truthy(value) ==> Get(Add(reg, key, value).value, key) == Normal(value)
    ensures !Truthy(value) ==> Get(Add(reg, key, value).value, key) == Abrupt(DoesNotExist(key))
  {
  }

  /**
   * A key whose stored value is falsy, or that was never stored and names no
   * inherited member, can be written without error.
   */
  lemma FalsyCanBeOverwritten(reg: Registry, name: string, value: Value)
    requires (name in reg && !Truthy(reg[name])) || (name !in reg && name !in InheritedKeys)
    ensures Add(reg, Str(name), value) == Normal(reg[name := value])
  {
  }

  /** Deleting removes the data: reading it afterwards throws, unless it names an inherited member. */
  lemma DeleteThenGet(reg: Registry, key: Value)
    requires Delete(reg, key).Normal?
    ensures PropertyKey(key) !in InheritedKeys ==>
              Get(Delete(reg, key).value, key) == Abrupt(DoesNotExist(key))
    ensures PropertyKey(key) in InheritedKeys ==> Get(Delete(reg, key).value, key).Normal?
  {
  }

  /**
   * In a registry whose own keys shadow no inherited member, every inherited
   * name reads as present: getData returns it and addData refuses it.
   */
  lemma InheritedAlwaysPresent(reg: Registry, name: string, value: Value)
    requires NoShadowing(reg) && name in InheritedKeys
    ensures Get(reg, Str(name)).Normal? && Truthy(Get(reg, Str(name)).value)
    ensures Add(reg, Str(name), value) == Abrupt(AlreadyExists(Str(name)))
  {
  }

  /** Deleting one key leaves what every other key reads unchanged. */
  lemma DeleteFrame(reg: Registry, key: Value, name: string)
    requires Exists(reg, key) && name != PropertyKey(key)
    ensures Lookup(Delete(reg, key).value, name) == Lookup(reg, name)
  {
  }

  /**
   * The registry steps of the example test script: register an array of
   * names, read it back, delete it; then deleting an unknown key and reading
   * the deleted one both throw "doesn't exist".
   */
  lemma RegisterReadDelete(names: seq<Value>)
    ensures var added := Add(map[], Str("names"), Arr(names));
      && added.Normal?
      && Get(added.value, Str("names")) == Normal(Arr(names))
      && var deleted := Delete(added.value, Str("names"));
      && deleted == Normal(map[])
      && Delete(deleted.value, Str("non-existing key")) == Abrupt(DoesNotExist(Str("non-existing key")))
      && Get(deleted.value, Str("names")) == Abrupt(DoesNotExist(Str("names")))
  {
  }

  /** The class object MockData, holding the static `instance` slot. */
  class MockDataClass {
    var instance: MockData?

    ghost predicate Valid()
      reads this, instance
    {
      instance != null ==> instance.Valid()
    }

    constructor ()
      ensures Valid() && instance == null
    {
      instance := null;
    }

    /** new MockData(): the first call creates an empty registry; later calls return that same object. */
    method New() returns (data: MockData)
      requires Valid()
      modifies this`instance
      ensures Valid() && instance == data && data.Valid()
      ensures old(instance) != null ==> data == old(instance) && unchanged(data)
      ensures old(instance) == null ==> fresh(data) && data.registry == map[]
    {
      if instance != null {
        return instance;
      }
      data := new MockData();
      instance := data;
    }
  }

  class MockData {
    var registry: Registry

    ghost predicate Valid()
      reads this
    {
      NoShadowing(registry)
    }

    /** Only MockDataClass.New calls this, the first time the class is constructed. */
    constructor ()
      ensures Valid() && registry == map[]
    {
      registry := map[];
    }

    method AddData(key: Value, value: Value) returns (r: Completion<MockData>)
      requires Valid()
      modifies this
      ensures Valid()
      ensures r.Abrupt? <==> Add(old(registry), key, value).Abrupt?
      ensures r.Normal? ==> r.value == this && registry == Add(old(registry), key, value).value
      ensures r.Abrupt? ==> r.thrown == Add(old(registry), key, value).thrown && registry == old(registry)
    {
      if Truthy(Lookup(registry, PropertyKey(key))) {
        return Abrupt(AlreadyExists(key));
      }
      if !key.Str? {
        return Abrupt(NotAString);
      }
      registry := registry[key.s := value];
      return Normal(this);
    }

    method GetData(key: Value) returns (r: Completion<Value>)
      ensures r == Get(registry, key)
    {
      if !Truthy(Lookup(registry, PropertyKey(key))) {
        return Abrupt(DoesNotExist(key));
      }
      return Normal(Lookup(registry, PropertyKey(key)));
    }

    method DeleteData(key: Value) returns (r: Completion<MockData>)
      requires Valid()
      modifies this
      ensures Valid()
      ensures r.Abrupt? <==> Delete(old(registry), key).Abrupt?
      ensures r.Normal? ==> r.value == this && registry == Delete(old(registry), key).value
      ensures r.Abrupt? ==> r.thrown == Delete(old(registry), key).thrown && registry == old(registry)
    {
      if !Truthy(Lookup(registry, PropertyKey(key))) {
        return Abrupt(DoesNotExist(key));
      }
      registry := registry - {PropertyKey(key)};
      return Normal(this);
    }
  }
}
