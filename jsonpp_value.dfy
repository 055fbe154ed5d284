/** The value tree of jsonpp (jsonpp.hpp, jsonpp.cpp). The source's class
    hierarchy under `Value` becomes one closed sum type; the two containers
    that the parser fills in place, `Object` and `Array`, are classes whose
    methods update their contents, and are frozen into `Value`s once built. */
module JsonppValue {
  import opened Results
  import opened CppStd

  /** A JSON value. `Num` keeps the literal text the lexer accepted instead of
      the `double` that `std::stod` would produce. */
  datatype Value =
    | Obj(members: map<string, Value>)
    | Arr(elements: seq<Value>)
    | Str(text: string)
    | Bool(b: bool)
    | Null
    | Num(literal: string)

  /** `json::Object`: a map from names to values, filled by `addValue`. */
  class Object {
    var values: map<string, Value>

    constructor ()
      ensures values == map[]
    {
      values := map[];
    }

    /** Null (None) exactly when the name is absent. */
    function GetValue(name: string): (r: Option<Value>)
      reads this
      ensures r.None? <==> name !in values
      ensures r.Some? ==> r.value == values[name]
    {
      if name in values then Some(values[name]) else None
    }

    /** `_values.emplace(name, value)`: the first value stored under a name wins. */
    method AddValue(name: string, value: Value)
      modifies this
      ensures values == Emplace(old(values), name, value)
      ensures name in old(values) ==> values == old(values)
      ensures GetValue(name) == Some(if name in old(values) then old(values)[name] else value)
    {
      values := Emplace(values, name, value);
    }
  }

  /** `json::Array`: a vector of values, filled by `addValue`. */
  class Array {
    var values: seq<Value>

    constructor ()
      ensures values == [] && Size() == 0
    {
      values := [];
    }

    /** `_values.emplace_back(value)`. */
    method AddValue(value: Value)
      modifies this
      ensures values == old(values) + [value]
      ensures Size() == old(Size()) + 1
    {
      values := values + [value];
    }

    /** The number of values appended so far. */
    function Size(): (n: nat)
      reads this
      ensures n == |values|
    {
      |values|
    }
  }
}
