/**
 * The part of System.Text.Json's JsonDocument that the revision checker uses: a parsed
 * document, JsonElement.GetProperty and JsonElement.GetString. Parsing itself is not
 * modelled; the revision checker receives the parsed document.
 */
module Json {
  import opened Wrappers

  /** A JSON value; an object keeps its members in document order, duplicates included. */
  datatype Value =
    | Null
    | Bool(b: bool)
    | Number(literal: string)
    | String(text: string)
    | Array(items: seq<Value>)
    | Object(members: seq<Member>)

  datatype Member = Member(name: string, value: Value)

  /**
   * What the two accessors throw: InvalidOperationException for the wrong kind of
   * element, KeyNotFoundException for a missing property.
   */
  datatype AccessError = NotAnObject | PropertyNotFound(name: string) | NotAString

  /** A C# string?: None stands for null. */
  type NullableString = Option<string>

  /** Whether some member has this name. */
  predicate HasMember(members: seq<Member>, name: string) {
    exists i :: 0 <= i < |members| && members[i].name == name
  }

  /**
   * The value of the LAST member with this name (the documented behaviour of
   * GetProperty on duplicate names), compared ordinally and case-sensitively.
   */
  function LastNamed(members: seq<Member>, name: string): (r: Option<Value>)
    ensures r.None? <==> !HasMember(members, name)
    ensures r.Some? ==> exists i :: 0 <= i < |members| && members[i] == Member(name, r.value)
                                    && forall j :: i < j < |members| ==> members[j].name != name
    decreases |members|
  {
    if members == [] then None
    else
      var n := |members| - 1;
      if members[n].name == name then Some(members[n].value)
      else
        var front := members[..n];
        assert forall i :: 0 <= i < n ==> front[i] == members[i];
        LastNamed(front, name)
  }

  /** Members after the last one with the name do not change which one is found. */
  lemma {:induction false} LastNamedIgnoresLater(front: seq<Member>, later: seq<Member>, name: string)
    requires forall i :: 0 <= i < |later| ==> later[i].name != name
    ensures LastNamed(front + later, name) == LastNamed(front, name)
    decreases |later|
  {
    var s := front + later;
    if later == [] {
      assert s == front;
    } else {
      var n := |later| - 1;
      assert s[..|s| - 1] == front + later[..n];
      LastNamedIgnoresLater(front, later[..n], name);
    }
  }

  /** A later member with the same name hides every earlier one. */
  lemma LastDuplicateWins(front: seq<Member>, v: Value, later: seq<Member>, name: string)
    requires forall i :: 0 <= i < |later| ==> later[i].name != name
    ensures LastNamed(front + [Member(name, v)] + later, name) == Some(v)
  {
    LastNamedIgnoresLater(front + [Member(name, v)], later, name);
  }

  /** JsonElement.GetProperty. */
  function GetProperty(v: Value, name: string): (r: Result<Value, AccessError>)
    ensures r == Failure(NotAnObject) <==> !v.Object?
    ensures v.Object? ==> (r.Success? <==> HasMember(v.members, name))
    ensures r.Success? ==> exists i :: 0 <= i < |v.members| && v.members[i] == Member(name, r.value)
                                    && forall j :: i < j < |v.members| ==> v.members[j].name != name
  {
    if !v.Object? then Failure(NotAnObject)
    else
      match LastNamed(v.members, name)
      case None => Failure(PropertyNotFound(name))
      case Some(found) => Success(found)
  }

  /** JsonElement.GetString: the text of a string, null for a JSON null, and a throw otherwise. */
  function GetString(v: Value): (r: Result<NullableString, AccessError>)
    ensures r.Failure? <==> !(v.String? || v.Null?)
  {
    match v
    case String(text) => Success(Some(text))
    case Null => Success(None)
    case _ => Failure(NotAString)
  }

  /** The JSON value a nullable string is written as. */
  function FromText(s: NullableString): Value {
    match s
    case Some(text) => String(text)
    case None => Null
  }

  /** GetString reads back what FromText writes, null included. */
  lemma GetStringFromText(s: NullableString)
    ensures GetString(FromText(s)) == Success(s)
  {
  }

  /** GetProperty along a path of names, then GetString: e.g. ["production", "id"]. */
  function StringAt(v: Value, path: seq<string>): (r: Result<NullableString, AccessError>)
    ensures path != [] && !v.Object? ==> r == Failure(NotAnObject)
    ensures path != [] && v.Object? && !HasMember(v.members, path[0]) ==> r == Failure(PropertyNotFound(path[0]))
    ensures path == [] && !(v.String? || v.Null?) ==> r == Failure(NotAString)
    decreases |path|
  {
    if path == [] then GetString(v)
    else
      var child :- GetProperty(v, path[0]);
      StringAt(child, path[1..])
  }

  /** One name, then GetString. */
  lemma StringAtName(v: Value, name: string, child: Value)
    requires GetProperty(v, name) == Success(child)
    ensures StringAt(v, [name]) == GetString(child)
  {
    assert [name][1..] == [];
  }

  /** Two names, then GetString. */
  lemma StringAtNames(v: Value, outer: string, inner: string, child: Value, leaf: Value)
    requires GetProperty(v, outer) == Success(child) && GetProperty(child, inner) == Success(leaf)
    ensures StringAt(v, [outer, inner]) == GetString(leaf)
  {
    assert [outer, inner][1..] == [inner];
    StringAtName(child, inner, leaf);
  }
}
