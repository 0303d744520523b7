/** JSON values as the components exchange them, and the header every component puts
    around its own configuration. Object members are unordered, as in the format itself. */
module Json {
  datatype Option<+T> = None | Some(value: T)

  datatype Value =
    | Null
    | Bool(b: bool)
    | Num(n: int)
    | Str(s: string)
    | Arr(items: seq<Value>)
    | Obj(members: map<string, Value>)

  /** Member access that fails on a missing member or on anything but an object. */
  function At(j: Value, key: string): (r: Option<Value>)
    ensures r.Some? ==> r.value < j
  {
    if j.Obj? && key in j.members then Some(j.members[key]) else None
  }

  function StringAt(j: Value, key: string): Option<string> {
    match At(j, key)
    case Some(Str(s)) => Some(s)
    case _ => None
  }

  function BoolAt(j: Value, key: string): Option<bool> {
    match At(j, key)
    case Some(Bool(b)) => Some(b)
    case _ => None
  }

  /** Clearing keeps the type of a value: a null stays null, an array becomes empty. */
  function Cleared(j: Value): Value {
    match j
    case Null => Null
    case Bool(_) => Bool(false)
    case Num(_) => Num(0)
    case Str(_) => Str("")
    case Arr(_) => Arr([])
    case Obj(_) => Obj(map[])
  }

  /** Appending turns a null into an array of one element. */
  function PushBack(j: Value, x: Value): Value
    requires j.Null? || j.Arr?
  {
    if j.Null? then Arr([x]) else Arr(j.items + [x])
  }

  /** A null iterates like an empty array. */
  predicate IsList(j: Value) {
    j.Arr? || j.Null?
  }

  function Elements(j: Value): (items: seq<Value>)
    requires IsList(j)
    ensures forall i :: 0 <= i < |items| ==> items[i] < j
  {
    if j.Null? then [] else j.items
  }

  const VERSION_LABEL := "version"
  const ID_LABEL := "class_id"
  const CONFIG_LABEL := "config"

  datatype Header = Header(version: nat, id: string, config: Value)

  const UINT_RANGE := 0x1_0000_0000

  function Wrap(version: nat, id: string, config: Value): Value {
    Obj(map[VERSION_LABEL := Num(version), ID_LABEL := Str(id), CONFIG_LABEL := config])
  }

  /** Reading into an unsigned int, which takes any number, and a boolean too. */
  function UnsignedAt(j: Value, key: string): Option<nat> {
    match At(j, key)
    case Some(Num(n)) => Some(n % UINT_RANGE)
    case Some(Bool(b)) => Some(if b then 1 else 0)
    case _ => None
  }

  function Unwrap(j: Value): Option<Header> {
    match (UnsignedAt(j, VERSION_LABEL), StringAt(j, ID_LABEL), At(j, CONFIG_LABEL))
    case (Some(version), Some(id), Some(config)) => Some(Header(version, id, config))
    case _ => None
  }

  /** A header is read from the three members it has to have, whatever else there is; the number of the
      version is cut to 32 bits. */
  lemma HeaderIs(j: Value, version: nat, id: string, config: Value)
    ensures Unwrap(j) == Some(Header(version, id, config)) <==>
      && StringAt(j, "class_id") == Some(id) && At(j, "config") == Some(config)
      && match At(j, "version")
         case Some(Num(n)) => version == n % 4294967296
         case Some(Bool(b)) => version == if b then 1 else 0
         case _ => false
  {
  }

  /** It is read as it was written. */
  lemma HeaderReadBack(version: nat, id: string, config: Value)
    requires version < 4294967296
    ensures Unwrap(Wrap(version, id, config)) == Some(Header(version, id, config))
  {
    var m := Wrap(version, id, config).members;
    assert VERSION_LABEL[0] != ID_LABEL[0] && VERSION_LABEL[0] != CONFIG_LABEL[0] && ID_LABEL[1] != CONFIG_LABEL[1];
    assert m[VERSION_LABEL] == Num(version) && m[ID_LABEL] == Str(id) && m[CONFIG_LABEL] == config;
  }
}
