/** JSON-shaped Python values: dicts keep insertion order, as Python dicts do. */
module Json {
  import opened Wrappers
  import opened Strings

  datatype Value =
    | Null
    | Bool(b: bool)
    | Int(i: int)
    | Float(f: real)
    | Str(s: string)
    | Arr(items: seq<Value>)
    | Obj(fields: seq<Field>)

  datatype Field = Field(key: string, value: Value)

  /** Python truthiness of a value. */
  predicate Truthy(v: Value) {
    match v
    case Null => false
    case Bool(b) => b
    case Int(i) => i != 0
    case Float(f) => f != 0.0
    case Str(s) => s != []
    case Arr(items) => items != []
    case Obj(fields) => fields != []
  }

  function Keys(fields: seq<Field>): (ks: seq<string>)
    ensures |ks| == |fields|
    ensures forall i :: 0 <= i < |fields| ==> ks[i] == fields[i].key
  {
    if fields == [] then [] else [fields[0].key] + Keys(fields[1..])
  }

  /** `d.get(key)` on a dict: the value stored under `key`, if any. */
  function Lookup(fields: seq<Field>, key: string): Option<Value> {
    if fields == [] then None
    else if fields[0].key == key then Some(fields[0].value)
    else Lookup(fields[1..], key)
  }

  /** `d[key] = value`: an existing key keeps its position, a new key goes last. */
  function Put(fields: seq<Field>, key: string, value: Value): seq<Field> {
    if fields == [] then [Field(key, value)]
    else if fields[0].key == key then [Field(key, value)] + fields[1..]
    else [fields[0]] + Put(fields[1..], key, value)
  }

  /** Storing under an existing key keeps the keys; a new key is appended. */
  lemma {:induction false} PutKeys(fields: seq<Field>, key: string, value: Value)
    ensures Keys(Put(fields, key, value)) == if key in Keys(fields) then Keys(fields) else Keys(fields) + [key]
  {
    if fields != [] && fields[0].key != key {
      PutKeys(fields[1..], key, value);
      assert Keys(fields) == [fields[0].key] + Keys(fields[1..]);
    }
  }

  /** A key is found exactly when it is one of the dict's keys, and then the
      value found is stored under it. */
  lemma {:induction false} LookupFound(fields: seq<Field>, key: string)
    ensures Lookup(fields, key).None? <==> key !in Keys(fields)
    ensures Lookup(fields, key).Some? ==> Field(key, Lookup(fields, key).value) in fields
  {
    if fields != [] && fields[0].key != key {
      LookupFound(fields[1..], key);
    }
  }

  /** Keys that come before the one looked up do not matter. */
  lemma {:induction false} LookupSkip(fields: seq<Field>, k: nat, key: string)
    requires k <= |fields|
    requires forall i :: 0 <= i < k ==> fields[i].key != key
    ensures Lookup(fields, key) == Lookup(fields[k..], key)
  {
    if k > 0 {
      LookupSkip(fields[1..], k - 1, key);
      assert fields[1..][k - 1..] == fields[k..];
    }
  }

  /** The dict after `d[key] = value` maps `key` to `value` and every other key as before. */
  lemma {:induction false} LookupPut(fields: seq<Field>, key: string, value: Value, other: string)
    ensures Lookup(Put(fields, key, value), other)
            == if other == key then Some(value) else Lookup(fields, other)
  {
    if fields != [] && fields[0].key != key {
      LookupPut(fields[1..], key, value, other);
    }
  }

  /** `d.get(key)` on a value: None for a missing key. */
  function Get(v: Value, key: string): Option<Value> {
    if v.Obj? then Lookup(v.fields, key) else None
  }

  /** `d.get(key, default)`. */
  function GetOr(v: Value, key: string, default: Value): Value {
    Get(v, key).GetOr(default)
  }

  /** `d[key]`: KeyError when absent; a value that is not a dict cannot be
      indexed by a string. */
  function Index(d: Value, key: string): (r: Result<Value>)
    ensures r.Success? <==> Get(d, key).Some?
    ensures r.Success? ==> r.value == Get(d, key).value
  {
    if !d.Obj? then Failure(TypeMismatch)
    else match Lookup(d.fields, key)
      case None => Failure(KeyMissing(key))
      case Some(v) => Success(v)
  }

  /** `json.dumps(v)` with the default settings (`ensure_ascii=True`,
      separators `", "` and `": "`). Floats are printed by `floatRepr`,
      Python's `float.__repr__`. */
  function Dumps(v: Value, floatRepr: real -> string): string
    decreases v, 1
  {
    match v
    case Null => "null"
    case Bool(b) => if b then "true" else "false"
    case Int(i) => IntToString(i)
    case Float(f) => floatRepr(f)
    case Str(s) => Quote(s)
    case Arr(items) => "[" + DumpsItems(v, items, floatRepr) + "]"
    case Obj(fields) => "{" + DumpsFields(v, fields, floatRepr) + "}"
  }

  function DumpsItems(parent: Value, items: seq<Value>, floatRepr: real -> string): string
    requires forall x :: x in items ==> x < parent
    decreases parent, 0, |items|
  {
    if items == [] then []
    else
      assert items[0] in items;
      assert forall x :: x in items[1..] ==> x in items;
      if |items| == 1 then Dumps(items[0], floatRepr)
      else Dumps(items[0], floatRepr) + ", " + DumpsItems(parent, items[1..], floatRepr)
  }

  function DumpsFields(parent: Value, fields: seq<Field>, floatRepr: real -> string): string
    requires forall f :: f in fields ==> f.value < parent
    decreases parent, 0, |fields|
  {
    if fields == [] then []
    else
      assert fields[0] in fields;
      assert forall f :: f in fields[1..] ==> f in fields;
      var head := Quote(fields[0].key) + ": " + Dumps(fields[0].value, floatRepr);
      if |fields| == 1 then head else head + ", " + DumpsFields(parent, fields[1..], floatRepr)
  }

  /** A JSON string literal with `ensure_ascii` escaping. */
  function Quote(s: string): (r: string)
    ensures |r| >= 2 && r[0] == '"' && r[|r| - 1] == '"'
  {
    "\"" + Escape(s) + "\""
  }

  function Escape(s: string): (r: string)
    ensures forall i :: 0 <= i < |r| ==> ' ' <= r[i] <= '~'
  {
    if s == [] then [] else EscapeChar(s[0]) + Escape(s[1..])
  }

  function HexDigit(d: nat): char
    requires d < 16
  {
    "0123456789abcdef"[d]
  }

  /** `\uXXXX` with four lower-case hex digits. */
  function Hex4(n: nat): (r: string)
    requires n < 0x10000
    ensures |r| == 6
    ensures forall i :: 0 <= i < |r| ==> ' ' <= r[i] <= '~'
  {
    "\\u" + [HexDigit(n / 4096), HexDigit(n / 256 % 16), HexDigit(n / 16 % 16), HexDigit(n % 16)]
  }

  function EscapeChar(c: char): (r: string)
    ensures forall i :: 0 <= i < |r| ==> ' ' <= r[i] <= '~'
  {
    if c == '\\' then "\\\\"
    else if c == '"' then "\\\""
    else if c == '\n' then "\\n"
    else if c == '\r' then "\\r"
    else if c == '\t' then "\\t"
    else if c == '\U{8}' then "\\b"
    else if c == '\U{c}' then "\\f"
    else if ' ' <= c <= '~' then [c]
    else if c as int < 0x10000 then Hex4(c as int)
    else
      var n := c as int - 0x10000;
      Hex4(0xd800 + n / 1024) + Hex4(0xdc00 + n % 1024)
  }
}
