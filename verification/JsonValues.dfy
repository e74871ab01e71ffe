/** JSON values, with object members in enumeration order. */
module JsonValues {
  import opened Common

  /** A finite double: one of the two zeros, or a non-zero one known by its shortest numeral. */
  datatype Number = Zero(negative: bool) | NonZero(numeral: string)

  datatype Json =
    | Null
    | Bool(flag: bool)
    | Num(number: Number)
    | Str(text: string)
    | Arr(items: seq<Json>)
    | Obj(members: seq<Member>)

  datatype Member = Member(key: string, value: Json)

  predicate HasKey(members: seq<Member>, key: string) {
    exists i :: 0 <= i < |members| && members[i].key == key
  }

  predicate DistinctKeys(members: seq<Member>) {
    forall i, j | 0 <= i < j < |members| :: members[i].key != members[j].key
  }

  function KeysOf(members: seq<Member>): (keys: seq<string>)
    ensures |keys| == |members| && forall i | 0 <= i < |keys| :: keys[i] == members[i].key
    ensures forall k :: k in keys <==> HasKey(members, k)
  {
    seq(|members|, i requires 0 <= i < |members| => members[i].key)
  }

  /** The position of a key's member. */
  function Find(members: seq<Member>, key: string): (i: nat)
    requires HasKey(members, key)
    ensures i < |members| && members[i].key == key
    ensures forall j | 0 <= j < i :: members[j].key != key
  {
    if members[0].key == key then 0
    else
      var k :| 0 <= k < |members| && members[k].key == key;
      assert members[1..][k - 1].key == key;
      1 + Find(members[1..], key)
  }

  function Lookup(members: seq<Member>, key: string): Json
    requires HasKey(members, key)
  {
    members[Find(members, key)].value
  }

  predicate IsNumeralChar(c: char) {
    '0' <= c <= '9' || c in {'-', '+', '.', 'e'}
  }

  /** The numerals a non-zero number can have: never empty, never that of zero. */
  predicate IsNumeral(s: string) {
    s != "" && s != "0" && (s[0] == '-' || '0' <= s[0] <= '9') && forall i | 0 <= i < |s| :: IsNumeralChar(s[i])
  }

  predicate Valid(v: Json) {
    match v
    case Num(NonZero(s)) => IsNumeral(s)
    case Arr(items) => forall i | 0 <= i < |items| :: Valid(items[i])
    case Obj(members) => DistinctKeys(members) && forall i | 0 <= i < |members| :: Valid(members[i].value)
    case _ => true
  }
}
