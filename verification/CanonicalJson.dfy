/**
 The canonical printer and the comparison of JSON values, and that they agree: two values print alike
 exactly when they are equal up to the order of members and the sign of zero.
 */
module CanonicalJson {
  import opened Common
  import opened JsonValues

  // ---- comparing ---------------------------------------------------------------------------

  predicate JsonValuesEqual(a: Json, b: Json) {
    match a
    case Num(m) => b.Num? && (m == b.number || (m.Zero? && b.number.Zero?))
    case Arr(items) => b.Arr? && |items| == |b.items| && forall i | 0 <= i < |items| :: JsonValuesEqual(items[i], b.items[i])
    case Obj(members) =>
      && b.Obj? && |members| == |b.members|
      && forall i | 0 <= i < |members| ::
           HasKey(b.members, members[i].key) && JsonValuesEqual(members[i].value, Lookup(b.members, members[i].key))
    case _ => a == b
  }

  // ---- the order of keys -------------------------------------------------------------------

  /** Sorting goes by UTF-16 code units, so characters beyond the basic plane come where surrogates do. */
  function Rank(c: char): int {
    if c as int < 0xD800 then c as int
    else if c as int >= 0x1_0000 then 0xD800 + (c as int - 0x1_0000)
    else 0x20_0000 + c as int
  }

  predicate LessEq(a: string, b: string) {
    a == "" || (b != "" && (Rank(a[0]) < Rank(b[0]) || (a[0] == b[0] && LessEq(a[1..], b[1..]))))
  }

  lemma {:induction false} LessEqTotal(a: string, b: string)
    ensures LessEq(a, b) || LessEq(b, a)
  {
    if a != "" && b != "" && a[0] == b[0] {
      LessEqTotal(a[1..], b[1..]);
    }
  }

  lemma {:induction false} LessEqAntisymmetric(a: string, b: string)
    requires LessEq(a, b) && LessEq(b, a)
    ensures a == b
  {
    if a != "" && b != "" {
      LessEqAntisymmetric(a[1..], b[1..]);
      assert a == [a[0]] + a[1..] && b == [b[0]] + b[1..];
    }
  }

  lemma {:induction false} LessEqTransitive(a: string, b: string, c: string)
    requires LessEq(a, b) && LessEq(b, c)
    ensures LessEq(a, c)
  {
    if a != "" && a[0] == b[0] == c[0] {
      LessEqTransitive(a[1..], b[1..], c[1..]);
    }
  }

  predicate IsSorted(keys: seq<string>) {
    |keys| <= 1 || (LessEq(keys[0], keys[1]) && IsSorted(keys[1..]))
  }

  function Insert(key: string, keys: seq<string>): (r: seq<string>)
    ensures multiset(r) == multiset{key} + multiset(keys) && r != []
    ensures keys != [] ==> r[0] == key || r[0] == keys[0]
  {
    if keys == [] || LessEq(key, keys[0]) then [key] + keys
    else
      assert keys == [keys[0]] + keys[1..];
      [keys[0]] + Insert(key, keys[1..])
  }

  function Sort(keys: seq<string>): (r: seq<string>)
    ensures multiset(r) == multiset(keys)
  {
    if keys == [] then []
    else
      assert keys == [keys[0]] + keys[1..];
      Insert(keys[0], Sort(keys[1..]))
  }

  lemma {:induction false} InsertSorts(key: string, keys: seq<string>)
    requires IsSorted(keys)
    ensures IsSorted(Insert(key, keys))
  {
    if keys != [] && !LessEq(key, keys[0]) {
      LessEqTotal(key, keys[0]);
      InsertSorts(key, keys[1..]);
      var rest := Insert(key, keys[1..]);
      assert ([keys[0]] + rest)[1..] == rest;
    } else {
      assert ([key] + keys)[1..] == keys;
    }
  }

  lemma {:induction false} SortSorts(keys: seq<string>)
    ensures IsSorted(Sort(keys))
  {
    if keys != [] {
      SortSorts(keys[1..]);
      InsertSorts(keys[0], Sort(keys[1..]));
    }
  }

  lemma {:induction false} HeadIsLeast(keys: seq<string>, k: string)
    requires IsSorted(keys) && k in keys
    ensures LessEq(keys[0], k)
  {
    if k == keys[0] {
      LessEqTotal(k, k);
    } else {
      assert k in keys[1..];
      HeadIsLeast(keys[1..], k);
      LessEqTransitive(keys[0], keys[1], k);
    }
  }

  /** There is one way to sort. */
  lemma {:induction false} SortedIsUnique(a: seq<string>, b: seq<string>)
    requires IsSorted(a) && IsSorted(b) && multiset(a) == multiset(b)
    ensures a == b
  {
    if a == [] {
      assert |multiset(b)| == |b|;
    } else {
      assert a[0] in multiset(a) && b != [];
      assert b[0] in multiset(b);
      HeadIsLeast(a, b[0]);
      HeadIsLeast(b, a[0]);
      LessEqAntisymmetric(a[0], b[0]);
      assert a[0] == b[0];
      TailMultiset(a);
      TailMultiset(b);
      SortedIsUnique(a[1..], b[1..]);
      assert a == [a[0]] + a[1..] && b == [b[0]] + b[1..];
    }
  }

  lemma TailMultiset(a: seq<string>)
    requires a != []
    ensures multiset(a[1..]) == multiset(a) - multiset{a[0]}
  {
    assert a == [a[0]] + a[1..];
  }

  // ---- printing ----------------------------------------------------------------------------

  const HEX := "0123456789abcdef"

  /** How JSON.stringify writes one character of a string. */
  function QuoteChar(c: char): string {
    if c == '\"' then "\\\""
    else if c == '\\' then "\\\\"
    else if c as int == 8 then "\\b"
    else if c as int == 9 then "\\t"
    else if c as int == 10 then "\\n"
    else if c as int == 12 then "\\f"
    else if c as int == 13 then "\\r"
    else if c as int < 32 then "\\u00" + [HEX[c as int / 16], HEX[c as int % 16]]
    else [c]
  }

  function QuoteBody(s: string): string {
    if s == "" then "" else QuoteChar(s[0]) + QuoteBody(s[1..])
  }

  function Quote(s: string): string { "\"" + (QuoteBody(s) + "\"") }

  function NumberText(n: Number): string {
    match n
    case Zero(_) => "0"
    case NonZero(numeral) => numeral
  }

  function Join(texts: seq<string>): string {
    if texts == [] then "" else if |texts| == 1 then texts[0] else texts[0] + ("," + Join(texts[1..]))
  }

  function CanonicalJson(v: Json): string
    decreases v
  {
    match v
    case Null => "null"
    case Bool(flag) => if flag then "true" else "false"
    case Num(n) => NumberText(n)
    case Str(s) => Quote(s)
    case Arr(items) => "[" + (Join(Texts(items)) + "]")
    case Obj(members) => "{" + (Join(MemberTexts(members, SortedKeys(members))) + "}")
  }

  function Texts(items: seq<Json>): seq<string>
    decreases items
  {
    if items == [] then [] else [CanonicalJson(items[0])] + Texts(items[1..])
  }

  function SortedKeys(members: seq<Member>): (keys: seq<string>)
    ensures forall k :: k in keys <==> HasKey(members, k)
    ensures |keys| == |members|
  {
    var keys := Sort(KeysOf(members));
    assert |multiset(keys)| == |keys| && |multiset(KeysOf(members))| == |members|;
    assert forall k :: k in keys <==> k in multiset(keys);
    assert forall k :: k in KeysOf(members) <==> k in multiset(KeysOf(members));
    keys
  }

  /** Each key with the text of the value the object has for it. */
  function MemberTexts(members: seq<Member>, keys: seq<string>): seq<string>
    requires forall k | k in keys :: HasKey(members, k)
    decreases members, |keys|
  {
    if keys == [] then []
    else
      [MemberText(keys[0], CanonicalJson(members[Find(members, keys[0])].value))] + MemberTexts(members, keys[1..])
  }

  function MemberText(key: string, text: string): string { Quote(key) + (":" + text) }

  // ---- the printer is unambiguous ----------------------------------------------------------

  lemma QuoteCharUnambiguous(c: char, d: char, x: string, y: string)
    requires QuoteChar(c) + x == QuoteChar(d) + y
    ensures c == d && x == y
  {
    var text := QuoteChar(c) + x;
    assert text[0] == QuoteChar(c)[0] == QuoteChar(d)[0];
    if |QuoteChar(c)| > 1 && |QuoteChar(d)| > 1 {
      assert text[1] == QuoteChar(c)[1] == QuoteChar(d)[1];
      if |QuoteChar(c)| == 6 && |QuoteChar(d)| == 6 {
        assert text[4] == QuoteChar(c)[4] == QuoteChar(d)[4];
        assert text[5] == QuoteChar(c)[5] == QuoteChar(d)[5];
        HexDigit(c as int / 16, d as int / 16);
        HexDigit(c as int % 16, d as int % 16);
      }
    }
    assert c == d;
    assert x == text[|QuoteChar(c)|..] == y;
  }

  lemma HexDigit(i: nat, j: nat)
    requires i < 16 && j < 16 && HEX[i] == HEX[j]
    ensures i == j
  {
  }

  lemma Assoc(a: string, b: string, c: string)
    ensures (a + b) + c == a + (b + c)
  {
  }

  lemma CancelHead(c: char, x: string, y: string)
    requires [c] + x == [c] + y
    ensures x == y
  {
    assert x == ([c] + x)[1..] && y == ([c] + y)[1..];
  }

  lemma BodyStarts(a: string, x: string)
    ensures var t := QuoteBody(a) + ("\"" + x);
            t != "" && (t[0] == '\"' <==> a == "")
  {
    if a != "" {
      assert QuoteBody(a)[0] == QuoteChar(a[0])[0];
    }
  }

  lemma {:induction false} QuoteBodyUnambiguous(a: string, b: string, x: string, y: string)
    requires QuoteBody(a) + ("\"" + x) == QuoteBody(b) + ("\"" + y)
    ensures a == b && x == y
  {
    hide QuoteChar;
    BodyStarts(a, x);
    BodyStarts(b, y);
    if a == "" {
      assert QuoteBody(a) + ("\"" + x) == "\"" + x && QuoteBody(b) + ("\"" + y) == "\"" + y;
      CancelHead('\"', x, y);
    } else {
      var x', y' := QuoteBody(a[1..]) + ("\"" + x), QuoteBody(b[1..]) + ("\"" + y);
      Assoc(QuoteChar(a[0]), QuoteBody(a[1..]), "\"" + x);
      Assoc(QuoteChar(b[0]), QuoteBody(b[1..]), "\"" + y);
      QuoteCharUnambiguous(a[0], b[0], x', y');
      QuoteBodyUnambiguous(a[1..], b[1..], x, y);
      assert a == [a[0]] + a[1..] && b == [b[0]] + b[1..];
    }
  }

  lemma QuoteUnambiguous(a: string, b: string, x: string, y: string)
    requires Quote(a) + x == Quote(b) + y
    ensures a == b && x == y
  {
    hide QuoteChar, QuoteBody;
    Assoc("\"", QuoteBody(a) + "\"", x);
    Assoc(QuoteBody(a), "\"", x);
    Assoc("\"", QuoteBody(b) + "\"", y);
    Assoc(QuoteBody(b), "\"", y);
    CancelHead('\"', QuoteBody(a) + ("\"" + x), QuoteBody(b) + ("\"" + y));
    QuoteBodyUnambiguous(a, b, x, y);
  }

  /** Nothing, or something that cannot continue a number. */
  predicate Stops(x: string) { x == "" || x[0] in {',', ']', '}'} }

  lemma NumberUnambiguous(a: string, b: string, x: string, y: string)
    requires a + x == b + y && Stops(x) && Stops(y)
    requires (forall i | 0 <= i < |a| :: IsNumeralChar(a[i])) && (forall i | 0 <= i < |b| :: IsNumeralChar(b[i]))
    ensures a == b && x == y
  {
    var t := a + x;
    assert |a| < |t| ==> t[|a|] == x[0] && !IsNumeralChar(t[|a|]);
    assert |b| < |t| ==> t[|b|] == y[0] && !IsNumeralChar(t[|b|]);
    assert (forall i | 0 <= i < |a| :: t[i] == a[i]) && (forall i | 0 <= i < |b| :: t[i] == b[i]);
    assert a == t[..|a|] && b == t[..|b|] && x == t[|a|..] && y == t[|b|..];
  }

  lemma TextStarts(v: Json)
    requires Valid(v)
    ensures var t := CanonicalJson(v);
            && t != ""
            && (v.Null? <==> t[0] == 'n')
            && (v.Bool? <==> t[0] in {'t', 'f'})
            && (v.Num? <==> t[0] == '-' || '0' <= t[0] <= '9')
            && (v.Str? <==> t[0] == '\"')
            && (v.Arr? <==> t[0] == '[')
            && (v.Obj? <==> t[0] == '{')
  {
  }

  /** What follows one item of a list: the rest of the list, and what closes it. */
  function RestOf(texts: seq<string>, end: string): string {
    if texts == [] then end else "," + (Join(texts) + end)
  }

  lemma JoinSplits(texts: seq<string>, end: string)
    requires texts != []
    ensures Join(texts) + end == texts[0] + RestOf(texts[1..], end)
  {
    if |texts| > 1 {
      Assoc(texts[0], "," + Join(texts[1..]), end);
      Assoc(",", Join(texts[1..]), end);
    }
  }

  lemma StartsSame(a: Json, b: Json, x: string, y: string)
    requires Valid(a) && Valid(b) && CanonicalJson(a) + x == CanonicalJson(b) + y
    ensures CanonicalJson(a) != "" && CanonicalJson(b) != "" && CanonicalJson(a)[0] == CanonicalJson(b)[0]
    ensures a.Null? == b.Null? && a.Bool? == b.Bool? && a.Num? == b.Num? && a.Str? == b.Str? && a.Arr? == b.Arr? && a.Obj? == b.Obj?
  {
    hide CanonicalJson;
    TextStarts(a);
    TextStarts(b);
    assert CanonicalJson(a)[0] == (CanonicalJson(a) + x)[0] == CanonicalJson(b)[0];
  }

  lemma NumbersUnambiguous(m: Number, n: Number, x: string, y: string)
    requires Valid(Num(m)) && Valid(Num(n)) && Stops(x) && Stops(y)
    requires NumberText(m) + x == NumberText(n) + y
    ensures JsonValuesEqual(Num(m), Num(n)) && x == y
  {
    NumberUnambiguous(NumberText(m), NumberText(n), x, y);
  }

  lemma WordsUnambiguous(a: bool, b: bool, x: string, y: string)
    requires CanonicalJson(Bool(a)) + x == CanonicalJson(Bool(b)) + y
    requires CanonicalJson(Bool(a))[0] == CanonicalJson(Bool(b))[0]
    ensures a == b && x == y
  {
    var t := CanonicalJson(Bool(a));
    assert x == (t + x)[|t|..] && y == (t + y)[|t|..];
  }

  /** From a printed value and what follows it, both can be told. */
  lemma {:induction false} Unambiguous(a: Json, b: Json, x: string, y: string)
    requires Valid(a) && Valid(b) && CanonicalJson(a) + x == CanonicalJson(b) + y
    requires Stops(x) && Stops(y)
    ensures JsonValuesEqual(a, b) && x == y
    decreases a
  {
    hide Quote, NumberText, Join, SortedKeys;
    StartsSame(a, b, x, y);
    match a
    case Null => assert x == ("null" + x)[4..] && y == ("null" + y)[4..];
    case Bool(flag) => WordsUnambiguous(flag, b.flag, x, y);
    case Num(n) => NumbersUnambiguous(n, b.number, x, y);
    case Str(s) => QuoteUnambiguous(s, b.text, x, y);
    case Arr(items) =>
      BracketCancels('[', Join(Texts(items)), "]", x);
      BracketCancels('[', Join(Texts(b.items)), "]", y);
      CancelHead('[', Join(Texts(items)) + ("]" + x), Join(Texts(b.items)) + ("]" + y));
      ItemsUnambiguous(items, b.items, x, y);
    case Obj(members) =>
      var ks, ls := SortedKeys(members), SortedKeys(b.members);
      BracketCancels('{', Join(MemberTexts(members, ks)), "}", x);
      BracketCancels('{', Join(MemberTexts(b.members, ls)), "}", y);
      CancelHead('{', Join(MemberTexts(members, ks)) + ("}" + x), Join(MemberTexts(b.members, ls)) + ("}" + y));
      MembersUnambiguous(members, b.members, ks, ls, x, y);
      MembersMatch(members, b.members);
  }

  lemma BracketCancels(open: char, body: string, close: string, x: string)
    ensures ([open] + (body + close)) + x == [open] + (body + (close + x))
  {
    Assoc([open], body + close, x);
    Assoc(body, close, x);
  }

  lemma TextsSplit(items: seq<Json>, end: string)
    requires items != []
    ensures Join(Texts(items)) + end == CanonicalJson(items[0]) + RestOf(Texts(items[1..]), end)
    ensures |Texts(items)| > 0
  {
    JoinSplits(Texts(items), end);
    assert Texts(items)[1..] == Texts(items[1..]);
  }

  lemma ListStarts(items: seq<Json>, x: string)
    requires forall i | 0 <= i < |items| :: Valid(items[i])
    ensures var t := Join(Texts(items)) + ("]" + x);
            t != "" && (t[0] == ']' <==> items == [])
  {
    if items != [] {
      TextsSplit(items, "]" + x);
      TextStarts(items[0]);
    }
  }

  lemma RestStarts(texts: seq<string>, close: char, x: string)
    requires close != ','
    ensures var t := RestOf(texts, [close] + x);
            t != "" && t[0] in {',', close} && (t[0] == close <==> texts == [])
    ensures texts != [] ==> RestOf(texts, [close] + x) == [','] + (Join(texts) + ([close] + x))
  {
  }

  lemma {:induction false} ItemsUnambiguous(a: seq<Json>, b: seq<Json>, x: string, y: string)
    requires (forall i | 0 <= i < |a| :: Valid(a[i])) && (forall i | 0 <= i < |b| :: Valid(b[i]))
    requires Join(Texts(a)) + ("]" + x) == Join(Texts(b)) + ("]" + y)
    ensures |a| == |b| && (forall i | 0 <= i < |a| :: JsonValuesEqual(a[i], b[i])) && x == y
    decreases a
  {
    hide Join, CanonicalJson, JsonValuesEqual, RestOf;
    ListStarts(a, x);
    ListStarts(b, y);
    if a == [] {
      assert Texts(a) == [] && Texts(b) == [];
      JoinNothing("]" + x);
      JoinNothing("]" + y);
      CancelHead(']', x, y);
    } else {
      TextsSplit(a, "]" + x);
      TextsSplit(b, "]" + y);
      var restA, restB := Texts(a[1..]), Texts(b[1..]);
      RestStarts(restA, ']', x);
      RestStarts(restB, ']', y);
      Unambiguous(a[0], b[0], RestOf(restA, "]" + x), RestOf(restB, "]" + y));
      if restA == [] {
        RestNothing("]" + x);
        RestNothing("]" + y);
        CancelHead(']', x, y);
        assert a[1..] == [] && b[1..] == [];
      } else {
        CancelHead(',', Join(restA) + ("]" + x), Join(restB) + ("]" + y));
        ItemsUnambiguous(a[1..], b[1..], x, y);
        assert forall i | 1 <= i < |a| :: a[i] == a[1..][i - 1] && b[i] == b[1..][i - 1];
      }
    }
  }

  lemma JoinNothing(end: string)
    ensures Join([]) + end == end
  {
  }

  lemma RestNothing(end: string)
    ensures RestOf([], end) == end
  {
  }

  lemma MemberTextsSplit(members: seq<Member>, keys: seq<string>, end: string)
    requires keys != [] && forall k | k in keys :: HasKey(members, k)
    ensures Join(MemberTexts(members, keys)) + end ==
            Quote(keys[0]) + ([':'] + (CanonicalJson(Lookup(members, keys[0])) + RestOf(MemberTexts(members, keys[1..]), end)))
    ensures |MemberTexts(members, keys)| > 0
  {
    hide Quote, CanonicalJson, RestOf, Join, Find;
    var texts := MemberTexts(members, keys);
    var text := CanonicalJson(Lookup(members, keys[0]));
    JoinSplits(texts, end);
    assert texts[1..] == MemberTexts(members, keys[1..]);
    var rest := RestOf(texts[1..], end);
    Assoc(Quote(keys[0]), ":" + text, rest);
    Assoc(":", text, rest);
  }

  lemma MemberListStarts(members: seq<Member>, keys: seq<string>, x: string)
    requires forall k | k in keys :: HasKey(members, k)
    ensures var t := Join(MemberTexts(members, keys)) + ("}" + x);
            t != "" && (t[0] == '}' <==> keys == [])
  {
    if keys != [] {
      MemberTextsSplit(members, keys, "}" + x);
      assert Quote(keys[0])[0] == '\"';
    }
  }

  /** The keys and the values have been printed alike. */
  ghost predicate SameUnder(a: seq<Member>, b: seq<Member>, ks: seq<string>, ls: seq<string>) {
    ks == ls && forall k | k in ks :: HasKey(a, k) && HasKey(b, k) && JsonValuesEqual(Lookup(a, k), Lookup(b, k))
  }

  lemma {:induction false} MembersUnambiguous(a: seq<Member>, b: seq<Member>, ks: seq<string>, ls: seq<string>, x: string, y: string)
    requires (forall i | 0 <= i < |a| :: Valid(a[i].value)) && (forall i | 0 <= i < |b| :: Valid(b[i].value))
    requires (forall k | k in ks :: HasKey(a, k)) && (forall k | k in ls :: HasKey(b, k))
    requires Join(MemberTexts(a, ks)) + ("}" + x) == Join(MemberTexts(b, ls)) + ("}" + y)
    ensures SameUnder(a, b, ks, ls) && x == y
    decreases a, |ks|
  {
    hide Join, CanonicalJson, JsonValuesEqual, RestOf, Quote, Valid, Find;
    MemberListStarts(a, ks, x);
    MemberListStarts(b, ls, y);
    if ks == [] {
      JoinNothing("}" + x);
      JoinNothing("}" + y);
      CancelHead('}', x, y);
    } else {
      MemberTextsSplit(a, ks, "}" + x);
      MemberTextsSplit(b, ls, "}" + y);
      var restA, restB := MemberTexts(a, ks[1..]), MemberTexts(b, ls[1..]);
      var va, vb := Lookup(a, ks[0]), Lookup(b, ls[0]);
      var ra, rb := RestOf(restA, "}" + x), RestOf(restB, "}" + y);
      RestStarts(restA, '}', x);
      RestStarts(restB, '}', y);
      QuoteUnambiguous(ks[0], ls[0], [':'] + (CanonicalJson(va) + ra), [':'] + (CanonicalJson(vb) + rb));
      CancelHead(':', CanonicalJson(va) + ra, CanonicalJson(vb) + rb);
      Unambiguous(va, vb, ra, rb);
      if restA == [] {
        RestNothing("}" + x);
        RestNothing("}" + y);
        CancelHead('}', x, y);
        assert ks == [ks[0]] + ks[1..] && ls == [ls[0]] + ls[1..];
      } else {
        CancelHead(',', Join(restA) + ("}" + x), Join(restB) + ("}" + y));
        MembersUnambiguous(a, b, ks[1..], ls[1..], x, y);
        assert ks == [ks[0]] + ks[1..] && ls == [ls[0]] + ls[1..];
      }
    }
  }

  lemma MembersMatch(a: seq<Member>, b: seq<Member>)
    requires DistinctKeys(a) && SameUnder(a, b, SortedKeys(a), SortedKeys(b))
    ensures JsonValuesEqual(Obj(a), Obj(b))
  {
    hide SortedKeys, Find;
    forall i | 0 <= i < |a| ensures HasKey(b, a[i].key) && JsonValuesEqual(a[i].value, Lookup(b, a[i].key)) {
      assert HasKey(a, a[i].key) && a[i].key in SortedKeys(a);
      assert Find(a, a[i].key) == i;
    }
  }

  // ---- equal values print alike ------------------------------------------------------------

  function KeySet(members: seq<Member>): set<string> { set i | 0 <= i < |members| :: members[i].key }

  lemma {:induction false} KeyCount(members: seq<Member>)
    requires DistinctKeys(members)
    ensures |KeySet(members)| == |members| && multiset(KeysOf(members)) == multiset(KeySet(members))
  {
    if members == [] {
    } else {
      var n := |members| - 1;
      var rest, key := members[..n], members[n].key;
      KeyCount(rest);
      assert members == rest + [members[n]];
      assert forall i | 0 <= i < n :: rest[i] == members[i];
      assert KeySet(members) == KeySet(rest) + {key};
      assert key !in KeySet(rest);
      assert KeysOf(members) == KeysOf(rest) + [key];
    }
  }

  lemma SubsetOfSameSize(a: set<string>, b: set<string>)
    requires a <= b && |a| == |b|
    ensures a == b
  {
    assert |b - a| == |b| - |a|;
  }

  lemma SameSortedKeys(a: seq<Member>, b: seq<Member>)
    requires DistinctKeys(a) && DistinctKeys(b) && |a| == |b|
    requires forall i | 0 <= i < |a| :: HasKey(b, a[i].key)
    ensures SortedKeys(a) == SortedKeys(b)
  {
    KeyCount(a);
    KeyCount(b);
    SubsetOfSameSize(KeySet(a), KeySet(b));
    SortSorts(KeysOf(a));
    SortSorts(KeysOf(b));
    SortedIsUnique(Sort(KeysOf(a)), Sort(KeysOf(b)));
  }

  lemma {:induction false} EqualPrintAlike(a: Json, b: Json)
    requires Valid(a) && Valid(b) && JsonValuesEqual(a, b)
    ensures CanonicalJson(a) == CanonicalJson(b)
    decreases a
  {
    hide Quote, Join, SortedKeys, Find;
    match a
    case Arr(items) => ItemsPrintAlike(items, b.items);
    case Obj(members) =>
      SameSortedKeys(members, b.members);
      forall k | HasKey(members, k)
        ensures HasKey(b.members, k) && JsonValuesEqual(members[Find(members, k)].value, Lookup(b.members, k))
      {
        assert members[Find(members, k)].key == k;
      }
      MembersPrintAlike(members, b.members, SortedKeys(members));
    case _ =>
  }

  lemma {:induction false} ItemsPrintAlike(a: seq<Json>, b: seq<Json>)
    requires |a| == |b| && forall i | 0 <= i < |a| :: Valid(a[i]) && Valid(b[i]) && JsonValuesEqual(a[i], b[i])
    ensures Texts(a) == Texts(b)
    decreases a
  {
    hide CanonicalJson, JsonValuesEqual, Valid;
    if a != [] {
      EqualPrintAlike(a[0], b[0]);
      ItemsPrintAlike(a[1..], b[1..]);
    }
  }

  lemma {:induction false} MembersPrintAlike(a: seq<Member>, b: seq<Member>, keys: seq<string>)
    requires (forall i | 0 <= i < |a| :: Valid(a[i].value)) && (forall i | 0 <= i < |b| :: Valid(b[i].value))
    requires forall k | k in keys :: HasKey(a, k) && HasKey(b, k) && JsonValuesEqual(Lookup(a, k), Lookup(b, k))
    ensures MemberTexts(a, keys) == MemberTexts(b, keys)
    decreases a, |keys|
  {
    hide CanonicalJson, JsonValuesEqual, Valid, Find, Quote;
    if keys != [] {
      EqualPrintAlike(a[Find(a, keys[0])].value, b[Find(b, keys[0])].value);
      MembersPrintAlike(a, b, keys[1..]);
    }
  }

  /**
   Two JSON values have the same canonical text exactly when they are equal up to member order and
   the sign of zero: the comparison apply uses and the printer digests use draw the same distinctions.
   */
  lemma SameTextIffEqual(a: Json, b: Json)
    requires Valid(a) && Valid(b)
    ensures CanonicalJson(a) == CanonicalJson(b) <==> JsonValuesEqual(a, b)
  {
    hide CanonicalJson, JsonValuesEqual;
    if CanonicalJson(a) == CanonicalJson(b) {
      assert CanonicalJson(a) + "" == CanonicalJson(b) + "";
      Unambiguous(a, b, "", "");
    }
    if JsonValuesEqual(a, b) {
      EqualPrintAlike(a, b);
    }
  }
}
