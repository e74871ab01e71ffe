/** JSON Pointer (RFC 6901): tokens, reading and replacing the value a pointer names. */
module JsonPointer {
  import opened Common
  import opened JsonValues

  // ---- pointers and tokens -----------------------------------------------------------------

  /** Replace every `~` followed by `digit`, left to right. */
  function Replace(s: string, digit: char, with: char): string {
    if |s| >= 2 && s[0] == '~' && s[1] == digit then [with] + Replace(s[2..], digit, with)
    else if s == "" then ""
    else [s[0]] + Replace(s[1..], digit, with)
  }

  function UnescapeToken(token: string): string { Replace(Replace(token, '1', '/'), '0', '~') }

  predicate BadEscape(s: string) {
    exists i :: 0 <= i < |s| && s[i] == '~' && (i + 1 == |s| || s[i + 1] !in {'0', '1'})
  }

  function Split(s: string): (parts: seq<string>)
    ensures parts != []
  {
    if s == "" then [""]
    else
      var rest := Split(s[1..]);
      if s[0] == '/' then [""] + rest else [[s[0]] + rest[0]] + rest[1..]
  }

  function UnescapeAll(parts: seq<string>): seq<string> {
    if parts == [] then [] else [UnescapeToken(parts[0])] + UnescapeAll(parts[1..])
  }

  function PointerTokens(pointer: string): Option<seq<string>> {
    if pointer == "" then Some([])
    else if pointer[0] != '/' then None
    else if BadEscape(pointer) then None
    else Some(UnescapeAll(Split(pointer[1..])))
  }

  // ---- the grammar of section 3 of RFC 6901 ------------------------------------------------

  function Escape(token: string): string {
    if token == "" then ""
    else (if token[0] == '~' then "~0" else if token[0] == '/' then "~1" else [token[0]]) + Escape(token[1..])
  }

  /** The pointer whose tokens these are. */
  function PointerOf(tokens: seq<string>): string {
    if tokens == [] then "" else "/" + (Escape(tokens[0]) + PointerOf(tokens[1..]))
  }

  /** Decoding in one pass. */
  function Decode(s: string): string {
    if s == "" then ""
    else if |s| >= 2 && s[0] == '~' then [if s[1] == '0' then '~' else '/'] + Decode(s[2..])
    else [s[0]] + Decode(s[1..])
  }

  /** Every tilde is followed by 0 or 1. */
  predicate Escaped(s: string) {
    s == "" || (if s[0] == '~' then |s| >= 2 && s[1] in {'0', '1'} && Escaped(s[2..]) else Escaped(s[1..]))
  }

  lemma {:induction false} EscapedIsNotBad(s: string)
    ensures Escaped(s) <==> !BadEscape(s)
  {
    if s == "" {
    } else if s[0] == '~' {
      if |s| >= 2 && s[1] in {'0', '1'} {
        EscapedIsNotBad(s[2..]);
        if i :| 0 <= i < |s| && s[i] == '~' && (i + 1 == |s| || s[i + 1] !in {'0', '1'}) {
          assert s[2..][i - 2] == '~';
        }
        if i :| 0 <= i < |s[2..]| && s[2..][i] == '~' && (i + 1 == |s[2..]| || s[2..][i + 1] !in {'0', '1'}) {
          assert s[i + 2] == '~';
        }
      }
    } else {
      EscapedIsNotBad(s[1..]);
      if i :| 0 <= i < |s| && s[i] == '~' && (i + 1 == |s| || s[i + 1] !in {'0', '1'}) {
        assert s[1..][i - 1] == '~';
      }
      if i :| 0 <= i < |s[1..]| && s[1..][i] == '~' && (i + 1 == |s[1..]| || s[1..][i + 1] !in {'0', '1'}) {
        assert s[i + 1] == '~';
      }
    }
  }

  /** The two replacements of section 4 of RFC 6901, in that order, are the one-pass decoding. */
  lemma {:induction false} TwoPassesAreOne(s: string)
    requires Escaped(s)
    ensures UnescapeToken(s) == Decode(s)
  {
    if s == "" {
    } else if s[0] == '~' {
      TwoPassesAreOne(s[2..]);
      var rest := Replace(s[2..], '1', '/');
      if s[1] == '0' {
        assert s[1..][1..] == s[2..];
        assert Replace(s, '1', '/') == ['~', '0'] + rest;
        assert (['~', '0'] + rest)[2..] == rest;
      } else {
        assert Replace(s, '1', '/') == ['/'] + rest;
        assert (['/'] + rest)[1..] == rest;
      }
    } else {
      TwoPassesAreOne(s[1..]);
      var rest := Replace(s[1..], '1', '/');
      assert Replace(s, '1', '/') == [s[0]] + rest;
      assert ([s[0]] + rest)[1..] == rest;
    }
  }

  predicate NoSlash(s: string) { forall i | 0 <= i < |s| :: s[i] != '/' }

  lemma {:induction false} DecodeInvertsEscape(token: string)
    ensures Escaped(Escape(token)) && NoSlash(Escape(token)) && Decode(Escape(token)) == token
  {
    if token != "" {
      var rest := Escape(token[1..]);
      DecodeInvertsEscape(token[1..]);
      if token[0] in {'~', '/'} {
        assert Escape(token)[2..] == rest;
      } else {
        assert Escape(token)[1..] == rest;
      }
    }
  }

  lemma {:induction false} EscapeInvertsDecode(s: string)
    requires Escaped(s) && NoSlash(s)
    ensures Escape(Decode(s)) == s
  {
    if s == "" {
    } else if s[0] == '~' {
      EscapeInvertsDecode(s[2..]);
      assert Decode(s)[1..] == Decode(s[2..]);
    } else {
      EscapeInvertsDecode(s[1..]);
      assert Decode(s)[1..] == Decode(s[1..]);
    }
  }

  /** The inverse of splitting: the parts with slashes between them. */
  function Joined(parts: seq<string>): string
    requires parts != []
  {
    if |parts| == 1 then parts[0] else parts[0] + ("/" + Joined(parts[1..]))
  }

  predicate Clean(parts: seq<string>) {
    forall i | 0 <= i < |parts| :: Escaped(parts[i]) && NoSlash(parts[i])
  }

  lemma {:induction false} SplitJoins(s: string)
    ensures Joined(Split(s)) == s
    ensures forall i | 0 <= i < |Split(s)| :: NoSlash(Split(s)[i])
  {
    if s != "" {
      SplitJoins(s[1..]);
      var rest := Split(s[1..]);
      if s[0] == '/' {
        assert Split(s)[1..] == rest;
      } else {
        assert Split(s)[1..] == rest[1..];
      }
    }
  }

  lemma {:induction false} SplitEscaped(s: string)
    requires Escaped(s)
    ensures forall i | 0 <= i < |Split(s)| :: Escaped(Split(s)[i])
  {
    if s == "" {
    } else if s[0] == '~' {
      SplitEscaped(s[2..]);
      var rest, tail := Split(s[2..]), Split(s[1..]);
      assert s[1..][1..] == s[2..];
      assert tail[0] == [s[1]] + rest[0] && tail[1..] == rest[1..];
      assert Split(s)[0] == ['~', s[1]] + rest[0] && Split(s)[1..] == rest[1..];
      assert (['~', s[1]] + rest[0])[2..] == rest[0];
    } else {
      SplitEscaped(s[1..]);
      var rest := Split(s[1..]);
      if s[0] != '/' {
        assert ([s[0]] + rest[0])[1..] == rest[0];
      }
    }
  }

  lemma {:induction false} SplitAtSlash(part: string, s: string)
    requires NoSlash(part)
    ensures Split(part) == [part]
    ensures Split(part + ("/" + s)) == [part] + Split(s)
  {
    if part == "" {
      assert ("/" + s)[1..] == s;
      assert part + ("/" + s) == "/" + s;
    } else {
      SplitAtSlash(part[1..], s);
      assert (part + ("/" + s))[1..] == part[1..] + ("/" + s);
      assert [part[0]] + part[1..] == part;
    }
  }

  function EscapeAll(tokens: seq<string>): seq<string> {
    if tokens == [] then [] else [Escape(tokens[0])] + EscapeAll(tokens[1..])
  }

  lemma {:induction false} PointerIsJoined(tokens: seq<string>)
    requires tokens != []
    ensures |EscapeAll(tokens)| == |tokens| && PointerOf(tokens) == "/" + Joined(EscapeAll(tokens))
  {
    assert EscapeAll(tokens)[1..] == EscapeAll(tokens[1..]);
    if |tokens| > 1 {
      PointerIsJoined(tokens[1..]);
    } else {
      assert PointerOf(tokens[1..]) == "";
    }
  }

  lemma {:induction false} EscapeAllSplits(tokens: seq<string>)
    requires tokens != []
    ensures |EscapeAll(tokens)| == |tokens| && Split(Joined(EscapeAll(tokens))) == EscapeAll(tokens)
    ensures Clean(EscapeAll(tokens)) && UnescapeAll(EscapeAll(tokens)) == tokens
  {
    DecodeInvertsEscape(tokens[0]);
    TwoPassesAreOne(Escape(tokens[0]));
    var rest := EscapeAll(tokens[1..]);
    assert EscapeAll(tokens)[1..] == rest;
    if |tokens| > 1 {
      EscapeAllSplits(tokens[1..]);
      SplitAtSlash(Escape(tokens[0]), Joined(rest));
    } else {
      SplitAtSlash(Escape(tokens[0]), "");
    }
  }

  lemma {:induction false} EscapedJoin(parts: seq<string>)
    requires parts != [] && Clean(parts)
    ensures Escaped(Joined(parts))
  {
    if |parts| > 1 {
      EscapedJoin(parts[1..]);
      EscapedConcat(parts[0], "/" + Joined(parts[1..]));
      assert ("/" + Joined(parts[1..]))[1..] == Joined(parts[1..]);
    }
  }

  lemma {:induction false} EscapedConcat(a: string, b: string)
    requires Escaped(a) && Escaped(b)
    ensures Escaped(a + b)
  {
    if a == "" {
      assert a + b == b;
    } else if a[0] == '~' {
      EscapedConcat(a[2..], b);
      assert (a + b)[2..] == a[2..] + b;
    } else {
      EscapedConcat(a[1..], b);
      assert (a + b)[1..] == a[1..] + b;
    }
  }

  lemma {:induction false} EscapeUnescapes(parts: seq<string>)
    requires Clean(parts)
    ensures |UnescapeAll(parts)| == |parts| && EscapeAll(UnescapeAll(parts)) == parts
  {
    if parts != [] {
      TwoPassesAreOne(parts[0]);
      EscapeInvertsDecode(parts[0]);
      EscapeUnescapes(parts[1..]);
      assert UnescapeAll(parts)[1..] == UnescapeAll(parts[1..]);
    }
  }

  /** Every token list has a pointer, and reading that pointer gives the list back. */
  lemma TokensOfPointer(tokens: seq<string>)
    ensures PointerTokens(PointerOf(tokens)) == Some(tokens)
  {
    if tokens != [] {
      PointerIsJoined(tokens);
      EscapeAllSplits(tokens);
      EscapedJoin(EscapeAll(tokens));
      var pointer := PointerOf(tokens);
      assert pointer[1..] == Joined(EscapeAll(tokens));
      EscapedIsNotBad(pointer);
    }
  }

  /** Every valid pointer is the pointer of the tokens read from it, so reading is one to one. */
  lemma PointerOfTokens(pointer: string)
    ensures PointerTokens(pointer).Some? <==> pointer == "" || (pointer[0] == '/' && Escaped(pointer))
    ensures PointerTokens(pointer).Some? ==> PointerOf(PointerTokens(pointer).value) == pointer
  {
    EscapedIsNotBad(pointer);
    if pointer != "" && pointer[0] == '/' && Escaped(pointer) {
      var parts := Split(pointer[1..]);
      SplitJoins(pointer[1..]);
      SplitEscaped(pointer[1..]);
      EscapeUnescapes(parts);
      PointerIsJoined(UnescapeAll(parts));
    }
  }

  // ---- reading and replacing ---------------------------------------------------------------

  predicate IsIndexToken(token: string) {
    token == "0" || (token != "" && '1' <= token[0] <= '9' && forall i | 0 <= i < |token| :: '0' <= token[i] <= '9')
  }

  function IndexValue(token: string): nat
    requires forall i | 0 <= i < |token| :: '0' <= token[i] <= '9'
  {
    if token == "" then 0
    else
      var n := |token| - 1;
      10 * IndexValue(token[..n]) + (token[n] as int - '0' as int)
  }

  function Child(v: Json, token: string): Option<Json> {
    match v
    case Arr(items) => if IsIndexToken(token) && IndexValue(token) < |items| then Some(items[IndexValue(token)]) else None
    case Obj(members) => if HasKey(members, token) then Some(Lookup(members, token)) else None
    case _ => None
  }

  function WithChild(v: Json, token: string, child: Json): Json
    requires Child(v, token).Some?
  {
    match v
    case Arr(items) => Arr(items[IndexValue(token) := child])
    case Obj(members) => Obj(members[Find(members, token) := Member(token, child)])
  }

  function GetTokens(v: Json, tokens: seq<string>): Option<Json> {
    if tokens == [] then Some(v)
    else
      match Child(v, tokens[0])
      case Some(child) => GetTokens(child, tokens[1..])
      case None => None
  }

  function SetTokens(v: Json, tokens: seq<string>, newValue: Json): Option<Json> {
    if tokens == [] then Some(newValue)
    else
      match Child(v, tokens[0])
      case Some(child) =>
        (match SetTokens(child, tokens[1..], newValue)
         case Some(replaced) => Some(WithChild(v, tokens[0], replaced))
         case None => None)
      case None => None
  }

  datatype PointerResult = Found(value: Json) | InvalidPointer | PathNotFound

  function ResultOf(v: Option<Json>): PointerResult { if v.Some? then Found(v.value) else PathNotFound }

  function GetAt(document: Json, pointer: string): PointerResult {
    match PointerTokens(pointer)
    case None => InvalidPointer
    case Some(tokens) => ResultOf(GetTokens(document, tokens))
  }

  function SetAt(document: Json, pointer: string, newValue: Json): PointerResult {
    match PointerTokens(pointer)
    case None => InvalidPointer
    case Some(tokens) => ResultOf(SetTokens(document, tokens, newValue))
  }

  method GetAtPointer(document: Json, pointer: string) returns (r: PointerResult)
    ensures r == GetAt(document, pointer)
  {
    var tokens := PointerTokens(pointer);
    if tokens.None? {
      return InvalidPointer;
    }
    var current := document;
    for i := 0 to |tokens.value|
      invariant GetTokens(document, tokens.value) == GetTokens(current, tokens.value[i..])
    {
      var child := Child(current, tokens.value[i]);
      assert tokens.value[i..][1..] == tokens.value[i + 1..];
      if child.None? {
        return PathNotFound;
      }
      current := child.value;
    }
    r := Found(current);
  }

  /** Walk to the parent, remembering the way; then replace the target and, back up, each ancestor. */
  method SetAtPointer(document: Json, pointer: string, newValue: Json) returns (r: PointerResult)
    ensures r == SetAt(document, pointer, newValue)
  {
    hide PointerTokens, Child, WithChild;
    var parsed := PointerTokens(pointer);
    if parsed.None? {
      return InvalidPointer;
    }
    var tokens := parsed.value;
    if tokens == [] {
      return Found(newValue);
    }
    var n := |tokens| - 1;
    var way := [document];
    for i := 0 to n
      invariant |way| == i + 1 && way[0] == document
      invariant forall j | 0 <= j < i :: Child(way[j], tokens[j]) == Some(way[j + 1])
      invariant SetTokens(document, tokens, newValue).Some? <==> SetTokens(way[i], tokens[i..], newValue).Some?
    {
      var child := Child(way[i], tokens[i]);
      assert tokens[i..][1..] == tokens[i + 1..];
      if child.None? {
        return PathNotFound;
      }
      way := way + [child.value];
    }
    assert tokens[n..] == [tokens[n]];
    if Child(way[n], tokens[n]).None? {
      return PathNotFound;
    }
    var root := WithChild(way[n], tokens[n], newValue);
    var i := n;
    while i > 0
      invariant 0 <= i <= n && SetTokens(way[i], tokens[i..], newValue) == Some(root)
    {
      i := i - 1;
      assert tokens[i..][1..] == tokens[i + 1..];
      root := WithChild(way[i], tokens[i], root);
    }
    r := Found(root);
  }

  // ---- laws --------------------------------------------------------------------------------

  lemma {:induction false} SetWhereGet(v: Json, tokens: seq<string>, newValue: Json)
    ensures SetTokens(v, tokens, newValue).Some? <==> GetTokens(v, tokens).Some?
  {
    if tokens != [] && Child(v, tokens[0]).Some? {
      SetWhereGet(Child(v, tokens[0]).value, tokens[1..], newValue);
    }
  }

  lemma {:induction false} FindStays(members: seq<Member>, key: string, i: nat, value: Json)
    requires i < |members|
    ensures var members' := members[i := Member(members[i].key, value)];
            (HasKey(members', key) <==> HasKey(members, key)) && (HasKey(members, key) ==> Find(members', key) == Find(members, key))
  {
    var members' := members[i := Member(members[i].key, value)];
    assert forall j | 0 <= j < |members| :: members'[j].key == members[j].key;
  }

  lemma ReplacedAgain(v: Json, token: string, child: Json, again: Json)
    requires Child(v, token).Some?
    ensures Child(WithChild(v, token, child), token) == Some(child)
    ensures WithChild(WithChild(v, token, child), token, again) == WithChild(v, token, again)
  {
    if v.Obj? {
      FindStays(v.members, token, Find(v.members, token), child);
    }
  }

  lemma ChildReplaced(v: Json, token: string, child: Json, other: string)
    requires Child(v, token).Some?
    ensures Child(WithChild(v, token, child), token) == Some(child)
    ensures WithChild(v, token, Child(v, token).value) == v
    ensures other != token ==> Child(WithChild(v, token, child), other) == Child(v, other)
  {
    match v
    case Arr(items) =>
      if other != token && IsIndexToken(other) {
        IndexTokensDiffer(token, other);
      }
    case Obj(members) =>
      FindStays(members, token, Find(members, token), child);
      FindStays(members, other, Find(members, token), child);
  }

  lemma {:induction false} PositiveIndex(token: string)
    requires token != "" && '1' <= token[0] <= '9' && forall i | 0 <= i < |token| :: '0' <= token[i] <= '9'
    ensures IndexValue(token) > 0
  {
    if |token| > 1 {
      PositiveIndex(token[..|token| - 1]);
    }
  }

  /** Index tokens have no leading zeros, so different ones name different elements. */
  lemma {:induction false} IndexTokensDiffer(a: string, b: string)
    requires IsIndexToken(a) && IsIndexToken(b) && a != b
    ensures IndexValue(a) != IndexValue(b)
  {
    if a != "0" { PositiveIndex(a); }
    if b != "0" { PositiveIndex(b); }
    if a != "0" && b != "0" && IndexValue(a) == IndexValue(b) {
      var m, n := |a| - 1, |b| - 1;
      assert a == a[..m] + [a[m]] && b == b[..n] + [b[n]];
      if m > 0 { PositiveIndex(a[..m]); }
      if n > 0 { PositiveIndex(b[..n]); }
      assert a[m] == b[n] && IndexValue(a[..m]) == IndexValue(b[..n]);
      if m > 0 && n > 0 {
        IndexTokensDiffer(a[..m], b[..n]);
      }
      assert false;
    }
  }

  /** The decimal digits of a number, without leading zeros. */
  function IndexToken(n: nat): string {
    var digit := [('0' as int + n % 10) as char];
    if n < 10 then digit else IndexToken(n / 10) + digit
  }

  /** Every element can be named: its position has a token, and only one. */
  lemma {:induction false} IndexHasToken(n: nat)
    ensures IsIndexToken(IndexToken(n)) && IndexValue(IndexToken(n)) == n
    ensures forall token | IsIndexToken(token) && IndexValue(token) == n :: token == IndexToken(n)
  {
    IndexTokenReads(n);
    forall token | IsIndexToken(token) && IndexValue(token) == n ensures token == IndexToken(n) {
      if token != IndexToken(n) {
        IndexTokensDiffer(token, IndexToken(n));
      }
    }
  }

  /** Tokens reach every element and every member, and nothing inside a scalar. */
  lemma ChildrenReached(items: seq<Json>, members: seq<Member>, i: nat, token: string)
    ensures i < |items| ==> Child(Arr(items), IndexToken(i)) == Some(items[i])
    ensures Child(Arr(items), token).Some? ==> exists j :: 0 <= j < |items| && token == IndexToken(j)
    ensures i < |members| && DistinctKeys(members) ==> Child(Obj(members), members[i].key) == Some(members[i].value)
    ensures Child(Obj(members), token).Some? ==> exists j :: 0 <= j < |members| && token == members[j].key
  {
    IndexHasToken(i);
    if Child(Arr(items), token).Some? {
      IndexHasToken(IndexValue(token));
    }
    if i < |members| && DistinctKeys(members) {
      assert HasKey(members, members[i].key) && Find(members, members[i].key) == i;
    }
  }

  lemma {:induction false} IndexTokenReads(n: nat)
    ensures IsIndexToken(IndexToken(n)) && IndexValue(IndexToken(n)) == n
    ensures n > 0 ==> '1' <= IndexToken(n)[0]
  {
    var digit := [('0' as int + n % 10) as char];
    if n < 10 {
      assert digit[..0] == "";
    } else {
      var t := IndexToken(n / 10);
      IndexTokenReads(n / 10);
      assert (t + digit)[..|t|] == t;
    }
  }

  lemma {:induction false} GetAfterSetTokens(v: Json, tokens: seq<string>, newValue: Json)
    requires GetTokens(v, tokens).Some?
    ensures SetTokens(v, tokens, newValue).Some?
    ensures GetTokens(SetTokens(v, tokens, newValue).value, tokens) == Some(newValue)
  {
    SetWhereGet(v, tokens, newValue);
    if tokens != [] {
      var child := Child(v, tokens[0]).value;
      GetAfterSetTokens(child, tokens[1..], newValue);
      ChildReplaced(v, tokens[0], SetTokens(child, tokens[1..], newValue).value, tokens[0]);
    }
  }

  lemma {:induction false} SetAfterGetTokens(v: Json, tokens: seq<string>)
    requires GetTokens(v, tokens).Some?
    ensures SetTokens(v, tokens, GetTokens(v, tokens).value) == Some(v)
  {
    if tokens != [] {
      SetAfterGetTokens(Child(v, tokens[0]).value, tokens[1..]);
      ChildReplaced(v, tokens[0], v, tokens[0]);
    }
  }

  lemma {:induction false} SetAfterSetTokens(v: Json, tokens: seq<string>, first: Json, second: Json)
    requires GetTokens(v, tokens).Some?
    ensures SetTokens(v, tokens, first).Some?
    ensures SetTokens(SetTokens(v, tokens, first).value, tokens, second) == SetTokens(v, tokens, second)
  {
    SetWhereGet(v, tokens, first);
    SetWhereGet(v, tokens, second);
    if tokens != [] {
      var child := Child(v, tokens[0]).value;
      SetAfterSetTokens(child, tokens[1..], first, second);
      ReplacedAgain(v, tokens[0], SetTokens(child, tokens[1..], first).value, SetTokens(child, tokens[1..], second).value);
    }
  }

  /** Neither pointer leads through the other. */
  predicate Apart(a: seq<string>, b: seq<string>) { !(a <= b) && !(b <= a) }

  lemma {:induction false} OtherTokensUnchanged(v: Json, tokens: seq<string>, newValue: Json, others: seq<string>)
    requires GetTokens(v, tokens).Some? && Apart(tokens, others)
    ensures SetTokens(v, tokens, newValue).Some?
    ensures GetTokens(SetTokens(v, tokens, newValue).value, others) == GetTokens(v, others)
  {
    SetWhereGet(v, tokens, newValue);
    var child := Child(v, tokens[0]).value;
    var replaced := SetTokens(child, tokens[1..], newValue).value;
    ChildReplaced(v, tokens[0], replaced, others[0]);
    if tokens[0] == others[0] {
      assert tokens == [tokens[0]] + tokens[1..] && others == [others[0]] + others[1..];
      OtherTokensUnchanged(child, tokens[1..], newValue, others[1..]);
    }
  }

  /** Through a prefix of the pointer one sees the same replacement made further down. */
  lemma {:induction false} PrefixSeesReplacement(v: Json, above: seq<string>, below: seq<string>, newValue: Json)
    requires GetTokens(v, above + below).Some?
    ensures GetTokens(v, above).Some? && SetTokens(v, above + below, newValue).Some?
    ensures GetTokens(SetTokens(v, above + below, newValue).value, above) == SetTokens(GetTokens(v, above).value, below, newValue)
  {
    SetWhereGet(v, above + below, newValue);
    if above == [] {
      assert above + below == below;
    } else {
      assert (above + below)[1..] == above[1..] + below;
      var child := Child(v, above[0]).value;
      PrefixSeesReplacement(child, above[1..], below, newValue);
      ChildReplaced(v, above[0], SetTokens(child, above[1..] + below, newValue).value, above[0]);
    }
  }

  /** Replacing succeeds exactly when reading does, and fails in the same way. */
  lemma SetSucceedsIffGet(document: Json, pointer: string, newValue: Json)
    ensures GetAt(document, pointer).Found? <==> SetAt(document, pointer, newValue).Found?
    ensures !GetAt(document, pointer).Found? ==> SetAt(document, pointer, newValue) == GetAt(document, pointer)
  {
    if PointerTokens(pointer).Some? {
      SetWhereGet(document, PointerTokens(pointer).value, newValue);
    }
  }

  lemma LensLaws(document: Json, pointer: string, first: Json, second: Json)
    requires GetAt(document, pointer).Found?
    ensures SetAt(document, pointer, first).Found?
    ensures GetAt(SetAt(document, pointer, first).value, pointer) == Found(first)
    ensures SetAt(document, pointer, GetAt(document, pointer).value) == Found(document)
    ensures SetAt(SetAt(document, pointer, first).value, pointer, second) == SetAt(document, pointer, second)
  {
    var tokens := PointerTokens(pointer).value;
    GetAfterSetTokens(document, tokens, first);
    SetAfterGetTokens(document, tokens);
    SetAfterSetTokens(document, tokens, first, second);
  }

  lemma UnrelatedPointerUnchanged(document: Json, pointer: string, newValue: Json, other: string)
    requires GetAt(document, pointer).Found? && PointerTokens(other).Some?
    requires Apart(PointerTokens(pointer).value, PointerTokens(other).value)
    ensures SetAt(document, pointer, newValue).Found?
    ensures GetAt(SetAt(document, pointer, newValue).value, other) == GetAt(document, other)
  {
    OtherTokensUnchanged(document, PointerTokens(pointer).value, newValue, PointerTokens(other).value);
  }

  lemma {:induction false} ReplacementKeepsValid(v: Json, tokens: seq<string>, newValue: Json)
    requires Valid(v) && Valid(newValue) && GetTokens(v, tokens).Some?
    ensures SetTokens(v, tokens, newValue).Some? && Valid(SetTokens(v, tokens, newValue).value)
  {
    SetWhereGet(v, tokens, newValue);
    if tokens != [] {
      var child := Child(v, tokens[0]).value;
      assert Valid(child);
      ReplacementKeepsValid(child, tokens[1..], newValue);
    }
  }
}
