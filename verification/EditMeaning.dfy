/**
 What an edited text holds, read back by the parser: the values set are where they were set, and the
 document is otherwise as it was. Values are compared as apply compares them.
 */
module EditMeaning {
  import opened Common
  import opened JsonValues
  import opened JsonPointer
  import C = CanonicalJson
  import S = ProposeApply

  // ---- the comparison is an equality -------------------------------------------------------

  lemma EqualItself(v: Json)
    requires Valid(v)
    ensures C.JsonValuesEqual(v, v)
  {
    C.SameTextIffEqual(v, v);
  }

  lemma EqualBack(v: Json, w: Json)
    requires Valid(v) && Valid(w) && C.JsonValuesEqual(v, w)
    ensures C.JsonValuesEqual(w, v)
  {
    hide C.JsonValuesEqual;
    C.SameTextIffEqual(v, w);
    C.SameTextIffEqual(w, v);
  }

  lemma EqualOn(u: Json, v: Json, w: Json)
    requires Valid(u) && Valid(v) && Valid(w) && C.JsonValuesEqual(u, v) && C.JsonValuesEqual(v, w)
    ensures C.JsonValuesEqual(u, w)
  {
    hide C.JsonValuesEqual, C.CanonicalJson;
    C.SameTextIffEqual(u, v);
    C.SameTextIffEqual(v, w);
    C.SameTextIffEqual(u, w);
  }

  predicate BothEqual(v: Option<Json>, w: Option<Json>) {
    (v.Some? <==> w.Some?) && (v.Some? ==> C.JsonValuesEqual(v.value, w.value))
  }

  // ---- reading and replacing respect it ----------------------------------------------------

  lemma ChildIsValid(v: Json, token: string)
    requires Valid(v) && Child(v, token).Some?
    ensures Valid(Child(v, token).value)
  {
  }

  lemma ChildrenEqual(v: Json, w: Json, token: string)
    requires Valid(v) && Valid(w) && C.JsonValuesEqual(v, w)
    ensures BothEqual(Child(v, token), Child(w, token))
  {
    EqualBack(v, w);
    if v.Obj? && HasKey(v.members, token) {
      var i := Find(v.members, token);
      assert C.JsonValuesEqual(v.members[i].value, Lookup(w.members, token));
    }
    if v.Obj? && HasKey(w.members, token) {
      var i := Find(w.members, token);
      assert HasKey(v.members, w.members[i].key);
    }
  }

  lemma ReplacedEqual(v: Json, w: Json, token: string, c: Json, d: Json)
    requires Valid(v) && Valid(w) && C.JsonValuesEqual(v, w) && C.JsonValuesEqual(c, d)
    requires Child(v, token).Some? && Child(w, token).Some?
    ensures C.JsonValuesEqual(WithChild(v, token, c), WithChild(w, token, d))
  {
    if v.Obj? {
      var k, l := Find(v.members, token), Find(w.members, token);
      var members, others := v.members[k := Member(token, c)], w.members[l := Member(token, d)];
      forall i | 0 <= i < |members|
        ensures HasKey(others, members[i].key) && C.JsonValuesEqual(members[i].value, Lookup(others, members[i].key))
      {
        assert HasKey(w.members, v.members[i].key);
        FindStays(w.members, v.members[i].key, l, d);
      }
    }
  }

  lemma {:induction false} TokensEqual(v: Json, w: Json, tokens: seq<string>)
    requires Valid(v) && Valid(w) && C.JsonValuesEqual(v, w)
    ensures BothEqual(GetTokens(v, tokens), GetTokens(w, tokens))
    decreases |tokens|
  {
    hide C.JsonValuesEqual, Valid, Child;
    if tokens != [] {
      ChildrenEqual(v, w, tokens[0]);
      if Child(v, tokens[0]).Some? {
        ChildIsValid(v, tokens[0]);
        ChildIsValid(w, tokens[0]);
        TokensEqual(Child(v, tokens[0]).value, Child(w, tokens[0]).value, tokens[1..]);
      }
    }
  }

  lemma {:induction false} ReplacementsEqual(v: Json, w: Json, tokens: seq<string>, newValue: Json)
    requires Valid(v) && Valid(w) && Valid(newValue) && C.JsonValuesEqual(v, w)
    ensures BothEqual(SetTokens(v, tokens, newValue), SetTokens(w, tokens, newValue))
    decreases |tokens|
  {
    hide C.JsonValuesEqual, Valid, Child, WithChild;
    if tokens == [] {
      EqualItself(newValue);
    } else {
      ChildrenEqual(v, w, tokens[0]);
      if Child(v, tokens[0]).Some? {
        var c, d := Child(v, tokens[0]).value, Child(w, tokens[0]).value;
        ChildIsValid(v, tokens[0]);
        ChildIsValid(w, tokens[0]);
        ReplacementsEqual(c, d, tokens[1..], newValue);
        if SetTokens(c, tokens[1..], newValue).Some? {
          ReplacedEqual(v, w, tokens[0], SetTokens(c, tokens[1..], newValue).value, SetTokens(d, tokens[1..], newValue).value);
        }
      }
    }
  }

  /** Equal documents are read alike at every pointer. */
  lemma EqualReadsAlike(v: Json, w: Json, pointer: string)
    requires Valid(v) && Valid(w) && C.JsonValuesEqual(v, w)
    ensures ReadsAlike(GetAt(v, pointer), GetAt(w, pointer))
  {
    hide GetTokens;
    if PointerTokens(pointer).Some? {
      TokensEqual(v, w, PointerTokens(pointer).value);
    }
  }

  /** The same answer, with equal values where one is found. */
  predicate ReadsAlike(a: PointerResult, b: PointerResult) {
    if a.Found? && b.Found? then C.JsonValuesEqual(a.value, b.value) else a == b
  }

  lemma SetsAlike(v: Json, w: Json, pointer: string, newValue: Json)
    requires Valid(v) && Valid(w) && Valid(newValue) && C.JsonValuesEqual(v, w)
    ensures ReadsAlike(SetAt(v, pointer, newValue), SetAt(w, pointer, newValue))
  {
    hide SetTokens;
    if PointerTokens(pointer).Some? {
      ReplacementsEqual(v, w, PointerTokens(pointer).value, newValue);
    }
  }

  lemma SetIsValid(v: Json, pointer: string, newValue: Json)
    requires Valid(v) && Valid(newValue) && SetAt(v, pointer, newValue).Found?
    ensures Valid(SetAt(v, pointer, newValue).value)
  {
    var tokens := PointerTokens(pointer).value;
    SetWhereGet(v, tokens, newValue);
    ReplacementKeepsValid(v, tokens, newValue);
  }

  // ---- values set one after the other ------------------------------------------------------

  datatype Assignment = Assignment(pointer: string, newValue: Json)

  /** The document with each value set in turn. */
  function SetAll(document: Json, assignments: seq<Assignment>): Option<Json> {
    if assignments == [] then Some(document)
    else
      var n := |assignments| - 1;
      match SetAll(document, assignments[..n])
      case None => None
      case Some(v) =>
        (match SetAt(v, assignments[n].pointer, assignments[n].newValue)
         case Found(w) => Some(w)
         case _ => None)
  }

  lemma SetOnce(document: Json, a: Assignment)
    ensures SetAll(document, [a]) ==
            match SetAt(document, a.pointer, a.newValue) case Found(v) => Some(v) case _ => None
  {
    hide SetAt;
    assert [a][..0] == [];
  }

  predicate AllApart(pointer: string, assignments: seq<Assignment>) {
    PointerTokens(pointer).Some? && forall i | 0 <= i < |assignments| :: PointersApart(pointer, assignments[i].pointer)
  }

  /** Neither pointer leads through the other. */
  predicate PointersApart(pointer: string, other: string) {
    && PointerTokens(pointer).Some? && PointerTokens(other).Some?
    && Apart(PointerTokens(other).value, PointerTokens(pointer).value)
  }

  /** A pointer apart from every one set reads what it read before. */
  lemma {:induction false} OthersRead(document: Json, assignments: seq<Assignment>, pointer: string)
    requires SetAll(document, assignments).Some? && AllApart(pointer, assignments)
    ensures GetAt(SetAll(document, assignments).value, pointer) == GetAt(document, pointer)
  {
    hide GetAt, SetAt, PointerTokens;
    if assignments != [] {
      var n := |assignments| - 1;
      OthersRead(document, assignments[..n], pointer);
      var before := SetAll(document, assignments[..n]).value;
      assert PointersApart(pointer, assignments[n].pointer);
      SetSucceedsIffGet(before, assignments[n].pointer, assignments[n].newValue);
      UnrelatedPointerUnchanged(before, assignments[n].pointer, assignments[n].newValue, pointer);
    }
  }

  /** A value set is read back, unless one set later is at or about the same place. */
  lemma {:induction false} LastSetReads(document: Json, assignments: seq<Assignment>, k: nat)
    requires SetAll(document, assignments).Some? && k < |assignments|
    requires AllApart(assignments[k].pointer, assignments[k + 1..])
    ensures GetAt(SetAll(document, assignments).value, assignments[k].pointer) == Found(assignments[k].newValue)
    decreases |assignments|
  {
    hide GetAt, SetAt, PointerTokens;
    var n := |assignments| - 1;
    var init, last := assignments[..n], assignments[n];
    var before := SetAll(document, init).value;
    SetSucceedsIffGet(before, last.pointer, last.newValue);
    if k == n {
      LensLaws(before, last.pointer, last.newValue, last.newValue);
    } else {
      assert assignments[k + 1..][n - k - 1] == last;
      assert init[k + 1..] == assignments[k + 1..][..n - k - 1];
      LastSetReads(document, init, k);
      UnrelatedPointerUnchanged(before, last.pointer, last.newValue, assignments[k].pointer);
    }
  }

  // ---- one direct edit ---------------------------------------------------------------------

  /** The text `after` parses to the document of `before` with the values set in turn. */
  ghost predicate Sets(s: S.Schema, before: string, assignments: seq<Assignment>, after: string) {
    && s.parse(before).Some? && s.parse(after).Some?
    && SetAll(s.parse(before).value, assignments).Some?
    && C.JsonValuesEqual(s.parse(after).value, SetAll(s.parse(before).value, assignments).value)
  }

  /** Why an edit of this text is refused, if it is. */
  function Refusal(s: S.Schema, text: string, pointer: string, newValue: Json): Option<S.Reason> {
    if s.parse(text).None? then Some(S.InvalidDocument)
    else if !Valid(newValue) then Some(S.ValidationFailed)
    else
      match SetAt(s.parse(text).value, pointer, newValue)
      case Found(v) => if s.validate(v).None? then Some(S.ValidationFailed) else None
      case _ => Some(S.PointerInvalid)
  }

  lemma EditRefused(s: S.Schema, text: string, pointer: string, newValue: Json)
    ensures match Refusal(s, text, pointer, newValue)
            case Some(reason) => S.EditText(s, text, pointer, newValue) == S.Rejected(reason)
            case None => S.EditText(s, text, pointer, newValue).Ok?
  {
    hide SetAt, Valid;
  }

  lemma UnsignedEqual(v: Json, w: Json)
    requires Valid(v) && Valid(w) && w == S.Unsigned(v)
    ensures C.JsonValuesEqual(w, v)
  {
    S.UnsignedTwice(v);
    S.UnsignedIsEqual(w, v);
  }

  /** The text of a validated value parses to a value equal to it. */
  lemma ValidatedText(s: S.Schema, v: Json)
    requires S.Lawful(s) && Valid(v) && s.validate(v).Some?
    ensures s.parse(s.serialize(s.validate(v).value)) == Some(S.Unsigned(s.validate(v).value))
    ensures Valid(S.Unsigned(s.validate(v).value)) && C.JsonValuesEqual(S.Unsigned(s.validate(v).value), v)
  {
    var d := s.validate(v).value;
    assert s.parse(s.serialize(d)) == Some(S.Unsigned(d));
    S.ParsedIsValid(s, s.serialize(d));
    UnsignedEqual(d, S.Unsigned(d));
    EqualOn(S.Unsigned(d), d, v);
  }

  /**
   An edit is refused for the first thing wrong with it; otherwise the text written parses to what
   validation makes of the document with the value set.
   */
  lemma EditSets(s: S.Schema, text: string, pointer: string, newValue: Json)
    requires S.Lawful(s)
    ensures match Refusal(s, text, pointer, newValue)
            case Some(reason) => S.EditText(s, text, pointer, newValue) == S.Rejected(reason)
            case None =>
              && S.EditText(s, text, pointer, newValue).Ok?
              && s.parse(S.EditText(s, text, pointer, newValue).value)
                 == Some(S.Unsigned(s.validate(SetAt(s.parse(text).value, pointer, newValue).value).value))
    ensures S.EditText(s, text, pointer, newValue).Ok? ==>
              Sets(s, text, [Assignment(pointer, newValue)], S.EditText(s, text, pointer, newValue).value)
  {
    hide S.Lawful, SetAt, Valid, C.JsonValuesEqual, S.Unsigned;
    if Refusal(s, text, pointer, newValue).None? {
      S.ParsedIsValid(s, text);
      SetIsValid(s.parse(text).value, pointer, newValue);
      ValidatedText(s, SetAt(s.parse(text).value, pointer, newValue).value);
      SetOnce(s.parse(text).value, Assignment(pointer, newValue));
    }
  }

  lemma {:induction false} SetAllIsValid(document: Json, assignments: seq<Assignment>)
    requires Valid(document) && ValuesValid(assignments) && SetAll(document, assignments).Some?
    ensures Valid(SetAll(document, assignments).value)
  {
    hide Valid, SetAt;
    if assignments != [] {
      var n := |assignments| - 1;
      SetAllIsValid(document, assignments[..n]);
      SetIsValid(SetAll(document, assignments[..n]).value, assignments[n].pointer, assignments[n].newValue);
    }
  }

  predicate ValuesValid(assignments: seq<Assignment>) {
    forall i | 0 <= i < |assignments| :: Valid(assignments[i].newValue)
  }

  /**
   Read back, the edited text has each value where it was set, unless one set later is at or about the
   same place, and the old values at pointers apart from all those set.
   */
  lemma SetsRead(s: S.Schema, before: string, assignments: seq<Assignment>, after: string, pointer: string)
    requires S.Lawful(s) && Sets(s, before, assignments, after) && ValuesValid(assignments)
    ensures forall k | 0 <= k < |assignments| && AllApart(assignments[k].pointer, assignments[k + 1..]) ::
              ReadsAlike(GetAt(s.parse(after).value, assignments[k].pointer), Found(assignments[k].newValue))
    ensures AllApart(pointer, assignments) ==>
              ReadsAlike(GetAt(s.parse(after).value, pointer), GetAt(s.parse(before).value, pointer))
  {
    hide S.Lawful, SetAll, GetAt, AllApart, Valid, C.JsonValuesEqual;
    var v, w := s.parse(after).value, SetAll(s.parse(before).value, assignments).value;
    S.ParsedIsValid(s, before);
    S.ParsedIsValid(s, after);
    SetAllIsValid(s.parse(before).value, assignments);
    forall k | 0 <= k < |assignments| && AllApart(assignments[k].pointer, assignments[k + 1..])
      ensures ReadsAlike(GetAt(v, assignments[k].pointer), Found(assignments[k].newValue))
    {
      LastSetReads(s.parse(before).value, assignments, k);
      EqualReadsAlike(v, w, assignments[k].pointer);
    }
    if AllApart(pointer, assignments) {
      OthersRead(s.parse(before).value, assignments, pointer);
      EqualReadsAlike(v, w, pointer);
    }
  }

  /** Read back, the edited text has the new value at the pointer and the old ones at pointers apart from it. */
  lemma EditReads(s: S.Schema, text: string, pointer: string, newValue: Json, other: string)
    requires S.Lawful(s) && S.EditText(s, text, pointer, newValue).Ok?
    ensures var after := S.EditText(s, text, pointer, newValue).value;
            && s.parse(text).Some? && s.parse(after).Some?
            && ReadsAlike(GetAt(s.parse(after).value, pointer), Found(newValue))
            && (PointersApart(other, pointer) ==> ReadsAlike(GetAt(s.parse(after).value, other), GetAt(s.parse(text).value, other)))
  {
    hide S.Lawful, SetAt, GetAt, PointerTokens, S.EditText, ReadsAlike, Sets, SetAll;
    EditSets(s, text, pointer, newValue);
    var one, after := [Assignment(pointer, newValue)], S.EditText(s, text, pointer, newValue).value;
    assert one[1..] == [];
    EditedWhere(s, text, pointer, newValue);
    SetsRead(s, text, one, after, other);
    assert ReadsAlike(GetAt(s.parse(after).value, one[0].pointer), Found(one[0].newValue));
  }

  /** An edit that is taken names a pointer and a valid value. */
  lemma EditedWhere(s: S.Schema, text: string, pointer: string, newValue: Json)
    requires S.Lawful(s) && S.EditText(s, text, pointer, newValue).Ok?
    ensures Valid(newValue) && PointerTokens(pointer).Some? && s.parse(text).Some?
    ensures s.parse(S.EditText(s, text, pointer, newValue).value).Some?
  {
    hide S.Lawful, Valid;
    EditSets(s, text, pointer, newValue);
  }

  // ---- several edits -----------------------------------------------------------------------

  function Assigned(edits: seq<S.Edit>): seq<Assignment> {
    seq(|edits|, i requires 0 <= i < |edits| => Assignment(edits[i].pointer, edits[i].newValue))
  }

  function Proposed(edits: seq<S.ProposalEdit>): seq<Assignment> {
    seq(|edits|, i requires 0 <= i < |edits| => Assignment(edits[i].pointer, edits[i].newValue))
  }

  /** One more value set in a document equal to the one reached so far. */
  lemma SetsOneMore(s: S.Schema, document: Json, assignments: seq<Assignment>, reached: Json, last: Assignment)
    requires Valid(document) && ValuesValid(assignments) && Valid(last.newValue) && Valid(reached)
    requires SetAll(document, assignments).Some? && C.JsonValuesEqual(reached, SetAll(document, assignments).value)
    requires SetAt(reached, last.pointer, last.newValue).Found?
    ensures SetAll(document, assignments + [last]).Some?
    ensures Valid(SetAt(reached, last.pointer, last.newValue).value) && Valid(SetAll(document, assignments + [last]).value)
    ensures C.JsonValuesEqual(SetAt(reached, last.pointer, last.newValue).value, SetAll(document, assignments + [last]).value)
  {
    hide Valid, SetAt, C.JsonValuesEqual;
    assert (assignments + [last])[..|assignments|] == assignments;
    SetAllIsValid(document, assignments);
    SetsAlike(reached, SetAll(document, assignments).value, last.pointer, last.newValue);
    SetIsValid(reached, last.pointer, last.newValue);
    SetIsValid(SetAll(document, assignments).value, last.pointer, last.newValue);
  }

  /** Direct edits of one document, one after the other, set their values one after the other. */
  lemma {:induction false} EditsSet(s: S.Schema, text: string, edits: seq<S.Edit>)
    requires S.Lawful(s) && s.parse(text).Some? && S.EditTexts(s, text, edits).Ok?
    ensures ValuesValid(Assigned(edits)) && Sets(s, text, Assigned(edits), S.EditTexts(s, text, edits).value)
  {
    hide S.Lawful, S.EditText, Valid, SetAt, C.JsonValuesEqual;
    S.ParsedIsValid(s, text);
    if edits == [] {
      EqualItself(s.parse(text).value);
    } else {
      var n := |edits| - 1;
      var init, last := edits[..n], edits[n];
      EditsSet(s, text, init);
      var t := S.EditTexts(s, text, init).value;
      EditSets(s, t, last.pointer, last.newValue);
      EditedWhere(s, t, last.pointer, last.newValue);
      EditedFromText(s, t, last.pointer, last.newValue);
      S.ParsedIsValid(s, t);
      SetsOneMore(s, s.parse(text).value, Assigned(init), s.parse(t).value, Assignment(last.pointer, last.newValue));
      assert Assigned(edits) == Assigned(init) + [Assignment(last.pointer, last.newValue)];
      var after := S.EditText(s, t, last.pointer, last.newValue).value;
      S.ParsedIsValid(s, after);
      EqualOn(s.parse(after).value, SetAt(s.parse(t).value, last.pointer, last.newValue).value, SetAll(s.parse(text).value, Assigned(edits)).value);
    }
  }

  lemma EditedFromText(s: S.Schema, text: string, pointer: string, newValue: Json)
    requires S.Lawful(s) && S.EditText(s, text, pointer, newValue).Ok?
    ensures s.parse(text).Some? && SetAt(s.parse(text).value, pointer, newValue).Found?
    ensures s.parse(S.EditText(s, text, pointer, newValue).value).Some?
    ensures C.JsonValuesEqual(s.parse(S.EditText(s, text, pointer, newValue).value).value, SetAt(s.parse(text).value, pointer, newValue).value)
  {
    hide S.Lawful, S.EditText, Valid, C.JsonValuesEqual, SetAt, SetAll;
    EditSets(s, text, pointer, newValue);
    SetOnce(s.parse(text).value, Assignment(pointer, newValue));
  }

  /** An edit made in memory sets its value in the document. */
  lemma PointerEditSets(s: S.Schema, document: Json, pointer: string, newValue: Json)
    requires S.Lawful(s) && Valid(document) && S.ApplyPointerEdit(s, document, pointer, newValue).Ok?
    ensures Valid(newValue) && SetAt(document, pointer, newValue).Found? && Valid(SetAt(document, pointer, newValue).value)
    ensures var d := S.ApplyPointerEdit(s, document, pointer, newValue).value;
            && Valid(d) && C.JsonValuesEqual(d, SetAt(document, pointer, newValue).value)
            && s.parse(s.serialize(d)) == Some(S.Unsigned(d))
            && Valid(S.Unsigned(d)) && C.JsonValuesEqual(S.Unsigned(d), d)
  {
    hide SetAt, C.JsonValuesEqual;
    SetIsValid(document, pointer, newValue);
    var d := S.ApplyPointerEdit(s, document, pointer, newValue).value;
    assert s.validate(SetAt(document, pointer, newValue).value) == Some(d);
    S.ParsedIsValid(s, s.serialize(d));
    UnsignedEqual(d, S.Unsigned(d));
  }

  /** So do the edits of a proposal, made one after the other in memory. */
  lemma {:induction false} ChainSets(s: S.Schema, document: Json, edits: seq<S.ProposalEdit>)
    requires S.Lawful(s) && Valid(document) && S.Chain(s, document, edits).Ok?
    ensures ValuesValid(Proposed(edits)) && SetAll(document, Proposed(edits)).Some?
    ensures Valid(S.Chain(s, document, edits).value)
    ensures C.JsonValuesEqual(S.Chain(s, document, edits).value, SetAll(document, Proposed(edits)).value)
    ensures edits != [] ==> ReadBack(s, S.Chain(s, document, edits).value)
  {
    hide S.Lawful, S.ApplyPointerEdit, Valid, SetAt, C.JsonValuesEqual, ReadBack, GetAt;
    if edits == [] {
      EqualItself(document);
    } else {
      var n := |edits| - 1;
      var init, last := edits[..n], edits[n];
      ChainSets(s, document, init);
      var reached := S.Chain(s, document, init).value;
      PointerEditSets(s, reached, last.pointer, last.newValue);
      var d := S.ApplyPointerEdit(s, reached, last.pointer, last.newValue).value;
      SetsOneMore(s, document, Proposed(init), reached, Assignment(last.pointer, last.newValue));
      assert Proposed(edits) == Proposed(init) + [Assignment(last.pointer, last.newValue)];
      EqualOn(d, SetAt(reached, last.pointer, last.newValue).value, SetAll(document, Proposed(edits)).value);
      EditReadsBack(s, reached, last.pointer, last.newValue);
    }
  }

  /** The document's text parses to a document equal to it. */
  ghost predicate ReadBack(s: S.Schema, d: Json) {
    && s.parse(s.serialize(d)).Some? && Valid(s.parse(s.serialize(d)).value)
    && C.JsonValuesEqual(s.parse(s.serialize(d)).value, d)
  }

  lemma EditReadsBack(s: S.Schema, document: Json, pointer: string, newValue: Json)
    requires S.Lawful(s) && Valid(document) && S.ApplyPointerEdit(s, document, pointer, newValue).Ok?
    ensures ReadBack(s, S.ApplyPointerEdit(s, document, pointer, newValue).value)
  {
    PointerEditSets(s, document, pointer, newValue);
  }

  // ---- a whole proposal --------------------------------------------------------------------

  /** A proposal applied to the texts it was made from sets the values that were asked for, document by document. */
  lemma ProposedIsSet(s: S.Schema, resolve: string -> string, texts: map<string, string>, inputs: seq<S.Edit>)
    requires S.Lawful(s) && S.ProposeAll(s, resolve, texts, inputs).Ok?
    ensures var planned := S.PlanProposal(s, resolve, texts, S.ProposalOf(s, S.ProposeAll(s, resolve, texts, inputs).value));
            && planned.Ok?
            && forall i | 0 <= i < |planned.value| ::
                 && planned.value[i].path in texts && planned.value[i].before == texts[planned.value[i].path]
                 && Sets(s, planned.value[i].before, Assigned(S.Own(resolve, inputs, planned.value[i].path)), planned.value[i].after)
  {
    hide S.Lawful, S.ProposeAll, S.PlanProposal, S.EditTexts, S.Own, S.ProposalOf, Sets;
    S.ProposeThenApply(s, resolve, texts, inputs);
    var plans := S.PlanProposal(s, resolve, texts, S.ProposalOf(s, S.ProposeAll(s, resolve, texts, inputs).value)).value;
    forall i | 0 <= i < |plans|
      ensures Sets(s, plans[i].before, Assigned(S.Own(resolve, inputs, plans[i].path)), plans[i].after)
    {
      var own := S.Own(resolve, inputs, plans[i].path);
      assert own != [];
      TextsParse(s, plans[i].before, own);
      EditsSet(s, plans[i].before, own);
    }
  }

  lemma {:induction false} TextsParse(s: S.Schema, text: string, edits: seq<S.Edit>)
    requires edits != [] && S.EditTexts(s, text, edits).Ok?
    ensures s.parse(text).Some?
  {
    hide S.EditText;
    var n := |edits| - 1;
    if n > 0 {
      TextsParse(s, text, edits[..n]);
    } else {
      assert edits[..n] == [];
      EditRefused(s, text, edits[n].pointer, edits[n].newValue);
    }
  }

  /** The edits a proposal makes of one document, in order. */
  function OwnProposed(resolve: string -> string, edits: seq<S.ProposalEdit>, abs: string): seq<S.ProposalEdit> {
    if edits == [] then []
    else
      var last := edits[|edits| - 1];
      var init := OwnProposed(resolve, edits[..|edits| - 1], abs);
      if resolve(last.documentPath) == abs then init + [last] else init
  }

  lemma {:induction false} GroupsAreOwn(resolve: string -> string, edits: seq<S.ProposalEdit>)
    requires S.GroupAll(resolve, edits).Ok?
    ensures var g := S.GroupAll(resolve, edits).value;
            && (forall abs | abs in g.byDoc :: g.byDoc[abs].edits == OwnProposed(resolve, edits, abs))
            && (forall abs | abs !in g.byDoc :: OwnProposed(resolve, edits, abs) == [])
            && (forall abs :: abs in g.order <==> abs in g.byDoc)
  {
    if edits != [] {
      GroupsAreOwn(resolve, edits[..|edits| - 1]);
    }
  }

  /** A planned document goes from its text on disk to one with the proposal's values for it set in turn. */
  lemma PlanOneSets(s: S.Schema, texts: map<string, string>, abs: string, group: S.Group)
    requires S.Lawful(s) && group.edits != [] && S.PlanOne(s, texts, abs, group).Ok?
    ensures var plan := S.PlanOne(s, texts, abs, group).value;
            && plan.path == abs && abs in texts && plan.before == texts[abs] && plan.documentPath == group.documentPath
            && ValuesValid(Proposed(group.edits)) && Sets(s, plan.before, Proposed(group.edits), plan.after)
  {
    hide S.Lawful, Valid, S.Chain, SetAll, C.JsonValuesEqual;
    var d := s.parse(texts[abs]).value;
    S.ParsedIsValid(s, texts[abs]);
    ChainSets(s, d, group.edits);
    var after := S.Chain(s, d, group.edits).value;
    SetAllIsValid(d, Proposed(group.edits));
    EqualOn(s.parse(s.serialize(after)).value, after, SetAll(d, Proposed(group.edits)).value);
  }

  lemma {:induction false} PlanAllSets(s: S.Schema, texts: map<string, string>, g: S.Groups, k: nat)
    requires S.Lawful(s) && S.Grouped(g) && k <= |g.order| && S.PlanAll(s, texts, g, k).Ok?
    ensures forall i | 0 <= i < k ::
              var plan := S.PlanAll(s, texts, g, k).value[i];
              && plan.path == g.order[i] && plan.path in texts && plan.before == texts[plan.path]
              && ValuesValid(Proposed(g.byDoc[g.order[i]].edits)) && Sets(s, plan.before, Proposed(g.byDoc[g.order[i]].edits), plan.after)
  {
    hide S.Lawful, S.PlanOne, Sets, ValuesValid;
    if k > 0 {
      PlanAllSets(s, texts, g, k - 1);
      PlanOneSets(s, texts, g.order[k - 1], g.byDoc[g.order[k - 1]]);
    }
  }

  /**
   Whatever proposal is planned, each document it names goes from its text on disk to a text whose
   document has the values proposed for it set in turn; no other document is planned.
   */
  lemma PlanSets(s: S.Schema, resolve: string -> string, texts: map<string, string>, p: S.Proposal)
    requires S.Lawful(s) && S.PlanProposal(s, resolve, texts, p).Ok?
    ensures var plans := S.PlanProposal(s, resolve, texts, p).value;
            && (forall i | 0 <= i < |plans| :: PlanOf(s, resolve, texts, p, plans[i]))
            && (forall abs :: OwnProposed(resolve, p.edits, abs) != [] <==> exists i :: 0 <= i < |plans| && plans[i].path == abs)
  {
    hide S.Lawful, S.PlanAll, S.GroupAll, S.DiffsMatch, Sets, ValuesValid, S.Grouped;
    var g, plans := S.GroupAll(resolve, p.edits).value, S.PlanProposal(s, resolve, texts, p).value;
    GroupsAreOwn(resolve, p.edits);
    PlanAllSets(s, texts, g, |g.order|);
    forall abs ensures OwnProposed(resolve, p.edits, abs) != [] <==> exists i :: 0 <= i < |plans| && plans[i].path == abs {
      GroupedOwn(resolve, p.edits, g, abs);
      if abs in g.byDoc {
        var i :| 0 <= i < |g.order| && g.order[i] == abs;
        assert plans[i].path == abs;
      }
      if i :| 0 <= i < |plans| && plans[i].path == abs {
        assert g.order[i] == abs;
      }
    }
    forall i | 0 <= i < |plans| ensures PlanOf(s, resolve, texts, p, plans[i]) {
      assert plans[i].path == g.order[i];
      GroupedOwn(resolve, p.edits, g, plans[i].path);
    }
  }

  /** The edits made of one document all use the name it is planned under, and were proposed for the text it has. */
  ghost predicate NamedAndBased(edits: seq<S.ProposalEdit>, name: string, base: string) {
    forall i | 0 <= i < |edits| :: edits[i].documentPath == name && edits[i].baseHash == S.HashOf(base)
  }

  lemma {:induction false} GroupsShareNames(resolve: string -> string, edits: seq<S.ProposalEdit>)
    requires S.GroupAll(resolve, edits).Ok?
    ensures var g := S.GroupAll(resolve, edits).value;
            forall abs, i | abs in g.byDoc && 0 <= i < |g.byDoc[abs].edits| :: g.byDoc[abs].edits[i].documentPath == g.byDoc[abs].documentPath
    ensures forall abs | abs in S.GroupAll(resolve, edits).value.byDoc :: resolve(S.GroupAll(resolve, edits).value.byDoc[abs].documentPath) == abs
  {
    if edits != [] {
      GroupsShareNames(resolve, edits[..|edits| - 1]);
    }
  }

  lemma {:induction false} PlanAllNames(s: S.Schema, texts: map<string, string>, g: S.Groups, k: nat)
    requires S.Grouped(g) && k <= |g.order| && S.PlanAll(s, texts, g, k).Ok?
    ensures forall i | 0 <= i < k ::
              var plan := S.PlanAll(s, texts, g, k).value[i];
              && plan.path == g.order[i] && plan.documentPath == g.byDoc[g.order[i]].documentPath
              && forall j | 0 <= j < |g.byDoc[g.order[i]].edits| :: g.byDoc[g.order[i]].edits[j].baseHash == S.HashOf(plan.before)
  {
    hide S.Chain, S.HashOf;
    if k > 0 {
      PlanAllNames(s, texts, g, k - 1);
    }
  }

  /**
   Whatever proposal is planned: all edits of a document use one name for it and were based on the text it
   has, and the proposal's diffs are just those of the plans, one for each, under those names.
   */
  lemma PlanIsExact(s: S.Schema, resolve: string -> string, texts: map<string, string>, p: S.Proposal)
    requires S.PlanProposal(s, resolve, texts, p).Ok?
    ensures var plans := S.PlanProposal(s, resolve, texts, p).value;
            && (forall i | 0 <= i < |plans| :: NamedAndBased(OwnProposed(resolve, p.edits, plans[i].path), plans[i].documentPath, plans[i].before))
            && |p.diffs| == |plans|
            && (forall k | 0 <= k < |plans| :: S.Diff(plans[k].documentPath, S.ExpectedDiff(s, plans[k])) in p.diffs)
  {
    hide S.PlanAll, S.GroupAll, S.Grouped, S.HashOf, S.ExpectedDiff;
    var g, plans := S.GroupAll(resolve, p.edits).value, S.PlanProposal(s, resolve, texts, p).value;
    GroupedOwn(resolve, p.edits, g, "");
    GroupsShareNames(resolve, p.edits);
    PlanAllNames(s, texts, g, |g.order|);
    forall i | 0 <= i < |plans| ensures NamedAndBased(OwnProposed(resolve, p.edits, plans[i].path), plans[i].documentPath, plans[i].before) {
      GroupedOwn(resolve, p.edits, g, g.order[i]);
      OrderIsGrouped(g, i);
    }
    forall k | 0 <= k < |plans| ensures S.Diff(plans[k].documentPath, S.ExpectedDiff(s, plans[k])) in p.diffs {
      assert S.Described(s, resolve, plans[k], p.diffs);
      var i :| 0 <= i < |p.diffs| && resolve(p.diffs[i].documentPath) == plans[k].path && p.diffs[i].text == S.ExpectedDiff(s, plans[k]);
      assert S.Targeted(resolve, g, p.diffs[i]);
      assert p.diffs[i] == S.Diff(plans[k].documentPath, S.ExpectedDiff(s, plans[k]));
    }
  }

  lemma OrderIsGrouped(g: S.Groups, i: nat)
    requires S.Grouped(g) && i < |g.order|
    ensures g.order[i] in g.byDoc
  {
  }

  lemma GroupedOwn(resolve: string -> string, edits: seq<S.ProposalEdit>, g: S.Groups, abs: string)
    requires S.GroupAll(resolve, edits) == S.Ok(g)
    ensures S.Grouped(g) && (abs in g.byDoc ==> g.byDoc[abs].edits == OwnProposed(resolve, edits, abs) && g.byDoc[abs].edits != [])
    ensures abs !in g.byDoc ==> OwnProposed(resolve, edits, abs) == []
  {
    GroupsAreOwn(resolve, edits);
  }

  ghost predicate PlanOf(s: S.Schema, resolve: string -> string, texts: map<string, string>, p: S.Proposal, plan: S.DocumentPlan) {
    var own := Proposed(OwnProposed(resolve, p.edits, plan.path));
    && plan.path in texts && plan.before == texts[plan.path]
    && ValuesValid(own) && Sets(s, plan.before, own, plan.after)
  }
}
