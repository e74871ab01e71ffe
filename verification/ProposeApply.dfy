/**
 Proposing pointer edits over several documents, and planning the apply of a proposal. The schema is a
 parameter: its parser, validator, serializer and differ are used only through the laws stated here.
 */
module ProposeApply {
  import opened Common
  import opened DurableDisk
  import opened JsonValues
  import opened JsonPointer
  import C = CanonicalJson

  datatype Schema = Schema(
    parse: string -> Option<Json>,
    validate: Json -> Option<Json>,
    serialize: Json -> string,
    diff: (string, string, string) -> string)

  datatype Edit = Edit(documentPath: string, pointer: string, newValue: Json)

  datatype ProposalEdit = ProposalEdit(
    documentPath: string, baseHash: Digest<string>, pointer: string, oldValue: Json, newValue: Json)

  datatype Diff = Diff(documentPath: string, text: string)

  datatype Proposal = Proposal(edits: seq<ProposalEdit>, diffs: seq<Diff>)

  datatype Reason =
    | DocumentNotFound | InvalidDocument | PointerInvalid | ValidationFailed | InvalidProposal | ContentHashConflict

  datatype Outcome<+V> = Ok(value: V) | Rejected(reason: Reason)

  function HashOf(text: string): Digest<string> { ContentHash(Whole(text)) }

  // ---- laws of the schema ------------------------------------------------------------------

  /** The value as JSON text can hold it: text has no negative zero. */
  function Unsigned(v: Json): Json {
    match v
    case Num(Zero(_)) => Num(Zero(false))
    case Arr(items) => Arr(seq(|items|, i requires 0 <= i < |items| => Unsigned(items[i])))
    case Obj(members) =>
      Obj(seq(|members|, i requires 0 <= i < |members| => Member(members[i].key, Unsigned(members[i].value))))
    case _ => v
  }

  predicate Alike(v: Json, w: Json) { Unsigned(v) == Unsigned(w) }

  predicate BothAlike(v: Option<Json>, w: Option<Json>) {
    (v.Some? <==> w.Some?) && (v.Some? ==> Alike(v.value, w.value))
  }

  /**
   What parses is valid; validating a value at most reorders its members; a valid document's text parses
   back to it, but for the sign of its zeros; neither validating nor serializing looks at that sign.
   */
  ghost predicate Lawful(s: Schema) {
    && (forall t :: s.parse(t).Some? ==> Valid(s.parse(t).value) && s.validate(s.parse(t).value) == s.parse(t))
    && (forall v :: Valid(v) && s.validate(v).Some? ==>
          Valid(s.validate(v).value) && C.JsonValuesEqual(s.validate(v).value, v)
          && s.parse(s.serialize(s.validate(v).value)) == Some(Unsigned(s.validate(v).value)))
    && (forall v, w :: Alike(v, w) ==> s.serialize(v) == s.serialize(w))
    && (forall v, w :: Alike(v, w) ==> BothAlike(s.validate(v), s.validate(w)))
  }

  // ---- one edit ----------------------------------------------------------------------------

  /** One edit of a parsed document: set the value, then validate the whole. */
  function ApplyPointerEdit(s: Schema, document: Json, pointer: string, newValue: Json): Outcome<Json> {
    if !Valid(newValue) then Rejected(ValidationFailed)
    else
      match SetAt(document, pointer, newValue)
      case Found(v) => (match s.validate(v) case Some(d) => Ok(d) case None => Rejected(ValidationFailed))
      case _ => Rejected(PointerInvalid)
  }

  /** A direct edit: the text written is the serialized result. */
  function EditText(s: Schema, text: string, pointer: string, newValue: Json): Outcome<string> {
    match s.parse(text)
    case None => Rejected(InvalidDocument)
    case Some(d) =>
      match ApplyPointerEdit(s, d, pointer, newValue)
      case Rejected(reason) => Rejected(reason)
      case Ok(d') => Ok(s.serialize(d'))
  }

  /** Several direct edits of one document, one after the other. */
  function EditTexts(s: Schema, text: string, edits: seq<Edit>): Outcome<string> {
    if edits == [] then Ok(text)
    else
      var last := edits[|edits| - 1];
      match EditTexts(s, text, edits[..|edits| - 1])
      case Rejected(reason) => Rejected(reason)
      case Ok(t) => EditText(s, t, last.pointer, last.newValue)
  }

  // ---- the sign of zero does not show ------------------------------------------------------

  lemma {:induction false} UnsignedIsEqual(v: Json, w: Json)
    requires Valid(v) && Valid(w) && Alike(v, w)
    ensures C.JsonValuesEqual(v, w)
    decreases v
  {
    match v
    case Arr(items) =>
      forall i | 0 <= i < |items| ensures C.JsonValuesEqual(items[i], w.items[i]) {
        assert Unsigned(v).items[i] == Unsigned(w).items[i];
        UnsignedIsEqual(items[i], w.items[i]);
      }
    case Obj(members) =>
      forall i | 0 <= i < |members|
        ensures HasKey(w.members, members[i].key) && C.JsonValuesEqual(members[i].value, Lookup(w.members, members[i].key))
      {
        assert Unsigned(v).members[i] == Unsigned(w).members[i];
        assert w.members[i].key == members[i].key;
        assert Find(w.members, members[i].key) == i;
        UnsignedIsEqual(members[i].value, w.members[i].value);
      }
    case _ =>
  }

  lemma UnsignedTwice(v: Json)
    ensures Unsigned(Unsigned(v)) == Unsigned(v)
  {
    match v
    case Arr(items) =>
      forall i | 0 <= i < |items| ensures Unsigned(Unsigned(items[i])) == Unsigned(items[i]) { UnsignedTwice(items[i]); }
      assert Unsigned(Unsigned(v)).items == Unsigned(v).items;
    case Obj(members) =>
      forall i | 0 <= i < |members| ensures Unsigned(Unsigned(members[i].value)) == Unsigned(members[i].value) {
        UnsignedTwice(members[i].value);
      }
      assert Unsigned(Unsigned(v)).members == Unsigned(v).members;
    case _ =>
  }

  lemma AlikeChildren(v: Json, w: Json, token: string)
    requires Alike(v, w)
    ensures BothAlike(Child(v, token), Child(w, token))
  {
    match v
    case Arr(items) =>
      if Child(v, token).Some? {
        var i := IndexValue(token);
        assert Unsigned(v).items[i] == Unsigned(w).items[i];
      }
    case Obj(members) =>
      AlikeMembers(members, w.members, token);
    case _ =>
  }

  lemma AlikeMembers(a: seq<Member>, b: seq<Member>, key: string)
    requires Alike(Obj(a), Obj(b))
    ensures |a| == |b| && (HasKey(a, key) <==> HasKey(b, key))
    ensures HasKey(a, key) ==> Find(a, key) == Find(b, key) && Alike(Lookup(a, key), Lookup(b, key))
  {
    assert |a| == |Unsigned(Obj(a)).members| == |b|;
    forall i | 0 <= i < |a| ensures a[i].key == b[i].key && Alike(a[i].value, b[i].value) {
      assert Unsigned(Obj(a)).members[i] == Member(a[i].key, Unsigned(a[i].value));
      assert Unsigned(Obj(b)).members[i] == Member(b[i].key, Unsigned(b[i].value));
    }
  }

  lemma AlikeReplaced(v: Json, w: Json, token: string, c: Json, d: Json)
    requires Alike(v, w) && Alike(c, d) && Child(v, token).Some? && Child(w, token).Some?
    ensures Alike(WithChild(v, token, c), WithChild(w, token, d))
  {
    match v
    case Arr(items) =>
      var k := IndexValue(token);
      ReplacedItems(items, k, c);
      ReplacedItems(w.items, k, d);
    case Obj(members) =>
      AlikeMembers(members, w.members, token);
      var k := Find(members, token);
      ReplacedMembers(members, k, Member(token, c));
      ReplacedMembers(w.members, k, Member(token, d));
  }

  lemma ReplacedItems(items: seq<Json>, k: nat, c: Json)
    requires k < |items|
    ensures Unsigned(Arr(items[k := c])) == Arr(Unsigned(Arr(items)).items[k := Unsigned(c)])
  {
    assert Unsigned(Arr(items[k := c])).items == Unsigned(Arr(items)).items[k := Unsigned(c)];
  }

  lemma ReplacedMembers(members: seq<Member>, k: nat, m: Member)
    requires k < |members|
    ensures Unsigned(Obj(members[k := m])) == Obj(Unsigned(Obj(members)).members[k := Member(m.key, Unsigned(m.value))])
  {
    assert Unsigned(Obj(members[k := m])).members == Unsigned(Obj(members)).members[k := Member(m.key, Unsigned(m.value))];
  }

  lemma {:induction false} AlikeTokens(v: Json, w: Json, tokens: seq<string>, newValue: Json)
    requires Alike(v, w)
    ensures BothAlike(GetTokens(v, tokens), GetTokens(w, tokens))
    ensures BothAlike(SetTokens(v, tokens, newValue), SetTokens(w, tokens, newValue))
  {
    if tokens != [] {
      AlikeChildren(v, w, tokens[0]);
      if Child(v, tokens[0]).Some? {
        var c, d := Child(v, tokens[0]).value, Child(w, tokens[0]).value;
        AlikeTokens(c, d, tokens[1..], newValue);
        if SetTokens(c, tokens[1..], newValue).Some? {
          AlikeReplaced(v, w, tokens[0], SetTokens(c, tokens[1..], newValue).value, SetTokens(d, tokens[1..], newValue).value);
        }
      }
    }
  }

  /** Editing documents that differ only in the sign of zeros gives documents that do so. */
  lemma AlikeEdits(s: Schema, v: Json, w: Json, pointer: string, newValue: Json)
    requires Lawful(s) && Alike(v, w)
    ensures GetAt(v, pointer).Found? <==> GetAt(w, pointer).Found?
    ensures GetAt(v, pointer).Found? ==> Alike(GetAt(v, pointer).value, GetAt(w, pointer).value)
    ensures var a, b := ApplyPointerEdit(s, v, pointer, newValue), ApplyPointerEdit(s, w, pointer, newValue);
            (a.Ok? <==> b.Ok?) && (a.Ok? ==> Alike(a.value, b.value) && s.serialize(a.value) == s.serialize(b.value))
  {
    if PointerTokens(pointer).Some? {
      AlikeTokens(v, w, PointerTokens(pointer).value, newValue);
      var a, b := SetAt(v, pointer, newValue), SetAt(w, pointer, newValue);
      if a.Found? {
        assert BothAlike(s.validate(a.value), s.validate(b.value));
      }
    }
  }

  // ---- proposing ---------------------------------------------------------------------------

  /** What proposing keeps per document, by canonical path; `order` is the order of first mention. */
  datatype Work = Work(
    order: seq<string>, display: map<string, string>, base: map<string, string>, working: map<string, string>,
    edits: seq<ProposalEdit>)

  function Load(s: Schema, texts: map<string, string>, abs: string): Outcome<string> {
    if abs !in texts then Rejected(DocumentNotFound)
    else if s.parse(texts[abs]).None? then Rejected(InvalidDocument)
    else Ok(texts[abs])
  }

  predicate Coherent(w: Work) {
    w.display.Keys == w.base.Keys == w.working.Keys == set abs | abs in w.order
  }

  function ProposeOne(s: Schema, resolve: string -> string, texts: map<string, string>, w: Work, input: Edit): (r: Outcome<Work>)
    requires Coherent(w)
    ensures r.Ok? ==> Coherent(r.value)
  {
    var abs := resolve(input.documentPath);
    var documentPath := if abs in w.display then w.display[abs] else input.documentPath;
    var known := abs in w.working;
    var start := if known then Ok(w.working[abs]) else Load(s, texts, abs);
    if start.Rejected? then Rejected(start.reason)
    else
      var base := if known then w.base[abs] else start.value;
      match s.parse(start.value)
      case None => Rejected(InvalidDocument)
      case Some(d) =>
        match GetAt(d, input.pointer)
        case Found(oldValue) =>
          (match ApplyPointerEdit(s, d, input.pointer, input.newValue)
           case Rejected(reason) => Rejected(reason)
           case Ok(d') =>
             Ok(Work(if known then w.order else w.order + [abs], w.display[abs := documentPath], w.base[abs := base],
                     w.working[abs := s.serialize(d')],
                     w.edits + [ProposalEdit(documentPath, HashOf(base), input.pointer, oldValue, input.newValue)])))
        case _ => Rejected(PointerInvalid)
  }

  const NO_WORK := Work([], map[], map[], map[], [])

  function ProposeAll(s: Schema, resolve: string -> string, texts: map<string, string>, inputs: seq<Edit>): (r: Outcome<Work>)
    ensures r.Ok? ==> Coherent(r.value)
  {
    if inputs == [] then Ok(NO_WORK)
    else
      match ProposeAll(s, resolve, texts, inputs[..|inputs| - 1])
      case Rejected(reason) => Rejected(reason)
      case Ok(w) => ProposeOne(s, resolve, texts, w, inputs[|inputs| - 1])
  }

  function DiffOf(s: Schema, w: Work, abs: string): Diff
    requires Coherent(w) && abs in w.order
  {
    Diff(w.display[abs], s.diff(w.base[abs], w.working[abs], w.display[abs]))
  }

  function ProposalOf(s: Schema, w: Work): Proposal
    requires Coherent(w)
  {
    Proposal(w.edits, seq(|w.order|, i requires 0 <= i < |w.order| => DiffOf(s, w, w.order[i])))
  }

  method ProposeMany(s: Schema, resolve: string -> string, texts: map<string, string>, inputs: seq<Edit>)
    returns (r: Outcome<Proposal>)
    ensures inputs == [] ==> r == Rejected(InvalidProposal)
    ensures inputs != [] ==>
              match ProposeAll(s, resolve, texts, inputs)
              case Ok(w) => r == Ok(ProposalOf(s, w))
              case Rejected(reason) => r == Rejected(reason)
  {
    hide ProposeOne;
    if inputs == [] {
      return Rejected(InvalidProposal);
    }
    var w := NO_WORK;
    for i := 0 to |inputs|
      invariant ProposeAll(s, resolve, texts, inputs[..i]) == Ok(w)
    {
      assert inputs[..i + 1][..i] == inputs[..i];
      var step := ProposeStep(s, resolve, texts, w, inputs[i]);
      if step.Rejected? {
        StopsAt(s, resolve, texts, inputs, i + 1);
        return Rejected(step.reason);
      }
      w := step.value;
    }
    assert inputs[..|inputs|] == inputs;
    var diffs := CollectDiffs(s, w);
    r := Ok(Proposal(w.edits, diffs));
  }

  /** One edit, on the text its document has reached so far. */
  method ProposeStep(s: Schema, resolve: string -> string, texts: map<string, string>, w: Work, input: Edit)
    returns (r: Outcome<Work>)
    requires Coherent(w)
    ensures r == ProposeOne(s, resolve, texts, w, input)
  {
    hide GetAt, ApplyPointerEdit, HashOf;
    var abs := resolve(input.documentPath);
    var documentPath := if abs in w.display then w.display[abs] else input.documentPath;
    var order, text, base := w.order, "", "";
    if abs in w.working {
      text, base := w.working[abs], w.base[abs];
    } else {
      var loaded := Load(s, texts, abs);
      if loaded.Rejected? {
        return Rejected(loaded.reason);
      }
      order, text, base := order + [abs], loaded.value, loaded.value;
    }
    var parsed := s.parse(text);
    if parsed.None? {
      return Rejected(InvalidDocument);
    }
    var oldAt := GetAtPointer(parsed.value, input.pointer);
    if !oldAt.Found? {
      return Rejected(PointerInvalid);
    }
    var mutated := ApplyPointerEdit(s, parsed.value, input.pointer, input.newValue);
    if mutated.Rejected? {
      return Rejected(mutated.reason);
    }
    r := Ok(Work(order, w.display[abs := documentPath], w.base[abs := base], w.working[abs := s.serialize(mutated.value)],
                 w.edits + [ProposalEdit(documentPath, HashOf(base), input.pointer, oldAt.value, input.newValue)]));
  }

  /** One diff for each document edited, from its first text to its last. */
  method CollectDiffs(s: Schema, w: Work) returns (diffs: seq<Diff>)
    requires Coherent(w)
    ensures diffs == ProposalOf(s, w).diffs
  {
    diffs := [];
    for i := 0 to |w.order|
      invariant |diffs| == i && forall j | 0 <= j < i :: diffs[j] == DiffOf(s, w, w.order[j])
    {
      diffs := diffs + [DiffOf(s, w, w.order[i])];
    }
  }

  /** The first edit that fails decides the answer. */
  lemma {:induction false} StopsAt(s: Schema, resolve: string -> string, texts: map<string, string>, inputs: seq<Edit>, k: nat)
    requires k <= |inputs| && ProposeAll(s, resolve, texts, inputs[..k]).Rejected?
    ensures ProposeAll(s, resolve, texts, inputs) == ProposeAll(s, resolve, texts, inputs[..k])
    decreases |inputs|
  {
    if k == |inputs| {
      assert inputs[..k] == inputs;
    } else {
      var init := inputs[..|inputs| - 1];
      assert init[..k] == inputs[..k];
      StopsAt(s, resolve, texts, init, k);
    }
  }

  // ---- planning an apply -------------------------------------------------------------------

  datatype Group = Group(documentPath: string, edits: seq<ProposalEdit>)

  /** The edits of a proposal by canonical path, in order of first mention. */
  datatype Groups = Groups(order: seq<string>, byDoc: map<string, Group>)

  datatype DocumentPlan = DocumentPlan(path: string, documentPath: string, before: string, after: string)

  const NO_GROUPS := Groups([], map[])

  predicate Grouped(g: Groups) {
    (forall i | 0 <= i < |g.order| :: g.order[i] in g.byDoc) && forall abs | abs in g.byDoc :: g.byDoc[abs].edits != []
  }

  function GroupOne(resolve: string -> string, g: Groups, e: ProposalEdit): (r: Outcome<Groups>)
    requires Grouped(g)
    ensures r.Ok? ==> Grouped(r.value)
  {
    var abs := resolve(e.documentPath);
    if abs !in g.byDoc then Ok(Groups(g.order + [abs], g.byDoc[abs := Group(e.documentPath, [e])]))
    else if g.byDoc[abs].documentPath != e.documentPath then Rejected(InvalidProposal)
    else Ok(Groups(g.order, g.byDoc[abs := Group(e.documentPath, g.byDoc[abs].edits + [e])]))
  }

  function GroupAll(resolve: string -> string, edits: seq<ProposalEdit>): (r: Outcome<Groups>)
    ensures r.Ok? ==> Grouped(r.value)
  {
    if edits == [] then Ok(NO_GROUPS)
    else
      match GroupAll(resolve, edits[..|edits| - 1])
      case Rejected(reason) => Rejected(reason)
      case Ok(g) => GroupOne(resolve, g, edits[|edits| - 1])
  }

  /** One edit of a proposal, on the document the earlier ones have left. */
  function ChainOne(s: Schema, current: Json, e: ProposalEdit): Outcome<Json> {
    match GetAt(current, e.pointer)
    case Found(v) =>
      if C.JsonValuesEqual(v, e.oldValue) then ApplyPointerEdit(s, current, e.pointer, e.newValue) else Rejected(InvalidProposal)
    case _ => Rejected(PointerInvalid)
  }

  function Chain(s: Schema, document: Json, edits: seq<ProposalEdit>): Outcome<Json> {
    if edits == [] then Ok(document)
    else
      match Chain(s, document, edits[..|edits| - 1])
      case Rejected(reason) => Rejected(reason)
      case Ok(d) => ChainOne(s, d, edits[|edits| - 1])
  }

  function PlanOne(s: Schema, texts: map<string, string>, abs: string, group: Group): Outcome<DocumentPlan>
    requires group.edits != []
  {
    match Load(s, texts, abs)
    case Rejected(reason) => Rejected(reason)
    case Ok(text) =>
      if exists i | 0 <= i < |group.edits| :: group.edits[i].baseHash != group.edits[0].baseHash then Rejected(InvalidProposal)
      else if HashOf(text) != group.edits[0].baseHash then Rejected(ContentHashConflict)
      else if s.parse(text).None? then Rejected(InvalidDocument)
      else
        match Chain(s, s.parse(text).value, group.edits)
        case Rejected(reason) => Rejected(reason)
        case Ok(d) => Ok(DocumentPlan(abs, group.documentPath, text, s.serialize(d)))
  }

  function PlanAll(s: Schema, texts: map<string, string>, g: Groups, k: nat): (r: Outcome<seq<DocumentPlan>>)
    requires Grouped(g) && k <= |g.order|
    ensures r.Ok? ==> |r.value| == k
  {
    if k == 0 then Ok([])
    else
      match PlanAll(s, texts, g, k - 1)
      case Rejected(reason) => Rejected(reason)
      case Ok(plans) =>
        match PlanOne(s, texts, g.order[k - 1], g.byDoc[g.order[k - 1]])
        case Rejected(reason) => Rejected(reason)
        case Ok(plan) => Ok(plans + [plan])
  }

  function ExpectedDiff(s: Schema, plan: DocumentPlan): string { s.diff(plan.before, plan.after, plan.documentPath) }

  predicate Targeted(resolve: string -> string, g: Groups, diff: Diff) {
    var abs := resolve(diff.documentPath);
    abs in g.byDoc && g.byDoc[abs].documentPath == diff.documentPath
  }

  /** Exactly one diff per planned document, under its own name, and each as the edits make it. */
  predicate DiffsMatch(s: Schema, resolve: string -> string, g: Groups, plans: seq<DocumentPlan>, diffs: seq<Diff>) {
    && (forall i | 0 <= i < |diffs| :: Targeted(resolve, g, diffs[i]))
    && (forall i, j | 0 <= i < j < |diffs| :: resolve(diffs[i].documentPath) != resolve(diffs[j].documentPath))
    && |diffs| == |plans|
    && (forall k | 0 <= k < |plans| :: Described(s, resolve, plans[k], diffs))
  }

  predicate Described(s: Schema, resolve: string -> string, plan: DocumentPlan, diffs: seq<Diff>) {
    exists i :: 0 <= i < |diffs| && resolve(diffs[i].documentPath) == plan.path && diffs[i].text == ExpectedDiff(s, plan)
  }

  function PlanProposal(s: Schema, resolve: string -> string, texts: map<string, string>, p: Proposal): Outcome<seq<DocumentPlan>> {
    match GroupAll(resolve, p.edits)
    case Rejected(reason) => Rejected(reason)
    case Ok(g) =>
      match PlanAll(s, texts, g, |g.order|)
      case Rejected(reason) => Rejected(reason)
      case Ok(plans) => if DiffsMatch(s, resolve, g, plans, p.diffs) then Ok(plans) else Rejected(InvalidProposal)
  }

  // ---- what planning insists on ------------------------------------------------------------

  /** One edit of a proposal, made where its old value is found. */
  predicate EditStep(s: Schema, before: Json, e: ProposalEdit, after: Json) {
    && GetAt(before, e.pointer).Found?
    && C.JsonValuesEqual(GetAt(before, e.pointer).value, e.oldValue)
    && ApplyPointerEdit(s, before, e.pointer, e.newValue) == Ok(after)
  }

  /** `run` is the document before, between and after the edits. */
  predicate IsEditRun(s: Schema, document: Json, edits: seq<ProposalEdit>, run: seq<Json>) {
    && |run| == |edits| + 1 && run[0] == document
    && forall i | 0 <= i < |edits| :: EditStep(s, run[i], edits[i], run[i + 1])
  }

  ghost predicate RunsTo(s: Schema, document: Json, edits: seq<ProposalEdit>, after: Json) {
    exists run :: IsEditRun(s, document, edits, run) && run[|edits|] == after
  }

  lemma ChainOneIsStep(s: Schema, before: Json, e: ProposalEdit, after: Json)
    ensures ChainOne(s, before, e) == Ok(after) <==> EditStep(s, before, e, after)
  {
    hide ApplyPointerEdit, C.JsonValuesEqual, SetAt;
  }

  lemma {:induction false} ChainIsEditRun(s: Schema, document: Json, edits: seq<ProposalEdit>, after: Json)
    ensures Chain(s, document, edits) == Ok(after) <==> RunsTo(s, document, edits, after)
  {
    hide EditStep, ChainOne;
    if edits == [] {
      if after == document {
        assert IsEditRun(s, document, edits, [document]);
      }
    } else {
      var n := |edits| - 1;
      var init, last := edits[..n], edits[n];
      if Chain(s, document, edits) == Ok(after) {
        var before := Chain(s, document, init).value;
        ChainIsEditRun(s, document, init, before);
        var run :| IsEditRun(s, document, init, run) && run[n] == before;
        ChainOneIsStep(s, before, last, after);
        assert IsEditRun(s, document, edits, run + [after]);
      }
      if run :| IsEditRun(s, document, edits, run) && run[|edits|] == after {
        assert IsEditRun(s, document, init, run[..|edits|]);
        ChainIsEditRun(s, document, init, run[n]);
        ChainOneIsStep(s, run[n], last, run[n + 1]);
      }
    }
  }

  /**
   A document is planned exactly when it parses, still has the bytes every one of its edits was
   proposed for, and each edit in turn finds the value it was proposed to replace.
   */
  lemma PlanOneIff(s: Schema, texts: map<string, string>, abs: string, group: Group)
    requires group.edits != []
    ensures PlanOne(s, texts, abs, group).Ok? <==>
            && abs in texts && s.parse(texts[abs]).Some?
            && (forall i | 0 <= i < |group.edits| :: group.edits[i].baseHash == HashOf(texts[abs]))
            && exists d :: RunsTo(s, s.parse(texts[abs]).value, group.edits, d)
    ensures PlanOne(s, texts, abs, group).Ok? ==>
              exists d :: RunsTo(s, s.parse(texts[abs]).value, group.edits, d)
                          && PlanOne(s, texts, abs, group).value == DocumentPlan(abs, group.documentPath, texts[abs], s.serialize(d))
  {
    hide RunsTo, Chain;
    if abs in texts && s.parse(texts[abs]).Some? {
      var d := s.parse(texts[abs]).value;
      forall x ensures Chain(s, d, group.edits) == Ok(x) <==> RunsTo(s, d, group.edits, x) {
        ChainIsEditRun(s, d, group.edits, x);
      }
      if Chain(s, d, group.edits).Ok? {
        assert RunsTo(s, d, group.edits, Chain(s, d, group.edits).value);
      }
    }
  }

  lemma {:induction false} GroupStops(resolve: string -> string, edits: seq<ProposalEdit>, k: nat)
    requires k <= |edits| && GroupAll(resolve, edits[..k]).Rejected?
    ensures GroupAll(resolve, edits) == GroupAll(resolve, edits[..k])
    decreases |edits|
  {
    if k == |edits| {
      assert edits[..k] == edits;
    } else {
      var init := edits[..|edits| - 1];
      assert init[..k] == edits[..k];
      GroupStops(resolve, init, k);
    }
  }

  lemma {:induction false} PlanStops(s: Schema, texts: map<string, string>, g: Groups, k: nat, n: nat)
    requires Grouped(g) && k <= n <= |g.order| && PlanAll(s, texts, g, k).Rejected?
    ensures PlanAll(s, texts, g, n) == PlanAll(s, texts, g, k)
    decreases n
  {
    if k < n {
      PlanStops(s, texts, g, k, n - 1);
    }
  }

  lemma {:induction false} ChainStops(s: Schema, document: Json, edits: seq<ProposalEdit>, k: nat)
    requires k <= |edits| && Chain(s, document, edits[..k]).Rejected?
    ensures Chain(s, document, edits) == Chain(s, document, edits[..k])
    decreases |edits|
  {
    if k == |edits| {
      assert edits[..k] == edits;
    } else {
      var init := edits[..|edits| - 1];
      assert init[..k] == edits[..k];
      ChainStops(s, document, init, k);
    }
  }

  method PlanDocument(s: Schema, texts: map<string, string>, abs: string, group: Group) returns (r: Outcome<DocumentPlan>)
    requires group.edits != []
    ensures r == PlanOne(s, texts, abs, group)
  {
    hide ChainOne, HashOf;
    var loaded := Load(s, texts, abs);
    if loaded.Rejected? {
      return Rejected(loaded.reason);
    }
    var expectedHash := group.edits[0].baseHash;
    for i := 0 to |group.edits|
      invariant forall j | 0 <= j < i :: group.edits[j].baseHash == expectedHash
    {
      if group.edits[i].baseHash != expectedHash {
        return Rejected(InvalidProposal);
      }
    }
    if HashOf(loaded.value) != expectedHash {
      return Rejected(ContentHashConflict);
    }
    var document := s.parse(loaded.value).value;
    var current := document;
    for i := 0 to |group.edits|
      invariant Chain(s, document, group.edits[..i]) == Ok(current)
    {
      assert group.edits[..i + 1][..i] == group.edits[..i];
      var next := ChainOne(s, current, group.edits[i]);
      if next.Rejected? {
        ChainStops(s, document, group.edits, i + 1);
        return Rejected(next.reason);
      }
      current := next.value;
    }
    assert group.edits[..|group.edits|] == group.edits;
    r := Ok(DocumentPlan(abs, group.documentPath, loaded.value, s.serialize(current)));
  }

  /** `seen` has each of these diffs under the document it resolves to, and nothing else. */
  ghost predicate Indexes(resolve: string -> string, diffs: seq<Diff>, seen: map<string, Diff>) {
    && |seen| == |diffs|
    && (forall i, j | 0 <= i < j < |diffs| :: resolve(diffs[i].documentPath) != resolve(diffs[j].documentPath))
    && (forall i | 0 <= i < |diffs| :: resolve(diffs[i].documentPath) in seen && seen[resolve(diffs[i].documentPath)] == diffs[i])
    && (forall abs | abs in seen :: seen[abs] in diffs && resolve(seen[abs].documentPath) == abs)
  }

  lemma IndexNext(resolve: string -> string, diffs: seq<Diff>, seen: map<string, Diff>, diff: Diff)
    requires Indexes(resolve, diffs, seen)
    ensures resolve(diff.documentPath) in seen ==> exists i :: 0 <= i < |diffs| && resolve(diffs[i].documentPath) == resolve(diff.documentPath)
    ensures resolve(diff.documentPath) !in seen ==> Indexes(resolve, diffs + [diff], seen[resolve(diff.documentPath) := diff])
  {
  }

  lemma IndexDescribes(s: Schema, resolve: string -> string, diffs: seq<Diff>, seen: map<string, Diff>, plan: DocumentPlan)
    requires Indexes(resolve, diffs, seen)
    ensures Described(s, resolve, plan, diffs) <==> plan.path in seen && seen[plan.path].text == ExpectedDiff(s, plan)
  {
    hide ExpectedDiff;
  }

  method CheckDiffs(s: Schema, resolve: string -> string, g: Groups, plans: seq<DocumentPlan>, diffs: seq<Diff>) returns (ok: bool)
    ensures ok <==> DiffsMatch(s, resolve, g, plans, diffs)
  {
    hide Targeted, ExpectedDiff, Described, Indexes;
    var seen: map<string, Diff> := map[];
    NoIndex(resolve);
    for i := 0 to |diffs|
      invariant Indexes(resolve, diffs[..i], seen)
      invariant forall j | 0 <= j < i :: Targeted(resolve, g, diffs[j])
    {
      var diff := diffs[i];
      var abs := resolve(diff.documentPath);
      IndexNext(resolve, diffs[..i], seen, diff);
      if !Targeted(resolve, g, diff) || abs in seen {
        return false;
      }
      assert diffs[..i + 1] == diffs[..i] + [diff];
      seen := seen[abs := diff];
    }
    assert diffs[..|diffs|] == diffs;
    IndexDistinct(resolve, diffs, seen);
    if |seen| != |plans| {
      return false;
    }
    for k := 0 to |plans|
      invariant forall m | 0 <= m < k :: Described(s, resolve, plans[m], diffs)
    {
      IndexDescribes(s, resolve, diffs, seen, plans[k]);
      if plans[k].path !in seen || seen[plans[k].path].text != ExpectedDiff(s, plans[k]) {
        return false;
      }
    }
    ok := true;
  }

  lemma NoIndex(resolve: string -> string)
    ensures Indexes(resolve, [], map[])
  {
  }

  lemma IndexDistinct(resolve: string -> string, diffs: seq<Diff>, seen: map<string, Diff>)
    requires Indexes(resolve, diffs, seen)
    ensures |seen| == |diffs|
    ensures forall i, j | 0 <= i < j < |diffs| :: resolve(diffs[i].documentPath) != resolve(diffs[j].documentPath)
  {
  }

  method PlanApply(s: Schema, resolve: string -> string, texts: map<string, string>, p: Proposal) returns (r: Outcome<seq<DocumentPlan>>)
    ensures r == PlanProposal(s, resolve, texts, p)
  {
    hide GroupOne, PlanOne, DiffsMatch, Grouped;
    var g := NO_GROUPS;
    assert GroupAll(resolve, p.edits[..0]) == Ok(g);
    for i := 0 to |p.edits|
      invariant Grouped(g) && GroupAll(resolve, p.edits[..i]) == Ok(g)
    {
      assert p.edits[..i + 1][..i] == p.edits[..i];
      var next := GroupOne(resolve, g, p.edits[i]);
      if next.Rejected? {
        GroupStops(resolve, p.edits, i + 1);
        return Rejected(next.reason);
      }
      g := next.value;
    }
    assert p.edits[..|p.edits|] == p.edits;
    var plans: seq<DocumentPlan> := [];
    for k := 0 to |g.order|
      invariant PlanAll(s, texts, g, k) == Ok(plans)
    {
      GroupedAt(g, k);
      var plan := PlanDocument(s, texts, g.order[k], g.byDoc[g.order[k]]);
      if plan.Rejected? {
        PlanStops(s, texts, g, k + 1, |g.order|);
        return Rejected(plan.reason);
      }
      plans := plans + [plan.value];
    }
    var ok := CheckDiffs(s, resolve, g, plans, p.diffs);
    r := if ok then Ok(plans) else Rejected(InvalidProposal);
  }

  lemma GroupedAt(g: Groups, k: nat)
    requires Grouped(g) && k < |g.order|
    ensures g.order[k] in g.byDoc && g.byDoc[g.order[k]].edits != []
  {
  }

  // ---- proposing and then applying ---------------------------------------------------------

  /** The edits of one document, in order. */
  function Own(resolve: string -> string, inputs: seq<Edit>, abs: string): seq<Edit> {
    if inputs == [] then []
    else
      var last := inputs[|inputs| - 1];
      var init := Own(resolve, inputs[..|inputs| - 1], abs);
      if resolve(last.documentPath) == abs then init + [last] else init
  }

  lemma {:induction false} ValidWithin(v: Json, tokens: seq<string>)
    requires Valid(v) && GetTokens(v, tokens).Some?
    ensures Valid(GetTokens(v, tokens).value)
  {
    if tokens != [] {
      var child := Child(v, tokens[0]).value;
      assert Valid(child);
      ValidWithin(child, tokens[1..]);
    }
  }

  lemma EditedIsValid(s: Schema, d: Json, pointer: string, newValue: Json)
    requires Lawful(s) && Valid(d) && ApplyPointerEdit(s, d, pointer, newValue).Ok?
    ensures var d' := ApplyPointerEdit(s, d, pointer, newValue).value;
            Valid(d') && s.parse(s.serialize(d')) == Some(Unsigned(d'))
  {
    var tokens := PointerTokens(pointer).value;
    SetWhereGet(d, tokens, newValue);
    ReplacementKeepsValid(d, tokens, newValue);
  }

  /** What proposing does to a document's text, applying does to the document itself. */
  lemma EditAgrees(s: Schema, text: string, d: Json, e: ProposalEdit)
    requires Lawful(s) && Valid(d) && s.parse(text).Some? && Alike(s.parse(text).value, d)
    requires var p := s.parse(text).value;
             GetAt(p, e.pointer) == Found(e.oldValue) && ApplyPointerEdit(s, p, e.pointer, e.newValue).Ok?
    ensures ChainOne(s, d, e).Ok?
    ensures var d', p' := ChainOne(s, d, e).value, ApplyPointerEdit(s, s.parse(text).value, e.pointer, e.newValue).value;
            && Valid(d') && s.serialize(d') == s.serialize(p')
            && s.parse(s.serialize(d')) == Some(Unsigned(d'))
            && EditText(s, text, e.pointer, e.newValue) == Ok(s.serialize(d'))
  {
    var p := s.parse(text).value;
    AlikeEdits(s, p, d, e.pointer, e.newValue);
    var tokens := PointerTokens(e.pointer).value;
    ValidWithin(p, tokens);
    ValidWithin(d, tokens);
    UnsignedIsEqual(GetAt(d, e.pointer).value, e.oldValue);
    EditedIsValid(s, d, e.pointer, e.newValue);
  }

  /** One document of the proposal so far: where it stands, by text and by document. */
  ghost predicate DocTracked(s: Schema, resolve: string -> string, texts: map<string, string>, own: seq<Edit>,
                             display: string, base: string, working: string, group: Group, abs: string)
  {
    && abs in texts && base == texts[abs] && s.parse(base).Some?
    && resolve(display) == abs && group.documentPath == display && group.edits != []
    && (forall i | 0 <= i < |group.edits| :: group.edits[i].baseHash == HashOf(base))
    && ChainReaches(s, base, group.edits, working)
    && own != [] && EditTexts(s, base, own) == Ok(working)
  }

  ghost predicate ChainReaches(s: Schema, base: string, edits: seq<ProposalEdit>, working: string)
    requires s.parse(base).Some?
  {
    match Chain(s, s.parse(base).value, edits)
    case Ok(d) => Valid(d) && s.serialize(d) == working && s.parse(working).Some? && Alike(s.parse(working).value, d)
    case Rejected(_) => false
  }

  /** The groups an apply would form are the documents proposed so far. */
  ghost predicate InStep(resolve: string -> string, w: Work, g: Groups) {
    && Coherent(w) && Grouped(g) && GroupAll(resolve, w.edits) == Ok(g)
    && g.order == w.order && g.byDoc.Keys == w.display.Keys
    && (forall i, j | 0 <= i < j < |w.order| :: w.order[i] != w.order[j])
  }

  ghost predicate AllTracked(s: Schema, resolve: string -> string, texts: map<string, string>, inputs: seq<Edit>, w: Work, g: Groups)
    requires Coherent(w) && g.byDoc.Keys == w.display.Keys
  {
    && (forall abs | abs in w.display ::
          DocTracked(s, resolve, texts, Own(resolve, inputs, abs), w.display[abs], w.base[abs], w.working[abs], g.byDoc[abs], abs))
    && (forall abs | abs !in w.display :: Own(resolve, inputs, abs) == [])
  }

  ghost predicate Tracked(s: Schema, resolve: string -> string, texts: map<string, string>, inputs: seq<Edit>, w: Work, g: Groups) {
    InStep(resolve, w, g) && AllTracked(s, resolve, texts, inputs, w, g)
  }

  lemma ChainExtends(s: Schema, base: string, edits: seq<ProposalEdit>, d: Json, working: string, e: ProposalEdit)
    requires Lawful(s) && s.parse(base).Some? && s.parse(working).Some?
    requires Chain(s, s.parse(base).value, edits) == Ok(d) && Valid(d) && Alike(s.parse(working).value, d)
    requires GetAt(s.parse(working).value, e.pointer) == Found(e.oldValue)
    requires ApplyPointerEdit(s, s.parse(working).value, e.pointer, e.newValue).Ok?
    ensures var text := s.serialize(ApplyPointerEdit(s, s.parse(working).value, e.pointer, e.newValue).value);
            ChainReaches(s, base, edits + [e], text) && EditText(s, working, e.pointer, e.newValue) == Ok(text)
  {
    hide ChainOne, EditText, ApplyPointerEdit, GetAt, Unsigned, Valid, Lawful;
    EditAgrees(s, working, d, e);
    assert (edits + [e])[..|edits|] == edits;
    UnsignedTwice(ChainOne(s, d, e).value);
  }

  lemma ParsedIsValid(s: Schema, text: string)
    requires Lawful(s) && s.parse(text).Some?
    ensures Valid(s.parse(text).value)
  {
  }

  /** `e` is the edit proposed of `text`, and `w'` the work with it. */
  ghost predicate Proposes(s: Schema, w: Work, input: Edit, abs: string, text: string, e: ProposalEdit, w': Work)
    requires Coherent(w)
  {
    var known := abs in w.display;
    && s.parse(text).Some? && GetAt(s.parse(text).value, e.pointer) == Found(e.oldValue)
    && ApplyPointerEdit(s, s.parse(text).value, e.pointer, e.newValue).Ok?
    && e == ProposalEdit(if known then w.display[abs] else input.documentPath, HashOf(if known then w.base[abs] else text),
                         input.pointer, e.oldValue, input.newValue)
    && w' == Work(if known then w.order else w.order + [abs], w.display[abs := e.documentPath],
                  w.base[abs := if known then w.base[abs] else text],
                  w.working[abs := s.serialize(ApplyPointerEdit(s, s.parse(text).value, e.pointer, e.newValue).value)], w.edits + [e])
  }

  function StartText(texts: map<string, string>, w: Work, abs: string): string
    requires Coherent(w)
  {
    if abs in w.display then w.working[abs] else if abs in texts then texts[abs] else ""
  }

  lemma ProposedOne(s: Schema, resolve: string -> string, texts: map<string, string>, w: Work, input: Edit)
    requires Coherent(w) && ProposeOne(s, resolve, texts, w, input).Ok?
    ensures var abs, w' := resolve(input.documentPath), ProposeOne(s, resolve, texts, w, input).value;
            && |w'.edits| == |w.edits| + 1 && (abs !in w.display ==> abs in texts)
            && Proposes(s, w, input, abs, StartText(texts, w, abs), w'.edits[|w.edits|], w')
  {
    hide GetAt, ApplyPointerEdit, HashOf;
  }

  /** One more edit, of a document already begun or of a new one, keeps it tracked. */
  lemma DocStep(s: Schema, resolve: string -> string, texts: map<string, string>, own: seq<Edit>, input: Edit,
                w: Work, g: Groups, abs: string, e: ProposalEdit, w': Work)
    requires Lawful(s) && Coherent(w) && Grouped(g) && g.byDoc.Keys == w.display.Keys && resolve(input.documentPath) == abs
    requires abs in w.display ==> DocTracked(s, resolve, texts, own, w.display[abs], w.base[abs], w.working[abs], g.byDoc[abs], abs)
    requires abs !in w.display ==> own == [] && abs in texts
    requires Proposes(s, w, input, abs, StartText(texts, w, abs), e, w')
    ensures GroupOne(resolve, g, e).Ok? && abs in w'.display && abs in w'.base && abs in w'.working && w'.edits == w.edits + [e]
    ensures abs in GroupOne(resolve, g, e).value.byDoc
    ensures DocTracked(s, resolve, texts, own + [input], w'.display[abs], w'.base[abs], w'.working[abs],
                       GroupOne(resolve, g, e).value.byDoc[abs], abs)
  {
    hide ChainReaches, EditText, ApplyPointerEdit, GetAt, Lawful, Chain, EditTexts, DocTracked, Grouped, HashOf;
    var text := StartText(texts, w, abs);
    if abs in w.display {
      DocGoesOn(s, resolve, texts, own, input, w.display[abs], w.base[abs], text, g.byDoc[abs], abs, e);
    } else {
      DocBegins(s, resolve, texts, input, text, abs, e);
      assert [] + [input] == [input];
    }
  }

  /** The next edit of a document already begun. */
  lemma DocGoesOn(s: Schema, resolve: string -> string, texts: map<string, string>, own: seq<Edit>, input: Edit,
                  display: string, base: string, working: string, group: Group, abs: string, e: ProposalEdit)
    requires Lawful(s) && DocTracked(s, resolve, texts, own, display, base, working, group, abs)
    requires s.parse(working).Some? && GetAt(s.parse(working).value, e.pointer) == Found(e.oldValue)
    requires ApplyPointerEdit(s, s.parse(working).value, e.pointer, e.newValue).Ok?
    requires e.baseHash == HashOf(base) && e.pointer == input.pointer && e.newValue == input.newValue
    ensures var text := s.serialize(ApplyPointerEdit(s, s.parse(working).value, e.pointer, e.newValue).value);
            DocTracked(s, resolve, texts, own + [input], display, base, text, Group(group.documentPath, group.edits + [e]), abs)
    ensures group.documentPath == display && group.edits != [] && resolve(display) == abs
  {
    hide ChainReaches, EditText, ApplyPointerEdit, GetAt, Lawful, Chain, EditTexts, HashOf;
    ReachedDocument(s, base, group.edits, working);
    var d := Chain(s, s.parse(base).value, group.edits).value;
    ChainExtends(s, base, group.edits, d, working, e);
    TextExtends(s, base, own, working, input);
  }

  /** The first edit of a document. */
  lemma DocBegins(s: Schema, resolve: string -> string, texts: map<string, string>, input: Edit, base: string, abs: string, e: ProposalEdit)
    requires Lawful(s) && abs in texts && base == texts[abs] && resolve(e.documentPath) == abs
    requires s.parse(base).Some? && GetAt(s.parse(base).value, e.pointer) == Found(e.oldValue)
    requires ApplyPointerEdit(s, s.parse(base).value, e.pointer, e.newValue).Ok?
    requires e.baseHash == HashOf(base) && e.pointer == input.pointer && e.newValue == input.newValue
    ensures var text := s.serialize(ApplyPointerEdit(s, s.parse(base).value, e.pointer, e.newValue).value);
            DocTracked(s, resolve, texts, [input], e.documentPath, base, text, Group(e.documentPath, [e]), abs)
  {
    hide ChainReaches, EditText, ApplyPointerEdit, GetAt, Lawful, Chain, EditTexts, HashOf;
    ParsedIsValid(s, base);
    NoChain(s, s.parse(base).value);
    ChainExtends(s, base, [], s.parse(base).value, base, e);
    assert [] + [e] == [e] && [] + [input] == [input];
    TextExtends(s, base, [], base, input);
  }

  lemma TextExtends(s: Schema, base: string, own: seq<Edit>, working: string, input: Edit)
    requires (own == [] && working == base) || EditTexts(s, base, own) == Ok(working)
    ensures EditTexts(s, base, own + [input]) == EditText(s, working, input.pointer, input.newValue)
  {
    assert (own + [input])[..|own|] == own;
  }

  lemma ReachedDocument(s: Schema, base: string, edits: seq<ProposalEdit>, working: string)
    requires s.parse(base).Some? && ChainReaches(s, base, edits, working)
    ensures s.parse(working).Some? && Chain(s, s.parse(base).value, edits).Ok?
    ensures var d := Chain(s, s.parse(base).value, edits).value; Valid(d) && Alike(s.parse(working).value, d)
  {
  }

  lemma NoChain(s: Schema, d: Json)
    ensures Chain(s, d, []) == Ok(d)
  {
  }

  /** One more edit, of the document at `abs`: that document's entry and the list of edits are all that differ. */
  ghost predicate Stepped(w: Work, w': Work, abs: string)
    requires Coherent(w) && Coherent(w')
  {
    && w'.order == (if abs in w.display then w.order else w.order + [abs])
    && w'.display.Keys == w.display.Keys + {abs}
    && |w'.edits| == |w.edits| + 1 && w'.edits[..|w.edits|] == w.edits
    && (forall x | x in w.display && x != abs ::
          w'.display[x] == w.display[x] && w'.base[x] == w.base[x] && w'.working[x] == w.working[x])
  }

  lemma StepShape(s: Schema, resolve: string -> string, texts: map<string, string>, w: Work, input: Edit)
    requires Coherent(w) && ProposeOne(s, resolve, texts, w, input).Ok?
    ensures var w' := ProposeOne(s, resolve, texts, w, input).value;
            && Stepped(w, w', resolve(input.documentPath))
            && w'.edits[|w.edits|].documentPath == w'.display[resolve(input.documentPath)]
  {
    hide GetAt, ApplyPointerEdit, HashOf, Load, ProposeOne;
    ProposedOne(s, resolve, texts, w, input);
  }

  /** The groups take the same step. */
  lemma GroupsStep(resolve: string -> string, w: Work, w': Work, g: Groups, abs: string)
    requires InStep(resolve, w, g) && Coherent(w') && Stepped(w, w', abs)
    requires resolve(w'.edits[|w.edits|].documentPath) == abs && GroupOne(resolve, g, w'.edits[|w.edits|]).Ok?
    ensures var g' := GroupOne(resolve, g, w'.edits[|w.edits|]).value;
            OnlyAt(w, w', g, g', abs) && Grouped(g') && GroupAll(resolve, w'.edits) == Ok(g')
  {
    hide GroupAll, GroupOne, Grouped;
    var e := w'.edits[|w.edits|];
    GroupShape(resolve, g, e);
    GroupExtends(resolve, w.edits, g, e);
    assert w'.edits == w.edits + [e];
  }

  lemma GroupShape(resolve: string -> string, g: Groups, e: ProposalEdit)
    requires Grouped(g) && GroupOne(resolve, g, e).Ok?
    ensures var g' := GroupOne(resolve, g, e).value;
            var abs := resolve(e.documentPath);
            && Grouped(g') && g'.order == (if abs in g.byDoc then g.order else g.order + [abs])
            && g'.byDoc.Keys == g.byDoc.Keys + {abs}
            && forall x | x in g.byDoc && x != abs :: g'.byDoc[x] == g.byDoc[x]
  {
  }

  lemma OwnExtends(resolve: string -> string, inputs: seq<Edit>, input: Edit, x: string)
    ensures Own(resolve, inputs + [input], x) ==
            if resolve(input.documentPath) == x then Own(resolve, inputs, x) + [input] else Own(resolve, inputs, x)
  {
    assert (inputs + [input])[..|inputs|] == inputs;
  }

  /** `w'` and `g'` differ from `w` and `g` at `abs` only. */
  ghost predicate OnlyAt(w: Work, w': Work, g: Groups, g': Groups, abs: string)
    requires Coherent(w) && Coherent(w') && g.byDoc.Keys == w.display.Keys
  {
    && w'.display.Keys == g'.byDoc.Keys == w.display.Keys + {abs}
    && w'.order == g'.order == (if abs in w.display then w.order else w.order + [abs])
    && (forall x | x in w.display && x != abs ::
          w'.display[x] == w.display[x] && w'.base[x] == w.base[x] && w'.working[x] == w.working[x] && g'.byDoc[x] == g.byDoc[x])
  }

  lemma ShapeKept(resolve: string -> string, w: Work, w': Work, g: Groups, g': Groups, abs: string)
    requires InStep(resolve, w, g) && Coherent(w') && Grouped(g') && GroupAll(resolve, w'.edits) == Ok(g')
    requires OnlyAt(w, w', g, g', abs)
    ensures InStep(resolve, w', g')
  {
    hide Grouped, GroupAll;
  }

  lemma DocKept(s: Schema, resolve: string -> string, texts: map<string, string>, inputs: seq<Edit>, input: Edit,
                w: Work, w': Work, g: Groups, g': Groups, x: string)
    requires Coherent(w) && Coherent(w') && g.byDoc.Keys == w.display.Keys && OnlyAt(w, w', g, g', resolve(input.documentPath))
    requires AllTracked(s, resolve, texts, inputs, w, g)
    requires x in w'.display && x != resolve(input.documentPath)
    ensures x in g'.byDoc && DocTracked(s, resolve, texts, Own(resolve, inputs + [input], x), w'.display[x], w'.base[x], w'.working[x], g'.byDoc[x], x)
  {
    hide DocTracked, Own;
    OwnExtends(resolve, inputs, input, x);
  }

  lemma DocsKept(s: Schema, resolve: string -> string, texts: map<string, string>, inputs: seq<Edit>, input: Edit,
                 w: Work, w': Work, g: Groups, g': Groups)
    requires Coherent(w) && Coherent(w') && g.byDoc.Keys == w.display.Keys && OnlyAt(w, w', g, g', resolve(input.documentPath))
    requires AllTracked(s, resolve, texts, inputs, w, g)
    requires var abs := resolve(input.documentPath);
             DocTracked(s, resolve, texts, Own(resolve, inputs, abs) + [input], w'.display[abs], w'.base[abs], w'.working[abs], g'.byDoc[abs], abs)
    ensures AllTracked(s, resolve, texts, inputs + [input], w', g')
  {
    hide DocTracked, Own;
    var abs := resolve(input.documentPath);
    OwnExtends(resolve, inputs, input, abs);
    forall x | x in w'.display
      ensures DocTracked(s, resolve, texts, Own(resolve, inputs + [input], x), w'.display[x], w'.base[x], w'.working[x], g'.byDoc[x], x)
    {
      if x != abs {
        DocKept(s, resolve, texts, inputs, input, w, w', g, g', x);
      }
    }
    forall x | x !in w'.display ensures Own(resolve, inputs + [input], x) == [] {
      OwnExtends(resolve, inputs, input, x);
    }
  }

  lemma TrackedNext(s: Schema, resolve: string -> string, texts: map<string, string>, inputs: seq<Edit>, input: Edit,
                    w: Work, w': Work, g: Groups, g': Groups)
    requires Tracked(s, resolve, texts, inputs, w, g)
    requires Coherent(w') && Grouped(g') && GroupAll(resolve, w'.edits) == Ok(g') && OnlyAt(w, w', g, g', resolve(input.documentPath))
    requires var abs := resolve(input.documentPath);
             DocTracked(s, resolve, texts, Own(resolve, inputs, abs) + [input], w'.display[abs], w'.base[abs], w'.working[abs], g'.byDoc[abs], abs)
    ensures Tracked(s, resolve, texts, inputs + [input], w', g')
  {
    hide DocTracked, GroupAll, Own, Grouped, AllTracked;
    ShapeKept(resolve, w, w', g, g', resolve(input.documentPath));
    DocsKept(s, resolve, texts, inputs, input, w, w', g, g');
  }

  lemma TrackedStep(s: Schema, resolve: string -> string, texts: map<string, string>, inputs: seq<Edit>, input: Edit, w: Work, g: Groups)
    requires Lawful(s) && Tracked(s, resolve, texts, inputs, w, g) && ProposeOne(s, resolve, texts, w, input).Ok?
    ensures var w' := ProposeOne(s, resolve, texts, w, input).value;
            exists g' :: Tracked(s, resolve, texts, inputs + [input], w', g')
  {
    hide Lawful, ProposeOne, DocTracked, GroupAll, GroupOne, Own, Grouped, AllTracked, OnlyAt, Proposes;
    var abs := resolve(input.documentPath);
    var w' := ProposeOne(s, resolve, texts, w, input).value;
    StepShape(s, resolve, texts, w, input);
    var e := w'.edits[|w.edits|];
    TrackedAt(s, resolve, texts, inputs, w, g, abs);
    ProposedOne(s, resolve, texts, w, input);
    DocStep(s, resolve, texts, Own(resolve, inputs, abs), input, w, g, abs, e, w');
    var g' := GroupOne(resolve, g, e).value;
    DisplayResolves(s, resolve, texts, Own(resolve, inputs, abs) + [input], w'.display[abs], w'.base[abs], w'.working[abs], g'.byDoc[abs], abs);
    GroupsStep(resolve, w, w', g, abs);
    TrackedNext(s, resolve, texts, inputs, input, w, w', g, g');
  }

  lemma TrackedAt(s: Schema, resolve: string -> string, texts: map<string, string>, inputs: seq<Edit>, w: Work, g: Groups, abs: string)
    requires Tracked(s, resolve, texts, inputs, w, g)
    ensures abs in w.display ==>
              DocTracked(s, resolve, texts, Own(resolve, inputs, abs), w.display[abs], w.base[abs], w.working[abs], g.byDoc[abs], abs)
    ensures abs !in w.display ==> Own(resolve, inputs, abs) == []
  {
  }

  lemma DisplayResolves(s: Schema, resolve: string -> string, texts: map<string, string>, own: seq<Edit>,
                        display: string, base: string, working: string, group: Group, abs: string)
    requires DocTracked(s, resolve, texts, own, display, base, working, group, abs)
    ensures resolve(display) == abs
  {
  }

  lemma GroupExtends(resolve: string -> string, edits: seq<ProposalEdit>, g: Groups, e: ProposalEdit)
    requires Grouped(g) && GroupAll(resolve, edits) == Ok(g)
    ensures GroupAll(resolve, edits + [e]) == GroupOne(resolve, g, e)
  {
    assert (edits + [e])[..|edits|] == edits;
  }

  lemma {:induction false} ProposalTracked(s: Schema, resolve: string -> string, texts: map<string, string>, inputs: seq<Edit>)
    requires Lawful(s) && ProposeAll(s, resolve, texts, inputs).Ok?
    ensures exists g :: Tracked(s, resolve, texts, inputs, ProposeAll(s, resolve, texts, inputs).value, g)
  {
    hide Lawful, ProposeOne, Tracked;
    if inputs == [] {
      NothingTracked(s, resolve, texts);
    } else {
      var init, last := inputs[..|inputs| - 1], inputs[|inputs| - 1];
      ProposalTracked(s, resolve, texts, init);
      var w := ProposeAll(s, resolve, texts, init).value;
      var g :| Tracked(s, resolve, texts, init, w, g);
      TrackedStep(s, resolve, texts, init, last, w, g);
      assert init + [last] == inputs;
    }
  }

  lemma NothingTracked(s: Schema, resolve: string -> string, texts: map<string, string>)
    ensures Tracked(s, resolve, texts, [], NO_WORK, NO_GROUPS)
  {
    assert forall abs :: Own(resolve, [], abs) == [];
  }

  lemma TrackedPlan(s: Schema, resolve: string -> string, texts: map<string, string>, own: seq<Edit>,
                    display: string, base: string, working: string, group: Group, abs: string)
    requires DocTracked(s, resolve, texts, own, display, base, working, group, abs)
    ensures group.edits != [] && PlanOne(s, texts, abs, group) == Ok(DocumentPlan(abs, display, base, working))
    ensures group.documentPath == display && resolve(display) == abs && abs in texts && texts[abs] == base
    ensures own != [] && EditTexts(s, base, own) == Ok(working)
  {
    hide Valid, Unsigned, ChainOne, EditTexts;
  }

  /** The plan that follows a proposal: each document from its text on disk to the text proposed for it. */
  function ExpectedPlan(w: Work, abs: string): DocumentPlan
    requires Coherent(w) && abs in w.order
  {
    DocumentPlan(abs, w.display[abs], w.base[abs], w.working[abs])
  }

  function ExpectedPlans(w: Work, k: nat): (plans: seq<DocumentPlan>)
    requires Coherent(w) && k <= |w.order|
    ensures |plans| == k && forall i | 0 <= i < k :: plans[i] == ExpectedPlan(w, w.order[i])
  {
    if k == 0 then [] else ExpectedPlans(w, k - 1) + [ExpectedPlan(w, w.order[k - 1])]
  }

  lemma {:induction false} PlansFollow(s: Schema, resolve: string -> string, texts: map<string, string>, inputs: seq<Edit>,
                                       w: Work, g: Groups, k: nat)
    requires Tracked(s, resolve, texts, inputs, w, g) && k <= |w.order|
    ensures PlanAll(s, texts, g, k) == Ok(ExpectedPlans(w, k))
  {
    hide PlanOne, DocTracked, AllTracked, GroupAll, Own, Grouped, EditTexts, PlanAll;
    if k == 0 {
      NoPlans(s, texts, g);
    } else {
      var abs := w.order[k - 1];
      PlansFollow(s, resolve, texts, inputs, w, g, k - 1);
      TrackedAt(s, resolve, texts, inputs, w, g, abs);
      TrackedPlan(s, resolve, texts, Own(resolve, inputs, abs), w.display[abs], w.base[abs], w.working[abs], g.byDoc[abs], abs);
      OneMorePlan(s, texts, g, k, ExpectedPlans(w, k - 1), ExpectedPlan(w, abs));
    }
  }

  lemma NoPlans(s: Schema, texts: map<string, string>, g: Groups)
    requires Grouped(g)
    ensures PlanAll(s, texts, g, 0) == Ok([])
  {
  }

  lemma OneMorePlan(s: Schema, texts: map<string, string>, g: Groups, k: nat, plans: seq<DocumentPlan>, plan: DocumentPlan)
    requires Grouped(g) && 0 < k <= |g.order| && PlanAll(s, texts, g, k - 1) == Ok(plans)
    requires g.order[k - 1] in g.byDoc && g.byDoc[g.order[k - 1]].edits != []
    requires PlanOne(s, texts, g.order[k - 1], g.byDoc[g.order[k - 1]]) == Ok(plan)
    ensures PlanAll(s, texts, g, k) == Ok(plans + [plan])
  {
    hide PlanOne;
  }

  lemma DiffFollows(s: Schema, resolve: string -> string, texts: map<string, string>, inputs: seq<Edit>, w: Work, g: Groups, i: nat)
    requires Tracked(s, resolve, texts, inputs, w, g) && i < |w.order|
    ensures var diff := DiffOf(s, w, w.order[i]);
            && Targeted(resolve, g, diff) && resolve(diff.documentPath) == w.order[i]
            && diff.text == ExpectedDiff(s, ExpectedPlan(w, w.order[i]))
  {
    hide PlanOne, DocTracked, AllTracked, GroupAll, Own, Grouped;
    var abs := w.order[i];
    TrackedAt(s, resolve, texts, inputs, w, g, abs);
    TrackedPlan(s, resolve, texts, Own(resolve, inputs, abs), w.display[abs], w.base[abs], w.working[abs], g.byDoc[abs], abs);
  }

  lemma DiffsFollow(s: Schema, resolve: string -> string, texts: map<string, string>, inputs: seq<Edit>, w: Work, g: Groups)
    requires Tracked(s, resolve, texts, inputs, w, g)
    ensures DiffsMatch(s, resolve, g, ExpectedPlans(w, |w.order|), ProposalOf(s, w).diffs)
  {
    hide AllTracked, GroupAll, Grouped, DiffOf, Targeted, ExpectedDiff;
    var plans := ExpectedPlans(w, |w.order|);
    var diffs := ProposalOf(s, w).diffs;
    forall i | 0 <= i < |diffs|
      ensures diffs[i] == DiffOf(s, w, w.order[i]) && Targeted(resolve, g, diffs[i]) && resolve(diffs[i].documentPath) == w.order[i]
      ensures diffs[i].text == ExpectedDiff(s, plans[i])
    {
      DiffFollows(s, resolve, texts, inputs, w, g, i);
    }
    forall k | 0 <= k < |plans| ensures Described(s, resolve, plans[k], diffs) {
      assert resolve(diffs[k].documentPath) == plans[k].path;
    }
  }

  /**
   A proposal applied to the texts it was made from is never rejected, and takes each document named
   to the text that running its own edits directly, in order, would have written.
   */
  lemma ProposeThenApply(s: Schema, resolve: string -> string, texts: map<string, string>, inputs: seq<Edit>)
    requires Lawful(s) && ProposeAll(s, resolve, texts, inputs).Ok?
    ensures var w := ProposeAll(s, resolve, texts, inputs).value;
            var planned := PlanProposal(s, resolve, texts, ProposalOf(s, w));
            && planned.Ok?
            && (forall i, j | 0 <= i < j < |planned.value| :: planned.value[i].path != planned.value[j].path)
            && (forall abs :: Own(resolve, inputs, abs) != [] <==> exists i :: 0 <= i < |planned.value| && planned.value[i].path == abs)
            && (forall i | 0 <= i < |planned.value| ::
                  && planned.value[i].path in texts && planned.value[i].before == texts[planned.value[i].path]
                  && EditTexts(s, planned.value[i].before, Own(resolve, inputs, planned.value[i].path)) == Ok(planned.value[i].after))
  {
    hide Lawful, PlanOne, DocTracked, AllTracked, ProposeAll, PlanAll, GroupAll, Own, Grouped, EditTexts, DiffsMatch;
    var w := ProposeAll(s, resolve, texts, inputs).value;
    ProposalTracked(s, resolve, texts, inputs);
    var g :| Tracked(s, resolve, texts, inputs, w, g);
    PlansFollow(s, resolve, texts, inputs, w, g, |w.order|);
    DiffsFollow(s, resolve, texts, inputs, w, g);
    var plans := PlanProposal(s, resolve, texts, ProposalOf(s, w)).value;
    forall i | 0 <= i < |plans|
      ensures plans[i] == ExpectedPlan(w, w.order[i])
      ensures plans[i].path in texts && plans[i].before == texts[plans[i].path]
      ensures EditTexts(s, plans[i].before, Own(resolve, inputs, plans[i].path)) == Ok(plans[i].after)
    {
      var abs := w.order[i];
      TrackedAt(s, resolve, texts, inputs, w, g, abs);
      TrackedPlan(s, resolve, texts, Own(resolve, inputs, abs), w.display[abs], w.base[abs], w.working[abs], g.byDoc[abs], abs);
    }
    forall abs ensures Own(resolve, inputs, abs) != [] <==> exists i :: 0 <= i < |plans| && plans[i].path == abs {
      TrackedAt(s, resolve, texts, inputs, w, g, abs);
      if abs in w.display {
        var i :| 0 <= i < |w.order| && w.order[i] == abs;
        assert plans[i].path == abs;
        TrackedPlan(s, resolve, texts, Own(resolve, inputs, abs), w.display[abs], w.base[abs], w.working[abs], g.byDoc[abs], abs);
      }
    }
  }

  // ---- when a document has changed since it was proposed -----------------------------------

  /** Every document the edits name is there and parses. */
  ghost predicate AllLoad(s: Schema, resolve: string -> string, texts: map<string, string>, inputs: seq<Edit>) {
    forall abs | Own(resolve, inputs, abs) != [] :: abs in texts && s.parse(texts[abs]).Some?
  }

  /** A tracked document is planned from the same text, and refused as stale from any other. */
  lemma TrackedAgain(s: Schema, resolve: string -> string, texts: map<string, string>, now: map<string, string>, own: seq<Edit>,
                     display: string, base: string, working: string, group: Group, abs: string)
    requires DocTracked(s, resolve, texts, own, display, base, working, group, abs)
    requires abs in now && s.parse(now[abs]).Some?
    ensures group.edits != [] && abs in texts
    ensures PlanOne(s, now, abs, group) ==
            if now[abs] == texts[abs] then PlanOne(s, texts, abs, group) else Rejected(ContentHashConflict)
    ensures PlanOne(s, texts, abs, group).Ok?
  {
    hide Valid, Unsigned, ChainOne, EditTexts;
    TrackedPlan(s, resolve, texts, own, display, base, working, group, abs);
  }

  predicate Unchanged(texts: map<string, string>, now: map<string, string>, order: seq<string>) {
    forall i | 0 <= i < |order| :: order[i] in texts && order[i] in now && now[order[i]] == texts[order[i]]
  }

  lemma NamedAgain(s: Schema, resolve: string -> string, texts: map<string, string>, now: map<string, string>,
                   inputs: seq<Edit>, w: Work, g: Groups, abs: string)
    requires Tracked(s, resolve, texts, inputs, w, g) && abs in w.order && AllLoad(s, resolve, now, inputs)
    ensures Own(resolve, inputs, abs) != [] && abs in texts && abs in now && abs in g.byDoc && g.byDoc[abs].edits != []
    ensures PlanOne(s, now, abs, g.byDoc[abs]) ==
            if now[abs] == texts[abs] then Ok(ExpectedPlan(w, abs)) else Rejected(ContentHashConflict)
  {
    hide PlanOne, DocTracked, AllTracked, GroupAll, Own, Grouped, EditTexts;
    TrackedAt(s, resolve, texts, inputs, w, g, abs);
    TrackedPlan(s, resolve, texts, Own(resolve, inputs, abs), w.display[abs], w.base[abs], w.working[abs], g.byDoc[abs], abs);
    TrackedAgain(s, resolve, texts, now, Own(resolve, inputs, abs), w.display[abs], w.base[abs], w.working[abs], g.byDoc[abs], abs);
  }

  lemma NoMorePlans(s: Schema, texts: map<string, string>, g: Groups, k: nat)
    requires Grouped(g) && 0 < k <= |g.order| && g.order[k - 1] in g.byDoc && g.byDoc[g.order[k - 1]].edits != []
    ensures PlanAll(s, texts, g, k - 1).Rejected? ==> PlanAll(s, texts, g, k) == PlanAll(s, texts, g, k - 1)
    ensures PlanAll(s, texts, g, k - 1).Ok? && PlanOne(s, texts, g.order[k - 1], g.byDoc[g.order[k - 1]]) == Rejected(ContentHashConflict) ==>
              PlanAll(s, texts, g, k) == Rejected(ContentHashConflict)
  {
    hide PlanOne;
  }

  lemma UnchangedNext(texts: map<string, string>, now: map<string, string>, order: seq<string>, k: nat)
    requires 0 < k <= |order| && order[k - 1] in texts && order[k - 1] in now
    ensures Unchanged(texts, now, order[..k]) <==> Unchanged(texts, now, order[..k - 1]) && now[order[k - 1]] == texts[order[k - 1]]
  {
    assert forall i | 0 <= i < k - 1 :: order[..k][i] == order[..k - 1][i];
    assert order[..k][k - 1] == order[k - 1];
  }

  lemma {:induction false} PlansAgain(s: Schema, resolve: string -> string, texts: map<string, string>, now: map<string, string>,
                                      inputs: seq<Edit>, w: Work, g: Groups, k: nat)
    requires Tracked(s, resolve, texts, inputs, w, g) && k <= |w.order| && AllLoad(s, resolve, now, inputs)
    ensures PlanAll(s, now, g, k) ==
            if Unchanged(texts, now, w.order[..k]) then Ok(ExpectedPlans(w, k)) else Rejected(ContentHashConflict)
  {
    hide PlanOne, DocTracked, AllTracked, GroupAll, Own, Grouped, EditTexts, PlanAll, Unchanged, AllLoad;
    if k == 0 {
      NoPlans(s, now, g);
      NothingChanged(texts, now, w.order);
    } else {
      var abs := w.order[k - 1];
      PlansAgain(s, resolve, texts, now, inputs, w, g, k - 1);
      NamedAgain(s, resolve, texts, now, inputs, w, g, abs);
      UnchangedNext(texts, now, w.order, k);
      if Unchanged(texts, now, w.order[..k]) {
        OneMorePlan(s, now, g, k, ExpectedPlans(w, k - 1), ExpectedPlan(w, abs));
      } else {
        NoMorePlans(s, now, g, k);
      }
    }
  }

  lemma NothingChanged(texts: map<string, string>, now: map<string, string>, order: seq<string>)
    ensures Unchanged(texts, now, order[..0])
  {
  }

  lemma NamedIsOrdered(s: Schema, resolve: string -> string, texts: map<string, string>, inputs: seq<Edit>, w: Work, g: Groups, abs: string)
    requires Tracked(s, resolve, texts, inputs, w, g)
    ensures abs in w.order <==> Own(resolve, inputs, abs) != []
    ensures abs in w.order ==> abs in texts
  {
    hide PlanOne, DocTracked, AllTracked, GroupAll, Own, Grouped, EditTexts;
    TrackedAt(s, resolve, texts, inputs, w, g, abs);
    if abs in w.display {
      TrackedPlan(s, resolve, texts, Own(resolve, inputs, abs), w.display[abs], w.base[abs], w.working[abs], g.byDoc[abs], abs);
    }
  }

  /** No document named by the edits has another text than it had. */
  ghost predicate SameTexts(resolve: string -> string, texts: map<string, string>, now: map<string, string>, inputs: seq<Edit>) {
    forall abs | Own(resolve, inputs, abs) != [] :: SameAt(texts, now, abs)
  }

  lemma UnchangedIsSame(s: Schema, resolve: string -> string, texts: map<string, string>, now: map<string, string>,
                        inputs: seq<Edit>, w: Work, g: Groups)
    requires Tracked(s, resolve, texts, inputs, w, g) && AllLoad(s, resolve, now, inputs)
    ensures Unchanged(texts, now, w.order) <==> SameTexts(resolve, texts, now, inputs)
  {
    hide Tracked, Own;
    forall abs ensures (abs in w.order <==> Own(resolve, inputs, abs) != []) && (abs in w.order ==> abs in texts) {
      NamedIsOrdered(s, resolve, texts, inputs, w, g, abs);
    }
    if SameTexts(resolve, texts, now, inputs) {
      forall i | 0 <= i < |w.order| ensures w.order[i] in texts && w.order[i] in now && now[w.order[i]] == texts[w.order[i]] {
        assert w.order[i] in w.order && SameAt(texts, now, w.order[i]);
      }
    }
  }

  /**
   A proposal applied later, to texts that all still parse, is planned as it was proposed if no document
   it names has changed, and refused for a changed document otherwise.
   */
  lemma StaleIsRefused(s: Schema, resolve: string -> string, texts: map<string, string>, now: map<string, string>, inputs: seq<Edit>)
    requires Lawful(s) && ProposeAll(s, resolve, texts, inputs).Ok? && AllLoad(s, resolve, now, inputs)
    ensures var p := ProposalOf(s, ProposeAll(s, resolve, texts, inputs).value);
            if SameTexts(resolve, texts, now, inputs)
            then PlanProposal(s, resolve, now, p).Ok? && PlanProposal(s, resolve, now, p) == PlanProposal(s, resolve, texts, p)
            else PlanProposal(s, resolve, now, p) == Rejected(ContentHashConflict)
  {
    hide Lawful, PlanOne, DocTracked, AllTracked, ProposeAll, PlanAll, GroupAll, Own, Grouped, EditTexts, DiffsMatch, Unchanged, SameTexts, AllLoad;
    var w := ProposeAll(s, resolve, texts, inputs).value;
    ProposalTracked(s, resolve, texts, inputs);
    var g :| Tracked(s, resolve, texts, inputs, w, g);
    PlansFollow(s, resolve, texts, inputs, w, g, |w.order|);
    PlansAgain(s, resolve, texts, now, inputs, w, g, |w.order|);
    DiffsFollow(s, resolve, texts, inputs, w, g);
    UnchangedIsSame(s, resolve, texts, now, inputs, w, g);
    assert w.order[..|w.order|] == w.order;
  }

  // ---- when proposing succeeds -------------------------------------------------------------

  /** Each document named can be loaded and takes its own edits, one after the other. */
  ghost predicate AllEditable(s: Schema, resolve: string -> string, texts: map<string, string>, inputs: seq<Edit>) {
    forall abs | Own(resolve, inputs, abs) != [] ::
      && abs in texts && s.parse(texts[abs]).Some?
      && EditTexts(s, texts[abs], Own(resolve, inputs, abs)).Ok?
  }

  lemma EditablePrefix(s: Schema, resolve: string -> string, texts: map<string, string>, inputs: seq<Edit>, input: Edit)
    requires AllEditable(s, resolve, texts, inputs + [input])
    ensures AllEditable(s, resolve, texts, inputs)
  {
    forall abs | Own(resolve, inputs, abs) != []
      ensures abs in texts && s.parse(texts[abs]).Some? && EditTexts(s, texts[abs], Own(resolve, inputs, abs)).Ok?
    {
      OwnExtends(resolve, inputs, input, abs);
      assert (Own(resolve, inputs, abs) + [input])[..|Own(resolve, inputs, abs)|] == Own(resolve, inputs, abs);
    }
  }

  /** An edit that the document's text takes is an edit that can be proposed. */
  lemma EditableStep(s: Schema, resolve: string -> string, texts: map<string, string>, w: Work, input: Edit, text: string)
    requires Coherent(w)
    requires var abs := resolve(input.documentPath);
             if abs in w.working then text == w.working[abs] else abs in texts && text == texts[abs] && s.parse(text).Some?
    ensures ProposeOne(s, resolve, texts, w, input).Ok? <==> EditText(s, text, input.pointer, input.newValue).Ok?
  {
    hide SetAt, GetAt, Valid;
    if s.parse(text).Some? {
      SetSucceedsIffGet(s.parse(text).value, input.pointer, input.newValue);
    }
  }

  /** Several edits over several documents can be proposed exactly when each document takes its own. */
  lemma {:induction false} ProposeSucceedsIff(s: Schema, resolve: string -> string, texts: map<string, string>, inputs: seq<Edit>)
    requires Lawful(s)
    ensures ProposeAll(s, resolve, texts, inputs).Ok? <==> AllEditable(s, resolve, texts, inputs)
  {
    hide Lawful, ProposeOne, DocTracked, AllTracked, GroupAll, Own, Grouped, EditTexts, EditText;
    if ProposeAll(s, resolve, texts, inputs).Ok? {
      ProposalTracked(s, resolve, texts, inputs);
      var w := ProposeAll(s, resolve, texts, inputs).value;
      var g :| Tracked(s, resolve, texts, inputs, w, g);
      forall abs | Own(resolve, inputs, abs) != []
        ensures abs in texts && s.parse(texts[abs]).Some? && EditTexts(s, texts[abs], Own(resolve, inputs, abs)).Ok?
      {
        TrackedAt(s, resolve, texts, inputs, w, g, abs);
        TrackedPlan(s, resolve, texts, Own(resolve, inputs, abs), w.display[abs], w.base[abs], w.working[abs], g.byDoc[abs], abs);
        TrackedParses(s, resolve, texts, Own(resolve, inputs, abs), w.display[abs], w.base[abs], w.working[abs], g.byDoc[abs], abs);
      }
    } else if AllEditable(s, resolve, texts, inputs) {
      LastEditable(s, resolve, texts, inputs);
    }
  }

  lemma TrackedParses(s: Schema, resolve: string -> string, texts: map<string, string>, own: seq<Edit>,
                      display: string, base: string, working: string, group: Group, abs: string)
    requires DocTracked(s, resolve, texts, own, display, base, working, group, abs)
    ensures s.parse(base).Some?
  {
  }

  lemma EditableAgain(s: Schema, resolve: string -> string, texts: map<string, string>, init: seq<Edit>, last: Edit, w: Work, g: Groups)
    requires Tracked(s, resolve, texts, init, w, g) && AllEditable(s, resolve, texts, init + [last])
    ensures ProposeOne(s, resolve, texts, w, last).Ok?
  {
    hide ProposeOne, DocTracked, AllTracked, GroupAll, Own, Grouped, EditText, EditTexts;
    var abs := resolve(last.documentPath);
    var own := Own(resolve, init, abs);
    OwnExtends(resolve, init, last, abs);
    TrackedAt(s, resolve, texts, init, w, g, abs);
    assert Own(resolve, init + [last], abs) == own + [last] && own + [last] != [];
    if abs in w.display {
      TrackedPlan(s, resolve, texts, own, w.display[abs], w.base[abs], w.working[abs], g.byDoc[abs], abs);
      TextExtends(s, texts[abs], own, w.working[abs], last);
      EditableStep(s, resolve, texts, w, last, w.working[abs]);
    } else {
      TextExtends(s, texts[abs], own, texts[abs], last);
      EditableStep(s, resolve, texts, w, last, texts[abs]);
    }
  }

  lemma {:induction false} LastEditable(s: Schema, resolve: string -> string, texts: map<string, string>, inputs: seq<Edit>)
    requires Lawful(s) && AllEditable(s, resolve, texts, inputs)
    ensures ProposeAll(s, resolve, texts, inputs).Ok?
  {
    hide Lawful, ProposeOne, Tracked, AllEditable;
    if inputs != [] {
      var init, last := inputs[..|inputs| - 1], inputs[|inputs| - 1];
      assert inputs == init + [last];
      EditablePrefix(s, resolve, texts, init, last);
      LastEditable(s, resolve, texts, init);
      ProposalTracked(s, resolve, texts, init);
      var w := ProposeAll(s, resolve, texts, init).value;
      var g :| Tracked(s, resolve, texts, init, w, g);
      EditableAgain(s, resolve, texts, init, last, w, g);
    }
  }
}
