/** Rewriting a JSON request body for its upstream by editing bytes in place. How an object's members
    are found is left to a parser that reports them in order, their values apart and inside it. */
module BodyRewrite {
  import opened Words
  import opened ByteEdits

  /** One key of an object and the byte range of its value. */
  datatype Member = Member(name: string, start: int, end: int)

  datatype Object = Object(members: seq<Member>, closing: int)

  /** Values in order and apart, between the braces. */
  predicate MembersInside(o: Object, length: nat) {
    && 0 <= o.closing < length
    && (forall i :: 0 <= i < |o.members| ==> 1 <= o.members[i].start < o.members[i].end <= o.closing)
    && (forall i, j :: 0 <= i < j < |o.members| ==> o.members[i].end < o.members[j].start)
  }

  type Parser = p: Bytes -> Option<Object> | forall body :: p(body).Some? ==> MembersInside(p(body).value, |body|)
    witness (body: Bytes) => None

  /** How values are read and written: an object's members, a string, a string's JSON, the
      replacement of a stated effort, and whether the request asks for a stream. */
  datatype Json = Json(members: Parser, text: Bytes -> Option<string>, encode: string -> Bytes,
                       effort: Bytes -> Option<Bytes>)

  const TRUE: Bytes := [0x74, 0x72, 0x75, 0x65]

  /** The literals {"include_usage":true}, "include_usage":true and "stream_options":{...}. */
  datatype Literals = Literals(options: Bytes, includeUsage: Bytes, streamOptions: Bytes)

  const COMMA: Byte := 0x2C

  function Slice(body: Bytes, start: int, end: int): Bytes {
    if 0 <= start <= end <= |body| then body[start..end] else []
  }

  const COLON: Byte := 0x3A

  predicate IsJSONSpace(b: Byte) {
    b == 0x20 || b == 0x09 || b == 0x0A || b == 0x0D
  }

  predicate Spaces(body: Bytes, from: int, to: int) {
    forall i :: 0 <= from <= i < to <= |body| ==> IsJSONSpace(body[i])
  }

  /** Skips the colon and padding between a member's name and its value; -1 when they are not there. */
  method ValueStart(body: Bytes, from: nat, end: nat) returns (start: int)
    requires from <= end <= |body|
    ensures start == -1 || from < start <= end
    ensures start != -1 <==> exists colon :: from <= colon < end && Spaces(body, from, colon) && body[colon] == COLON
    ensures start != -1 ==> start == end || !IsJSONSpace(body[start])
    ensures start != -1 ==>
              exists colon :: from <= colon < start && Spaces(body, from, colon) && body[colon] == COLON &&
                Spaces(body, colon + 1, start)
  {
    start := from;
    while start < end && IsJSONSpace(body[start])
      invariant from <= start <= end && Spaces(body, from, start)
    {
      start := start + 1;
    }
    if start >= end || body[start] != COLON {
      return -1;
    }
    ghost var colon := start;
    start := start + 1;
    while start < end && IsJSONSpace(body[start])
      invariant colon < start <= end && Spaces(body, colon + 1, start)
    {
      start := start + 1;
    }
  }

  // What each member's edits are

  function ShiftedEffort(json: Json, body: Bytes, base: int, n: Member): seq<Edit> {
    var replacement := json.effort(Slice(body, base + n.start, base + n.end));
    if n.name == "effort" && replacement.Some? then [Edit(base + n.start, base + n.end, replacement.value)] else []
  }

  /** Every place a member states the reasoning effort. */
  function EffortOf(json: Json, body: Bytes, m: Member): seq<Edit> {
    if m.name == "reasoning_effort" then ShiftedEffort(json, body, 0, m.(name := "effort"))
    else if m.name == "reasoning" || m.name == "output_config" then
      match json.members(Slice(body, m.start, m.end))
      case None => []
      case Some(nested) => Gathered(nested.members, n => ShiftedEffort(json, body, m.start, n))
    else []
  }

  /** A model that is not the one forwarded. */
  function ModelOf(json: Json, body: Bytes, forwardModel: string, m: Member): seq<Edit> {
    var current := json.text(Slice(body, m.start, m.end));
    if m.name == "model" && current.Some? && current.value != forwardModel
      then [Edit(m.start, m.end, json.encode(forwardModel))]
    else []
  }

  function ShiftedUsage(value: Bytes, base: int, n: Member): seq<Edit> {
    if n.name == "include_usage" && Slice(value, n.start, n.end) != TRUE
      then [Edit(base + n.start, base + n.end, TRUE)] else []
  }

  predicate Has(members: seq<Member>, name: string) {
    exists i :: 0 <= i < |members| && members[i].name == name
  }

  /** Adds a member after the last one, or before the closing brace of an empty object. */
  function InsertMember(base: int, o: Object, text: Bytes): Edit {
    if |o.members| == 0 then Edit(base + o.closing, base + o.closing, text)
    else
      var at := base + o.members[|o.members| - 1].end;
      Edit(at, at, [COMMA] + text)
  }

  /** What makes a stream's options ask for usage. */
  function UsageOf(json: Json, literals: Literals, body: Bytes, m: Member): seq<Edit> {
    var value := Slice(body, m.start, m.end);
    if m.name != "stream_options" then []
    else
      match json.members(value)
      case None => [Edit(m.start, m.end, literals.options)]
      case Some(nested) =>
        if Has(nested.members, "include_usage") then Gathered(nested.members, n => ShiftedUsage(value, m.start, n))
        else [InsertMember(m.start, nested, literals.includeUsage)]
  }

  /** The edits of all members, in order. */
  function Gathered(members: seq<Member>, f: Member -> seq<Edit>): seq<Edit> {
    if members == [] then [] else Gathered(members[..|members| - 1], f) + f(members[|members| - 1])
  }

  function UsageEditsOf(json: Json, literals: Literals, body: Bytes, o: Object): seq<Edit> {
    if Has(o.members, "stream_options") then Gathered(o.members, m => UsageOf(json, literals, body, m))
    else [InsertMember(0, o, literals.streamOptions)]
  }

  /** The last "stream" is true. */
  predicate AsksForStream(body: Bytes, members: seq<Member>) {
    exists i :: 0 <= i < |members| && members[i].name == "stream" &&
                Slice(body, members[i].start, members[i].end) == TRUE &&
                forall j :: i < j < |members| ==> members[j].name != "stream"
  }

  function AllEdits(json: Json, literals: Literals, body: Bytes, o: Object, forwardModel: Option<string>,
                    chat: bool): seq<Edit> {
    Gathered(o.members, m => EffortOf(json, body, m)) +
    (if forwardModel.Some? then Gathered(o.members, m => ModelOf(json, body, forwardModel.value, m)) else []) +
    (if chat && AsksForStream(body, o.members) then UsageEditsOf(json, literals, body, o) else [])
  }

  // They are apart

  /** The edit replaces part of the member's value. */
  predicate Within(e: Edit, m: Member) {
    m.start <= e.start <= e.end <= m.end && e.start < m.end
  }

  predicate Before(a: Edit, b: Edit) {
    a.end <= b.start && a.start < b.start
  }

  predicate InOrder(edits: seq<Edit>) {
    forall i, j :: 0 <= i < j < |edits| ==> Before(edits[i], edits[j])
  }

  predicate Belongs(members: seq<Member>, f: Member -> seq<Edit>, e: Edit) {
    exists i :: 0 <= i < |members| && e in f(members[i])
  }

  lemma InOrderAppend(a: seq<Edit>, b: seq<Edit>)
    requires InOrder(a) && InOrder(b)
    requires forall x, y :: x in a && y in b ==> Before(x, y)
    ensures InOrder(a + b)
  {
  }

  lemma {:induction false} GatheredBelongs(members: seq<Member>, f: Member -> seq<Edit>)
    ensures forall e :: e in Gathered(members, f) <==> Belongs(members, f, e)
  {
    if members != [] {
      var front, last := members[..|members| - 1], members[|members| - 1];
      GatheredBelongs(front, f);
      forall e
        ensures Belongs(members, f, e) <==> Belongs(front, f, e) || e in f(last)
      {
        if Belongs(front, f, e) {
          var i :| 0 <= i < |front| && e in f(front[i]);
          assert e in f(members[i]);
        }
        if Belongs(members, f, e) {
          var i :| 0 <= i < |members| && e in f(members[i]);
          assert i < |front| ==> e in f(front[i]);
        }
        assert e in f(last) ==> e in f(members[|front|]);
      }
    }
  }

  /** Members in order and apart have their edits in order. */
  lemma {:induction false} GatheredInOrder(members: seq<Member>, f: Member -> seq<Edit>, base: int)
    requires forall i, j :: 0 <= i < j < |members| ==> members[i].end < members[j].start
    requires forall i :: 0 <= i < |members| ==> InOrder(f(members[i]))
    requires forall i, e :: 0 <= i < |members| && e in f(members[i]) ==>
                              base + members[i].start <= e.start <= e.end <= base + members[i].end
    ensures InOrder(Gathered(members, f))
  {
    if members != [] {
      var front, last := members[..|members| - 1], members[|members| - 1];
      GatheredInOrder(front, f, base);
      GatheredBelongs(front, f);
      forall x, y | x in Gathered(front, f) && y in f(last)
        ensures Before(x, y)
      {
        assert Belongs(front, f, x);
        var i :| 0 <= i < |front| && x in f(front[i]);
        assert members[i].end < members[|front|].start;
        assert base + members[i].start <= x.start <= x.end <= base + members[i].end;
      }
      InOrderAppend(Gathered(front, f), f(last));
    }
  }

  lemma NestedWithin(m: Member, nested: Object, f: Member -> seq<Edit>, length: nat)
    requires MembersInside(nested, length) && m.start + length == m.end
    requires forall i :: 0 <= i < |nested.members| ==> InOrder(f(nested.members[i]))
    requires forall i, e :: 0 <= i < |nested.members| && e in f(nested.members[i]) ==>
                              e.start == m.start + nested.members[i].start && e.end == m.start + nested.members[i].end
    ensures InOrder(Gathered(nested.members, f))
    ensures forall e :: e in Gathered(nested.members, f) ==> Within(e, m) && e.start < e.end
  {
    GatheredInOrder(nested.members, f, m.start);
    GatheredBelongs(nested.members, f);
  }

  lemma EffortWithin(json: Json, body: Bytes, m: Member)
    requires 0 <= m.start < m.end <= |body|
    ensures InOrder(EffortOf(json, body, m))
    ensures forall e :: e in EffortOf(json, body, m) ==> Within(e, m) && e.start < e.end
  {
    hide Gathered, InOrder, ShiftedEffort;
    OneInOrder();
    ShiftedWithin(json, body, 0, m.(name := "effort"));
    var value := Slice(body, m.start, m.end);
    if (m.name == "reasoning" || m.name == "output_config") && json.members(value).Some? {
      var nested := json.members(value).value;
      forall i | 0 <= i < |nested.members|
        ensures InOrder(ShiftedEffort(json, body, m.start, nested.members[i]))
        ensures forall e :: e in ShiftedEffort(json, body, m.start, nested.members[i]) ==>
                              e.start == m.start + nested.members[i].start && e.end == m.start + nested.members[i].end
      {
        ShiftedWithin(json, body, m.start, nested.members[i]);
      }
      NestedWithin(m, nested, n => ShiftedEffort(json, body, m.start, n), |value|);
    }
  }

  lemma ShiftedWithin(json: Json, body: Bytes, base: int, n: Member)
    ensures InOrder(ShiftedEffort(json, body, base, n))
    ensures forall e :: e in ShiftedEffort(json, body, base, n) ==> e.start == base + n.start && e.end == base + n.end
  {
    hide Slice;
  }

  lemma OneInOrder()
    ensures InOrder([]) && forall e :: InOrder([e])
  {
  }

  lemma InsertWithin(m: Member, nested: Object, text: Bytes, length: nat)
    requires MembersInside(nested, length) && m.start + length == m.end
    ensures Within(InsertMember(m.start, nested, text), m)
  {
  }

  lemma UsageWithin(json: Json, literals: Literals, body: Bytes, m: Member)
    requires 0 <= m.start < m.end <= |body|
    ensures InOrder(UsageOf(json, literals, body, m))
    ensures forall e :: e in UsageOf(json, literals, body, m) ==> Within(e, m)
  {
    hide Gathered, InOrder, InsertMember;
    assert InOrder([]) && forall e :: InOrder([e]) by { OneInOrder(); }
    var value := Slice(body, m.start, m.end);
    if m.name == "stream_options" && json.members(value).Some? {
      var nested := json.members(value).value;
      NestedWithin(m, nested, n => ShiftedUsage(value, m.start, n), |value|);
      InsertWithin(m, nested, literals.includeUsage, |value|);
    }
  }

  lemma ModelWithin(json: Json, body: Bytes, forwardModel: string, m: Member)
    requires 0 <= m.start < m.end <= |body|
    ensures InOrder(ModelOf(json, body, forwardModel, m))
    ensures forall e :: e in ModelOf(json, body, forwardModel, m) ==>
              Within(e, m) && e.start < e.end && m.name == "model"
  {
  }

  /** An edit of some member with one of these names. */
  predicate OfMember(o: Object, names: set<string>, e: Edit) {
    exists i :: 0 <= i < |o.members| && o.members[i].name in names && Within(e, o.members[i])
  }

  const EFFORT_NAMES := {"reasoning_effort", "reasoning", "output_config"}

  lemma EffortEditsSound(json: Json, body: Bytes, o: Object)
    requires MembersInside(o, |body|)
    ensures var edits := Gathered(o.members, m => EffortOf(json, body, m));
            InOrder(edits) && forall e :: e in edits ==> OfMember(o, EFFORT_NAMES, e) && e.start < e.end
  {
    hide EffortOf, InOrder;
    var f := m => EffortOf(json, body, m);
    forall i | 0 <= i < |o.members|
      ensures InOrder(f(o.members[i]))
      ensures forall e :: e in f(o.members[i]) ==>
                Within(e, o.members[i]) && e.start < e.end && o.members[i].name in EFFORT_NAMES
    {
      EffortWithin(json, body, o.members[i]);
      EffortNamed(json, body, o.members[i]);
    }
    GatheredInOrder(o.members, f, 0);
    GatheredBelongs(o.members, f);
  }

  lemma EffortNamed(json: Json, body: Bytes, m: Member)
    ensures EffortOf(json, body, m) != [] ==> m.name in EFFORT_NAMES
  {
  }

  lemma ModelEditsSound(json: Json, body: Bytes, forwardModel: string, o: Object)
    requires MembersInside(o, |body|)
    ensures var edits := Gathered(o.members, m => ModelOf(json, body, forwardModel, m));
            InOrder(edits) && forall e :: e in edits ==> OfMember(o, {"model"}, e) && e.start < e.end
  {
    hide InOrder, ModelOf;
    var f := m => ModelOf(json, body, forwardModel, m);
    forall i | 0 <= i < |o.members|
      ensures InOrder(f(o.members[i]))
      ensures forall e :: e in f(o.members[i]) ==>
                Within(e, o.members[i]) && e.start < e.end && o.members[i].name == "model"
    {
      ModelWithin(json, body, forwardModel, o.members[i]);
    }
    GatheredInOrder(o.members, f, 0);
    GatheredBelongs(o.members, f);
  }

  /** Where a missing member would go: past every value. */
  predicate PastValues(o: Object, e: Edit) {
    e.start == e.end && forall i :: 0 <= i < |o.members| ==> o.members[i].end <= e.start
  }

  lemma UsageEditsSound(json: Json, literals: Literals, body: Bytes, o: Object)
    requires MembersInside(o, |body|)
    ensures var edits := UsageEditsOf(json, literals, body, o);
            && InOrder(edits) && AllInBody(edits, |body|)
            && forall e :: e in edits ==> OfMember(o, {"stream_options"}, e) || PastValues(o, e)
  {
    hide UsageOf, InOrder;
    OneInOrder();
    var f := m => UsageOf(json, literals, body, m);
    forall i | 0 <= i < |o.members|
      ensures InOrder(f(o.members[i]))
      ensures forall e :: e in f(o.members[i]) ==> Within(e, o.members[i]) && o.members[i].name == "stream_options"
    {
      UsageWithin(json, literals, body, o.members[i]);
      UsageNamed(json, literals, body, o.members[i]);
    }
    GatheredInOrder(o.members, f, 0);
    GatheredBelongs(o.members, f);
  }

  lemma UsageNamed(json: Json, literals: Literals, body: Bytes, m: Member)
    ensures UsageOf(json, literals, body, m) != [] ==> m.name == "stream_options"
  {
  }

  lemma MembersApart(o: Object, length: nat, some: set<string>, other: set<string>, a: Edit, b: Edit)
    requires MembersInside(o, length) && some !! other
    requires OfMember(o, some, a) && OfMember(o, other, b)
    ensures Apart(a, b) && a.start != b.start
  {
  }

  lemma PastIsApart(o: Object, names: set<string>, a: Edit, b: Edit)
    requires OfMember(o, names, a) && a.start < a.end && PastValues(o, b)
    ensures Apart(a, b) && a.start != b.start
  {
  }

  predicate AllFrom(a: seq<Edit>, b: seq<Edit>) {
    forall x, y :: x in a && y in b ==> Apart(x, y) && x.start != y.start
  }

  lemma InOrderApart(edits: seq<Edit>)
    requires InOrder(edits)
    ensures AllApart(edits) && DistinctStarts(edits)
  {
  }

  lemma ApartAppend(a: seq<Edit>, b: seq<Edit>)
    requires AllApart(a) && DistinctStarts(a) && AllApart(b) && DistinctStarts(b) && AllFrom(a, b)
    ensures AllApart(a + b) && DistinctStarts(a + b)
  {
  }

  lemma OfMemberInBody(o: Object, length: nat, names: set<string>, edits: seq<Edit>)
    requires MembersInside(o, length) && forall e :: e in edits ==> OfMember(o, names, e)
    ensures AllInBody(edits, length)
  {
  }

  /** Whatever the body says, and wherever: the edits the three rewrites make, nested and inserted
      ones included, never overlap and never start together. */
  lemma EditsAreApart(json: Json, literals: Literals, body: Bytes, o: Object, forwardModel: Option<string>, chat: bool)
    requires MembersInside(o, |body|)
    ensures var edits := AllEdits(json, literals, body, o, forwardModel, chat);
            AllApart(edits) && DistinctStarts(edits) && AllInBody(edits, |body|)
  {
    hide Gathered, UsageEditsOf, OfMember, PastValues, MembersInside, InOrder, Apart, AllApart, DistinctStarts,
      AllInBody, AsksForStream;
    var effort := Gathered(o.members, m => EffortOf(json, body, m));
    var model := if forwardModel.Some? then Gathered(o.members, m => ModelOf(json, body, forwardModel.value, m))
      else [];
    var usage := if chat && AsksForStream(body, o.members) then UsageEditsOf(json, literals, body, o) else [];
    OneInOrder();
    EffortEditsSound(json, body, o);
    if forwardModel.Some? {
      ModelEditsSound(json, body, forwardModel.value, o);
    }
    NoneInBody(|body|);
    UsageEditsSound(json, literals, body, o);
    EditsApartFrom(o, |body|, effort, model, usage);
    InOrderApart(effort);
    InOrderApart(model);
    InOrderApart(usage);
    OfMemberInBody(o, |body|, EFFORT_NAMES, effort);
    OfMemberInBody(o, |body|, {"model"}, model);
    ApartAppend(effort, model);
    ApartAppend(effort + model, usage);
    InBodyAppend(effort, model, |body|);
    InBodyAppend(effort + model, usage, |body|);
  }

  lemma NoneInBody(length: nat)
    ensures AllInBody([], length)
  {
  }

  lemma InBodyAppend(a: seq<Edit>, b: seq<Edit>, length: nat)
    requires AllInBody(a, length) && AllInBody(b, length)
    ensures AllInBody(a + b, length)
  {
  }

  lemma EditsApartFrom(o: Object, length: nat, effort: seq<Edit>, model: seq<Edit>, usage: seq<Edit>)
    requires MembersInside(o, length)
    requires forall e :: e in effort ==> OfMember(o, EFFORT_NAMES, e) && e.start < e.end
    requires forall e :: e in model ==> OfMember(o, {"model"}, e) && e.start < e.end
    requires forall e :: e in usage ==> OfMember(o, {"stream_options"}, e) || PastValues(o, e)
    ensures AllFrom(effort, model) && AllFrom(effort + model, usage)
  {
    hide OfMember, PastValues, Apart, MembersInside;
    forall x, y | x in effort && y in model
      ensures Apart(x, y) && x.start != y.start
    {
      MembersApart(o, length, EFFORT_NAMES, {"model"}, x, y);
    }
    forall x, y | x in effort + model && y in usage
      ensures Apart(x, y) && x.start != y.start
    {
      var names := if x in effort then EFFORT_NAMES else {"model"};
      if OfMember(o, {"stream_options"}, y) {
        MembersApart(o, length, names, {"stream_options"}, x, y);
      } else {
        PastIsApart(o, names, x, y);
      }
    }
  }

  // Which edits they are

  /** The value states an effort the channel maps, and the edit replaces it. */
  predicate MapsEffort(json: Json, body: Bytes, base: int, n: Member, e: Edit) {
    var replacement := json.effort(Slice(body, base + n.start, base + n.end));
    replacement.Some? && e == Edit(base + n.start, base + n.end, replacement.value)
  }

  predicate NestedEffortEdit(json: Json, body: Bytes, base: int, nested: seq<Member>, e: Edit) {
    exists k :: 0 <= k < |nested| && nested[k].name == "effort" && MapsEffort(json, body, base, nested[k], e)
  }

  predicate MemberEffortEdit(json: Json, body: Bytes, m: Member, e: Edit) {
    if m.name == "reasoning_effort" then MapsEffort(json, body, 0, m, e)
    else if m.name == "reasoning" || m.name == "output_config" then
      var nested := json.members(Slice(body, m.start, m.end));
      nested.Some? && NestedEffortEdit(json, body, m.start, nested.value.members, e)
    else false
  }

  predicate IsEffortEdit(json: Json, body: Bytes, members: seq<Member>, e: Edit) {
    exists i :: 0 <= i < |members| && MemberEffortEdit(json, body, members[i], e)
  }

  predicate MemberModelEdit(json: Json, body: Bytes, forwardModel: string, m: Member, e: Edit) {
    var current := json.text(Slice(body, m.start, m.end));
    && m.name == "model" && current.Some? && current.value != forwardModel
    && e == Edit(m.start, m.end, json.encode(forwardModel))
  }

  predicate IsModelEdit(json: Json, body: Bytes, forwardModel: string, members: seq<Member>, e: Edit) {
    exists i :: 0 <= i < |members| && MemberModelEdit(json, body, forwardModel, members[i], e)
  }

  /** A nested option that is not true, and the edit makes it so. */
  predicate NestedUsageEdit(value: Bytes, base: int, nested: seq<Member>, e: Edit) {
    exists k :: 0 <= k < |nested| && nested[k].name == "include_usage" &&
                Slice(value, nested[k].start, nested[k].end) != TRUE &&
                e == Edit(base + nested[k].start, base + nested[k].end, TRUE)
  }

  /** The edit puts one more member after the last, or into an empty object. */
  predicate AddsMember(base: int, o: Object, text: Bytes, e: Edit) {
    && e.start == e.end
    && if |o.members| == 0 then e.start == base + o.closing && e.text == text
       else e.start == base + o.members[|o.members| - 1].end && e.text == [COMMA] + text
  }

  lemma InsertAdds(base: int, o: Object, text: Bytes, e: Edit)
    ensures e == InsertMember(base, o, text) <==> AddsMember(base, o, text, e)
  {
  }

  predicate MemberUsageEdit(json: Json, literals: Literals, body: Bytes, m: Member, e: Edit) {
    var value := Slice(body, m.start, m.end);
    m.name == "stream_options" &&
    match json.members(value)
    case None => e == Edit(m.start, m.end, literals.options)
    case Some(nested) =>
      || NestedUsageEdit(value, m.start, nested.members, e)
      || (!Has(nested.members, "include_usage") && AddsMember(m.start, nested, literals.includeUsage, e))
  }

  predicate IsUsageEdit(json: Json, literals: Literals, body: Bytes, o: Object, e: Edit) {
    || (exists i :: 0 <= i < |o.members| && MemberUsageEdit(json, literals, body, o.members[i], e))
    || (!Has(o.members, "stream_options") && AddsMember(0, o, literals.streamOptions, e))
  }

  /** Gathering collects what some member calls for, and nothing else. */
  lemma GatheredAre(members: seq<Member>, f: Member -> seq<Edit>, p: (Member, Edit) -> bool)
    requires forall i, e :: 0 <= i < |members| ==> (e in f(members[i]) <==> p(members[i], e))
    ensures forall e :: e in Gathered(members, f) <==> exists i :: 0 <= i < |members| && p(members[i], e)
  {
    GatheredBelongs(members, f);
    forall e
      ensures Belongs(members, f, e) <==> exists i :: 0 <= i < |members| && p(members[i], e)
    {
      if Belongs(members, f, e) {
        var i :| 0 <= i < |members| && e in f(members[i]);
        assert p(members[i], e);
      }
      if i :| 0 <= i < |members| && p(members[i], e) {
        assert e in f(members[i]);
      }
    }
  }

  lemma EffortEditsAre(json: Json, body: Bytes, members: seq<Member>)
    ensures forall e :: e in Gathered(members, m => EffortOf(json, body, m)) <==> IsEffortEdit(json, body, members, e)
  {
    hide Gathered, EffortOf, MemberEffortEdit;
    forall i, e | 0 <= i < |members|
      ensures e in EffortOf(json, body, members[i]) <==> MemberEffortEdit(json, body, members[i], e)
    {
      MemberEffortsAre(json, body, members[i], e);
    }
    GatheredAre(members, m => EffortOf(json, body, m), (m, e) => MemberEffortEdit(json, body, m, e));
  }

  lemma MemberEffortsAre(json: Json, body: Bytes, m: Member, e: Edit)
    ensures e in EffortOf(json, body, m) <==> MemberEffortEdit(json, body, m, e)
  {
    hide Gathered, Slice;
    var nested := json.members(Slice(body, m.start, m.end));
    if nested.Some? {
      NestedEffortsAre(json, body, m.start, nested.value.members);
    }
  }

  lemma NestedEffortsAre(json: Json, body: Bytes, base: int, nested: seq<Member>)
    ensures forall e :: e in Gathered(nested, n => ShiftedEffort(json, body, base, n)) <==>
              NestedEffortEdit(json, body, base, nested, e)
  {
    hide Gathered, Slice;
    GatheredAre(nested, n => ShiftedEffort(json, body, base, n), (n: Member, e: Edit) => n.name == "effort" &&
      MapsEffort(json, body, base, n, e));
  }

  lemma ModelEditsAre(json: Json, body: Bytes, forwardModel: string, members: seq<Member>)
    ensures forall e :: e in Gathered(members, m => ModelOf(json, body, forwardModel, m)) <==>
              IsModelEdit(json, body, forwardModel, members, e)
  {
    hide Gathered, Slice;
    GatheredAre(members, m => ModelOf(json, body, forwardModel, m),
      (m, e) => MemberModelEdit(json, body, forwardModel, m, e));
  }

  lemma UsageEditsAre(json: Json, literals: Literals, body: Bytes, o: Object)
    ensures forall e :: e in UsageEditsOf(json, literals, body, o) <==> IsUsageEdit(json, literals, body, o, e)
  {
    hide Gathered, UsageOf, MemberUsageEdit, InsertMember, AddsMember;
    forall e
      ensures e == InsertMember(0, o, literals.streamOptions) <==> AddsMember(0, o, literals.streamOptions, e)
    {
      InsertAdds(0, o, literals.streamOptions, e);
    }
    forall i, e | 0 <= i < |o.members|
      ensures e in UsageOf(json, literals, body, o.members[i]) <==>
                MemberUsageEdit(json, literals, body, o.members[i], e)
    {
      MemberUsagesAre(json, literals, body, o.members[i], e);
    }
    GatheredAre(o.members, m => UsageOf(json, literals, body, m),
      (m, e) => MemberUsageEdit(json, literals, body, m, e));
    if !Has(o.members, "stream_options") {
      forall i, e | 0 <= i < |o.members|
        ensures !MemberUsageEdit(json, literals, body, o.members[i], e)
      {
        NamedOptions(json, literals, body, o.members[i], e);
      }
    }
  }

  lemma NamedOptions(json: Json, literals: Literals, body: Bytes, m: Member, e: Edit)
    ensures MemberUsageEdit(json, literals, body, m, e) ==> m.name == "stream_options"
  {
  }

  lemma MemberUsagesAre(json: Json, literals: Literals, body: Bytes, m: Member, e: Edit)
    ensures e in UsageOf(json, literals, body, m) <==> MemberUsageEdit(json, literals, body, m, e)
  {
    hide Gathered, Slice, InsertMember, AddsMember, NestedUsageEdit, ShiftedUsage, Has;
    var value := Slice(body, m.start, m.end);
    var nested := json.members(value);
    if nested.Some? {
      InsertAdds(m.start, nested.value, literals.includeUsage, e);
      NestedUsagesAre(value, m.start, nested.value.members);
      NoneNamed(value, m.start, nested.value.members, e);
    }
  }

  lemma NestedUsagesAre(value: Bytes, base: int, nested: seq<Member>)
    ensures forall e :: e in Gathered(nested, n => ShiftedUsage(value, base, n)) <==>
              NestedUsageEdit(value, base, nested, e)
  {
    hide Gathered, Slice;
    GatheredAre(nested, n => ShiftedUsage(value, base, n),
      (n: Member, e: Edit) => n.name == "include_usage" && Slice(value, n.start, n.end) != TRUE &&
        e == Edit(base + n.start, base + n.end, TRUE));
  }

  lemma NoneNamed(value: Bytes, base: int, nested: seq<Member>, e: Edit)
    ensures NestedUsageEdit(value, base, nested, e) ==> Has(nested, "include_usage")
  {
    hide Slice;
  }

  // The rewrites

  lemma GatheredNext(members: seq<Member>, f: Member -> seq<Edit>, i: nat)
    requires i < |members|
    ensures Gathered(members[..i + 1], f) == Gathered(members[..i], f) + f(members[i])
  {
    assert members[..i + 1][..i] == members[..i];
  }

  lemma GatheredNone(f: Member -> seq<Edit>)
    ensures Gathered([], f) == []
  {
  }

  method EffortEdits(json: Json, body: Bytes, members: seq<Member>) returns (edits: seq<Edit>)
    ensures edits == Gathered(members, m => EffortOf(json, body, m))
    ensures forall e :: e in edits <==> IsEffortEdit(json, body, members, e)
  {
    EffortEditsAre(json, body, members);
    ghost var f := m => EffortOf(json, body, m);
    GatheredNone(f);
    assert members[..0] == [];
    hide Gathered;
    edits := [];
    for i := 0 to |members|
      invariant edits == Gathered(members[..i], f)
    {
      var m := members[i];
      GatheredNext(members, f, i);
      if m.name == "reasoning_effort" {
        var replacement := json.effort(Slice(body, m.start, m.end));
        if replacement.Some? {
          edits := edits + [Edit(m.start, m.end, replacement.value)];
        }
      } else if m.name == "reasoning" || m.name == "output_config" {
        var nested := json.members(Slice(body, m.start, m.end));
        if nested.None? {
          continue;
        }
        var more := NestedEfforts(json, body, m.start, nested.value.members);
        edits := edits + more;
      }
    }
    assert members[..|members|] == members;
  }

  method NestedEfforts(json: Json, body: Bytes, base: int, nested: seq<Member>) returns (edits: seq<Edit>)
    ensures edits == Gathered(nested, n => ShiftedEffort(json, body, base, n))
  {
    ghost var f := n => ShiftedEffort(json, body, base, n);
    GatheredNone(f);
    assert nested[..0] == [];
    hide Gathered, ShiftedEffort;
    edits := [];
    for k := 0 to |nested|
      invariant edits == Gathered(nested[..k], f)
    {
      GatheredNext(nested, f, k);
      var more := NestedEffort(json, body, base, nested[k]);
      edits := edits + more;
    }
    assert nested[..|nested|] == nested;
  }

  method NestedEffort(json: Json, body: Bytes, base: int, n: Member) returns (edits: seq<Edit>)
    ensures edits == ShiftedEffort(json, body, base, n)
  {
    if n.name != "effort" {
      return [];
    }
    var start, end := base + n.start, base + n.end;
    var replacement := json.effort(Slice(body, start, end));
    return if replacement.Some? then [Edit(start, end, replacement.value)] else [];
  }

  method ModelEdits(json: Json, body: Bytes, members: seq<Member>, forwardModel: string) returns (edits: seq<Edit>)
    ensures edits == Gathered(members, m => ModelOf(json, body, forwardModel, m))
    ensures forall e :: e in edits <==> IsModelEdit(json, body, forwardModel, members, e)
  {
    ModelEditsAre(json, body, forwardModel, members);
    ghost var f := m => ModelOf(json, body, forwardModel, m);
    GatheredNone(f);
    assert members[..0] == [];
    hide Gathered;
    var encoded := json.encode(forwardModel);
    edits := [];
    for i := 0 to |members|
      invariant edits == Gathered(members[..i], f)
    {
      var m := members[i];
      GatheredNext(members, f, i);
      if m.name != "model" {
        continue;
      }
      var current := json.text(Slice(body, m.start, m.end));
      if current.None? || current.value == forwardModel {
        continue;
      }
      edits := edits + [Edit(m.start, m.end, encoded)];
    }
    assert members[..|members|] == members;
  }

  method NestedUsage(value: Bytes, base: int, nested: seq<Member>) returns (edits: seq<Edit>, asked: bool)
    ensures edits == Gathered(nested, n => ShiftedUsage(value, base, n))
    ensures asked <==> Has(nested, "include_usage")
  {
    ghost var f := n => ShiftedUsage(value, base, n);
    GatheredNone(f);
    assert nested[..0] == [];
    hide Gathered, Slice, Has;
    edits, asked := [], false;
    HasNone("include_usage");
    for k := 0 to |nested|
      invariant edits == Gathered(nested[..k], f)
      invariant asked == Has(nested[..k], "include_usage")
    {
      var n := nested[k];
      GatheredNext(nested, f, k);
      HasNext(nested, "include_usage", k);
      var more: seq<Edit> := [];
      if n.name == "include_usage" {
        asked := true;
        if Slice(value, n.start, n.end) != TRUE {
          more := [Edit(base + n.start, base + n.end, TRUE)];
        }
      }
      assert more == f(n);
      edits := edits + more;
    }
    assert nested[..|nested|] == nested;
  }

  lemma HasNext(members: seq<Member>, name: string, i: nat)
    requires i < |members|
    ensures Has(members[..i + 1], name) <==> Has(members[..i], name) || members[i].name == name
  {
  }

  lemma HasNone(name: string)
    ensures !Has([], name)
  {
  }

  method OptionsUsage(json: Json, literals: Literals, body: Bytes, m: Member) returns (edits: seq<Edit>)
    requires m.name == "stream_options"
    ensures edits == UsageOf(json, literals, body, m)
  {
    var value := Slice(body, m.start, m.end);
    var nested := json.members(value);
    if nested.None? {
      return [Edit(m.start, m.end, literals.options)];
    }
    var asked;
    edits, asked := NestedUsage(value, m.start, nested.value.members);
    if !asked {
      edits := [InsertMember(m.start, nested.value, literals.includeUsage)];
    }
  }

  method UsageEdits(json: Json, literals: Literals, body: Bytes, o: Object) returns (edits: seq<Edit>)
    ensures edits == UsageEditsOf(json, literals, body, o)
    ensures forall e :: e in edits <==> IsUsageEdit(json, literals, body, o, e)
  {
    UsageEditsAre(json, literals, body, o);
    var found;
    edits, found := OptionsEdits(json, literals, body, o.members);
    if !found {
      edits := [InsertMember(0, o, literals.streamOptions)];
    }
  }

  method OptionsEdits(json: Json, literals: Literals, body: Bytes, members: seq<Member>)
    returns (edits: seq<Edit>, found: bool)
    ensures edits == Gathered(members, m => UsageOf(json, literals, body, m))
    ensures found <==> Has(members, "stream_options")
  {
    ghost var f := m => UsageOf(json, literals, body, m);
    GatheredNone(f);
    assert members[..0] == [];
    hide Gathered, UsageOf, Has;
    HasNone("stream_options");
    edits, found := [], false;
    for i := 0 to |members|
      invariant edits == Gathered(members[..i], f)
      invariant found == Has(members[..i], "stream_options")
    {
      var m := members[i];
      GatheredNext(members, f, i);
      HasNext(members, "stream_options", i);
      UsageNamed(json, literals, body, m);
      var more: seq<Edit> := [];
      if m.name == "stream_options" {
        found := true;
        more := OptionsUsage(json, literals, body, m);
      }
      assert more == f(m);
      edits := edits + more;
    }
    assert members[..|members|] == members;
  }

  method RequestsStreaming(body: Bytes, members: seq<Member>) returns (stream: bool)
    ensures stream <==> exists i :: 0 <= i < |members| && members[i].name == "stream" &&
                                    Slice(body, members[i].start, members[i].end) == TRUE &&
                                    forall j :: i < j < |members| ==> members[j].name != "stream"
  {
    stream := false;
    for i := 0 to |members|
      invariant stream <==> AsksForStream(body, members[..i])
    {
      AsksNext(body, members, i);
      if members[i].name == "stream" {
        stream := Slice(body, members[i].start, members[i].end) == TRUE;
      }
    }
    assert members[..|members|] == members;
    assert AsksForStream(body, members) == stream;
  }

  lemma AsksNext(body: Bytes, members: seq<Member>, i: nat)
    requires i < |members|
    ensures AsksForStream(body, members[..i + 1]) <==>
            if members[i].name == "stream" then Slice(body, members[i].start, members[i].end) == TRUE
            else AsksForStream(body, members[..i])
  {
    hide Slice;
    var before, after := members[..i], members[..i + 1];
    if members[i].name == "stream" {
      assert after[i] == members[i];
    } else {
      if AsksForStream(body, before) {
        var k :| 0 <= k < |before| && before[k].name == "stream" &&
          Slice(body, before[k].start, before[k].end) == TRUE && forall j :: k < j < i ==> before[j].name != "stream";
        assert after[k] == before[k];
      }
      if AsksForStream(body, after) {
        var k :| 0 <= k < |after| && after[k].name == "stream" &&
          Slice(body, after[k].start, after[k].end) == TRUE && forall j :: k < j <= i ==> after[j].name != "stream";
        assert before[k] == after[k];
      }
    }
  }

  /** What the rewrites are to change: every effort the channel maps, every model but the one
      forwarded, and what keeps a chat completion that asks for a stream from asking for usage. */
  predicate IsEdit(json: Json, literals: Literals, body: Bytes, o: Object, forwardModel: Option<string>, chat: bool,
                   e: Edit) {
    || IsEffortEdit(json, body, o.members, e)
    || (forwardModel.Some? && IsModelEdit(json, body, forwardModel.value, o.members, e))
    || (chat && AsksForStream(body, o.members) && IsUsageEdit(json, literals, body, o, e))
  }

  /** Rewrites a body for its upstream: exactly the ranges the edits name are replaced, and every
      other byte is as the caller sent it. A body that is not one object goes as it is. */
  method PrepareUpstreamBody(json: Json, literals: Literals, body: Bytes, forwardModel: Option<string>, chat: bool)
    returns (out: Bytes, ghost edits: seq<Edit>)
    ensures json.members(body).None? ==> out == body
    ensures json.members(body).Some? ==>
              && out == Edited(body, edits) && |out| == |body| + Growth(edits)
              && AllApart(edits) && DistinctStarts(edits) && AllInBody(edits, |body|)
    ensures json.members(body).Some? ==>
              forall e :: e in edits <==> IsEdit(json, literals, body, json.members(body).value, forwardModel, chat, e)
  {
    hide Gathered, UsageEditsOf, Edited, Growth, AllApart, AllInBody, DistinctStarts, IsEffortEdit, IsModelEdit,
      IsUsageEdit;
    edits := [];
    var o := json.members(body);
    if o.None? {
      return body, [];
    }
    var found := EffortEdits(json, body, o.value.members);
    if forwardModel.Some? {
      var more := ModelEdits(json, body, o.value.members, forwardModel.value);
      found := found + more;
    }
    if chat {
      var streaming := RequestsStreaming(body, o.value.members);
      if streaming {
        var more := UsageEdits(json, literals, body, o.value);
        found := found + more;
      }
    }
    assert found == AllEdits(json, literals, body, o.value, forwardModel, chat);
    EditsAreApart(json, literals, body, o.value, forwardModel, chat);
    var applied := ApplyEdits(body, found);
    return applied.value, found;
  }
}
