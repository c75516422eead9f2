/**
 * What each category of the census means, told from the requests themselves: which messages, and which values of an
 * assistant message, are booked under which name (evals/serializer_census.py).
 */
module Attribution {
  import opened Text
  import opened Json
  import opened Census
  import opened CensusSummary
  import Headers

  /** The categories, beside the regions of the seed. */
  datatype Category =
    | ListFrame | Schemas | System | Content | ToolCalls | Reasoning | Envelope | ToolResult | OtherUser | OtherMessage

  function Label(c: Category): string {
    match c
    case ListFrame => "msg_list_overhead"
    case Schemas => "schemas"
    case System => "system"
    case Content => "assistant_content"
    case ToolCalls => "assistant_tool_calls"
    case Reasoning => "assistant_reasoning"
    case Envelope => "assistant_json_envelope"
    case ToolResult => "tool_result"
    case OtherUser => "other_user"
    case OtherMessage => "other_message"
  }

  /** The categories of the rollup. */
  datatype Group = SchemasGroup | SystemGroup | Seed | ProseGroup | CallEnvelope | ToolResults | OtherUsers | Structural

  function GroupLabel(g: Group): string {
    match g
    case SchemasGroup => "schemas"
    case SystemGroup => "system"
    case Seed => "seed"
    case ProseGroup => "assistant_prose"
    case CallEnvelope => "assistant_tool_call_envelope"
    case ToolResults => "tool_results"
    case OtherUsers => "other_user"
    case Structural => "structural"
  }

  function Plus(a: Extent, b: Extent): Extent {
    Extent(a.chars + b.chars, a.bytes + b.bytes)
  }

  function Less(a: Extent, b: Extent): Extent {
    Extent(a.chars - b.chars, a.bytes - b.bytes)
  }

  const NIL: Extent := Extent(0, 0)

  function If(holds: bool, e: Extent): Extent {
    if holds then e else NIL
  }

  datatype Role = SystemRole | User | Assistant | Tool

  function RoleName(r: Role): string {
    match r
    case SystemRole => "system"
    case User => "user"
    case Assistant => "assistant"
    case Tool => "tool"
  }

  predicate HasRole(m: Value, r: Role) {
    m.Obj? && Get(m.fields, "role") == Found(Str(RoleName(r)))
  }

  predicate IsSystem(i: nat, m: Value) {
    i == 0 && HasRole(m, SystemRole)
  }

  /** The second message of a request carries the seed. */
  predicate IsSeed(i: nat, m: Value) {
    i == 1 && HasRole(m, User)
  }

  predicate IsOtherUser(i: nat, m: Value) {
    i != 1 && HasRole(m, User)
  }

  predicate IsOther(i: nat, m: Value) {
    && (i != 0 || !HasRole(m, SystemRole))
    && !HasRole(m, Assistant) && !HasRole(m, Tool) && !HasRole(m, User)
  }

  lemma {:induction false} PlusNil(a: Extent)
    ensures Plus(a, NIL) == a == Plus(NIL, a) && If(true, a) == a && If(false, a) == NIL
  {
  }

  /** The whole message, if the condition holds. */
  function Whole(m: Value, holds: bool): Extent {
    If(holds, ExtentOf(Dumps(m)))
  }

  /** The value that an assistant message has under the key. */
  function Claimed(m: Value, key: string): Extent {
    if HasRole(m, Assistant) && Get(m.fields, key).Found? then ExtentOf(Dumps(Get(m.fields, key).value)) else NIL
  }

  function Prose(m: Value): Extent {
    Claimed(m, "content")
  }

  function Calls(m: Value): Extent {
    Claimed(m, "tool_calls")
  }

  function Thoughts(m: Value): Extent {
    Claimed(m, "reasoning_content")
  }

  /** What is left of an assistant message beside its three values. */
  function Rest(m: Value): Extent {
    Less(Less(Less(Whole(m, HasRole(m, Assistant)), Prose(m)), Calls(m)),
         Thoughts(m))
  }

  /** Which kind of message makes up a category. */
  predicate Makes(c: Category, i: nat, m: Value) {
    match c
    case System => IsSystem(i, m)
    case ToolResult => HasRole(m, Tool)
    case OtherUser => IsOtherUser(i, m)
    case OtherMessage => IsOther(i, m)
    case _ => false
  }

  /** What message i of a request contributes to a category. */
  function Share(c: Category, i: nat, m: Value): Extent {
    match c
    case Content => Prose(m)
    case ToolCalls => Calls(m)
    case Reasoning => Thoughts(m)
    case Envelope => Rest(m)
    case _ => Whole(m, Makes(c, i, m))
  }

  /** Which kind of message makes up a group. */
  predicate MakesGroup(g: Group, i: nat, m: Value) {
    match g
    case SystemGroup => IsSystem(i, m)
    case Seed => IsSeed(i, m)
    case ToolResults => HasRole(m, Tool)
    case OtherUsers => IsOtherUser(i, m)
    case Structural => IsOther(i, m)
    case _ => false
  }

  /** The same for the rollup: of an assistant message, all but the content is envelope. */
  function GroupShare(g: Group, i: nat, m: Value): Extent {
    match g
    case ProseGroup => Prose(m)
    case CallEnvelope => Less(Whole(m, HasRole(m, Assistant)), Prose(m))
    case _ => Whole(m, MakesGroup(g, i, m))
  }

  // ----- what is booked under a key -----

  function Same(cat: string): string {
    cat
  }

  /** The extent of the parts whose category is grouped under a key. */
  function Booked(parts: seq<Part>, group: string -> string, key: string): Extent {
    if parts == [] then NIL
    else
      var last := parts[|parts| - 1];
      Plus(Booked(parts[..|parts| - 1], group, key), If(group(last.cat) == key, Extent(last.chars, last.bytes)))
  }

  lemma {:induction false} BookedConcat(xs: seq<Part>, ys: seq<Part>, group: string -> string, key: string)
    ensures Booked(xs + ys, group, key) == Plus(Booked(xs, group, key), Booked(ys, group, key))
  {
    if ys == [] {
      assert xs + ys == xs;
    } else {
      assert (xs + ys)[..|xs + ys| - 1] == xs + ys[..|ys| - 1];
      BookedConcat(xs, ys[..|ys| - 1], group, key);
    }
  }

  lemma {:induction false} BookedOne(p: Part, group: string -> string, key: string)
    ensures Booked([p], group, key) == If(group(p.cat) == key, Extent(p.chars, p.bytes))
  {
    assert [p][..0] == [];
    assert Booked([], group, key) == NIL;
  }

  lemma {:induction false} BookedUniform(parts: seq<Part>, group: string -> string, key: string, holds: bool)
    requires forall p :: p in parts ==> (group(p.cat) == key) == holds
    ensures Booked(parts, group, key) == If(holds, Extent(Chars(parts), Bytes(parts)))
  {
    if parts != [] {
      var init, last := parts[..|parts| - 1], parts[|parts| - 1];
      assert parts == init + [last];
      BookedUniform(init, group, key, holds);
      ExtentsConcat(init, [last]);
    }
  }

  /** A table holds what is booked under each of its keys. */
  lemma {:induction false} TableIsBooked(parts: seq<Part>, f: Part -> (string, int), group: string -> string, key: string)
    requires forall p :: f(p).0 == group(p.cat)
    ensures (forall p :: f(p).1 == p.chars) ==> At(Table(parts, f), key) == Booked(parts, group, key).chars
    ensures (forall p :: f(p).1 == p.bytes) ==> At(Table(parts, f), key) == Booked(parts, group, key).bytes
  {
    hide Table, Under;
    TableAt(parts, f, key);
    UnderIsBooked(parts, f, group, key);
    if key !in Table(parts, f) {
      BookedUniform(parts, group, key, false);
    }
  }

  /** The table's entry, or 0. */
  function At(table: map<string, int>, key: string): int {
    if key in table then table[key] else 0
  }

  lemma {:induction false} UnderIsBooked(parts: seq<Part>, f: Part -> (string, int), group: string -> string, key: string)
    requires forall p :: f(p).0 == group(p.cat)
    ensures Chars(Under(parts, f, key)) == Booked(parts, group, key).chars
    ensures Bytes(Under(parts, f, key)) == Booked(parts, group, key).bytes
  {
    if parts != [] {
      var init, last := parts[..|parts| - 1], parts[|parts| - 1];
      UnderIsBooked(init, f, group, key);
      hide Booked, Under;
      BookedStep(parts, group, key);
      UnderStep(parts, f, key);
    }
  }

  lemma {:induction false} BookedStep(parts: seq<Part>, group: string -> string, key: string)
    requires parts != []
    ensures var last := parts[|parts| - 1];
      Booked(parts, group, key)
        == Plus(Booked(parts[..|parts| - 1], group, key), If(group(last.cat) == key, Extent(last.chars, last.bytes)))
  {
  }

  lemma {:induction false} UnderStep(parts: seq<Part>, f: Part -> (string, int), key: string)
    requires parts != []
    ensures var init, last := parts[..|parts| - 1], parts[|parts| - 1];
      && Chars(Under(parts, f, key)) == Chars(Under(init, f, key)) + (if f(last).0 == key then last.chars else 0)
      && Bytes(Under(parts, f, key)) == Bytes(Under(init, f, key)) + (if f(last).0 == key then last.bytes else 0)
  {
    var init, last := parts[..|parts| - 1], parts[|parts| - 1];
    ExtentsConcat(Under(init, f, key), [last]);
    ExtentsOfOne([last]);
    assert Under(init, f, key) + [] == Under(init, f, key);
  }

  // ----- one message -----

  lemma {:induction false} RoleMeans(m: Value, r: Role)
    ensures RoleOf(m) == RoleName(r) <==> HasRole(m, r)
  {
    assert RoleName(r) != "";
  }

  lemma {:induction false} OneRole(m: Value, r: Role, q: Role)
    requires HasRole(m, r) && HasRole(m, q)
    ensures r == q
  {
    RoleNameHead(r);
    RoleNameHead(q);
    hide RoleName;
  }

  lemma {:induction false} RoleNameHead(r: Role)
    ensures RoleName(r) != ""
    ensures RoleName(r)[0] == match r case SystemRole => 's' case User => 'u' case Assistant => 'a' case Tool => 't'
  {
  }

  /** The four roles exclude each other. */
  lemma {:induction false} Roles(m: Value)
    ensures HasRole(m, SystemRole) ==> !HasRole(m, User) && !HasRole(m, Assistant) && !HasRole(m, Tool)
    ensures HasRole(m, User) ==> !HasRole(m, Assistant) && !HasRole(m, Tool)
    ensures HasRole(m, Assistant) ==> !HasRole(m, Tool)
  {
    hide HasRole;
    forall r, q | HasRole(m, r) && HasRole(m, q)
      ensures r == q
    {
      OneRole(m, r, q);
    }
  }

  /** What the census reads off a message as its role. */
  lemma {:induction false} RolesMean(m: Value)
    ensures RoleOf(m) == "system" <==> HasRole(m, SystemRole)
    ensures RoleOf(m) == "user" <==> HasRole(m, User)
    ensures RoleOf(m) == "assistant" <==> HasRole(m, Assistant)
    ensures RoleOf(m) == "tool" <==> HasRole(m, Tool)
  {
    RoleMeans(m, SystemRole);
    RoleMeans(m, User);
    RoleMeans(m, Assistant);
    RoleMeans(m, Tool);
    hide RoleOf, HasRole;
  }

  /** The parts of an assistant message, by name. */
  lemma {:induction false} AssistantPartsAre(i: nat, m: Value)
    requires HasRole(m, Assistant)
    ensures var vals := ValsOf(m);
      MsgParts(i, MsgOf(m)) ==
        ClaimPart(vals, "content", "assistant_content") + (ClaimPart(vals, "tool_calls", "assistant_tool_calls")
        + (ClaimPart(vals, "reasoning_content", "assistant_reasoning")
        + [Part("assistant_json_envelope", Residual(MsgOf(m)).chars, Residual(MsgOf(m)).bytes)]))
  {
    hide ClaimPart, ValsOf, Residual, Dumps;
    Roles(m);
    RolesMean(m);
    ThreeClaimParts(ValsOf(m));
  }

  lemma {:induction false} ThreeClaimParts(vals: map<string, Extent>)
    ensures ClaimParts(vals, CLAIM_KEYS) ==
      ClaimPart(vals, "content", "assistant_content") + (ClaimPart(vals, "tool_calls", "assistant_tool_calls")
      + ClaimPart(vals, "reasoning_content", "assistant_reasoning"))
  {
    hide ClaimPart;
    var two, one := CLAIM_KEYS[1..], CLAIM_KEYS[2..];
    assert two[1..] == one && one[1..] == [];
    assert ClaimParts(vals, one) == ClaimPart(vals, "reasoning_content", "assistant_reasoning") + [];
    assert ClaimParts(vals, two) == ClaimPart(vals, "tool_calls", "assistant_tool_calls") + ClaimParts(vals, one);
  }

  lemma {:induction false} ClaimBooked(m: Value, key: string, cat: string, group: string -> string, k: string)
    requires HasRole(m, Assistant) && key in {"content", "tool_calls", "reasoning_content"}
    ensures Booked(ClaimPart(ValsOf(m), key, cat), group, k) == If(group(cat) == k, Claimed(m, key))
  {
    hide Dumps;
    RolesMean(m);
    if key in ValsOf(m) {
      BookedOne(Part(cat, ValsOf(m)[key].chars, ValsOf(m)[key].bytes), group, k);
    }
  }

  /** What is left over, from the values. */
  lemma {:induction false} ResidualIsEnvelope(m: Value)
    requires HasRole(m, Assistant)
    ensures Residual(MsgOf(m)) == Rest(m)
  {
    hide Dumps, ValsOf, Utf8Len;
    RolesMean(m);
    ThreeClaims(m);
    assert m.Obj?;
  }

  lemma AssistantLabels()
    ensures Label(Content) == "assistant_content" && Label(ToolCalls) == "assistant_tool_calls"
    ensures Label(Reasoning) == "assistant_reasoning" && Label(Envelope) == "assistant_json_envelope"
  {
  }

  lemma {:induction false} AssistantBooked(i: nat, m: Value, group: string -> string, k: string)
    requires HasRole(m, Assistant)
    ensures Booked(MsgParts(i, MsgOf(m)), group, k) ==
      Plus(If(group(Label(Content)) == k, Prose(m)),
      Plus(If(group(Label(ToolCalls)) == k, Calls(m)),
      Plus(If(group(Label(Reasoning)) == k, Thoughts(m)),
      If(group(Label(Envelope)) == k, Rest(m)))))
  {
    hide Booked, ClaimPart, ValsOf, Residual, MsgParts, MsgOf, Claimed, Rest, Plus, If, Label;
    AssistantLabels();
    var vals, rest := ValsOf(m), Part("assistant_json_envelope", Residual(MsgOf(m)).chars, Residual(MsgOf(m)).bytes);
    var a, b, c := ClaimPart(vals, "content", "assistant_content"), ClaimPart(vals, "tool_calls", "assistant_tool_calls"),
      ClaimPart(vals, "reasoning_content", "assistant_reasoning");
    AssistantPartsAre(i, m);
    BookedConcat(a, b + (c + [rest]), group, k);
    BookedConcat(b, c + [rest], group, k);
    BookedConcat(c, [rest], group, k);
    ClaimBooked(m, "content", "assistant_content", group, k);
    ClaimBooked(m, "tool_calls", "assistant_tool_calls", group, k);
    ClaimBooked(m, "reasoning_content", "assistant_reasoning", group, k);
    BookedOne(rest, group, k);
    ResidualIsEnvelope(m);
  }

  /** The seed's parts all carry the prefix "seed:". */
  lemma {:induction false} SeedCategories(ser: string)
    ensures forall p :: p in SeedPartsOf(ser) ==> StartsWith(p.cat, "seed:")
  {
    hide RegionName, Find, ScanEnd, SeedHeaders, RegionParts, Utf8Len;
    RegionCategories(ser, SeedHeaders(ser), ScanEnd(ser));
  }

  lemma {:induction false} RegionCategories(ser: string, hdrs: seq<nat>, end: nat)
    requires Headers.Ordered(hdrs, end) && end <= |ser|
    ensures forall p :: p in RegionParts(ser, hdrs, end) ==> StartsWith(p.cat, "seed:")
  {
    hide RegionName, Utf8Len;
    if hdrs != [] {
      RegionCategories(ser, hdrs[1..], end);
    }
  }

  /** The category of a message that is booked as a whole. */
  function CategoryOf(i: nat, m: Value): Category {
    if IsSystem(i, m) then System else if HasRole(m, Tool) then ToolResult
    else if IsOtherUser(i, m) then OtherUser else OtherMessage
  }

  /** The parts of the messages that are not the assistant's. */
  lemma {:induction false} OtherParts(i: nat, m: Value)
    requires !HasRole(m, Assistant)
    ensures MsgParts(i, MsgOf(m)) ==
      if IsSeed(i, m) then SeedPartsOf(Dumps(m)) else [PartOf(Label(CategoryOf(i, m)), Dumps(m))]
  {
    Roles(m);
    RolesMean(m);
    hide RoleOf, HasRole, SeedPartsOf, Dumps, Utf8Len;
  }

  lemma {:induction false} OthersBooked(i: nat, m: Value, group: string -> string, k: string, seed: bool)
    requires !HasRole(m, Assistant)
    requires forall cat :: StartsWith(cat, "seed:") ==> (group(cat) == k) == seed
    ensures Booked(MsgParts(i, MsgOf(m)), group, k)
         == If(if IsSeed(i, m) then seed else group(Label(CategoryOf(i, m))) == k, ExtentOf(Dumps(m)))
  {
    OtherParts(i, m);
    hide Booked, StartsWith, MsgParts, MsgOf, HasRole, CategoryOf, Label, SeedPartsOf, Utf8Len, Dumps;
    if IsSeed(i, m) {
      SeedCategories(Dumps(m));
      BookedUniform(SeedPartsOf(Dumps(m)), group, k, seed);
      SeedPartsCover(Dumps(m));
    } else {
      BookedOne(MsgParts(i, MsgOf(m))[0], group, k);
    }
  }

  lemma {:induction false} NoClaims(m: Value)
    requires !HasRole(m, Assistant)
    ensures Prose(m) == Calls(m) == Thoughts(m) == Rest(m) == NIL
  {
  }

  /** A message that is not the assistant's is of exactly one of the other kinds. */
  lemma {:induction false} OtherKinds(i: nat, m: Value)
    requires !HasRole(m, Assistant)
    ensures IsSystem(i, m) ==> !IsSeed(i, m) && !HasRole(m, Tool) && !IsOtherUser(i, m) && !IsOther(i, m)
    ensures IsSeed(i, m) ==> !HasRole(m, Tool) && !IsOtherUser(i, m) && !IsOther(i, m)
    ensures HasRole(m, Tool) ==> !IsOtherUser(i, m) && !IsOther(i, m)
    ensures IsOther(i, m) <==> !IsSystem(i, m) && !IsSeed(i, m) && !HasRole(m, Tool) && !IsOtherUser(i, m)
  {
    Roles(m);
    hide HasRole;
  }

  lemma {:induction false} AssistantOnly(i: nat, m: Value)
    requires HasRole(m, Assistant)
    ensures !IsSystem(i, m) && !IsSeed(i, m) && !IsOtherUser(i, m) && !IsOther(i, m) && !HasRole(m, Tool)
  {
    Roles(m);
    hide HasRole;
  }

  // ----- labels -----

  /** The labels are different, and none is a region of the seed. */
  lemma {:induction false} LabelsDiffer(c: Category, d: Category)
    ensures Label(c) == Label(d) <==> c == d
    ensures !StartsWith(Label(c), "seed:")
  {
    LabelLength(c);
    LabelLength(d);
    hide Label;
    assert "seed:"[0] == 's' && "seed:"[1] == 'e';
  }

  lemma {:induction false} LabelLength(c: Category)
    ensures |Label(c)| == match c
      case ListFrame => 17 case Schemas => 7 case System => 6 case Content => 17 case ToolCalls => 20 case Reasoning => 19
      case Envelope => 23 case ToolResult => 11 case OtherUser => 10 case OtherMessage => 13
    ensures !(Label(c)[0] == 's' && Label(c)[1] == 'e')
    ensures Label(c)[0] == 'm' <==> c == ListFrame
  {
  }

  lemma {:induction false} GroupLabelsDiffer(g: Group, h: Group)
    ensures GroupLabel(g) == GroupLabel(h) <==> g == h
  {
    GroupLabelLength(g);
    GroupLabelLength(h);
    hide GroupLabel;
  }

  lemma {:induction false} GroupLabelLength(g: Group)
    ensures |GroupLabel(g)| == match g
      case SchemasGroup => 7 case SystemGroup => 6 case Seed => 4 case ProseGroup => 15 case CallEnvelope => 28
      case ToolResults => 12 case OtherUsers => 10 case Structural => 10
    ensures g == Structural <==> GroupLabel(g)[1] == 't' && GroupLabel(g)[0] == 's'
  {
  }

  /** The group of each category. */
  function GroupOf(c: Category): Group {
    match c
    case Schemas => SchemasGroup
    case System => SystemGroup
    case Content => ProseGroup
    case ToolCalls | Reasoning | Envelope => CallEnvelope
    case ToolResult => ToolResults
    case OtherUser => OtherUsers
    case OtherMessage | ListFrame => Structural
  }

  lemma {:induction false} RollupOf(c: Category)
    ensures RollupCat(Label(c)) == GroupLabel(GroupOf(c))
  {
    LabelsDiffer(c, c);
    LabelLength(c);
    RollupKeys();
  }

  lemma RollupKeys()
    ensures |"msg_list_overhead"| == 17 && "msg_list_overhead"[0] == 'm' && |"other_message"| == 13 && |"assistant_content"| == 17
    ensures |"assistant_tool_calls"| == 20 && |"assistant_reasoning"| == 19 && |"assistant_json_envelope"| == 23
    ensures |"tool_result"| == 11 && "assistant_content"[0] == 'a'
  {
  }

  // ----- one message -----

  /** The categories tell the parts apart: each message contributes its share to each of them. */
  lemma {:induction false} MessageShare(i: nat, m: Value, c: Category)
    ensures Booked(MsgParts(i, MsgOf(m)), Same, Label(c)) == Share(c, i, m)
  {
    hide *;
    if HasRole(m, Assistant) {
      AssistantBooked(i, m, Same, Label(c));
      SameIs(Content, c);
      SameIs(ToolCalls, c);
      SameIs(Reasoning, c);
      SameIs(Envelope, c);
      PickOne(c == Content, Prose(m), c == ToolCalls, Calls(m), c == Reasoning, Thoughts(m),
              c == Envelope, Rest(m));
      AssistantShare(c, i, m);
    } else {
      LabelsDiffer(c, c);
      SameIs(CategoryOf(i, m), c);
      SeedIsNoCategory(c);
      OthersBooked(i, m, Same, Label(c), false);
      OthersShare(c, i, m);
    }
  }

  lemma {:induction false} SameIs(c: Category, d: Category)
    ensures Same(Label(c)) == Label(d) <==> c == d
  {
    LabelsDiffer(c, d);
  }

  lemma {:induction false} SeedIsNoCategory(c: Category)
    ensures forall cat :: StartsWith(cat, "seed:") ==> Same(cat) != Label(c)
  {
    LabelsDiffer(c, c);
    hide StartsWith, Label;
  }

  lemma {:induction false} PickOne(a: bool, v: Extent, b: bool, w: Extent, c: bool, x: Extent, d: bool, y: Extent)
    requires !(a && b) && !(a && c) && !(a && d) && !(b && c) && !(b && d) && !(c && d)
    ensures Plus(If(a, v), Plus(If(b, w), Plus(If(c, x), If(d, y))))
         == if a then v else if b then w else if c then x else if d then y else NIL
  {
  }

  lemma {:induction false} AssistantShare(c: Category, i: nat, m: Value)
    requires HasRole(m, Assistant)
    ensures Share(c, i, m) == match c
      case Content => Prose(m)
      case ToolCalls => Calls(m)
      case Reasoning => Thoughts(m)
      case Envelope => Rest(m)
      case _ => NIL
  {
    AssistantOnly(i, m);
    hide Prose, Calls, Thoughts, Rest, IsSystem, IsOther, IsOtherUser, HasRole, Dumps;
  }

  lemma {:induction false} OthersShare(c: Category, i: nat, m: Value)
    requires !HasRole(m, Assistant)
    ensures Share(c, i, m) == If(!IsSeed(i, m) && CategoryOf(i, m) == c, ExtentOf(Dumps(m)))
  {
    hide *;
    CategoryKinds(c, i, m);
    OthersShareIs(c, i, m);
    WholeIs(m, Makes(c, i, m));
  }

  lemma {:induction false} CategoryKinds(c: Category, i: nat, m: Value)
    requires !HasRole(m, Assistant)
    ensures Makes(c, i, m) == (!IsSeed(i, m) && CategoryOf(i, m) == c)
  {
    OtherKinds(i, m);
    hide IsSystem, IsSeed, IsOther, IsOtherUser, HasRole;
  }

  lemma {:induction false} OthersShareIs(c: Category, i: nat, m: Value)
    requires !HasRole(m, Assistant)
    ensures Share(c, i, m) == Whole(m, Makes(c, i, m))
  {
    hide *;
    NoClaims(m);
    WholeNothing(m);
    ShareIs(c, i, m);
  }

  lemma {:induction false} ShareIs(c: Category, i: nat, m: Value)
    ensures Share(c, i, m) ==
      if c == Content then Prose(m) else if c == ToolCalls then Calls(m)
      else if c == Reasoning then Thoughts(m) else if c == Envelope then Rest(m)
      else Whole(m, Makes(c, i, m))
    ensures c in {Content, ToolCalls, Reasoning, Envelope} ==> !Makes(c, i, m)
  {
    hide Prose, Calls, Thoughts, Rest, Whole, HasRole, IsSystem, IsSeed, IsOther, IsOtherUser;
  }

  /** So do the groups of the rollup. */
  lemma {:induction false} MessageGroupShare(i: nat, m: Value, g: Group)
    ensures Booked(MsgParts(i, MsgOf(m)), RollupCat, GroupLabel(g)) == GroupShare(g, i, m)
  {
    hide *;
    if HasRole(m, Assistant) {
      AssistantBooked(i, m, RollupCat, GroupLabel(g));
      RollupIs(Content, g);
      RollupIs(ToolCalls, g);
      RollupIs(Reasoning, g);
      RollupIs(Envelope, g);
      AssistantGroupShare(g, i, m);
    } else {
      RollupIs(CategoryOf(i, m), g);
      SeedRollup(g);
      OthersBooked(i, m, RollupCat, GroupLabel(g), g == Seed);
      OthersGroupShare(g, i, m);
    }
  }

  lemma {:induction false} AssistantGroupShare(g: Group, i: nat, m: Value)
    requires HasRole(m, Assistant)
    ensures GroupShare(g, i, m) ==
      Plus(If(GroupOf(Content) == g, Prose(m)),
      Plus(If(GroupOf(ToolCalls) == g, Calls(m)),
      Plus(If(GroupOf(Reasoning) == g, Thoughts(m)),
      If(GroupOf(Envelope) == g, Rest(m)))))
  {
    hide *;
    ProseOrEnvelope(g, i, m);
    AssistantGroups(g);
    RestIs(m);
    SumGroups(g == ProseGroup, g == CallEnvelope, Prose(m), Calls(m), Thoughts(m), Whole(m, HasRole(m, Assistant)));
  }

  lemma {:induction false} AssistantGroups(g: Group)
    ensures (GroupOf(Content) == g) == (g == ProseGroup)
    ensures (GroupOf(ToolCalls) == g) == (GroupOf(Reasoning) == g) == (GroupOf(Envelope) == g) == (g == CallEnvelope)
  {
  }

  lemma {:induction false} RestIs(m: Value)
    ensures Rest(m) == Less(Less(Less(Whole(m, HasRole(m, Assistant)), Prose(m)), Calls(m)), Thoughts(m))
  {
  }

  lemma {:induction false} ProseOrEnvelope(g: Group, i: nat, m: Value)
    requires HasRole(m, Assistant)
    ensures GroupShare(g, i, m) ==
      if g == ProseGroup then Prose(m)
      else if g == CallEnvelope then Less(Whole(m, HasRole(m, Assistant)), Prose(m))
      else NIL
  {
    AssistantOnly(i, m);
    WholeNothing(m);
    hide Prose, IsSystem, IsOther, IsOtherUser, IsSeed, HasRole, Whole, Less;
  }

  lemma {:induction false} WholeIs(m: Value, holds: bool)
    ensures Whole(m, holds) == If(holds, ExtentOf(Dumps(m)))
  {
  }

  lemma {:induction false} WholeNothing(m: Value)
    ensures Whole(m, false) == NIL
  {
  }

  /** Prose and the rest of the message make up the whole message. */
  lemma {:induction false} SumGroups(p: bool, q: bool, v: Extent, w: Extent, x: Extent, whole: Extent)
    requires !(p && q)
    ensures Plus(If(p, v), Plus(If(q, w), Plus(If(q, x), If(q, Less(Less(Less(whole, v), w), x)))))
         == if p then v else if q then Less(whole, v) else NIL
  {
  }

  lemma {:induction false} OthersGroupShare(g: Group, i: nat, m: Value)
    requires !HasRole(m, Assistant)
    ensures GroupShare(g, i, m) == If(if IsSeed(i, m) then g == Seed else GroupOf(CategoryOf(i, m)) == g, ExtentOf(Dumps(m)))
  {
    hide *;
    GroupKinds(g, i, m);
    OthersGroupShareIs(g, i, m);
    WholeIs(m, MakesGroup(g, i, m));
  }

  lemma {:induction false} OthersGroupShareIs(g: Group, i: nat, m: Value)
    requires !HasRole(m, Assistant)
    ensures GroupShare(g, i, m) == Whole(m, MakesGroup(g, i, m))
  {
    hide *;
    NoClaims(m);
    LessNil();
    WholeNothing(m);
    GroupShareIs(g, i, m);
  }

  lemma {:induction false} GroupShareIs(g: Group, i: nat, m: Value)
    ensures GroupShare(g, i, m) ==
      if g == ProseGroup then Prose(m)
      else if g == CallEnvelope then Less(Whole(m, HasRole(m, Assistant)), Prose(m))
      else Whole(m, MakesGroup(g, i, m))
    ensures g == ProseGroup || g == CallEnvelope ==> !MakesGroup(g, i, m)
  {
    hide Prose, Less, Whole, HasRole, IsSystem, IsSeed, IsOther, IsOtherUser;
  }

  lemma LessNil()
    ensures Less(NIL, NIL) == NIL
  {
  }

  lemma {:induction false} GroupKinds(g: Group, i: nat, m: Value)
    requires !HasRole(m, Assistant)
    ensures MakesGroup(g, i, m) == if IsSeed(i, m) then g == Seed else GroupOf(CategoryOf(i, m)) == g
  {
    OtherKinds(i, m);
    hide IsSystem, IsSeed, IsOther, IsOtherUser, HasRole;
  }

  lemma {:induction false} RollupIs(c: Category, g: Group)
    ensures RollupCat(Label(c)) == GroupLabel(g) <==> GroupOf(c) == g
  {
    RollupOf(c);
    GroupLabelsDiffer(GroupOf(c), g);
  }

  lemma {:induction false} SeedRollup(g: Group)
    ensures forall cat :: StartsWith(cat, "seed:") ==> (RollupCat(cat) == GroupLabel(g)) == (g == Seed)
  {
    GroupLabelsDiffer(Seed, g);
    hide GroupLabel;
    assert GroupLabel(Seed) == "seed" by { SeedLabel(); }
  }

  lemma SeedLabel()
    ensures GroupLabel(Seed) == "seed"
  {
  }

  // ----- one request -----

  function ShareOf(c: Category): (nat, Value) -> Extent {
    (i: nat, m: Value) => Share(c, i, m)
  }

  function GroupShareOf(g: Group): (nat, Value) -> Extent {
    (i: nat, m: Value) => GroupShare(g, i, m)
  }

  /** The shares of the messages from index `from` on. */
  function Shares(share: (nat, Value) -> Extent, from: nat, messages: seq<Value>): Extent
    decreases messages
  {
    if messages == [] then NIL else Plus(share(from, messages[0]), Shares(share, from + 1, messages[1..]))
  }

  /** The text of all messages. */
  function Texts(messages: seq<Value>): Extent {
    if messages == [] then NIL else Plus(ExtentOf(Dumps(messages[0])), Texts(messages[1..]))
  }

  /** What the text of the message list has beside its messages: brackets and separators. */
  function Frame(messages: seq<Value>): Extent {
    Less(ExtentOf(Dumps(Arr(messages))), Texts(messages))
  }

  lemma {:induction false} MessagesBooked(
      messages: seq<Value>, from: nat, group: string -> string, k: string, share: (nat, Value) -> Extent)
    requires forall i: nat, m :: Booked(MsgParts(i, MsgOf(m)), group, k) == share(i, m)
    ensures Booked(MsgsParts(MsgsOf(messages), from), group, k) == Shares(share, from, messages)
  {
    hide Booked, MsgParts, MsgOf;
    if messages == [] {
      BookedUniform([], group, k, false);
    } else {
      var rest := MsgsOf(messages[1..]);
      assert MsgsOf(messages)[1..] == rest;
      MessagesBooked(messages[1..], from + 1, group, k, share);
      BookedConcat(MsgParts(from, MsgOf(messages[0])), MsgsParts(rest, from + 1), group, k);
    }
  }

  lemma {:induction false} FrameIsOverhead(messages: seq<Value>)
    ensures Frame(messages) == Extent(Overhead(|messages|), Overhead(|messages|))
  {
    hide Dumps, DumpItems, Utf8Len;
    TextsAre(messages);
    ListText(messages);
  }

  lemma {:induction false} ListText(messages: seq<Value>)
    ensures ExtentOf(Dumps(Arr(messages))) == Plus(Extent(2, 2), ExtentOf(DumpItems(messages)))
  {
    Utf8LenConcat("[" + DumpItems(messages), "]");
    Utf8LenConcat("[", DumpItems(messages));
    assert Utf8Len("[") == 1 && Utf8Len("]") == 1 by { assert "["[1..] == "" && "]"[1..] == ""; }
  }

  lemma {:induction false} TextsAre(messages: seq<Value>)
    ensures var n := Overhead(|messages|) - 2;
      Texts(messages).chars + n == |DumpItems(messages)| && Texts(messages).bytes + n == Utf8Len(DumpItems(messages))
  {
    hide Dumps, DumpItems, Utf8Len, Plus;
    if messages == [] {
      NoMessages(0);
    } else {
      TextsAre(messages[1..]);
      DumpItemsExtent(messages);
      PlusMeans(ExtentOf(Dumps(messages[0])), Texts(messages[1..]));
    }
  }

  lemma {:induction false} PlusMeans(a: Extent, b: Extent)
    ensures Plus(a, b).chars == a.chars + b.chars && Plus(a, b).bytes == a.bytes + b.bytes
  {
  }

  /** The parts of a captured call under any grouping. */
  lemma {:induction false} CallBooked(r: Request, group: string -> string, k: string, share: (nat, Value) -> Extent)
    requires forall i: nat, m :: Booked(MsgParts(i, MsgOf(m)), group, k) == share(i, m)
    ensures Booked(CallParts(CallOf(r.messages, r.schemas)), group, k) ==
      Plus(Plus(If(group("msg_list_overhead") == k, Frame(r.messages)),
                If(group("schemas") == k, ExtentOf(Dumps(Arr(r.schemas))))),
           Shares(share, 0, r.messages))
  {
    hide Booked, MsgParts, MsgOf, Dumps, DumpItems, Utf8Len, Overhead, Shares, Frame;
    var call := CallOf(r.messages, r.schemas);
    var n := Overhead(|r.messages|);
    var frame, schemas := Part("msg_list_overhead", n, n), PartOf("schemas", call.schemasSer);
    assert [frame, schemas] == [frame] + [schemas];
    BookedConcat([frame, schemas], MsgsParts(call.msgs, 0), group, k);
    BookedConcat([frame], [schemas], group, k);
    BookedOne(frame, group, k);
    BookedOne(schemas, group, k);
    FrameIsOverhead(r.messages);
    MessagesBooked(r.messages, 0, group, k, share);
  }

  /** What a request contributes to a category: the list's own text, the schemas, or its messages' shares. */
  function RequestShare(c: Category): Request -> Extent {
    (r: Request) =>
      match c
      case ListFrame => Frame(r.messages)
      case Schemas => ExtentOf(Dumps(Arr(r.schemas)))
      case _ => Shares(ShareOf(c), 0, r.messages)
  }

  function RequestGroupShare(g: Group): Request -> Extent {
    (r: Request) =>
      match g
      case SchemasGroup => ExtentOf(Dumps(Arr(r.schemas)))
      case Structural => Plus(Frame(r.messages), Shares(GroupShareOf(g), 0, r.messages))
      case _ => Shares(GroupShareOf(g), 0, r.messages)
  }

  lemma {:induction false} NothingShared(share: (nat, Value) -> Extent, from: nat, messages: seq<Value>)
    requires forall i: nat, m :: share(i, m) == NIL
    ensures Shares(share, from, messages) == NIL
    decreases messages
  {
    hide Plus;
    if messages != [] {
      PlusNil(NIL);
      NothingShared(share, from + 1, messages[1..]);
    }
  }

  lemma {:induction false} RequestAlgebra(r: Request, shares: Extent)
    ensures forall f, t ::
      Plus(Plus(If(f, Frame(r.messages)), If(t, ExtentOf(Dumps(Arr(r.schemas))))), shares)
        == if f && t then Plus(Plus(Frame(r.messages), ExtentOf(Dumps(Arr(r.schemas)))), shares)
           else if f then Plus(Frame(r.messages), shares)
           else if t then Plus(ExtentOf(Dumps(Arr(r.schemas))), shares)
           else shares
  {
    hide Plus, If, Frame, ExtentOf, Dumps;
    PlusNil(shares);
    PlusNil(Frame(r.messages));
    PlusNil(ExtentOf(Dumps(Arr(r.schemas))));
    PlusNil(NIL);
  }

  lemma {:induction false} RequestBooked(r: Request, c: Category)
    ensures Booked(CallParts(CallOf(r.messages, r.schemas)), Same, Label(c)) == RequestShare(c)(r)
  {
    hide Plus, If, Less, Booked, Label, MsgParts, MsgOf, CallParts, CallOf, Share, Shares, Frame, ExtentOf, Dumps;
    forall i: nat, m
      ensures Booked(MsgParts(i, MsgOf(m)), Same, Label(c)) == ShareOf(c)(i, m)
    {
      MessageShare(i, m, c);
    }
    CallBooked(r, Same, Label(c), ShareOf(c));
    RequestAlgebra(r, Shares(ShareOf(c), 0, r.messages));
    FrameLabels();
    LabelsDiffer(ListFrame, c);
    LabelsDiffer(Schemas, c);
    if c == ListFrame || c == Schemas {
      NoShare(c);
      NothingShared(ShareOf(c), 0, r.messages);
      PlusNil(Frame(r.messages));
      PlusNil(ExtentOf(Dumps(Arr(r.schemas))));
    }
  }

  lemma FrameLabels()
    ensures Label(ListFrame) == "msg_list_overhead" && Label(Schemas) == "schemas"
  {
  }

  lemma {:induction false} NoShare(c: Category)
    requires c == ListFrame || c == Schemas
    ensures forall i, m :: Share(c, i, m) == NIL
  {
  }

  lemma {:induction false} RequestGroupBooked(r: Request, g: Group)
    ensures Booked(CallParts(CallOf(r.messages, r.schemas)), RollupCat, GroupLabel(g)) == RequestGroupShare(g)(r)
  {
    hide Plus, If, Less, Booked, Label, GroupLabel, RollupCat;
    hide MsgParts, MsgOf, CallParts, CallOf, GroupShare, Shares, Frame, ExtentOf, Dumps;
    forall i: nat, m
      ensures Booked(MsgParts(i, MsgOf(m)), RollupCat, GroupLabel(g)) == GroupShareOf(g)(i, m)
    {
      MessageGroupShare(i, m, g);
    }
    CallBooked(r, RollupCat, GroupLabel(g), GroupShareOf(g));
    RequestAlgebra(r, Shares(GroupShareOf(g), 0, r.messages));
    FrameLabels();
    RollupIs(ListFrame, g);
    RollupIs(Schemas, g);
    if g == SchemasGroup {
      NoGroupShare();
      NothingShared(GroupShareOf(g), 0, r.messages);
      PlusNil(ExtentOf(Dumps(Arr(r.schemas))));
    }
  }

  lemma {:induction false} NoGroupShare()
    ensures forall i, m :: GroupShare(SchemasGroup, i, m) == NIL
  {
  }

  // ----- a whole run -----

  /** What the requests contribute together. */
  function Total(requests: seq<Request>, share: Request -> Extent): Extent {
    if requests == [] then NIL
    else Plus(Total(requests[..|requests| - 1], share), share(requests[|requests| - 1]))
  }

  /** The first n requests that fall into a bucket. */
  function Picked(requests: seq<Request>, turnOf: seq<int>, b: Bucket, n: nat): seq<Request>
    requires n <= |requests|
  {
    if n == 0 then []
    else Picked(requests, turnOf, b, n - 1) + if BucketOf(turnOf, n - 1) == b then [requests[n - 1]] else []
  }

  lemma {:induction false} TotalSnoc(requests: seq<Request>, r: Request, share: Request -> Extent)
    ensures Total(requests + [r], share) == Plus(Total(requests, share), share(r))
  {
    assert (requests + [r])[..|requests|] == requests;
  }

  lemma {:induction false} RunBooked(
      calls: seq<Call>, requests: seq<Request>, n: nat, group: string -> string, k: string, share: Request -> Extent)
    requires Captured(calls, requests) && n <= |calls|
    requires forall r: Request :: Booked(CallParts(CallOf(r.messages, r.schemas)), group, k) == share(r)
    ensures Booked(AllParts(calls, n), group, k) == Total(requests[..n], share)
  {
    hide Booked, CallParts, CallOf;
    if n == 0 {
      BookedUniform([], group, k, false);
    } else {
      RunBooked(calls, requests, n - 1, group, k, share);
      assert requests[..n] == requests[..n - 1] + [requests[n - 1]];
      TotalSnoc(requests[..n - 1], requests[n - 1], share);
      BookedConcat(AllParts(calls, n - 1), CallParts(calls[n - 1]), group, k);
    }
  }

  lemma {:induction false} BucketBooked(
      calls: seq<Call>, requests: seq<Request>, turnOf: seq<int>, b: Bucket, n: nat,
      group: string -> string, k: string, share: Request -> Extent)
    requires Captured(calls, requests) && n <= |calls|
    requires forall r: Request :: Booked(CallParts(CallOf(r.messages, r.schemas)), group, k) == share(r)
    ensures Booked(BucketParts(calls, turnOf, b, n), group, k) == Total(Picked(requests, turnOf, b, n), share)
  {
    hide Booked, CallParts, CallOf, BucketOf;
    if n == 0 {
      BookedUniform([], group, k, false);
    } else {
      BucketBooked(calls, requests, turnOf, b, n - 1, group, k, share);
      if BucketOf(turnOf, n - 1) == b {
        TotalSnoc(Picked(requests, turnOf, b, n - 1), requests[n - 1], share);
        BookedConcat(BucketParts(calls, turnOf, b, n - 1), CallParts(calls[n - 1]), group, k);
      } else {
        assert BucketParts(calls, turnOf, b, n - 1) + [] == BucketParts(calls, turnOf, b, n - 1);
        assert Picked(requests, turnOf, b, n - 1) + [] == Picked(requests, turnOf, b, n - 1);
      }
    }
  }

  /** The published totals of a captured run: every category holds exactly what the requests contribute to it. */
  lemma {:induction false} TotalsAttributed(
      s: Summary, calls: seq<Call>, requests: seq<Request>, turnOf: seq<int>, c: Category)
    requires Captured(calls, requests) && Summarizes(s, calls, turnOf, |calls|)
    ensures Extent(At(s.totalChars, Label(c)), At(s.totalBytes, Label(c))) == Total(requests, RequestShare(c))
  {
    hide Booked, Label, Table, AllParts, RequestShare;
    forall r: Request
      ensures Booked(CallParts(CallOf(r.messages, r.schemas)), Same, Label(c)) == RequestShare(c)(r)
    {
      RequestBooked(r, c);
    }
    RunBooked(calls, requests, |calls|, Same, Label(c), RequestShare(c));
    assert requests[..|calls|] == requests;
    TableIsBooked(AllParts(calls, |calls|), CatChars, Same, Label(c));
    TableIsBooked(AllParts(calls, |calls|), CatBytes, Same, Label(c));
  }

  /** The same for the rollup, and for each bucket of the split with the requests that fall into it. */
  lemma {:induction false} RollupAttributed(
      s: Summary, calls: seq<Call>, requests: seq<Request>, turnOf: seq<int>, g: Group, b: Bucket)
    requires Captured(calls, requests) && Summarizes(s, calls, turnOf, |calls|)
    ensures Extent(At(s.rollupChars, GroupLabel(g)), At(s.rollupBytes, GroupLabel(g))) == Total(requests, RequestGroupShare(g))
    ensures At(s.split[b], GroupLabel(g)) == Total(Picked(requests, turnOf, b, |calls|), RequestGroupShare(g)).chars
  {
    hide Booked, GroupLabel, Table, AllParts, BucketParts, RequestGroupShare, RollupCat;
    forall r: Request
      ensures Booked(CallParts(CallOf(r.messages, r.schemas)), RollupCat, GroupLabel(g)) == RequestGroupShare(g)(r)
    {
      RequestGroupBooked(r, g);
    }
    RunBooked(calls, requests, |calls|, RollupCat, GroupLabel(g), RequestGroupShare(g));
    BucketBooked(calls, requests, turnOf, b, |calls|, RollupCat, GroupLabel(g), RequestGroupShare(g));
    assert requests[..|calls|] == requests;
    TableIsBooked(AllParts(calls, |calls|), RollupChars, RollupCat, GroupLabel(g));
    TableIsBooked(AllParts(calls, |calls|), RollupBytes, RollupCat, GroupLabel(g));
    TableIsBooked(BucketParts(calls, turnOf, b, |calls|), RollupChars, RollupCat, GroupLabel(g));
  }

  // ----- the regions of the seed -----

  /** The text behind a header: a clean name, then the end of the text or one of the three stops. */
  predicate Heads(ser: string, hdr: nat, name: string, rest: string) {
    && hdr + 4 <= |ser| && ser[hdr + 4..] == name + rest
    && (rest == "" || StartsWith(rest, "\\n") || StartsWith(rest, " (") || StartsWith(rest, "\\u"))
    && (forall i :: hdr + 4 <= i < hdr + 4 + |name| ==>
      !OccursAt(ser, "\\n", i) && !OccursAt(ser, " (", i) && !OccursAt(ser, "\\u", i))
    && (name != "" ==> !IsSpace(name[0]) && !IsSpace(name[|name| - 1]))
  }

  /** A region is named by its header up to a line break, an escape or " (", at most 36 characters of it. */
  lemma {:induction false} RegionNameReads(ser: string, hdr: nat, name: string, rest: string)
    requires Heads(ser, hdr, name, rest)
    requires |name| > 36 ==> !IsSpace(name[35])
    ensures RegionName(ser, hdr) == if name == "" then "_unnamed" else if |name| <= 36 then name else name[..36]
  {
    hide *;
    NearestStop(ser, hdr, name, rest);
    NameSlice(ser, hdr, name, rest);
    CutIsClean(ser, hdr, name, rest);
    StripNothing(if |name| <= 36 then name else name[..36]);
    RegionNameIs(ser, hdr, hdr + 4 + |name|);
  }

  lemma {:induction false} RegionNameIs(ser: string, hdr: nat, stop: nat)
    requires var from := hdr + 4;
      Closer(Closer(Closer(|ser|, Find(ser, "\\n", from)), Find(ser, " (", from)), Find(ser, "\\u", from)) == stop
    ensures var name := Strip(Slice(ser, hdr + 4, if stop < hdr + 40 then stop else hdr + 40));
      RegionName(ser, hdr) == if name == "" then "_unnamed" else name
  {
    hide Find, Slice, Closer, Strip;
  }

  lemma {:induction false} NameSlice(ser: string, hdr: nat, name: string, rest: string)
    requires Heads(ser, hdr, name, rest)
    ensures var from, stop := hdr + 4, hdr + 4 + |name|;
      Slice(ser, from, if stop < from + 36 then stop else from + 36) == if |name| <= 36 then name else name[..36]
  {
    hide IsSpace, OccursAt, StartsWith;
    assert ser[hdr + 4..hdr + 4 + |name|] == ser[hdr + 4..][..|name|];
  }

  lemma {:induction false} CutIsClean(ser: string, hdr: nat, name: string, rest: string)
    requires Heads(ser, hdr, name, rest)
    requires |name| > 36 ==> !IsSpace(name[35])
    ensures var cut := if |name| <= 36 then name else name[..36];
      cut != "" ==> !IsSpace(cut[0]) && !IsSpace(cut[|cut| - 1])
  {
    hide IsSpace, OccursAt, StartsWith;
  }

  lemma {:induction false} NearestStop(ser: string, hdr: nat, name: string, rest: string)
    requires Heads(ser, hdr, name, rest)
    ensures var from := hdr + 4;
      Closer(Closer(Closer(|ser|, Find(ser, "\\n", from)), Find(ser, " (", from)), Find(ser, "\\u", from)) == from + |name|
  {
    hide Find, IsSpace, OccursAt, StartsWith;
    var from, stop := hdr + 4, hdr + 4 + |name|;
    FindSkips(ser, "\\n", from, stop);
    FindSkips(ser, " (", from, stop);
    FindSkips(ser, "\\u", from, stop);
    StopAt(ser, from, name, rest);
  }

  /** A stop behind the name occurs there. */
  lemma {:induction false} StopAt(ser: string, from: nat, name: string, rest: string)
    requires from <= |ser| && ser[from..] == name + rest
    ensures StartsWith(rest, "\\n") ==> OccursAt(ser, "\\n", from + |name|)
    ensures StartsWith(rest, " (") ==> OccursAt(ser, " (", from + |name|)
    ensures StartsWith(rest, "\\u") ==> OccursAt(ser, "\\u", from + |name|)
    ensures |ser| == from + |name| + |rest| && ser[from..from + |name|] == name
    ensures forall i :: OccursAt(ser, "\\n", i) || OccursAt(ser, " (", i) || OccursAt(ser, "\\u", i) ==> i + 2 <= |ser|
  {
    assert ser[from + |name|..] == rest;
    assert ser[from..from + |name|] == ser[from..][..|name|];
    forall stop: string | StartsWith(rest, stop)
      ensures OccursAt(ser, stop, from + |name|)
    {
      assert ser[from + |name|..from + |name| + |stop|] == rest[..|stop|];
    }
  }

  function SeedNameOf(ser: string): nat -> string {
    (hdr: nat) => "seed:" + RegionName(ser, hdr)
  }

  lemma {:induction false} RegionsBooked(ser: string, hdrs: seq<nat>, end: nat, cat: string)
    requires Headers.Ordered(hdrs, end) && end <= |ser|
    ensures Booked(RegionParts(ser, hdrs, end), Same, cat).chars == Headers.PiecesUnder(hdrs, end, SeedNameOf(ser), cat)
  {
    hide RegionName, Utf8Len, Booked, Plus;
    if hdrs == [] {
      BookedUniform([], Same, cat, false);
    } else {
      RegionsBooked(ser, hdrs[1..], end, cat);
      var first, rest := RegionPart(ser, hdrs[0], Headers.PieceEnd(hdrs, 0, end)), RegionParts(ser, hdrs[1..], end);
      BookedConcat([first], rest, Same, cat);
      BookedOne(first, Same, cat);
      PlusMeans(Booked([first], Same, cat), Booked(rest, Same, cat));
    }
  }

  /**
   * The seed's parts count, under each name, exactly the characters that stand under a header of that name, up to the
   * last closer of the context; the characters behind it are the request.
   */
  lemma {:induction false} SeedCounts(ser: string, cat: string)
    ensures Booked(SeedPartsOf(ser), Same, cat).chars
         == Headers.CountUnder(ser, ScanEnd(ser), SeedNameOf(ser), "seed:_pre_headers", cat)
            + if RFind(ser, "</context>") >= 0 && cat == "seed:_current_request_now" then |ser| - ScanEnd(ser) else 0
  {
    hide RegionName, Utf8Len, Booked, Plus, RegionParts, Headers.CountUnder, Headers.Hits, Find, RFindBefore, SeedNameOf;
    var hdrs, end := SeedHeaders(ser), ScanEnd(ser);
    var pre, mid, tail := PreHeaders(ser), RegionParts(ser, hdrs, end), Tail(ser);
    Headers.HitsCount(ser, end, SeedNameOf(ser), "seed:_pre_headers", cat);
    RegionsBooked(ser, hdrs, end, cat);
    BookedConcat([pre] + mid, tail, Same, cat);
    BookedConcat([pre], mid, Same, cat);
    BookedOne(pre, Same, cat);
    PlusMeans(Booked([pre], Same, cat), Booked(mid, Same, cat));
    PlusMeans(Booked([pre] + mid, Same, cat), Booked(tail, Same, cat));
    TailBooked(ser, cat);
  }

  lemma {:induction false} TailBooked(ser: string, cat: string)
    ensures Booked(Tail(ser), Same, cat).chars
         == if RFind(ser, "</context>") >= 0 && cat == "seed:_current_request_now" then |ser| - ScanEnd(ser) else 0
  {
    hide Utf8Len, Booked, RFindBefore;
    if RFind(ser, CTX_CLOSE) >= 0 {
      BookedOne(PartOf("seed:_current_request_now", ser[ScanEnd(ser)..]), Same, cat);
    } else {
      BookedUniform([], Same, cat, false);
    }
  }
}
