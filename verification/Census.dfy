/** evals/serializer_census.py: attributing every character of a request to one category. */
module Census {
  import opened Text
  import opened Json
  import Headers

  // ----- what is captured at the adapter boundary -----

  datatype Extent = Extent(chars: int, bytes: int)

  /** A captured message; vals is filled for assistant messages only. */
  datatype Msg = Msg(role: string, ser: string, vals: map<string, Extent>)

  datatype Call = Call(fullSerLen: nat, msgs: seq<Msg>, schemasSer: string, nSchemas: nat)

  datatype Lookup = Missing | Found(value: Value)

  /** `m.get(key)`; keys are unique in a Python dict, so the first match is the only one. */
  function Get(fields: seq<Field>, key: string): Lookup {
    if fields == [] then Missing
    else if fields[0].key == key then Found(fields[0].value)
    else Get(fields[1..], key)
  }

  /** The role as far as the census can tell roles apart: anything but a string matches no role. */
  function RoleOf(m: Value): string {
    if m.Obj? && Get(m.fields, "role").Found? && Get(m.fields, "role").value.Str?
    then Get(m.fields, "role").value.s else ""
  }

  const CLAIM_KEYS: seq<(string, string)> :=
    [("content", "assistant_content"), ("tool_calls", "assistant_tool_calls"),
     ("reasoning_content", "assistant_reasoning")]

  function ExtentOf(s: string): Extent {
    Extent(|s|, Utf8Len(s))
  }

  function ValsOf(m: Value): map<string, Extent> {
    if !m.Obj? || RoleOf(m) != "assistant" then map[]
    else map key | key in {"content", "tool_calls", "reasoning_content"} && Get(m.fields, key).Found?
           :: ExtentOf(Dumps(Get(m.fields, key).value))
  }

  function MsgOf(m: Value): Msg {
    Msg(RoleOf(m), Dumps(m), ValsOf(m))
  }

  function MsgsOf(messages: seq<Value>): (msgs: seq<Msg>)
    ensures |msgs| == |messages|
    ensures forall i :: 0 <= i < |msgs| ==> msgs[i] == MsgOf(messages[i])
  {
    if messages == [] then [] else [MsgOf(messages[0])] + MsgsOf(messages[1..])
  }

  function CallOf(messages: seq<Value>, schemas: seq<Value>): Call {
    Call(|Dumps(Arr(messages))|, MsgsOf(messages), Dumps(Arr(schemas)), |schemas|)
  }

  /** The tap: each call is serialized when it is captured and appended to the buffer. */
  class CensusTap {
    var calls: seq<Call>

    constructor ()
      ensures calls == []
    {
      calls := [];
    }

    method Capture(messages: seq<Value>, schemas: seq<Value>)
      modifies this
      ensures calls == old(calls) + [CallOf(messages, schemas)]
    {
      hide MsgOf, Dumps, DumpItems;
      var msgs := [];
      for i := 0 to |messages|
        invariant msgs == MsgsOf(messages)[..i]
      {
        msgs := msgs + [MsgOf(messages[i])];
      }
      assert msgs == MsgsOf(messages);
      calls := calls + [Call(|Dumps(Arr(messages))|, msgs, Dumps(Arr(schemas)), |schemas|)];
    }
  }

  // ----- parts -----

  datatype Part = Part(cat: string, chars: int, bytes: int)

  function PartOf(cat: string, seg: string): Part {
    Part(cat, |seg|, Utf8Len(seg))
  }

  function Chars(parts: seq<Part>): int {
    if parts == [] then 0 else parts[0].chars + Chars(parts[1..])
  }

  function Bytes(parts: seq<Part>): int {
    if parts == [] then 0 else parts[0].bytes + Bytes(parts[1..])
  }

  lemma {:induction false} ExtentsConcat(ps: seq<Part>, qs: seq<Part>)
    ensures Chars(ps + qs) == Chars(ps) + Chars(qs)
    ensures Bytes(ps + qs) == Bytes(ps) + Bytes(qs)
  {
    if ps == [] {
      assert ps + qs == qs;
    } else {
      assert (ps + qs)[1..] == ps[1..] + qs;
      ExtentsConcat(ps[1..], qs);
    }
  }

  // ----- the seed message -----

  const CTX_CLOSE := "</context>"

  /** Where header scanning stops: behind the last context closer, or at the end. */
  function ScanEnd(ser: string): (end: nat)
    ensures end <= |ser|
  {
    var ctx := RFind(ser, CTX_CLOSE);
    if ctx >= 0 then ctx + |CTX_CLOSE| else |ser|
  }

  /** No closer ends behind ScanEnd, and one ends there unless there is none at all. */
  lemma {:induction false} ScanEndIsLast(ser: string)
    ensures forall i :: OccursAt(ser, CTX_CLOSE, i) ==> i + |CTX_CLOSE| <= ScanEnd(ser)
    ensures OccursAt(ser, CTX_CLOSE, ScanEnd(ser) - |CTX_CLOSE|) || (ScanEnd(ser) == |ser| && RFind(ser, CTX_CLOSE) == -1)
  {
    hide RFindBefore;
    var last := RFind(ser, CTX_CLOSE);
    assert last >= 0 ==> ScanEnd(ser) - |CTX_CLOSE| == last;
    forall i | OccursAt(ser, CTX_CLOSE, i)
      ensures i <= last
    {
      RFindIsLast(ser, CTX_CLOSE, |ser|, i);
    }
  }

  function Closer(end: nat, cut: int): nat {
    if 0 < cut < end then cut else end
  }

  function RegionName(ser: string, hdr: nat): string {
    var start := hdr + |Headers.ESC_HDR|;
    var end := Closer(Closer(Closer(|ser|, Find(ser, "\\n", start)), Find(ser, " (", start)), Find(ser, "\\u", start));
    var name := Strip(Slice(ser, start, if end < start + 36 then end else start + 36));
    if name == "" then "_unnamed" else name
  }

  function SeedHeaders(ser: string): (hdrs: seq<nat>)
    ensures Headers.Ordered(hdrs, ScanEnd(ser))
  {
    Headers.HitsOrdered(ser, 0, ScanEnd(ser));
    Headers.Hits(ser, 0, ScanEnd(ser))
  }

  function RegionParts(ser: string, hdrs: seq<nat>, end: nat): (parts: seq<Part>)
    requires Headers.Ordered(hdrs, end) && end <= |ser|
    ensures |parts| == |hdrs|
  {
    if hdrs == [] then [] else
      [RegionPart(ser, hdrs[0], Headers.PieceEnd(hdrs, 0, end))] + RegionParts(ser, hdrs[1..], end)
  }

  function RegionPart(ser: string, hdr: nat, end: nat): Part
    requires hdr <= end <= |ser|
  {
    PartOf("seed:" + RegionName(ser, hdr), ser[hdr..end])
  }

  lemma {:induction false} RegionPartAt(ser: string, hdrs: seq<nat>, end: nat, j: nat)
    requires Headers.Ordered(hdrs, end) && end <= |ser| && j < |hdrs|
    ensures hdrs[j] <= Headers.PieceEnd(hdrs, j, end) <= end
    ensures RegionParts(ser, hdrs, end)[j] == RegionPart(ser, hdrs[j], Headers.PieceEnd(hdrs, j, end))
  {
    if j > 0 {
      RegionPartAt(ser, hdrs[1..], end, j - 1);
    }
  }

  function PreHeaders(ser: string): Part {
    var hdrs := SeedHeaders(ser);
    PartOf("seed:_pre_headers", ser[0..if hdrs != [] then hdrs[0] else ScanEnd(ser)])
  }

  function Tail(ser: string): seq<Part> {
    if RFind(ser, CTX_CLOSE) >= 0 then [PartOf("seed:_current_request_now", ser[ScanEnd(ser)..])] else []
  }

  function SeedPartsOf(ser: string): seq<Part> {
    [PreHeaders(ser)] + RegionParts(ser, SeedHeaders(ser), ScanEnd(ser)) + Tail(ser)
  }

  method SeedParts(ser: string) returns (parts: seq<Part>)
    ensures parts == SeedPartsOf(ser)
  {
    var scanEnd := ScanEnd(ser);
    var hdrs := ScanHeaders(ser, scanEnd);
    var regions := RegionLoop(ser, hdrs, scanEnd);
    parts := [PartOf("seed:_pre_headers", ser[0..if hdrs != [] then hdrs[0] else scanEnd])] + regions;
    if RFind(ser, CTX_CLOSE) >= 0 {
      parts := parts + [PartOf("seed:_current_request_now", ser[scanEnd..])];
    }
  }

  method RegionLoop(ser: string, hdrs: seq<nat>, scanEnd: nat) returns (parts: seq<Part>)
    requires Headers.Ordered(hdrs, scanEnd) && scanEnd <= |ser|
    ensures parts == RegionParts(ser, hdrs, scanEnd)
  {
    hide RegionParts, RegionPart, Headers.Ordered;
    parts := [];
    ghost var regions := RegionParts(ser, hdrs, scanEnd);
    for j := 0 to |hdrs|
      invariant |parts| == j && forall i :: 0 <= i < j ==> parts[i] == regions[i]
    {
      var end := if j + 1 < |hdrs| then hdrs[j + 1] else scanEnd;
      RegionPartAt(ser, hdrs, scanEnd, j);
      parts := parts + [RegionPart(ser, hdrs[j], end)];
    }
  }

  method ScanHeaders(ser: string, scanEnd: nat) returns (hdrs: seq<nat>)
    requires scanEnd <= |ser|
    ensures hdrs == Headers.Hits(ser, 0, scanEnd) && Headers.Ordered(hdrs, scanEnd)
  {
    hide Find;
    hdrs := [];
    var pos := 0;
    ghost var hits := Headers.Hits(ser, 0, scanEnd);
    while true
      invariant pos <= |ser|
      invariant |hdrs| <= |hits| && hdrs == hits[..|hdrs|]
      invariant hits[|hdrs|..] == Headers.Hits(ser, pos, scanEnd)
      decreases |ser| - pos
    {
      var hit := Find(ser, Headers.ESC_HDR, pos);
      if hit < 0 || hit >= scanEnd {
        break;
      }
      assert hits[|hdrs|..][1..] == hits[|hdrs| + 1..];
      hdrs := hdrs + [hit];
      pos := hit + |Headers.ESC_HDR|;
    }
    Headers.HitsOrdered(ser, 0, scanEnd);
  }

  lemma {:induction false} RegionPartsCover(ser: string, hdrs: seq<nat>, end: nat)
    requires Headers.Ordered(hdrs, end) && end <= |ser|
    ensures var covered := ser[(if hdrs == [] then end else hdrs[0])..end];
            && Chars(RegionParts(ser, hdrs, end)) == |covered|
            && Bytes(RegionParts(ser, hdrs, end)) == Utf8Len(covered)
  {
    hide RegionName, PartOf;
    if hdrs != [] {
      RegionPartExtent(ser, hdrs[0], Headers.PieceEnd(hdrs, 0, end));
      hide RegionPart;
      RegionPartsCover(ser, hdrs[1..], end);
      var next := Headers.PieceEnd(hdrs, 0, end);
      assert ser[hdrs[0]..end] == ser[hdrs[0]..next] + ser[next..end];
      Utf8LenConcat(ser[hdrs[0]..next], ser[next..end]);
    }
  }

  lemma {:induction false} RegionPartExtent(ser: string, hdr: nat, end: nat)
    requires hdr <= end <= |ser|
    ensures RegionPart(ser, hdr, end).chars == end - hdr
    ensures RegionPart(ser, hdr, end).bytes == Utf8Len(ser[hdr..end])
  {
    hide RegionName;
  }

  lemma {:induction false} TailCovers(ser: string)
    ensures Chars(Tail(ser)) == |ser[ScanEnd(ser)..]|
    ensures Bytes(Tail(ser)) == Utf8Len(ser[ScanEnd(ser)..])
  {
    assert RFind(ser, CTX_CLOSE) < 0 ==> ser[ScanEnd(ser)..] == "";
  }

  /** The seed parts cover the message's entire serialization once. */
  lemma {:induction false} SeedPartsCover(ser: string)
    ensures Chars(SeedPartsOf(ser)) == |ser|
    ensures Bytes(SeedPartsOf(ser)) == Utf8Len(ser)
  {
    hide RegionParts, Tail, Chars, Bytes, Utf8Len, Find, RFindBefore;
    var hdrs, end := SeedHeaders(ser), ScanEnd(ser);
    RegionPartsCover(ser, hdrs, end);
    TailCovers(ser);
    ThreeSpans(ser, if hdrs != [] then hdrs[0] else end, end, PreHeaders(ser), RegionParts(ser, hdrs, end), Tail(ser));
  }

  lemma {:induction false} ThreeSpans(ser: string, i: nat, j: nat, pre: Part, mid: seq<Part>, tail: seq<Part>)
    requires i <= j <= |ser|
    requires pre.chars == i && Chars(mid) == j - i && Chars(tail) == |ser| - j
    requires pre.bytes == Utf8Len(ser[0..i]) && Bytes(mid) == Utf8Len(ser[i..j]) && Bytes(tail) == Utf8Len(ser[j..])
    ensures Chars([pre] + mid + tail) == |ser| && Bytes([pre] + mid + tail) == Utf8Len(ser)
  {
    ExtentsConcat([pre] + mid, tail);
    ExtentsConcat([pre], mid);
    Utf8LenSplit(ser, i, j);
  }

  // ----- one message -----

  /** The claimed values of an assistant message, in the order the loop visits them. */
  function ClaimParts(vals: map<string, Extent>, keys: seq<(string, string)>): seq<Part> {
    if keys == [] then [] else ClaimPart(vals, keys[0].0, keys[0].1) + ClaimParts(vals, keys[1..])
  }

  function ClaimPart(vals: map<string, Extent>, key: string, cat: string): seq<Part> {
    if key in vals then [Part(cat, vals[key].chars, vals[key].bytes)] else []
  }

  /** What is left of an assistant message when its claimed values are taken out. */
  function Residual(m: Msg): Extent {
    var claims := ClaimParts(m.vals, CLAIM_KEYS);
    Extent(|m.ser| - Chars(claims), Utf8Len(m.ser) - Bytes(claims))
  }

  function MsgParts(i: nat, m: Msg): seq<Part> {
    if i == 0 && m.role == "system" then [PartOf("system", m.ser)]
    else if i == 1 && m.role == "user" then SeedPartsOf(m.ser)
    else if m.role == "assistant" then
      ClaimParts(m.vals, CLAIM_KEYS) + [Part("assistant_json_envelope", Residual(m).chars, Residual(m).bytes)]
    else if m.role == "tool" then [PartOf("tool_result", m.ser)]
    else if m.role == "user" then [PartOf("other_user", m.ser)]
    else [PartOf("other_message", m.ser)]
  }

  lemma {:induction false} MsgPartsCover(i: nat, m: Msg)
    ensures Chars(MsgParts(i, m)) == |m.ser|
    ensures Bytes(MsgParts(i, m)) == Utf8Len(m.ser)
  {
    SeedPartsCover(m.ser);
    var r := Residual(m);
    ExtentsConcat(ClaimParts(m.vals, CLAIM_KEYS), [Part("assistant_json_envelope", r.chars, r.bytes)]);
  }

  method AssistantParts(m: Msg) returns (parts: seq<Part>, negative: bool)
    ensures parts == ClaimParts(m.vals, CLAIM_KEYS) + [Part("assistant_json_envelope", Residual(m).chars, Residual(m).bytes)]
    ensures negative <==> Residual(m).chars < 0 || Residual(m).bytes < 0
  {
    hide Utf8Len;
    var claimedC, claimedB;
    parts, claimedC, claimedB := ClaimLoop(m.vals, CLAIM_KEYS);
    var envC, envB := |m.ser| - claimedC, Utf8Len(m.ser) - claimedB;
    negative := envC < 0 || envB < 0;
    parts := parts + [Part("assistant_json_envelope", envC, envB)];
  }

  method ClaimLoop(vals: map<string, Extent>, keys: seq<(string, string)>) returns (parts: seq<Part>, chars: int, bytes: int)
    ensures parts == ClaimParts(vals, keys)
    ensures chars == Chars(parts) && bytes == Bytes(parts)
  {
    hide ClaimParts, Chars, Bytes;
    parts, chars, bytes := [], 0, 0;
    ClaimStart(vals, keys);
    for k := 0 to |keys|
      invariant parts + ClaimParts(vals, keys[k..]) == ClaimParts(vals, keys)
      invariant chars == Chars(parts) && bytes == Bytes(parts)
    {
      var (key, cat) := keys[k];
      ClaimRound(vals, keys, k, parts);
      if key in vals {
        var claim := vals[key];
        parts := parts + [Part(cat, claim.chars, claim.bytes)];
        chars := chars + claim.chars;
        bytes := bytes + claim.bytes;
      }
    }
    assert keys[|keys|..] == [];
  }

  lemma {:induction false} ClaimStart(vals: map<string, Extent>, keys: seq<(string, string)>)
    ensures [] + ClaimParts(vals, keys[0..]) == ClaimParts(vals, keys)
    ensures forall parts: seq<Part> :: parts + ClaimParts(vals, []) == parts
    ensures Chars([]) == 0 && Bytes([]) == 0
  {
    assert keys[0..] == keys;
  }

  /** What one round of the claim loop does to the parts, with the sums it keeps. */
  lemma {:induction false} ClaimRound(vals: map<string, Extent>, keys: seq<(string, string)>, k: nat, parts: seq<Part>)
    requires k < |keys|
    ensures var claim := ClaimPart(vals, keys[k].0, keys[k].1);
      && parts + ClaimParts(vals, keys[k..]) == (parts + claim) + ClaimParts(vals, keys[k + 1..])
      && Chars(parts + claim) == Chars(parts) + (if claim == [] then 0 else claim[0].chars)
      && Bytes(parts + claim) == Bytes(parts) + (if claim == [] then 0 else claim[0].bytes)
      && parts + [] == parts
  {
    var claim := ClaimPart(vals, keys[k].0, keys[k].1);
    assert keys[k..][1..] == keys[k + 1..];
    ExtentsConcat(parts, claim);
    ExtentsOfOne(claim);
    AssocParts(parts, claim, ClaimParts(vals, keys[k + 1..]));
  }

  lemma {:induction false} ExtentsOfOne(claim: seq<Part>)
    requires |claim| <= 1
    ensures Chars(claim) == if claim == [] then 0 else claim[0].chars
    ensures Bytes(claim) == if claim == [] then 0 else claim[0].bytes
  {
  }

  // ----- one call -----

  function Overhead(n: nat): nat {
    2 + 2 * if n == 0 then 0 else n - 1
  }

  /** The parts of the messages from index `from` on. */
  function MsgsParts(msgs: seq<Msg>, from: nat): seq<Part> {
    if msgs == [] then [] else MsgParts(from, msgs[0]) + MsgsParts(msgs[1..], from + 1)
  }

  function CallParts(call: Call): seq<Part> {
    [Part("msg_list_overhead", Overhead(|call.msgs|), Overhead(|call.msgs|)), PartOf("schemas", call.schemasSer)]
    + MsgsParts(call.msgs, 0)
  }

  predicate NegativeResidual(call: Call) {
    exists i :: 0 <= i < |call.msgs| && Overclaimed(call.msgs, i)
  }

  /** The values claimed for an assistant message exceed the message itself. */
  predicate Overclaimed(msgs: seq<Msg>, i: nat)
    requires i < |msgs|
  {
    && msgs[i].role == "assistant"
    && (Residual(msgs[i]).chars < 0 || Residual(msgs[i]).bytes < 0)
  }

  /** `_decompose_call`: the parts, the whole they should sum to, the gap, and the residual alarm. */
  method DecomposeCall(call: Call) returns (parts: seq<Part>, whole: int, gap: int, error: bool)
    ensures parts == CallParts(call)
    ensures whole == call.fullSerLen + |call.schemasSer|
    ensures gap == whole - Chars(parts)
    ensures error <==> NegativeResidual(call)
  {
    hide MsgsParts;
    var n := |call.msgs|;
    var overhead := 2 + 2 * if n == 0 then 0 else n - 1;
    parts, error := DecomposeMsgs(call.msgs);
    parts := [Part("msg_list_overhead", overhead, overhead), PartOf("schemas", call.schemasSer)] + parts;
    whole := call.fullSerLen + |call.schemasSer|;
    gap := whole - Chars(parts);
  }

  method DecomposeMsgs(msgs: seq<Msg>) returns (parts: seq<Part>, error: bool)
    ensures parts == MsgsParts(msgs, 0)
    ensures error <==> exists j :: 0 <= j < |msgs| && Overclaimed(msgs, j)
  {
    hide MsgParts;
    parts, error := [], false;
    for i := 0 to |msgs|
      invariant parts + MsgsParts(msgs[i..], i) == MsgsParts(msgs, 0)
      invariant error <==> exists j :: 0 <= j < i && Overclaimed(msgs, j)
    {
      var next, negative := DecomposeMsg(i, msgs[i]);
      assert msgs[i..][1..] == msgs[i + 1..];
      AssocParts(parts, next, MsgsParts(msgs[i + 1..], i + 1));
      assert Overclaimed(msgs, i) <==> negative;
      error := error || negative;
      parts := parts + next;
    }
  }

  lemma {:induction false} AssocParts(a: seq<Part>, b: seq<Part>, c: seq<Part>)
    ensures a + (b + c) == a + b + c
  {
  }

  method DecomposeMsg(i: nat, m: Msg) returns (parts: seq<Part>, negative: bool)
    ensures parts == MsgParts(i, m)
    ensures negative <==> m.role == "assistant" && (Residual(m).chars < 0 || Residual(m).bytes < 0)
  {
    negative := false;
    if i == 0 && m.role == "system" {
      parts := [PartOf("system", m.ser)];
    } else if i == 1 && m.role == "user" {
      parts := SeedParts(m.ser);
    } else if m.role == "assistant" {
      parts, negative := AssistantParts(m);
    } else if m.role == "tool" {
      parts := [PartOf("tool_result", m.ser)];
    } else if m.role == "user" {
      parts := [PartOf("other_user", m.ser)];
    } else {
      parts := [PartOf("other_message", m.ser)];
    }
  }

  // ----- the reconciliation gate -----

  /** The messages' parts and the separators between the messages make up the list's text. */
  lemma {:induction false} MsgsPartsCover(messages: seq<Value>, from: nat)
    ensures Chars(MsgsParts(MsgsOf(messages), from)) + Overhead(|messages|) - 2 == |DumpItems(messages)|
    ensures Bytes(MsgsParts(MsgsOf(messages), from)) + Overhead(|messages|) - 2 == Utf8Len(DumpItems(messages))
  {
    hide Chars, Bytes, Utf8Len, MsgParts, Dumps, MsgOf, DumpItems;
    if messages == [] {
      NoMessages(from);
    } else {
      MsgsPartsCover(messages[1..], from + 1);
      MsgsPartsStep(messages, from);
      DumpItemsExtent(messages);
    }
  }

  lemma {:induction false} NoMessages(from: nat)
    ensures MsgsParts(MsgsOf([]), from) == [] && Chars([]) == 0 && Bytes([]) == 0
    ensures DumpItems([]) == "" && Utf8Len("") == 0
  {
  }

  lemma {:induction false} MsgsPartsStep(messages: seq<Value>, from: nat)
    requires messages != []
    ensures var rest := MsgsParts(MsgsOf(messages[1..]), from + 1);
      && Chars(MsgsParts(MsgsOf(messages), from)) == |Dumps(messages[0])| + Chars(rest)
      && Bytes(MsgsParts(MsgsOf(messages), from)) == Utf8Len(Dumps(messages[0])) + Bytes(rest)
  {
    hide Chars, Bytes, Utf8Len, MsgParts, Dumps;
    var m, rest := MsgOf(messages[0]), MsgsOf(messages[1..]);
    assert MsgsOf(messages)[1..] == rest;
    MsgPartsCover(from, m);
    ExtentsConcat(MsgParts(from, m), MsgsParts(rest, from + 1));
  }

  /** An item of a list is serialized as it is alone, with a separator of two characters before the next. */
  lemma {:induction false} DumpItemsExtent(messages: seq<Value>)
    requires messages != []
    ensures var separator, rest := if |messages| == 1 then 0 else 2, DumpItems(messages[1..]);
      && |DumpItems(messages)| == |Dumps(messages[0])| + separator + |rest|
      && Utf8Len(DumpItems(messages)) == Utf8Len(Dumps(messages[0])) + separator + Utf8Len(rest)
  {
    hide Dumps, Utf8Len;
    SeparatorExtent();
    if |messages| == 1 {
      assert messages[1..] == [];
    } else {
      Utf8LenConcat(Dumps(messages[0]) + ", ", DumpItems(messages[1..]));
      Utf8LenConcat(Dumps(messages[0]), ", ");
    }
  }

  lemma SeparatorExtent()
    ensures Utf8Len(", ") == 2 && Utf8Len("") == 0
  {
    assert ", "[1..] == " " && " "[1..] == "";
  }

  /** The gate never fails on a captured call: the gap is zero, in characters and in bytes. */
  lemma {:induction false} Reconciles(messages: seq<Value>, schemas: seq<Value>)
    ensures var call := CallOf(messages, schemas);
            && Chars(CallParts(call)) == call.fullSerLen + |call.schemasSer|
            && Bytes(CallParts(call)) == Utf8Len(Dumps(Arr(messages))) + Utf8Len(Dumps(Arr(schemas)))
  {
    var call := CallOf(messages, schemas);
    MsgsPartsCover(messages, 0);
    var head := [Part("msg_list_overhead", Overhead(|messages|), Overhead(|messages|)), PartOf("schemas", call.schemasSer)];
    ExtentsConcat(head, MsgsParts(call.msgs, 0));
    assert head[1..] == [PartOf("schemas", call.schemasSer)];
    Utf8LenConcat("[" + DumpItems(messages), "]");
    Utf8LenConcat("[", DumpItems(messages));
    assert Utf8Len("[") == 1 && Utf8Len("]") == 1 by { assert "["[1..] == "" && "]"[1..] == ""; }
  }

  /** How much of the object's text the value under one key takes up. */
  function ClaimOf(fields: seq<Field>, key: string): Extent {
    match Get(fields, key)
    case Missing => Extent(0, 0)
    case Found(v) => ExtentOf(Dumps(v))
  }

  /** Values under different keys occupy disjoint stretches of the object's text. */
  lemma {:induction false} ClaimsFit(fields: seq<Field>, k1: string, k2: string, k3: string)
    requires k1 != k2 && k2 != k3 && k1 != k3
    ensures ClaimOf(fields, k1).chars + ClaimOf(fields, k2).chars + ClaimOf(fields, k3).chars <= |DumpFields(fields)|
    ensures ClaimOf(fields, k1).bytes + ClaimOf(fields, k2).bytes + ClaimOf(fields, k3).bytes <= Utf8Len(DumpFields(fields))
  {
    hide DumpFields, Utf8Len, ClaimOf;
    if fields == [] {
      ClaimOfNothing(k1);
      ClaimOfNothing(k2);
      ClaimOfNothing(k3);
    } else {
      FirstFieldFits(fields);
      ClaimsFit(fields[1..], k1, k2, k3);
      ClaimOfFirst(fields, k1);
      ClaimOfFirst(fields, k2);
      ClaimOfFirst(fields, k3);
      NoExtent(fields[1..], fields[0].key);
    }
  }

  lemma {:induction false} ClaimOfNothing(key: string)
    ensures ClaimOf([], key) == Extent(0, 0)
  {
  }

  /** The first field answers for its key, the rest for the others. */
  lemma {:induction false} ClaimOfFirst(fields: seq<Field>, key: string)
    requires fields != []
    ensures ClaimOf(fields, key)
         == if fields[0].key == key then ExtentOf(Dumps(fields[0].value)) else ClaimOf(fields[1..], key)
  {
    hide Dumps;
  }

  lemma {:induction false} NoExtent(fields: seq<Field>, key: string)
    ensures ClaimOf(fields, key).chars >= 0 && ClaimOf(fields, key).bytes >= 0
  {
    hide Dumps;
  }

  /** A member of an object takes up its key's text, its value's, two characters between them, and two before the next. */
  lemma {:induction false} DumpFieldsExtent(fields: seq<Field>)
    requires fields != []
    ensures var f, separator, rest := fields[0], if |fields| == 1 then 0 else 2, DumpFields(fields[1..]);
      && |DumpFields(fields)| == |Dumps(Str(f.key))| + 2 + |Dumps(f.value)| + separator + |rest|
      && Utf8Len(DumpFields(fields)) == Utf8Len(Dumps(Str(f.key))) + 2 + Utf8Len(Dumps(f.value)) + separator + Utf8Len(rest)
  {
    hide Quote, Utf8Len;
    var f := fields[0];
    KeyIsQuoted(f.key);
    hide Dumps;
    SeparatorExtent();
    ColonExtent();
    Utf8LenConcat(Quote(f.key) + ": ", Dumps(f.value));
    Utf8LenConcat(Quote(f.key), ": ");
    if |fields| == 1 {
      assert fields[1..] == [];
    } else {
      Utf8LenConcat(DumpField(f) + ", ", DumpFields(fields[1..]));
      Utf8LenConcat(DumpField(f), ", ");
    }
  }

  lemma {:induction false} KeyIsQuoted(key: string)
    ensures Dumps(Str(key)) == Quote(key)
  {
  }

  lemma ColonExtent()
    ensures Utf8Len(": ") == 2
  {
    assert ": "[1..] == " " && " "[1..] == "";
  }

  lemma {:induction false} FirstFieldFits(fields: seq<Field>)
    requires fields != []
    ensures |DumpFields(fields)| >= |Dumps(fields[0].value)| + |DumpFields(fields[1..])|
    ensures Utf8Len(DumpFields(fields)) >= Utf8Len(Dumps(fields[0].value)) + Utf8Len(DumpFields(fields[1..]))
  {
    hide Dumps, DumpFields;
    DumpFieldsExtent(fields);
  }

  /** So no assistant envelope is ever negative and the residual alarm stays silent. */
  lemma {:induction false} NoNegativeResidual(messages: seq<Value>, schemas: seq<Value>)
    ensures !NegativeResidual(CallOf(messages, schemas))
  {
    var call := CallOf(messages, schemas);
    forall i | 0 <= i < |call.msgs| ensures !Overclaimed(call.msgs, i) {
      if RoleOf(messages[i]) == "assistant" {
        EnvelopeFits(messages[i]);
      }
    }
  }

  lemma {:induction false} EnvelopeFits(m: Value)
    requires RoleOf(m) == "assistant"
    ensures Residual(MsgOf(m)).chars >= 0 && Residual(MsgOf(m)).bytes >= 0
  {
    hide Utf8Len, DumpFields, ClaimOf, Chars, Bytes, ClaimParts, ValsOf;
    var k1, k2, k3 := "content", "tool_calls", "reasoning_content";
    ThreeClaims(m);
    KeysDiffer();
    ClaimsFit(m.fields, k1, k2, k3);
    Utf8LenConcat("{" + DumpFields(m.fields), "}");
    Utf8LenConcat("{", DumpFields(m.fields));
  }

  lemma KeysDiffer()
    ensures "content" != "tool_calls" && "tool_calls" != "reasoning_content" && "content" != "reasoning_content"
  {
    assert |"content"| == 7 && |"tool_calls"| == 10 && |"reasoning_content"| == 17;
  }

  /** What the three claims of an assistant message take up. */
  lemma {:induction false} ThreeClaims(m: Value)
    requires m.Obj? && RoleOf(m) == "assistant"
    ensures var a, b, c := ClaimOf(m.fields, "content"), ClaimOf(m.fields, "tool_calls"), ClaimOf(m.fields, "reasoning_content");
      && Chars(ClaimParts(ValsOf(m), CLAIM_KEYS)) == a.chars + b.chars + c.chars
      && Bytes(ClaimParts(ValsOf(m), CLAIM_KEYS)) == a.bytes + b.bytes + c.bytes
  {
    hide ClaimOf, ValsOf, RoleOf, ClaimPart;
    assert CLAIM_KEYS[1..][1..] == CLAIM_KEYS[2..] && CLAIM_KEYS[2..][1..] == [];
    ClaimStep(m, CLAIM_KEYS[2..]);
    ClaimStep(m, CLAIM_KEYS[1..]);
    ClaimStep(m, CLAIM_KEYS);
  }

  lemma {:induction false} ClaimStep(m: Value, keys: seq<(string, string)>)
    requires m.Obj? && RoleOf(m) == "assistant"
    requires keys != [] && keys[0].0 in {"content", "tool_calls", "reasoning_content"}
    ensures Chars(ClaimParts(ValsOf(m), keys)) == ClaimOf(m.fields, keys[0].0).chars + Chars(ClaimParts(ValsOf(m), keys[1..]))
    ensures Bytes(ClaimParts(ValsOf(m), keys)) == ClaimOf(m.fields, keys[0].0).bytes + Bytes(ClaimParts(ValsOf(m), keys[1..]))
  {
    ExtentsConcat(ClaimPart(ValsOf(m), keys[0].0, keys[0].1), ClaimParts(ValsOf(m), keys[1..]));
  }
}
