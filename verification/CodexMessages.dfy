/** Requests end to end: a JSON object, printed, cut into reports, put together again and looked into. */
module CodexMessages {
  import opened JsonGrammar
  import opened CodexHid
  import Json = CodexJson

  // A printed object is whole: it completes at its own closing brace ------------------------------

  predicate ScanPlain(c: char) { c != '"' && c != '{' && c != '}' }

  lemma {:induction false} ScanSkips(s: string, p: nat, x: string, d: int)
    requires At(s, p, x) && forall i :: 0 <= i < |x| ==> ScanPlain(x[i])
    ensures ScanEnd(s, p, d, false) == ScanEnd(s, p + |x|, d, false)
    decreases |x|
  {
    if |x| > 0 {
      assert s[p] == x[0] && ScanPlain(x[0]);
      assert s[p + 1..p + |x|] == x[1..];
      ScanSkips(s, p + 1, x[1..], d);
    }
  }

  lemma {:induction false} ScanString(s: string, p: nat, items: seq<StrItem>, d: int)
    requires WfItems(items) && At(s, p, Raw(items) + "\"")
    ensures ScanEnd(s, p, d, true) == ScanEnd(s, p + |Raw(items)| + 1, d, false)
    decreases |items|
  {
    if items == [] {
      AtChar(s, p, '"');
    } else {
      assert WfItem(items[0]);
      var rest := Raw(items[1..]);
      var head := match items[0] case Plain(c) => [c] case Escaped(c) => ['\\', c];
      assert Raw(items) + "\"" == head + (rest + "\"");
      AtSplit(s, p, head, rest + "\"");
      assert s[p..p + |head|] == head;
      assert s[p] == head[0];
      ScanString(s, p + |head|, items[1..], d);
    }
  }

  lemma ScanQuoted(s: string, p: nat, items: seq<StrItem>, d: int)
    requires WfItems(items) && At(s, p, Quoted(items))
    ensures ScanEnd(s, p, d, false) == ScanEnd(s, p + |Quoted(items)|, d, false)
  {
    AtSplit(s, p, "\"", Raw(items) + "\"");
    AtChar(s, p, '"');
    ScanString(s, p + 1, items, d);
  }

  lemma ScanOpen(s: string, p: nat, d: int)
    requires At(s, p, "{")
    ensures ScanEnd(s, p, d, false) == ScanEnd(s, p + 1, d + 1, false)
  {
    AtChar(s, p, '{');
  }

  lemma ScanClose(s: string, p: nat, d: int)
    requires At(s, p, "}") && d > 0
    ensures ScanEnd(s, p, d + 1, false) == ScanEnd(s, p + 1, d, false)
  {
    AtChar(s, p, '}');
  }

  /** Inside an object, any whole value leaves the brace depth as it was. */
  lemma {:induction false} ScanValue(s: string, p: nat, v: Value, d: int)
    requires d > 0 && WfValue(v) && At(s, p, Print(v))
    ensures ScanEnd(s, p, d, false) == ScanEnd(s, p + |Print(v)|, d, false)
    decreases v
  {
    hide ScanEnd, At, Raw, Quoted;
    match v
    case Str(items) => ScanQuoted(s, p, items, d);
    case Atom(text) => ScanSkips(s, p, text, d);
    case Arr(elems) =>
      AtSplit(s, p, "[", PrintElems(elems) + "]");
      AtSplit(s, p + 1, PrintElems(elems), "]");
      ScanSkips(s, p, "[", d);
      ScanElems(s, p + 1, elems, d);
      ScanSkips(s, p + 1 + |PrintElems(elems)|, "]", d);
    case Obj(members) =>
      AtSplit(s, p, "{", PrintMembers(members) + "}");
      AtSplit(s, p + 1, PrintMembers(members), "}");
      ScanOpen(s, p, d);
      ScanMembers(s, p + 1, members, d + 1);
      ScanClose(s, p + 1 + |PrintMembers(members)|, d);
  }

  lemma {:induction false} ScanElems(s: string, p: nat, e: Elems, d: int)
    requires d > 0 && WfElems(e) && At(s, p, PrintElems(e))
    ensures ScanEnd(s, p, d, false) == ScanEnd(s, p + |PrintElems(e)|, d, false)
    decreases e
  {
    hide ScanEnd, At, Print;
    match e
    case NoElems(ws) => ScanSkips(s, p, ws, d);
    case LastElem(pre, v, post) =>
      AtSplit(s, p, pre, Print(v) + post);
      AtSplit(s, p + |pre|, Print(v), post);
      ScanSkips(s, p, pre, d);
      ScanValue(s, p + |pre|, v, d);
      ScanSkips(s, p + |pre| + |Print(v)|, post, d);
    case MoreElems(pre, v, post, rest) =>
      var tail := post + ("," + PrintElems(rest));
      AtSplit(s, p, pre, Print(v) + tail);
      AtSplit(s, p + |pre|, Print(v), tail);
      ScanSkips(s, p, pre, d);
      ScanValue(s, p + |pre|, v, d);
      var q := p + |pre| + |Print(v)|;
      AtSplit(s, q, post, "," + PrintElems(rest));
      ScanSkips(s, q, post, d);
      AtSplit(s, q + |post|, ",", PrintElems(rest));
      ScanSkips(s, q + |post|, ",", d);
      ScanElems(s, q + |post| + 1, rest, d);
  }

  /** From a member's start to just before its value. */
  lemma ScanToValue(s: string, p: nat, pre: string, name: seq<StrItem>, mid: string, gap: string, v: Value, tail: string, d: int)
    requires At(s, p, MemberText(pre, name, mid, gap, v, tail))
    requires AllWs(pre) && WfItems(name) && AllWs(mid) && AllWs(gap)
    ensures ScanEnd(s, p, d, false) == ScanEnd(s, ValueAt(p, pre, name, mid, gap), d, false)
  {
    hide ScanEnd, At, Print, Quoted, MemberText;
    MemberParts(s, p, pre, name, mid, gap, v, tail);
    ScanSkips(s, p, pre, d);
    ScanQuoted(s, NameAt(p, pre), name, d);
    ScanSkips(s, NameAt(p, pre) + |Quoted(name)|, mid, d);
    ScanSkips(s, ColonAt(p, pre, name, mid), ":", d);
    ScanSkips(s, ColonAt(p, pre, name, mid) + 1, gap, d);
  }

  lemma {:induction false} ScanMembers(s: string, p: nat, m: Members, d: int)
    requires d > 0 && WfMembers(m) && At(s, p, PrintMembers(m))
    ensures ScanEnd(s, p, d, false) == ScanEnd(s, p + |PrintMembers(m)|, d, false)
    decreases m
  {
    hide ScanEnd, At, Print, Quoted;
    match m
    case NoMembers(ws) => ScanSkips(s, p, ws, d);
    case LastMember(pre, name, mid, gap, v, post) =>
      MemberParts(s, p, pre, name, mid, gap, v, post);
      ScanToValue(s, p, pre, name, mid, gap, v, post, d);
      ScanValue(s, ValueAt(p, pre, name, mid, gap), v, d);
      ScanSkips(s, ValueAt(p, pre, name, mid, gap) + |Print(v)|, post, d);
    case MoreMembers(pre, name, mid, gap, v, post, rest) =>
      var tail := post + ("," + PrintMembers(rest));
      MemberParts(s, p, pre, name, mid, gap, v, tail);
      ScanToValue(s, p, pre, name, mid, gap, v, tail, d);
      ScanValue(s, ValueAt(p, pre, name, mid, gap), v, d);
      var q := ValueAt(p, pre, name, mid, gap) + |Print(v)|;
      AtSplit(s, q, post, "," + PrintMembers(rest));
      ScanSkips(s, q, post, d);
      AtSplit(s, q + |post|, ",", PrintMembers(rest));
      ScanSkips(s, q + |post|, ",", d);
      ScanMembers(s, q + |post| + 1, rest, d);
  }

  /** Every printed object is complete exactly at its last brace: strings, escapes, nesting and all. */
  lemma PrintedIsWhole(m: Members)
    requires WfMembers(m)
    ensures WholeObject(Print(Obj(m)))
  {
    hide PrintMembers;
    var s := Print(Obj(m));
    var inside := PrintMembers(m);
    assert s == "{" + (inside + "}");
    assert s[1..1 + |inside|] == inside && s[0] == '{' && s[1 + |inside|] == '}';
    ScanMembers(s, 1, m, 1);
  }

  // Nothing printed holds a NUL --------------------------------------------------------------------

  predicate NoNul(s: string) { '\0' !in s }

  lemma NoNulTwo(a: string, b: string)
    ensures NoNul(a + b) <==> NoNul(a) && NoNul(b)
  {
    assert forall c :: c in a ==> c in a + b;
    assert forall c :: c in b ==> c in a + b;
  }

  lemma NoNulWs(ws: string)
    requires AllWs(ws)
    ensures NoNul(ws)
  {
  }

  lemma {:induction false} NoNulRaw(items: seq<StrItem>)
    requires WfItems(items)
    ensures NoNul(Raw(items))
  {
    if items != [] {
      assert WfItem(items[0]);
      NoNulRaw(items[1..]);
    }
  }

  lemma NoNulQuoted(items: seq<StrItem>)
    requires WfItems(items)
    ensures NoNul(Quoted(items))
  {
    NoNulRaw(items);
  }

  lemma {:induction false} NoNulValue(v: Value)
    requires WfValue(v)
    ensures NoNul(Print(v))
    decreases v, 0
  {
    hide NoNul, Raw, Quoted;
    match v
    case Str(items) => NoNulQuoted(items);
    case Atom(text) => NoNulAtom(text);
    case Arr(elems) =>
      NoNulElems(elems);
      NoNulTwo("[", PrintElems(elems) + "]");
      NoNulTwo(PrintElems(elems), "]");
      NoNulMarks();
    case Obj(members) =>
      NoNulMembers(members);
      NoNulTwo("{", PrintMembers(members) + "}");
      NoNulTwo(PrintMembers(members), "}");
      NoNulMarks();
  }

  lemma NoNulAtom(text: string)
    requires forall i :: 0 <= i < |text| ==> AtomChar(text[i])
    ensures NoNul(text)
  {
  }

  lemma NoNulMarks()
    ensures NoNul("[") && NoNul("]") && NoNul("{") && NoNul("}") && NoNul(",") && NoNul(":")
  {
  }

  lemma {:induction false} NoNulElems(e: Elems)
    requires WfElems(e)
    ensures NoNul(PrintElems(e))
    decreases e
  {
    hide NoNul, Print, AllWs;
    match e
    case NoElems(ws) => NoNulWs(ws);
    case LastElem(pre, v, post) => NoNulElem(pre, v, post);
    case MoreElems(pre, v, post, rest) =>
      NoNulElems(rest);
      NoNulWs(post);
      NoNulMarks();
      NoNulTwo(",", PrintElems(rest));
      NoNulTwo(post, "," + PrintElems(rest));
      NoNulElem(pre, v, post + ("," + PrintElems(rest)));
  }

  lemma NoNulElem(pre: string, v: Value, tail: string)
    requires AllWs(pre) && WfValue(v) && (AllWs(tail) || NoNul(tail))
    ensures NoNul(pre + (Print(v) + tail))
    decreases v, 1
  {
    hide NoNul, Print, AllWs;
    NoNulWs(pre);
    NoNulValue(v);
    if AllWs(tail) {
      NoNulWs(tail);
    }
    NoNulTwo(Print(v), tail);
    NoNulTwo(pre, Print(v) + tail);
  }

  lemma {:induction false} NoNulMembers(m: Members)
    requires WfMembers(m)
    ensures NoNul(PrintMembers(m))
    decreases m
  {
    hide NoNul, Print, AllWs, Quoted;
    match m
    case NoMembers(ws) => NoNulWs(ws);
    case LastMember(pre, name, mid, gap, v, post) =>
      NoNulWs(post);
      NoNulMember(pre, name, mid, gap, v, post);
    case MoreMembers(pre, name, mid, gap, v, post, rest) =>
      NoNulMembers(rest);
      NoNulWs(post);
      NoNulMarks();
      NoNulTwo(",", PrintMembers(rest));
      NoNulTwo(post, "," + PrintMembers(rest));
      NoNulMember(pre, name, mid, gap, v, post + ("," + PrintMembers(rest)));
  }

  lemma NoNulMember(pre: string, name: seq<StrItem>, mid: string, gap: string, v: Value, tail: string)
    requires AllWs(pre) && WfItems(name) && AllWs(mid) && AllWs(gap) && WfValue(v) && NoNul(tail)
    ensures NoNul(MemberText(pre, name, mid, gap, v, tail))
    decreases v, 1
  {
    hide NoNul, Print, AllWs, Quoted;
    NoNulWs(pre);
    NoNulQuoted(name);
    NoNulWs(mid);
    NoNulWs(gap);
    NoNulValue(v);
    NoNulMarks();
    NoNulTwo(Print(v), tail);
    NoNulTwo(gap, Print(v) + tail);
    NoNulTwo(":", gap + (Print(v) + tail));
    NoNulTwo(mid, ":" + (gap + (Print(v) + tail)));
    NoNulTwo(Quoted(name), mid + (":" + (gap + (Print(v) + tail))));
    NoNulTwo(pre, Quoted(name) + (mid + (":" + (gap + (Print(v) + tail)))));
  }

  // End to end -------------------------------------------------------------------------------------

  /** A printed request sent from one side is handed to the handler once on the other, whatever was in
      the reassembly buffer, and there the lookup of any key finds the first top-level member of that name. */
  lemma RequestArrives(rx: string, handled: seq<string>, m: Members, key: string)
    requires WfMembers(m) && StartsMethod(Print(Obj(m))) && |Print(Obj(m))| + 1 < JSON_MAX
    requires NoLaterRequest(Print(Obj(m)), 1)
    ensures var (rx', h) := Fed(rx, handled, ReportsFrom(Print(Obj(m)) + "\n", 0));
      && rx' == [] && |h| == |handled| + 1 && h[..|handled|] == handled
      && var t, ms := h[|handled|] + "\0", Json.ListMembers(m, 1);
         && Json.CString(t)
         && var r := Json.Lookup(t, key);
            && (r.None? <==> forall i :: 0 <= i < |ms| ==> ms[i].name != key)
            && (r.Some? ==> exists i :: 0 <= i < |ms| && ms[i].name == key && (forall j :: 0 <= j < i ==> ms[j].name != key)
                              && r.value.start == ms[i].at && Json.TextOf(t, r.value) == Print(ms[i].value))
  {
    hide ScanEnd, Fed, ReportsFrom, Fragment, Print, Json.Lookup, Json.ListMembers;
    var json := Print(Obj(m));
    PrintedIsWhole(m);
    NoNulValue(Obj(m));
    DeliversOnce(rx, handled, json);
    var h := Fed(rx, handled, ReportsFrom(json + "\n", 0)).1;
    var after := if h == handled + [json] then "" else "\n";
    assert h[|handled|] == json + after;
    var t := h[|handled|] + "\0";
    assert t == "" + (json + (after + "\0"));
    Json.LookupFindsFirst(t, "", m, after, key);
  }

  // A request that is lost -------------------------------------------------------------------------

  const METHOD_NAME: seq<StrItem> := [Plain('m'), Plain('e'), Plain('t'), Plain('h'), Plain('o'), Plain('d')]

  function Letters(n: nat): seq<StrItem> { if n == 0 then [] else [Plain('a')] + Letters(n - 1) }

  function ParamMember(): Members { LastMember("", METHOD_NAME, "", "", Atom("1"), "") }

  function Param(): Members { LastMember("", [Plain('p')], "", "", Obj(ParamMember()), "") }

  /** A request with a 44-letter method and a parameter object that has a member called method too. */
  function LostMembers(): Members { MoreMembers("", METHOD_NAME, "", "", Str(Letters(44)), "", Param()) }

  lemma {:induction false} LettersWf(n: nat)
    ensures WfItems(Letters(n)) && |Raw(Letters(n))| == n
  {
    if n > 0 {
      LettersWf(n - 1);
      assert Letters(n)[1..] == Letters(n - 1);
    }
  }

  lemma MethodRaw()
    ensures Raw(METHOD_NAME) == "method" && Raw([Plain('p')]) == "p"
  {
    assert METHOD_NAME[1..][1..][1..][1..][1..][1..] == [];
    assert Raw([]) == "";
    assert Raw([Plain('d')]) == "d" && Raw([Plain('p')]) == "p";
    assert METHOD_NAME[5..] == [Plain('d')] && METHOD_NAME[4..][1..] == METHOD_NAME[5..] && METHOD_NAME[3..][1..] == METHOD_NAME[4..]
      && METHOD_NAME[2..][1..] == METHOD_NAME[3..] && METHOD_NAME[1..][1..] == METHOD_NAME[2..];
    assert Raw(METHOD_NAME[4..]) == "od";
    assert Raw(METHOD_NAME[3..]) == "hod";
    assert Raw(METHOD_NAME[2..]) == "thod";
    assert Raw(METHOD_NAME[1..]) == "ethod";
  }

  lemma LostWf()
    ensures WfMembers(LostMembers())
  {
    LettersWf(44);
    hide Letters, Raw;
    assert WfMembers(ParamMember());
    assert WfMembers(Param()) && !Param().NoMembers?;
    hide Param, ParamMember;
  }

  lemma ParamPrint()
    ensures Print(Obj(ParamMember())) == "{" + ("\"method\"" + ":1}")
    ensures PrintMembers(Param()) == "\"p\":" + Print(Obj(ParamMember()))
  {
    MethodRaw();
    hide Raw;
  }

  lemma LostText()
    ensures var a := Raw(Letters(44));
      Print(Obj(LostMembers())) == "{\"method\"" + (":\"" + a + "\",\"p\":") + Print(Obj(ParamMember())) + "}"
  {
    ParamPrint();
    QuotedMethod();
    hide Raw, ParamMember, Param, Letters, Quoted;
    LostPrinted(Letters(44));
    LostJoin(Raw(Letters(44)), PrintMembers(Param()), Print(Obj(ParamMember())));
  }

  lemma QuotedMethod()
    ensures Quoted(METHOD_NAME) == "\"method\""
  {
    MethodRaw();
    hide Raw;
  }

  lemma LostPrinted(items: seq<StrItem>)
    ensures Print(Obj(MoreMembers("", METHOD_NAME, "", "", Str(items), "", Param()))) ==
      "{" + (("" + (Quoted(METHOD_NAME) + ("" + (":" + ("" + (("\"" + (Raw(items) + "\"")) + ("" + ("," + PrintMembers(Param())))))))))
             + "}")
  {
    hide Raw, Param;
    var m := MoreMembers("", METHOD_NAME, "", "", Str(items), "", Param());
    assert Print(Str(items)) == "\"" + (Raw(items) + "\"");
    assert PrintMembers(m) == "" + (Quoted(METHOD_NAME) + ("" + (":" + ("" + (Print(Str(items)) + ("" + ("," + PrintMembers(Param()))))))));
    assert Print(Obj(m)) == "{" + (PrintMembers(m) + "}");
  }

  lemma LostJoin(a: string, p: string, q: string)
    requires p == "\"p\":" + q
    ensures "{" + (("" + ("\"method\"" + ("" + (":" + ("" + (("\"" + (a + "\"")) + ("" + ("," + p)))))))) + "}")
      == "{\"method\"" + (":\"" + a + "\",\"p\":") + q + "}"
  {
  }

  /** How it is printed: the second fragment starts at its parameter object. */
  lemma LostPrint()
    ensures var json := Print(Obj(LostMembers()));
      && StartsMethod(json) && PAYLOAD_MAX + 9 < |json| < 2 * PAYLOAD_MAX && StartsMethod(json[PAYLOAD_MAX..])
  {
    hide Print, Raw;
    LettersWf(44);
    ParamPrint();
    LostText();
    var a, q := Raw(Letters(44)), Print(Obj(ParamMember()));
    var head := "{\"method\"" + (":\"" + a + "\",\"p\":");
    assert |head| == PAYLOAD_MAX;
    assert Print(Obj(LostMembers())) == head + (q + "}");
    assert q[..9] == METHOD;
  }

  /** It is a request like any other, within the limits of both sides, and is never delivered. */
  lemma WellformedRequestLost(rx: string, handled: seq<string>)
    ensures var json := Print(Obj(LostMembers()));
      && WfMembers(LostMembers()) && Sendable(json)
      && !DeliveredOnce(Fed(rx, handled, ReportsFrom(json + "\n", 0)), handled, json)
  {
    hide Print, Fed, ReportsFrom, ScanEnd, DeliveredOnce;
    var json := Print(Obj(LostMembers()));
    LostWf();
    LostPrint();
    PrintedIsWhole(LostMembers());
    assert Fragment(json + "\n", 1)[..9] == json[PAYLOAD_MAX..][..9];
    DeliveredExactlyWhen(rx, handled, json);
  }
}
