/** JSON texts as trees: values printed with arbitrary whitespace, escapes and nesting, after sections 2,
    4 and 7 of RFC 8259. Strings are raw: an escape is a backslash and the character after it. */
module JsonGrammar {

  datatype StrItem = Plain(c: char) | Escaped(c: char)

  datatype Value =
    | Str(items: seq<StrItem>)
    | Atom(text: string)
    | Arr(elems: Elems)
    | Obj(members: Members)

  datatype Elems =
    | NoElems(ws: string)
    | LastElem(pre: string, value: Value, post: string)
    | MoreElems(pre: string, value: Value, post: string, rest: Elems)

  datatype Members =
    | NoMembers(ws: string)
    | LastMember(pre: string, name: seq<StrItem>, mid: string, gap: string, value: Value, post: string)
    | MoreMembers(pre: string, name: seq<StrItem>, mid: string, gap: string, value: Value, post: string, rest: Members)

  predicate IsWs(c: char) { c == ' ' || c == '\t' || c == '\n' || c == '\r' }

  predicate AllWs(s: string) { forall i :: 0 <= i < |s| ==> IsWs(s[i]) }

  /** The characters of a number, true, false or null; nothing structural, no quote, no space. */
  predicate AtomChar(c: char) {
    !IsWs(c) && c != '"' && c != '{' && c != '}' && c != '[' && c != ']' && c != ',' && c != ':' && c != '\0' && c != '\\'
  }

  predicate WfItem(x: StrItem) {
    match x
    case Plain(c) => c != '"' && c != '\\' && c != '\0'
    case Escaped(c) => c != '\0'
  }

  predicate WfItems(items: seq<StrItem>) { forall i :: 0 <= i < |items| ==> WfItem(items[i]) }

  predicate WfValue(v: Value) {
    match v
    case Str(items) => WfItems(items)
    case Atom(text) => |text| > 0 && forall i :: 0 <= i < |text| ==> AtomChar(text[i])
    case Arr(elems) => WfElems(elems)
    case Obj(members) => WfMembers(members)
  }

  predicate WfElems(e: Elems) {
    match e
    case NoElems(ws) => AllWs(ws)
    case LastElem(pre, v, post) => AllWs(pre) && WfValue(v) && AllWs(post)
    case MoreElems(pre, v, post, rest) => AllWs(pre) && WfValue(v) && AllWs(post) && !rest.NoElems? && WfElems(rest)
  }

  predicate WfMembers(m: Members) {
    match m
    case NoMembers(ws) => AllWs(ws)
    case LastMember(pre, name, mid, gap, v, post) =>
      AllWs(pre) && WfItems(name) && AllWs(mid) && AllWs(gap) && WfValue(v) && AllWs(post)
    case MoreMembers(pre, name, mid, gap, v, post, rest) =>
      AllWs(pre) && WfItems(name) && AllWs(mid) && AllWs(gap) && WfValue(v) && AllWs(post)
      && !rest.NoMembers? && WfMembers(rest)
  }

  /** The text between a string's quotes. */
  function Raw(items: seq<StrItem>): string {
    if items == [] then ""
    else (match items[0] case Plain(c) => [c] case Escaped(c) => ['\\', c]) + Raw(items[1..])
  }

  function Quoted(items: seq<StrItem>): string { "\"" + (Raw(items) + "\"") }

  function Print(v: Value): (s: string)
    ensures WfValue(v) ==> |s| > 0
  {
    match v
    case Str(items) => Quoted(items)
    case Atom(text) => text
    case Arr(elems) => "[" + (PrintElems(elems) + "]")
    case Obj(members) => "{" + (PrintMembers(members) + "}")
  }

  function PrintElems(e: Elems): string {
    match e
    case NoElems(ws) => ws
    case LastElem(pre, v, post) => pre + (Print(v) + post)
    case MoreElems(pre, v, post, rest) => pre + (Print(v) + (post + ("," + PrintElems(rest))))
  }

  function PrintMembers(m: Members): string {
    match m
    case NoMembers(ws) => ws
    case LastMember(pre, name, mid, gap, v, post) =>
      pre + (Quoted(name) + (mid + (":" + (gap + (Print(v) + post)))))
    case MoreMembers(pre, name, mid, gap, v, post, rest) =>
      pre + (Quoted(name) + (mid + (":" + (gap + (Print(v) + (post + ("," + PrintMembers(rest))))))))
  }

  /** s stands in t at position p, and something (at least the terminator) follows it. */
  predicate At(t: string, p: nat, s: string) { p + |s| < |t| && t[p..p + |s|] == s }

  lemma AtSplit(t: string, p: nat, a: string, b: string)
    ensures At(t, p, a + b) <==> At(t, p, a) && At(t, p + |a|, b)
  {
    if At(t, p, a + b) {
      assert (a + b)[..|a|] == a && (a + b)[|a|..] == b;
      assert t[p..p + |a|] == t[p..p + |a + b|][..|a|];
      assert t[p + |a|..p + |a + b|] == t[p..p + |a + b|][|a|..];
    }
    if At(t, p, a) && At(t, p + |a|, b) {
      assert t[p..p + |a + b|] == t[p..p + |a|] + t[p + |a|..p + |a| + |b|];
    }
  }

  lemma AtChar(t: string, p: nat, c: char)
    ensures At(t, p, [c]) <==> p + 1 < |t| && t[p] == c
  {
  }

  /** A member up to the end of its value, and what follows it. */
  function MemberText(pre: string, name: seq<StrItem>, mid: string, gap: string, v: Value, tail: string): string {
    pre + (Quoted(name) + (mid + (":" + (gap + (Print(v) + tail)))))
  }

  function NameAt(p: nat, pre: string): nat { p + |pre| }

  function ColonAt(p: nat, pre: string, name: seq<StrItem>, mid: string): nat {
    p + |pre| + |Quoted(name)| + |mid|
  }

  function ValueAt(p: nat, pre: string, name: seq<StrItem>, mid: string, gap: string): nat {
    ColonAt(p, pre, name, mid) + 1 + |gap|
  }

  /** Where the parts of a member stand. */
  lemma MemberParts(t: string, p: nat, pre: string, name: seq<StrItem>, mid: string, gap: string, v: Value, tail: string)
    requires At(t, p, MemberText(pre, name, mid, gap, v, tail))
    ensures At(t, p, pre) && At(t, NameAt(p, pre), Quoted(name))
    ensures At(t, NameAt(p, pre) + |Quoted(name)|, mid) && At(t, ColonAt(p, pre, name, mid), ":")
    ensures At(t, ColonAt(p, pre, name, mid) + 1, gap)
    ensures var q := ValueAt(p, pre, name, mid, gap); At(t, q, Print(v)) && At(t, q + |Print(v)|, tail)
    ensures |MemberText(pre, name, mid, gap, v, tail)| == ValueAt(p, pre, name, mid, gap) - p + |Print(v)| + |tail|
  {
    hide At, Print, Quoted;
    var e := Print(v) + tail;
    var d := ":" + (gap + e);
    AtSplit(t, p, pre, Quoted(name) + (mid + d));
    AtSplit(t, p + |pre|, Quoted(name), mid + d);
    AtSplit(t, p + |pre| + |Quoted(name)|, mid, d);
    AtSplit(t, ColonAt(p, pre, name, mid), ":", gap + e);
    AtSplit(t, ColonAt(p, pre, name, mid) + 1, gap, e);
    AtSplit(t, ValueAt(p, pre, name, mid, gap), Print(v), tail);
  }
}
