/** Just enough JSON to look up a top-level member: a scanner over a NUL-terminated text. */
module CodexJson {
  import opened Types
  import opened JsonGrammar

  /** A NUL-terminated text; positions in it never go past the NUL. */
  predicate CString(t: string) {
    |t| > 0 && t[|t| - 1] == '\0' && forall i :: 0 <= i < |t| - 1 ==> t[i] != '\0'
  }

  predicate EndsAtom(c: char) { c == ',' || c == '}' || c == ']' || IsWs(c) }

  function SkipWs(t: string, p: nat): (q: nat)
    requires CString(t) && p < |t|
    ensures p <= q < |t|
    decreases |t| - p
  {
    if IsWs(t[p]) then SkipWs(t, p + 1) else p
  }

  /** From inside a string to just past its closing quote. */
  function StringEnd(t: string, p: nat): (q: Option<nat>)
    requires CString(t) && p < |t|
    ensures q.Some? ==> p < q.value < |t|
    decreases |t| - p
  {
    if t[p] == '"' then Some(p + 1)
    else if t[p] == '\0' then None
    else if t[p] == '\\' && t[p + 1] != '\0' then StringEnd(t, p + 2)
    else StringEnd(t, p + 1)
  }

  /** From inside `depth` open brackets to just past the one that closes them all. */
  function NestedEnd(t: string, p: nat, depth: nat): (q: Option<nat>)
    requires CString(t) && p < |t| && depth > 0
    ensures q.Some? ==> p < q.value < |t|
    decreases |t| - p
  {
    if t[p] == '"' then
      match StringEnd(t, p + 1)
      case None => None
      case Some(q) => NestedEnd(t, q, depth)
    else if t[p] == '{' || t[p] == '[' then NestedEnd(t, p + 1, depth + 1)
    else if t[p] == '}' || t[p] == ']' then
      if depth == 1 then Some(p + 1) else NestedEnd(t, p + 1, depth - 1)
    else if t[p] == '\0' then None
    else NestedEnd(t, p + 1, depth)
  }

  function AtomEnd(t: string, p: nat): (q: nat)
    requires CString(t) && p < |t|
    ensures p <= q < |t|
    decreases |t| - p
  {
    if t[p] != '\0' && !EndsAtom(t[p]) then AtomEnd(t, p + 1) else p
  }

  function ValueEnd(t: string, p: nat): (q: Option<nat>)
    requires CString(t) && p < |t|
    ensures q.Some? ==> p <= q.value < |t|
  {
    if t[p] == '"' then StringEnd(t, p + 1)
    else if t[p] == '{' || t[p] == '[' then NestedEnd(t, p + 1, 1)
    else Some(AtomEnd(t, p))
  }

  /** Where a value lies in the text. */
  datatype Span = Span(start: nat, len: nat)

  /** A member's raw name and its value. */
  datatype Entry = Entry(name: Span, value: Span)

  /** The member at p, up to the end of its value; None at the end of the object or if malformed. */
  function EntryAt(t: string, p: nat): (r: Option<Entry>)
    requires CString(t) && p < |t|
    ensures r.Some? ==> r.value.name.start + r.value.name.len < |t|
    ensures r.Some? ==> p < r.value.value.start && r.value.value.start + r.value.value.len < |t|
  {
    var q := SkipWs(t, p);
    if t[q] != '"' then None
    else
      match StringEnd(t, q + 1)
      case None => None
      case Some(nameEnd) =>
        var colon := SkipWs(t, nameEnd);
        if t[colon] != ':' then None
        else
          var value := SkipWs(t, colon + 1);
          match ValueEnd(t, value)
          case None => None
          case Some(valueEnd) => Some(Entry(Span(q + 1, nameEnd - q - 2), Span(value, valueEnd - value)))
  }

  function TextOf(t: string, s: Span): string
    requires s.start + s.len <= |t|
  {
    t[s.start..s.start + s.len]
  }

  /** Look for the key among the members from p on. */
  function FindMember(t: string, p: nat, key: string): (r: Option<Span>)
    requires CString(t) && p < |t|
    ensures r.Some? ==> r.value.start + r.value.len < |t|
    decreases |t| - p
  {
    match EntryAt(t, p)
    case None => None
    case Some(e) =>
      if TextOf(t, e.name) == key then Some(e.value)
      else
        var comma := SkipWs(t, e.value.start + e.value.len);
        if t[comma] != ',' then None else FindMember(t, comma + 1, key)
  }

  function Lookup(t: string, key: string): Option<Span>
    requires CString(t)
  {
    var p := SkipWs(t, 0);
    if t[p] != '{' then None else FindMember(t, p + 1, key)
  }

  // The loops. Every index into t is checked, so none of them reads past the NUL. ------------------

  method SkipWsLoop(t: string, p0: nat) returns (p: nat)
    requires CString(t) && p0 < |t|
    ensures p == SkipWs(t, p0)
  {
    p := p0;
    while IsWs(t[p])
      invariant p < |t| && SkipWs(t, p) == SkipWs(t, p0)
      decreases |t| - p
    {
      p := p + 1;
    }
  }

  method SkipStringLoop(t: string, p0: nat) returns (r: Option<nat>)
    requires CString(t) && p0 < |t| && t[p0] == '"'
    ensures r == StringEnd(t, p0 + 1)
  {
    var p := p0 + 1;
    while t[p] != '"'
      invariant p < |t| && StringEnd(t, p) == StringEnd(t, p0 + 1)
      decreases |t| - p
    {
      if t[p] == '\0' {
        return None;
      }
      if t[p] == '\\' && t[p + 1] != '\0' {
        p := p + 1;
      }
      p := p + 1;
    }
    return Some(p + 1);
  }

  method SkipValueLoop(t: string, p0: nat) returns (r: Option<nat>)
    requires CString(t) && p0 < |t|
    ensures r == ValueEnd(t, p0)
  {
    var p := p0;
    if t[p] == '"' {
      r := SkipStringLoop(t, p);
      return;
    }
    if t[p] == '{' || t[p] == '[' {
      var depth := 0;
      var again := true;
      while again
        invariant 0 <= depth && p < |t|
        invariant again ==> (depth == 0 && p == p0) || (depth > 0 && NestedEnd(t, p, depth) == ValueEnd(t, p0))
        invariant !again ==> Some(p) == ValueEnd(t, p0)
        decreases again, |t| - p
      {
        if t[p] == '"' {
          var q := SkipStringLoop(t, p);
          if q.None? {
            return None;
          }
          p := q.value;
          again := depth > 0;
          continue;
        }
        if t[p] == '{' || t[p] == '[' {
          depth := depth + 1;
        } else if t[p] == '}' || t[p] == ']' {
          depth := depth - 1;
        } else if t[p] == '\0' {
          return None;
        }
        p := p + 1;
        again := depth > 0;
      }
      return Some(p);
    }
    while t[p] != '\0' && !EndsAtom(t[p])
      invariant p < |t| && AtomEnd(t, p) == AtomEnd(t, p0)
      decreases |t| - p
    {
      p := p + 1;
    }
    return Some(p);
  }

  /** Scan one member: its name, the colon, its value. */
  method ScanEntry(t: string, p0: nat) returns (r: Option<Entry>)
    requires CString(t) && p0 < |t|
    ensures r == EntryAt(t, p0)
  {
    hide SkipWs, StringEnd, ValueEnd;
    var p := SkipWsLoop(t, p0);
    if t[p] != '"' {
      return None;
    }
    var name := p + 1;
    var nameEnd := SkipStringLoop(t, p);
    if nameEnd.None? {
      return None;
    }
    p := SkipWsLoop(t, nameEnd.value);
    if t[p] != ':' {
      return None;
    }
    var value := SkipWsLoop(t, p + 1);
    var valueEnd := SkipValueLoop(t, value);
    if valueEnd.None? {
      return None;
    }
    return Some(Entry(Span(name, nameEnd.value - name - 1), Span(value, valueEnd.value - value)));
  }

  /** Member lookup: the raw text of the value, or None. */
  method Member(t: string, key: string) returns (r: Option<Span>)
    requires CString(t)
    ensures r == Lookup(t, key)
  {
    hide SkipWs, EntryAt;
    var p := SkipWsLoop(t, 0);
    if t[p] != '{' {
      return None;
    }
    p := p + 1;
    ghost var p0 := p;
    while true
      invariant p < |t| && FindMember(t, p, key) == FindMember(t, p0, key)
      decreases |t| - p
    {
      var e := ScanEntry(t, p);
      if e.None? {
        return None;
      }
      if TextOf(t, e.value.name) == key {
        return Some(e.value.value);
      }
      p := SkipWsLoop(t, e.value.value.start + e.value.value.len);
      if t[p] != ',' {
        return None;
      }
      p := p + 1;
    }
  }

  // What the scanner means on printed JSON -------------------------------------------------------

  lemma {:induction false} SkipsWs(t: string, p: nat, ws: string)
    requires CString(t) && At(t, p, ws) && AllWs(ws)
    ensures SkipWs(t, p) == SkipWs(t, p + |ws|)
    decreases |ws|
  {
    if |ws| > 0 {
      assert t[p] == ws[0];
      assert t[p + 1..p + |ws|] == ws[1..];
      SkipsWs(t, p + 1, ws[1..]);
    }
  }

  /** Whitespace before a character that is not whitespace is skipped exactly. */
  lemma SkipsTo(t: string, p: nat, ws: string)
    requires CString(t) && At(t, p, ws) && AllWs(ws) && !IsWs(t[p + |ws|])
    ensures SkipWs(t, p) == p + |ws|
  {
    SkipsWs(t, p, ws);
  }

  /** A string ends at its closing quote, whatever its escapes. */
  lemma {:induction false} StringSkips(t: string, p: nat, items: seq<StrItem>)
    requires CString(t) && WfItems(items) && At(t, p, Raw(items) + "\"")
    ensures StringEnd(t, p) == Some(p + |Raw(items)| + 1)
    decreases |items|
  {
    hide At;
    AtSplit(t, p, Raw(items), "\"");
    AtChar(t, p + |Raw(items)|, '"');
    if items != [] {
      var rest := Raw(items[1..]);
      assert WfItem(items[0]);
      match items[0] {
        case Plain(c) =>
          AtSplit(t, p, [c], rest);
          AtChar(t, p, c);
          AtSplit(t, p + 1, rest, "\"");
          StringSkips(t, p + 1, items[1..]);
        case Escaped(c) =>
          AtSplit(t, p, ['\\', c], rest);
          assert ['\\'] + [c] == ['\\', c];
          AtSplit(t, p, ['\\'], [c]);
          AtChar(t, p, '\\');
          AtChar(t, p + 1, c);
          AtSplit(t, p + 2, rest, "\"");
          StringSkips(t, p + 2, items[1..]);
      }
    }
  }

  lemma QuotedSkips(t: string, p: nat, items: seq<StrItem>)
    requires CString(t) && WfItems(items) && At(t, p, Quoted(items))
    ensures t[p] == '"' && StringEnd(t, p + 1) == Some(p + |Quoted(items)|)
    ensures t[p + 1..p + |Quoted(items)| - 1] == Raw(items)
  {
    var rest := Raw(items) + "\"";
    AtSplit(t, p, "\"", rest);
    AtChar(t, p, '"');
    AtSplit(t, p + 1, Raw(items), "\"");
    StringSkips(t, p + 1, items);
  }

  predicate PlainInside(c: char) {
    c != '"' && c != '{' && c != '[' && c != '}' && c != ']' && c != '\0'
  }

  /** Characters that are neither quotes nor brackets do not matter inside brackets. */
  lemma {:induction false} NestedPlain(t: string, p: nat, s: string, d: nat)
    requires CString(t) && d > 0 && At(t, p, s)
    requires forall i :: 0 <= i < |s| ==> PlainInside(s[i])
    ensures NestedEnd(t, p, d) == NestedEnd(t, p + |s|, d)
    decreases |s|
  {
    if |s| > 0 {
      assert t[p] == s[0] && PlainInside(s[0]);
      assert t[p + 1..p + |s|] == s[1..];
      NestedPlain(t, p + 1, s[1..], d);
    }
  }

  lemma NestedWs(t: string, p: nat, ws: string, d: nat)
    requires CString(t) && d > 0 && At(t, p, ws) && AllWs(ws)
    ensures NestedEnd(t, p, d) == NestedEnd(t, p + |ws|, d)
  {
    NestedPlain(t, p, ws, d);
  }

  lemma NestedQuoted(t: string, p: nat, items: seq<StrItem>, d: nat)
    requires CString(t) && d > 0 && WfItems(items) && At(t, p, Quoted(items))
    ensures NestedEnd(t, p, d) == NestedEnd(t, p + |Quoted(items)|, d)
  {
    QuotedSkips(t, p, items);
  }

  lemma NestedChar(t: string, p: nat, c: char, d: nat)
    requires CString(t) && d > 0 && At(t, p, [c]) && PlainInside(c)
    ensures NestedEnd(t, p, d) == NestedEnd(t, p + 1, d)
  {
    AtChar(t, p, c);
  }

  /** Inside brackets, any whole value leaves the depth as it was. */
  lemma {:induction false} NestedValue(t: string, p: nat, v: Value, d: nat)
    requires CString(t) && d > 0 && WfValue(v) && At(t, p, Print(v))
    ensures NestedEnd(t, p, d) == NestedEnd(t, p + |Print(v)|, d)
    decreases v
  {
    hide NestedEnd, At, Raw, Quoted;
    match v
    case Str(items) => NestedQuoted(t, p, items, d);
    case Atom(text) => NestedPlain(t, p, text, d);
    case Arr(elems) =>
      AtSplit(t, p, "[", PrintElems(elems) + "]");
      AtSplit(t, p + 1, PrintElems(elems), "]");
      NestedOpen(t, p, '[', d);
      NestedElems(t, p + 1, elems, d + 1);
      NestedClose(t, p + 1 + |PrintElems(elems)|, ']', d);
    case Obj(members) =>
      AtSplit(t, p, "{", PrintMembers(members) + "}");
      AtSplit(t, p + 1, PrintMembers(members), "}");
      NestedOpen(t, p, '{', d);
      NestedMembers(t, p + 1, members, d + 1);
      NestedClose(t, p + 1 + |PrintMembers(members)|, '}', d);
  }

  lemma NestedOpen(t: string, p: nat, c: char, d: nat)
    requires CString(t) && d > 0 && At(t, p, [c]) && (c == '{' || c == '[')
    ensures NestedEnd(t, p, d) == NestedEnd(t, p + 1, d + 1)
  {
    AtChar(t, p, c);
  }

  lemma NestedClose(t: string, p: nat, c: char, d: nat)
    requires CString(t) && d > 0 && At(t, p, [c]) && (c == '}' || c == ']')
    ensures NestedEnd(t, p, d + 1) == NestedEnd(t, p + 1, d)
    ensures NestedEnd(t, p, 1) == Some(p + 1)
  {
    AtChar(t, p, c);
  }

  lemma {:induction false} NestedElems(t: string, p: nat, e: Elems, d: nat)
    requires CString(t) && d > 0 && WfElems(e) && At(t, p, PrintElems(e))
    ensures NestedEnd(t, p, d) == NestedEnd(t, p + |PrintElems(e)|, d)
    decreases e
  {
    hide NestedEnd, AllWs, CString, At, Print;
    match e
    case NoElems(ws) => NestedWs(t, p, ws, d);
    case LastElem(pre, v, post) =>
      AtSplit(t, p, pre, Print(v) + post);
      AtSplit(t, p + |pre|, Print(v), post);
      NestedWs(t, p, pre, d);
      NestedValue(t, p + |pre|, v, d);
      NestedWs(t, p + |pre| + |Print(v)|, post, d);
    case MoreElems(pre, v, post, rest) =>
      var tail := post + ("," + PrintElems(rest));
      AtSplit(t, p, pre, Print(v) + tail);
      AtSplit(t, p + |pre|, Print(v), tail);
      NestedWs(t, p, pre, d);
      NestedValue(t, p + |pre|, v, d);
      var q := p + |pre| + |Print(v)|;
      AtSplit(t, q, post, "," + PrintElems(rest));
      NestedWs(t, q, post, d);
      AtSplit(t, q + |post|, ",", PrintElems(rest));
      NestedChar(t, q + |post|, ',', d);
      NestedElems(t, q + |post| + 1, rest, d);
  }

  lemma NestedMember(t: string, p: nat, pre: string, name: seq<StrItem>, mid: string, gap: string, v: Value, tail: string, d: nat)
    requires CString(t) && d > 0 && At(t, p, MemberText(pre, name, mid, gap, v, tail))
    requires AllWs(pre) && WfItems(name) && AllWs(mid) && AllWs(gap) && WfValue(v)
    requires NestedEnd(t, ValueAt(p, pre, name, mid, gap), d)
          == NestedEnd(t, ValueAt(p, pre, name, mid, gap) + |Print(v)|, d)
    ensures NestedEnd(t, p, d) == NestedEnd(t, ValueAt(p, pre, name, mid, gap) + |Print(v)|, d)
  {
    hide NestedEnd, AllWs, CString, At, Print, Quoted, MemberText;
    MemberParts(t, p, pre, name, mid, gap, v, tail);
    NestedWs(t, p, pre, d);
    NestedQuoted(t, NameAt(p, pre), name, d);
    NestedWs(t, NameAt(p, pre) + |Quoted(name)|, mid, d);
    NestedChar(t, ColonAt(p, pre, name, mid), ':', d);
    NestedWs(t, ColonAt(p, pre, name, mid) + 1, gap, d);
  }

  lemma {:induction false} NestedMembers(t: string, p: nat, m: Members, d: nat)
    requires CString(t) && d > 0 && WfMembers(m) && At(t, p, PrintMembers(m))
    ensures NestedEnd(t, p, d) == NestedEnd(t, p + |PrintMembers(m)|, d)
    decreases m
  {
    hide NestedEnd, AllWs, CString, At, Print, Quoted;
    match m
    case NoMembers(ws) => NestedWs(t, p, ws, d);
    case LastMember(pre, name, mid, gap, v, post) =>
      MemberParts(t, p, pre, name, mid, gap, v, post);
      NestedValue(t, ValueAt(p, pre, name, mid, gap), v, d);
      NestedMember(t, p, pre, name, mid, gap, v, post, d);
      NestedWs(t, ValueAt(p, pre, name, mid, gap) + |Print(v)|, post, d);
    case MoreMembers(pre, name, mid, gap, v, post, rest) =>
      var tail := post + ("," + PrintMembers(rest));
      MemberParts(t, p, pre, name, mid, gap, v, tail);
      NestedValue(t, ValueAt(p, pre, name, mid, gap), v, d);
      NestedMember(t, p, pre, name, mid, gap, v, tail, d);
      var q := ValueAt(p, pre, name, mid, gap) + |Print(v)|;
      AtSplit(t, q, post, "," + PrintMembers(rest));
      NestedWs(t, q, post, d);
      AtSplit(t, q + |post|, ",", PrintMembers(rest));
      NestedChar(t, q + |post|, ',', d);
      NestedMembers(t, q + |post| + 1, rest, d);
  }

  lemma {:induction false} AtomSkips(t: string, p: nat, text: string)
    requires CString(t) && At(t, p, text) && forall i :: 0 <= i < |text| ==> AtomChar(text[i])
    requires EndsAtom(t[p + |text|]) || t[p + |text|] == '\0'
    ensures AtomEnd(t, p) == p + |text|
    decreases |text|
  {
    if |text| > 0 {
      assert t[p] == text[0] && AtomChar(text[0]);
      assert t[p + 1..p + |text|] == text[1..];
      AtomSkips(t, p + 1, text[1..]);
    }
  }

  /** A value is skipped to its end exactly, whatever nests inside it. */
  lemma ValueSkips(t: string, p: nat, v: Value)
    requires CString(t) && WfValue(v) && At(t, p, Print(v))
    requires EndsAtom(t[p + |Print(v)|]) || t[p + |Print(v)|] == '\0'
    ensures ValueEnd(t, p) == Some(p + |Print(v)|)
    ensures !IsWs(t[p])
  {
    hide NestedEnd, At, Raw, Quoted, StringEnd, AtomEnd;
    match v
    case Str(items) => QuotedSkips(t, p, items);
    case Atom(text) =>
      AtSplit(t, p, text[..1], text[1..]);
      assert text == text[..1] + text[1..];
      AtChar(t, p, text[0]);
      assert text[..1] == [text[0]] && AtomChar(text[0]);
      AtomSkips(t, p, text);
    case Arr(elems) =>
      AtSplit(t, p, "[", PrintElems(elems) + "]");
      AtSplit(t, p + 1, PrintElems(elems), "]");
      AtChar(t, p, '[');
      NestedElems(t, p + 1, elems, 1);
      NestedClose(t, p + 1 + |PrintElems(elems)|, ']', 1);
    case Obj(members) =>
      AtSplit(t, p, "{", PrintMembers(members) + "}");
      AtSplit(t, p + 1, PrintMembers(members), "}");
      AtChar(t, p, '{');
      NestedMembers(t, p + 1, members, 1);
      NestedClose(t, p + 1 + |PrintMembers(members)|, '}', 1);
  }

  lemma EntrySkips(t: string, p: nat, pre: string, name: seq<StrItem>, mid: string, gap: string, v: Value, tail: string)
    requires CString(t) && At(t, p, MemberText(pre, name, mid, gap, v, tail))
    requires AllWs(pre) && WfItems(name) && AllWs(mid) && AllWs(gap) && WfValue(v)
    requires |tail| > 0 && EndsAtom(tail[0])
    ensures var at := ValueAt(p, pre, name, mid, gap);
      EntryAt(t, p) == Some(Entry(Span(NameAt(p, pre) + 1, |Raw(name)|), Span(at, |Print(v)|)))
    ensures TextOf(t, Span(NameAt(p, pre) + 1, |Raw(name)|)) == Raw(name)
  {
    hide NestedEnd, Print, StringEnd, ValueEnd, MemberText, SkipWs, Raw;
    MemberParts(t, p, pre, name, mid, gap, v, tail);
    var n, colon, at := NameAt(p, pre), ColonAt(p, pre, name, mid), ValueAt(p, pre, name, mid, gap);
    QuotedSkips(t, n, name);
    SkipsTo(t, p, pre);
    AtChar(t, colon, ':');
    SkipsTo(t, n + |Quoted(name)|, mid);
    assert t[at + |Print(v)|] == tail[0];
    ValueSkips(t, at, v);
    SkipsTo(t, colon + 1, gap);
  }

  /** A top-level member: its raw name, its value, and where in the text the value stands. */
  datatype Listed = Listed(name: string, value: Value, at: nat)

  /** Where the text after a member's comma starts. */
  function AfterComma(p: nat, m: Members): nat
    requires m.MoreMembers?
  {
    ValueAt(p, m.pre, m.name, m.mid, m.gap) + |Print(m.value)| + |m.post| + 1
  }

  /** The top-level members of an object whose text starts at p, in order. */
  function ListMembers(m: Members, p: nat): seq<Listed>
    decreases m
  {
    match m
    case NoMembers(_) => []
    case LastMember(pre, name, mid, gap, v, _) => [Listed(Raw(name), v, ValueAt(p, pre, name, mid, gap))]
    case MoreMembers(pre, name, mid, gap, v, _, rest) =>
      [Listed(Raw(name), v, ValueAt(p, pre, name, mid, gap))] + ListMembers(rest, AfterComma(p, m))
  }

  function FirstNamed(ms: seq<Listed>, key: string): Option<Span> {
    if ms == [] then None
    else if ms[0].name == key then Some(Span(ms[0].at, |Print(ms[0].value)|))
    else FirstNamed(ms[1..], key)
  }

  lemma {:induction false} FindsAmongMembers(t: string, p: nat, m: Members, key: string)
    requires CString(t) && WfMembers(m) && At(t, p, PrintMembers(m) + "}")
    ensures FindMember(t, p, key) == FirstNamed(ListMembers(m, p), key)
    decreases m
  {
    match m
    case NoMembers(ws) =>
      AtSplit(t, p, ws, "}");
      AtChar(t, p + |ws|, '}');
      SkipsTo(t, p, ws);
    case LastMember(pre, name, mid, gap, v, post) =>
      FindsLast(t, p, m, key);
    case MoreMembers(pre, name, mid, gap, v, post, rest) =>
      FindsOrGoesOn(t, p, m, key);
      FindsAmongMembers(t, AfterComma(p, m), rest, key);
  }

  lemma FindsLast(t: string, p: nat, m: Members, key: string)
    requires CString(t) && WfMembers(m) && m.LastMember? && At(t, p, PrintMembers(m) + "}")
    ensures FindMember(t, p, key) == FirstNamed(ListMembers(m, p), key)
  {
    hide EntryAt, Print, Raw, Quoted, At, SkipWs;
    var LastMember(pre, name, mid, gap, v, post) := m;
    var tail := post + "}";
    assert PrintMembers(m) + "}" == MemberText(pre, name, mid, gap, v, tail);
    EntrySkips(t, p, pre, name, mid, gap, v, tail);
    MemberParts(t, p, pre, name, mid, gap, v, tail);
    var q := ValueAt(p, pre, name, mid, gap) + |Print(v)|;
    AtSplit(t, q, post, "}");
    AtChar(t, q + |post|, '}');
    SkipsTo(t, q, post);
  }

  lemma FindsOrGoesOn(t: string, p: nat, m: Members, key: string)
    requires CString(t) && WfMembers(m) && m.MoreMembers? && At(t, p, PrintMembers(m) + "}")
    ensures AfterComma(p, m) < |t| && At(t, AfterComma(p, m), PrintMembers(m.rest) + "}")
    ensures FindMember(t, p, key) ==
      if Raw(m.name) == key then Some(Span(ValueAt(p, m.pre, m.name, m.mid, m.gap), |Print(m.value)|))
      else FindMember(t, AfterComma(p, m), key)
  {
    hide EntryAt, Print, Raw, Quoted, At, SkipWs;
    var MoreMembers(pre, name, mid, gap, v, post, rest) := m;
    var tail := post + ("," + (PrintMembers(rest) + "}"));
    assert PrintMembers(m) + "}" == MemberText(pre, name, mid, gap, v, tail);
    assert |tail| > 0 && EndsAtom(tail[0]);
    EntrySkips(t, p, pre, name, mid, gap, v, tail);
    MemberParts(t, p, pre, name, mid, gap, v, tail);
    var q := ValueAt(p, pre, name, mid, gap) + |Print(v)|;
    AtSplit(t, q, post, "," + (PrintMembers(rest) + "}"));
    AtSplit(t, q + |post|, ",", PrintMembers(rest) + "}");
    AtChar(t, q + |post|, ',');
    SkipsTo(t, q, post);
    AtInside(t, AfterComma(p, m), PrintMembers(rest) + "}");
  }

  lemma AtInside(t: string, p: nat, s: string)
    requires At(t, p, s)
    ensures p < |t|
  {
  }

  /** What "the first member with that name" means. */
  lemma {:induction false} FirstNamedIsFirst(ms: seq<Listed>, key: string)
    ensures FirstNamed(ms, key).None? <==> forall i :: 0 <= i < |ms| ==> ms[i].name != key
    ensures FirstNamed(ms, key).Some? ==>
      exists i :: 0 <= i < |ms| && ms[i].name == key && (forall j :: 0 <= j < i ==> ms[j].name != key)
        && FirstNamed(ms, key).value == Span(ms[i].at, |Print(ms[i].value)|)
  {
    hide Print;
    if ms != [] && ms[0].name != key {
      FirstNamedIsFirst(ms[1..], key);
      if FirstNamed(ms, key).Some? {
        var i :| 0 <= i < |ms[1..]| && ms[1..][i].name == key && (forall j :: 0 <= j < i ==> ms[1..][j].name != key)
          && FirstNamed(ms, key).value == Span(ms[1..][i].at, |Print(ms[1..][i].value)|);
        assert ms[i + 1] == ms[1..][i];
        assert forall j :: 0 < j < |ms| ==> ms[j] == ms[1..][j - 1];
      }
    }
  }

  /** The listed values stand in the text where they are listed. */
  lemma {:induction false} ListedValuesStand(t: string, p: nat, m: Members, i: nat)
    requires CString(t) && WfMembers(m) && At(t, p, PrintMembers(m) + "}") && i < |ListMembers(m, p)|
    ensures var l := ListMembers(m, p)[i]; At(t, l.at, Print(l.value)) && WfValue(l.value)
    decreases m
  {
    hide Print, Raw, Quoted, At;
    match m
    case LastMember(pre, name, mid, gap, v, post) =>
      assert PrintMembers(m) + "}" == MemberText(pre, name, mid, gap, v, post + "}");
      MemberParts(t, p, pre, name, mid, gap, v, post + "}");
    case MoreMembers(pre, name, mid, gap, v, post, rest) =>
      var tail := post + ("," + (PrintMembers(rest) + "}"));
      assert PrintMembers(m) + "}" == MemberText(pre, name, mid, gap, v, tail);
      MemberParts(t, p, pre, name, mid, gap, v, tail);
      if i > 0 {
        FindsOrGoesOn(t, p, m, Raw(name));
        ListedValuesStand(t, AfterComma(p, m), rest, i - 1);
      }
  }

  lemma ObjectText(m: Members)
    ensures Print(Obj(m)) == "{" + (PrintMembers(m) + "}")
  {
  }

  /** Member lookup on printed JSON: whatever nesting, escapes and whitespace the object has, and
      whatever text follows it, the answer is the raw text of the first top-level member with that raw
      name, at its own place in the text, or None if there is none. */
  lemma LookupFindsFirst(t: string, ws: string, m: Members, after: string, key: string)
    requires CString(t) && AllWs(ws) && WfMembers(m) && t == ws + (Print(Obj(m)) + (after + "\0"))
    ensures var r, ms := Lookup(t, key), ListMembers(m, |ws| + 1);
      && (r.None? <==> forall i :: 0 <= i < |ms| ==> ms[i].name != key)
      && (r.Some? ==> exists i :: 0 <= i < |ms| && ms[i].name == key && (forall j :: 0 <= j < i ==> ms[j].name != key)
                        && r.value.start == ms[i].at && TextOf(t, r.value) == Print(ms[i].value))
  {
    hide FindMember, ListMembers, FirstNamed, SkipWs, Print, PrintMembers, WfMembers, WfValue, AllWs;
    var body := PrintMembers(m) + "}";
    ObjectText(m);
    assert t[0..|ws|] == ws;
    assert t[|ws|..|ws| + |body| + 1] == "{" + body;
    AtSplit(t, |ws|, "{", body);
    AtChar(t, |ws|, '{');
    SkipsTo(t, 0, ws);
    FindsAmongMembers(t, |ws| + 1, m, key);
    var ms := ListMembers(m, |ws| + 1);
    FirstNamedIsFirst(ms, key);
    var r := Lookup(t, key);
    if r.Some? {
      var i :| 0 <= i < |ms| && ms[i].name == key && (forall j :: 0 <= j < i ==> ms[j].name != key)
        && r.value == Span(ms[i].at, |Print(ms[i].value)|);
      ListedValuesStand(t, |ws| + 1, m, i);
    }
  }

  /** True iff a raw value is the JSON string `wanted`. */
  function StrEq(val: Option<string>, wanted: string): bool {
    match val
    case None => false
    case Some(v) => |v| == |wanted| + 2 && v[0] == '"' && v[1..|wanted| + 1] == wanted
  }

  /** On printed values that is exactly being a string with that raw text. */
  lemma StrEqExactly(v: Value, wanted: string)
    requires WfValue(v)
    ensures StrEq(Some(Print(v)), wanted) <==> v.Str? && Raw(v.items) == wanted
  {
    match v
    case Str(items) =>
      assert Print(v) == "\"" + (Raw(items) + "\"");
      assert Print(v)[1..|Raw(items)| + 1] == Raw(items);
    case Atom(text) => assert AtomChar(text[0]);
    case Arr(_) => assert Print(v)[0] == '[';
    case Obj(_) => assert Print(v)[0] == '{';
  }

  // What it means on any text --------------------------------------------------------------------

  /** What stands between brackets: strings, further brackets, and anything else. */
  datatype Tok = Text(items: seq<StrItem>) | Open(c: char) | Close(c: char) | Rest(c: char)

  predicate WfTok(x: Tok) {
    match x
    case Text(items) => WfItems(items)
    case Open(c) => c == '{' || c == '['
    case Close(c) => c == '}' || c == ']'
    case Rest(c) => PlainInside(c)
  }

  function Written(toks: seq<Tok>): string {
    if toks == [] then "" else TokText(toks[0]) + Written(toks[1..])
  }

  function TokText(x: Tok): string { if x.Text? then Quoted(x.items) else [x.c] }

  /** The last of these closes the last of d open brackets. */
  predicate Balanced(toks: seq<Tok>, d: nat) {
    toks != [] && d > 0 && WfTok(toks[0]) &&
    match toks[0]
    case Open(_) => Balanced(toks[1..], d + 1)
    case Close(_) => if d == 1 then |toks| == 1 else Balanced(toks[1..], d - 1)
    case _ => Balanced(toks[1..], d)
  }

  predicate Stands(t: string, p: nat, q: nat, s: string) { p <= q < |t| && t[p..q] == s }

  lemma StandsAt(t: string, p: nat, q: nat, s: string)
    ensures Stands(t, p, q, s) <==> q == p + |s| && At(t, p, s)
  {
  }

  lemma {:induction false} StringEndWritten(t: string, p: nat) returns (items: seq<StrItem>)
    requires CString(t) && p < |t| && StringEnd(t, p).Some?
    ensures WfItems(items) && Stands(t, p, StringEnd(t, p).value, Raw(items) + "\"")
    decreases |t| - p
  {
    var q := StringEnd(t, p).value;
    if t[p] == '"' {
      items := [];
    } else if t[p] == '\\' && t[p + 1] != '\0' {
      var later := StringEndWritten(t, p + 2);
      items := [Escaped(t[p + 1])] + later;
      assert items[1..] == later;
      assert t[p..q] == [t[p], t[p + 1]] + t[p + 2..q];
      assert Raw(items) + "\"" == ['\\', t[p + 1]] + (Raw(later) + "\"");
    } else {
      BackslashNeeds(t, p);
      var later := StringEndWritten(t, p + 1);
      items := [Plain(t[p])] + later;
      assert items[1..] == later;
      assert t[p..q] == [t[p]] + t[p + 1..q];
      assert Raw(items) + "\"" == [t[p]] + (Raw(later) + "\"");
    }
  }

  /** A backslash before the terminator leaves the string unterminated. */
  lemma BackslashNeeds(t: string, p: nat)
    requires CString(t) && p < |t| && StringEnd(t, p).Some?
    ensures t[p] == '\\' ==> t[p + 1] != '\0'
  {
  }

  /** A string ends exactly at its first quote that no backslash escapes. */
  lemma StringEndExactly(t: string, p: nat, q: nat)
    requires CString(t) && p < |t|
    ensures StringEnd(t, p) == Some(q) <==> exists items :: WfItems(items) && Stands(t, p, q, Raw(items) + "\"")
  {
    hide StringEnd, Raw;
    if StringEnd(t, p) == Some(q) {
      var items := StringEndWritten(t, p);
    }
    if items :| WfItems(items) && Stands(t, p, q, Raw(items) + "\"") {
      StandsAt(t, p, q, Raw(items) + "\"");
      StringSkips(t, p, items);
    }
  }

  lemma QuotedIs(items: seq<StrItem>)
    ensures Quoted(items) == ['"'] + (Raw(items) + "\"")
  {
  }

  lemma {:induction false} NestedEndWritten(t: string, p: nat, d: nat) returns (toks: seq<Tok>)
    requires CString(t) && p < |t| && d > 0 && NestedEnd(t, p, d).Some?
    ensures Balanced(toks, d) && Stands(t, p, NestedEnd(t, p, d).value, Written(toks))
    decreases |t| - p
  {
    hide StringEnd, Quoted, Raw, Stands, Written;
    var q := NestedEnd(t, p, d).value;
    if t[p] == '"' {
      var s := StringEnd(t, p + 1).value;
      var items := StringEndWritten(t, p + 1);
      var later := NestedEndWritten(t, s, d);
      toks := [Text(items)] + later;
      assert toks[1..] == later;
      TextFirst(t, p, s, q, items, later);
    } else {
      var x := SignTok(t[p]);
      var later := [];
      if x.Close? && d == 1 {
        NothingWritten(t, q);
      } else {
        later := NestedEndWritten(t, p + 1, if x.Open? then d + 1 else if x.Close? then d - 1 else d);
      }
      toks := [x] + later;
      assert toks[1..] == later;
      SignFirst(t, p, q, x, later);
    }
  }

  function SignTok(c: char): Tok {
    if c == '{' || c == '[' then Open(c) else if c == '}' || c == ']' then Close(c) else Rest(c)
  }

  lemma NothingWritten(t: string, q: nat)
    requires q < |t|
    ensures Stands(t, q, q, Written([]))
  {
  }

  lemma TextFirst(t: string, p: nat, s: nat, q: nat, items: seq<StrItem>, later: seq<Tok>)
    requires p < |t| && t[p] == '"' && Stands(t, p + 1, s, Raw(items) + "\"") && Stands(t, s, q, Written(later))
    ensures Stands(t, p, q, Written([Text(items)] + later))
  {
    hide Raw, Quoted;
    QuotedIs(items);
    assert ([Text(items)] + later)[1..] == later;
    assert t[p..q] == ([t[p]] + t[p + 1..s]) + t[s..q];
  }

  lemma SignFirst(t: string, p: nat, q: nat, x: Tok, later: seq<Tok>)
    requires p < |t| && !x.Text? && x.c == t[p] && Stands(t, p + 1, q, Written(later))
    ensures Stands(t, p, q, Written([x] + later))
  {
    assert ([x] + later)[1..] == later;
    assert t[p..q] == [t[p]] + t[p + 1..q];
  }

  lemma {:induction false} WrittenNestedEnd(t: string, p: nat, q: nat, toks: seq<Tok>, d: nat)
    requires CString(t) && p < |t| && Balanced(toks, d) && Stands(t, p, q, Written(toks))
    ensures NestedEnd(t, p, d) == Some(q)
    decreases |toks|
  {
    hide StringEnd, Quoted;
    var later := Written(toks[1..]);
    StandsAt(t, p, q, Written(toks));
    if toks[0].Text? {
      var s := Quoted(toks[0].items);
      AtSplit(t, p, s, later);
      QuotedSkips(t, p, toks[0].items);
      StandsAt(t, p + |s|, q, later);
      WrittenNestedEnd(t, p + |s|, q, toks[1..], d);
    } else {
      var c := toks[0].c;
      AtSplit(t, p, [c], later);
      AtChar(t, p, c);
      StandsAt(t, p + 1, q, later);
      if toks[0].Close? && d == 1 {
        assert toks[1..] == [];
      } else {
        WrittenNestedEnd(t, p + 1, q, toks[1..], if toks[0].Open? then d + 1 else if toks[0].Close? then d - 1 else d);
      }
    }
  }

  /** What stands in t from p to q closes the last of d open brackets there. */
  ghost predicate Brackets(t: string, p: nat, d: nat, q: nat) {
    exists toks :: Balanced(toks, d) && Stands(t, p, q, Written(toks))
  }

  /** Brackets end exactly where the last of them is closed, brackets inside strings not counted. */
  lemma NestedEndExactly(t: string, p: nat, d: nat, q: nat)
    requires CString(t) && p < |t| && d > 0
    ensures NestedEnd(t, p, d) == Some(q) <==> Brackets(t, p, d, q)
  {
    hide NestedEnd, Balanced, Written;
    if NestedEnd(t, p, d) == Some(q) {
      var toks := NestedEndWritten(t, p, d);
    }
    if Brackets(t, p, d, q) {
      var toks :| Balanced(toks, d) && Stands(t, p, q, Written(toks));
      WrittenNestedEnd(t, p, q, toks, d);
    }
  }

  /** A value that stands in t from p to q, as far as the scanner tells values: a string, something in brackets
      that close, or a run of characters that goes on until one ends it. */
  ghost predicate ValueShape(t: string, p: nat, q: nat)
    requires CString(t) && p < |t|
  {
    if t[p] == '"' then exists items :: WfItems(items) && Stands(t, p + 1, q, Raw(items) + "\"")
    else if t[p] == '{' || t[p] == '[' then Brackets(t, p + 1, 1, q)
    else p <= q < |t| && (forall i :: p <= i < q ==> t[i] != '\0' && !EndsAtom(t[i])) && (t[q] == '\0' || EndsAtom(t[q]))
  }

  lemma {:induction false} AtomEndExactly(t: string, p: nat, q: nat)
    requires CString(t) && p < |t|
    ensures AtomEnd(t, p) == q <==>
      p <= q < |t| && (forall i :: p <= i < q ==> t[i] != '\0' && !EndsAtom(t[i])) && (t[q] == '\0' || EndsAtom(t[q]))
    decreases |t| - p
  {
    hide EndsAtom;
    if t[p] != '\0' && !EndsAtom(t[p]) {
      AtomEndExactly(t, p + 1, q);
    }
  }

  lemma ValueEndExactly(t: string, p: nat, q: nat)
    requires CString(t) && p < |t|
    ensures ValueEnd(t, p) == Some(q) <==> ValueShape(t, p, q)
  {
    hide StringEnd, NestedEnd, AtomEnd, Brackets, Raw, EndsAtom;
    if t[p] == '"' {
      StringEndExactly(t, p + 1, q);
    } else if t[p] == '{' || t[p] == '[' {
      QuoteIsNoEnd(t, p);
      NestedEndExactly(t, p + 1, 1, q);
    } else {
      AtomEndExactly(t, p, q);
    }
  }

  /** Only whitespace stands from p to q, and something else at q. */
  predicate Gap(t: string, p: nat, q: nat) { p <= q < |t| && AllWs(t[p..q]) && !IsWs(t[q]) }

  /** ... and what stands at q is c. */
  predicate Sign(t: string, p: nat, q: nat, c: char) { Gap(t, p, q) && t[q] == c }

  lemma {:induction false} SkipWsExactly(t: string, p: nat, q: nat)
    requires CString(t) && p < |t|
    ensures SkipWs(t, p) == q <==> Gap(t, p, q)
    decreases |t| - p
  {
    hide IsWs;
    assert p < q < |t| ==> t[p..q] == [t[p]] + t[p + 1..q];
    assert p < q < |t| ==> t[p..q][1..] == t[p + 1..q];
    if IsWs(t[p]) {
      NulIsNoWs(t, p);
      SkipWsExactly(t, p + 1, q);
    }
  }

  lemma NulIsNoWs(t: string, p: nat)
    requires CString(t) && p < |t| && IsWs(t[p])
    ensures p + 1 < |t|
  {
  }

  /** A member that stands in t at p: its name, a colon and its value, whitespace between them. */
  ghost predicate EntryShape(t: string, p: nat, e: Entry)
    requires CString(t) && p < |t|
  {
    var nameEnd := e.name.start + e.name.len + 1;
    && e.name.start > 0 && Sign(t, p, e.name.start - 1, '"')
    && (exists items :: WfItems(items) && Stands(t, e.name.start, nameEnd, Raw(items) + "\""))
    && exists colon: nat :: ValueAfter(t, nameEnd, colon, e.value)
  }

  /** A colon and then the value. */
  ghost predicate ValueAfter(t: string, nameEnd: nat, colon: nat, v: Span)
    requires CString(t)
  {
    Sign(t, nameEnd, colon, ':') && Gap(t, colon + 1, v.start) && v.start < |t| && ValueShape(t, v.start, v.start + v.len)
  }

  lemma EntryExactly(t: string, p: nat, e: Entry)
    requires CString(t) && p < |t|
    ensures EntryAt(t, p) == Some(e) <==> EntryShape(t, p, e)
  {
    hide SkipWs, StringEnd, ValueEnd, ValueShape, Gap, Raw, Stands;
    if EntryAt(t, p) == Some(e) {
      EntryHasShape(t, p);
    }
    if EntryShape(t, p, e) {
      EntryIsFound(t, p, e);
    }
  }

  lemma EntryHasShape(t: string, p: nat)
    requires CString(t) && p < |t| && EntryAt(t, p).Some?
    ensures EntryShape(t, p, EntryAt(t, p).value)
  {
    hide SkipWs, StringEnd, ValueEnd, ValueShape, Gap, Raw, Stands;
    var q := SkipWs(t, p);
    SkipWsExactly(t, p, q);
    var nameEnd := StringEnd(t, q + 1).value;
    StringEndExactly(t, q + 1, nameEnd);
    QuoteBefore(t, q + 1, nameEnd);
    var colon := SkipWs(t, nameEnd);
    SkipWsExactly(t, nameEnd, colon);
    var value := SkipWs(t, colon + 1);
    SkipWsExactly(t, colon + 1, value);
    ValueEndExactly(t, value, ValueEnd(t, value).value);
    assert ValueAfter(t, nameEnd, colon, EntryAt(t, p).value.value);
  }

  lemma QuoteBefore(t: string, p: nat, q: nat)
    requires CString(t) && p < |t| && StringEnd(t, p) == Some(q)
    ensures q >= p + 1
  {
  }

  lemma EntryIsFound(t: string, p: nat, e: Entry)
    requires CString(t) && p < |t| && EntryShape(t, p, e)
    ensures EntryAt(t, p) == Some(e)
  {
    hide SkipWs, StringEnd, ValueEnd, ValueShape, Raw, Stands, Gap;
    var nameEnd := e.name.start + e.name.len + 1;
    GapInside(t, p, e.name.start - 1);
    SkipWsExactly(t, p, e.name.start - 1);
    QuoteIsNoEnd(t, e.name.start - 1);
    StringEndExactly(t, e.name.start, nameEnd);
    var colon: nat :| ValueAfter(t, nameEnd, colon, e.value);
    GapInside(t, nameEnd, colon);
    SkipWsExactly(t, nameEnd, colon);
    QuoteIsNoEnd(t, colon);
    GapInside(t, colon + 1, e.value.start);
    SkipWsExactly(t, colon + 1, e.value.start);
    ValueEndExactly(t, e.value.start, e.value.start + e.value.len);
  }

  lemma GapInside(t: string, p: nat, q: nat)
    requires Gap(t, p, q)
    ensures p <= q < |t|
  {
  }

  lemma QuoteIsNoEnd(t: string, p: nat)
    requires CString(t) && p < |t| && t[p] != '\0'
    ensures p + 1 < |t|
  {
  }

  /** Members stand in t from p on, one after the other, the last of them the first named key. */
  ghost predicate MembersTo(t: string, p: nat, es: seq<Entry>, key: string)
    requires CString(t)
    decreases |es|, 0
  {
    && es != [] && p < |t| && EntryShape(t, p, es[0]) && es[0].name.start + es[0].name.len <= |t|
    && if |es| == 1 then TextOf(t, es[0].name) == key
       else
         && TextOf(t, es[0].name) != key
         && MoreAfter(t, es[0].value.start + es[0].value.len, es[1..], key)
  }

  ghost predicate MoreAfter(t: string, end: nat, es: seq<Entry>, key: string)
    requires CString(t)
    decreases |es|, 2
  {
    exists comma: nat :: MembersAfter(t, end, comma, es, key)
  }

  /** A comma and then the others. */
  ghost predicate MembersAfter(t: string, end: nat, comma: nat, es: seq<Entry>, key: string)
    requires CString(t)
    decreases |es|, 1
  {
    Sign(t, end, comma, ',') && MembersTo(t, comma + 1, es, key)
  }

  lemma {:induction false} FoundMembers(t: string, p: nat, key: string) returns (es: seq<Entry>)
    requires CString(t) && p < |t| && FindMember(t, p, key).Some?
    ensures MembersTo(t, p, es, key) && es[|es| - 1].value == FindMember(t, p, key).value
    decreases |t| - p
  {
    hide EntryShape, EntryAt, SkipWs, Gap;
    var e := EntryAt(t, p).value;
    EntryExactly(t, p, e);
    if TextOf(t, e.name) == key {
      es := [e];
    } else {
      var end := e.value.start + e.value.len;
      var comma := SkipWs(t, end);
      SkipWsExactly(t, end, comma);
      var later := FoundMembers(t, comma + 1, key);
      es := [e] + later;
      assert es[1..] == later;
      assert MembersAfter(t, end, comma, later, key);
    }
  }

  lemma {:induction false} MembersFound(t: string, p: nat, es: seq<Entry>, key: string)
    requires CString(t) && MembersTo(t, p, es, key)
    ensures FindMember(t, p, key) == Some(es[|es| - 1].value)
    decreases |es|
  {
    hide EntryShape, EntryAt, SkipWs, Gap;
    EntryExactly(t, p, es[0]);
    if |es| > 1 {
      var end := es[0].value.start + es[0].value.len;
      assert MoreAfter(t, end, es[1..], key);
      var comma: nat :| MembersAfter(t, end, comma, es[1..], key);
      GapInside(t, end, comma);
      SkipWsExactly(t, end, comma);
      QuoteIsNoEnd(t, comma);
      MembersFound(t, comma + 1, es[1..], key);
    }
  }

  ghost predicate FoundIn(t: string, brace: nat, es: seq<Entry>, key: string, v: Span)
    requires CString(t)
  {
    Sign(t, 0, brace, '{') && MembersTo(t, brace + 1, es, key) && es[|es| - 1].value == v
  }

  /** On any text at all, well-formed JSON or not: a lookup finds v exactly when the text begins with a brace
      and members of the right shape, separated by commas, up to the first with that name, and v is its value.
      A missing quote, colon or comma before it, a string or bracket that does not end, and it finds nothing. */
  lemma LookupExactlyWhen(t: string, key: string, v: Span)
    requires CString(t)
    ensures Lookup(t, key) == Some(v) <==> exists brace: nat, es :: FoundIn(t, brace, es, key, v)
  {
    hide FindMember, SkipWs, MembersTo, Gap;
    if Lookup(t, key) == Some(v) {
      var brace := SkipWs(t, 0);
      SkipWsExactly(t, 0, brace);
      var es := FoundMembers(t, brace + 1, key);
      assert FoundIn(t, brace, es, key, v);
    }
    if brace: nat, es :| FoundIn(t, brace, es, key, v) {
      GapInside(t, 0, brace);
      SkipWsExactly(t, 0, brace);
      QuoteIsNoEnd(t, brace);
      MembersFound(t, brace + 1, es, key);
    }
  }
}
