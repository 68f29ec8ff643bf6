/** HID framing: a JSON message is cut into 63-byte reports and reassembled on the other side, which
    resynchronises by itself after a lost fragment. */
module CodexHid {
  import opened Types

  const REPORT_ID := 6
  const MSG_TYPE_JSON := 2
  const REPORT_LEN: nat := 63
  const PAYLOAD_MAX: nat := 61
  const JSON_MAX: nat := 512
  const METHOD: string := "{\"method\""

  // Reassembly -----------------------------------------------------------------------------------

  /** Where the first top-level object that starts in s is complete, scanning from i. */
  function ScanEnd(s: string, i: nat, depth: int, inString: bool): (e: Option<nat>)
    ensures e.Some? ==> i < e.value <= |s|
    decreases |s| - i
  {
    if i >= |s| then None
    else if inString then
      if s[i] == '\\' then ScanEnd(s, i + 2, depth, true)
      else ScanEnd(s, i + 1, depth, s[i] != '"')
    else if s[i] == '"' then ScanEnd(s, i + 1, depth, true)
    else if s[i] == '{' then ScanEnd(s, i + 1, depth + 1, false)
    else if s[i] == '}' then if depth == 1 then Some(i + 1) else ScanEnd(s, i + 1, depth - 1, false)
    else ScanEnd(s, i + 1, depth, false)
  }

  function Complete(s: string): bool { ScanEnd(s, 0, 0, false).Some? }

  function FromBrace(s: string): string {
    if s == [] || s[0] == '{' then s else FromBrace(s[1..])
  }

  predicate StartsMethod(s: string) { METHOD <= s }

  /** The buffer after one payload, and the object handed to the handler, if any. */
  function Appended(rx: string, payload: string): (string, Option<string>) {
    var kept := if rx != [] && StartsMethod(payload) then [] else rx;
    var added := if kept == [] then FromBrace(payload) else payload;
    if added == [] then (kept, None)
    else if |kept| + |added| >= JSON_MAX then ([], None)
    else if Complete(kept + added) then ([], Some(kept + added))
    else (kept + added, None)
  }

  /** The payload of an output report: the report id may be forwarded; too short or mistyped is none. */
  function PayloadOf(data: string): Option<string> {
    var body := if |data| >= 3 && data[0] as int == REPORT_ID then 1 else 0;
    if |data| < body + 2 || data[body] as int != MSG_TYPE_JSON then None
    else
      var len := Min(data[body + 1] as int, PAYLOAD_MAX);
      if |data| < body + 2 + len then None else Some(data[body + 2..body + 2 + len])
  }

  /** The reassembly buffer, updated in place by every report. */
  class Receiver {
    const rxBuf: array<char>
    var rxLen: nat
    /** Every object handed to the request handler, in order. */
    var handled: seq<string>

    ghost predicate Valid()
      reads this
    {
      rxBuf.Length == JSON_MAX && rxLen < JSON_MAX
    }

    function Held(): string
      requires rxLen <= rxBuf.Length
      reads this, rxBuf
    {
      rxBuf[..rxLen]
    }

    constructor ()
      ensures Valid() && Held() == [] && handled == [] && fresh(rxBuf)
    {
      rxBuf := new char[JSON_MAX](_ => '\0');
      rxLen := 0;
      handled := [];
    }

    method ObjectComplete() returns (complete: bool)
      requires Valid()
      ensures complete == Complete(Held())
    {
      var depth, inString := 0, false;
      ghost var s := Held();
      var i := 0;
      while i < rxLen
        invariant s == Held() && ScanEnd(s, i, depth, inString) == ScanEnd(s, 0, 0, false)
      {
        var c := rxBuf[i];
        assert c == s[i];
        if inString {
          if c == '\\' {
            i := i + 1;
          } else if c == '"' {
            inString := false;
          }
          i := i + 1;
          continue;
        }
        if c == '"' {
          inString := true;
        } else if c == '{' {
          depth := depth + 1;
        } else if c == '}' {
          depth := depth - 1;
          if depth == 0 {
            return true;
          }
        }
        i := i + 1;
      }
      return false;
    }

    method Append(payload0: string)
      requires Valid()
      modifies this, rxBuf
      ensures Valid()
      ensures Held() == Appended(old(Held()), payload0).0
      ensures handled == old(handled) +
        match Appended(old(Held()), payload0).1 case None => [] case Some(call) => [call]
    {
      hide ScanEnd, Complete;
      var payload := payload0;
      ghost var rx := Held();
      if rxLen > 0 && |payload| >= 9 && payload[..9] == METHOD {
        rxLen := 0;
      }
      ghost var kept := Held();
      assert kept == if rx != [] && StartsMethod(payload0) then [] else rx;
      if rxLen == 0 {
        while |payload| > 0 && payload[0] != '{'
          invariant FromBrace(payload) == FromBrace(payload0)
        {
          payload := payload[1..];
        }
      }
      if |payload| == 0 {
        return;
      }
      if rxLen + |payload| >= JSON_MAX {
        rxLen := 0;
        return;
      }
      forall i | 0 <= i < |payload| {
        rxBuf[rxLen + i] := payload[i];
      }
      rxLen := rxLen + |payload|;
      rxBuf[rxLen] := '\0';
      assert Held() == kept + payload;
      var complete := ObjectComplete();
      if complete {
        handled := handled + [Held()];
        rxLen := 0;
      }
    }

    /** One report from the host; only output reports with this report's id are taken. */
    method SetReport(output: bool, id: int, data: string)
      requires Valid()
      modifies this, rxBuf
      ensures Valid()
      ensures (Held(), handled) ==
        if output && id == REPORT_ID then FedOne(old(Held()), old(handled), data) else (old(Held()), old(handled))
    {
      if !output || id != REPORT_ID {
        return;
      }
      var payload := PayloadOf(data);
      if payload.Some? {
        Append(payload.value);
      }
    }
  }

  /** One report's effect on the buffer and the handled objects. */
  function FedOne(rx: string, handled: seq<string>, data: string): (string, seq<string>) {
    match PayloadOf(data)
    case None => (rx, handled)
    case Some(p) =>
      var (rx', call) := Appended(rx, p);
      (rx', handled + match call case None => [] case Some(c) => [c])
  }

  /** Any number of reports. */
  function Fed(rx: string, handled: seq<string>, reports: seq<string>): (string, seq<string>)
    decreases |reports|
  {
    if reports == [] then (rx, handled)
    else
      var (rx', h) := FedOne(rx, handled, reports[0]);
      Fed(rx', h, reports[1..])
  }

  // Fragmentation --------------------------------------------------------------------------------

  function Zeros(n: nat): (z: string)
    ensures |z| == n
  {
    seq(n, _ => '\0')
  }

  function ReportOf(chunk: string): (r: string)
    requires |chunk| <= PAYLOAD_MAX
    ensures |r| == REPORT_LEN
  {
    [MSG_TYPE_JSON as char, |chunk| as char] + chunk + Zeros(PAYLOAD_MAX - |chunk|)
  }

  /** The i-th fragment of a framed message. */
  function Fragment(f: string, i: nat): (c: string)
    requires PAYLOAD_MAX * i < |f|
    ensures 0 < |c| <= PAYLOAD_MAX
  {
    f[PAYLOAD_MAX * i..Min(PAYLOAD_MAX * i + PAYLOAD_MAX, |f|)]
  }

  /** The reports from the i-th fragment on. */
  function ReportsFrom(f: string, i: nat): seq<string>
    decreases |f| - PAYLOAD_MAX * i
  {
    if PAYLOAD_MAX * i >= |f| then [] else [ReportOf(Fragment(f, i))] + ReportsFrom(f, i + 1)
  }

  datatype SendResult = Sent | TooLong | Failed(code: int)

  /** Frame, fragment and notify: the reports of the whole framed message, or of a prefix of them up to
      the first notification the stack refuses; nothing at all for a message that does not fit. */
  method Send(json: string, notify: nat -> int) returns (result: SendResult, reports: seq<string>)
    ensures result.TooLong? <==> |json| + 1 >= JSON_MAX
    ensures result.TooLong? ==> reports == []
    ensures result.Sent? ==> reports == ReportsFrom(json + "\n", 0)
    ensures result.Failed? ==>
      |reports| < |ReportsFrom(json + "\n", 0)| && reports == ReportsFrom(json + "\n", 0)[..|reports|]
      && notify(|reports|) == result.code != 0
  {
    var framed := json + "\n";
    reports := [];
    if |framed| >= JSON_MAX {
      return TooLong, [];
    }
    var offset := 0;
    while offset < |framed|
      invariant offset == PAYLOAD_MAX * |reports|
      invariant reports + ReportsFrom(framed, |reports|) == ReportsFrom(framed, 0)
      decreases |framed| + PAYLOAD_MAX - offset
    {
      var chunk := Min(|framed| - offset, PAYLOAD_MAX);
      var report := ReportOf(framed[offset..offset + chunk]);
      assert framed[offset..offset + chunk] == Fragment(framed, |reports|);
      var ret := notify(|reports|);
      if ret != 0 {
        return Failed(ret), reports;
      }
      assert reports + ([report] + ReportsFrom(framed, |reports| + 1)) == reports + [report] + ReportsFrom(framed, |reports| + 1);
      reports := reports + [report];
      offset := offset + PAYLOAD_MAX;
    }
    return Sent, reports;
  }

  lemma PayloadOfReport(chunk: string)
    requires |chunk| <= PAYLOAD_MAX
    ensures PayloadOf(ReportOf(chunk)) == Some(chunk)
  {
    var r := ReportOf(chunk);
    assert r[0] as int == MSG_TYPE_JSON && r[1] as int == |chunk|;
    assert r[2..2 + |chunk|] == chunk;
  }

  /** One report of 63 characters: the type, the length, that much of the message, and zeros. */
  predicate ReportFor(r: string, chunk: string) {
    && |r| == 63 && |chunk| <= 61 && r[0] == 2 as char && r[1] as int == |chunk| && r[2..2 + |chunk|] == chunk
    && forall k :: 2 + |chunk| <= k < 63 ==> r[k] == 0 as char
  }

  /** What a sequence of reports carries, put together. */
  function Carried(reports: seq<string>): string {
    if reports == [] then ""
    else
      var r := reports[0];
      (if |r| >= 2 && 2 + r[1] as int <= |r| then r[2..2 + r[1] as int] else "") + Carried(reports[1..])
  }

  lemma {:induction false} ReportsCarryTheRest(f: string, i: nat)
    requires PAYLOAD_MAX * i <= |f| + PAYLOAD_MAX
    ensures Carried(ReportsFrom(f, i)) == if PAYLOAD_MAX * i <= |f| then f[PAYLOAD_MAX * i..] else ""
    ensures forall r :: r in ReportsFrom(f, i) ==> exists chunk :: ReportFor(r, chunk)
    decreases |f| + PAYLOAD_MAX - PAYLOAD_MAX * i
  {
    if PAYLOAD_MAX * i < |f| {
      var c, rs := Fragment(f, i), ReportsFrom(f, i);
      ReportsCarryTheRest(f, i + 1);
      IsReportFor(c);
      assert rs[0] == ReportOf(c) && rs[1..] == ReportsFrom(f, i + 1);
      assert f[PAYLOAD_MAX * i..] == c + f[PAYLOAD_MAX * i + |c|..];
    }
  }

  lemma IsReportFor(chunk: string)
    requires |chunk| <= PAYLOAD_MAX
    ensures ReportFor(ReportOf(chunk), chunk)
  {
    var r := ReportOf(chunk);
    assert r[2..2 + |chunk|] == chunk;
  }

  /** The reports a message is sent as carry it whole and in order, and nothing else. */
  lemma ReportsCarryTheMessage(f: string)
    ensures Carried(ReportsFrom(f, 0)) == f
    ensures forall r :: r in ReportsFrom(f, 0) ==> exists chunk :: ReportFor(r, chunk)
  {
    ReportsCarryTheRest(f, 0);
  }

  /** A report carries p exactly when it is, perhaps after the report id, the type, a length and p, which has
      that length but at most 61 characters; what follows is ignored. */
  lemma PayloadExactlyWhen(data: string, p: string)
    ensures PayloadOf(data) == Some(p) <==>
      exists id, n: char, rest :: Carries(data, id, n, p, rest)
  {
    hide PayloadOf, Carries;
    if PayloadOf(data) == Some(p) {
      PayloadIsCarried(data, p);
    }
    if id, n: char, rest :| Carries(data, id, n, p, rest) {
      CarriedIsPayload(data, id, n, p, rest);
    }
  }

  lemma PayloadIsCarried(data: string, p: string)
    requires PayloadOf(data) == Some(p)
    ensures exists id, n: char, rest :: Carries(data, id, n, p, rest)
  {
    var body := if |data| >= 3 && data[0] as int == REPORT_ID then 1 else 0;
    var id, n, rest := data[..body], data[body + 1], data[body + 2 + |p|..];
    assert data == id + ([data[body], n] + (p + rest));
    assert Carries(data, id, n, p, rest);
  }

  lemma CarriedIsPayload(data: string, id: string, n: char, p: string, rest: string)
    requires Carries(data, id, n, p, rest)
    ensures PayloadOf(data) == Some(p)
  {
    var body := [2 as char, n] + (p + rest);
    assert body[2..2 + |p|] == p;
    assert data[|id|..] == body;
    assert data[|id|] == body[0] && data[|id| + 1] == body[1];
    assert data[|id| + 2..|id| + 2 + |p|] == data[|id|..][2..2 + |p|];
  }

  predicate Carries(data: string, id: string, n: char, p: string, rest: string) {
    && (id == [] || id == [6 as char]) && |p| == Min(n as int, 61)
    && data == id + ([2 as char, n] + (p + rest))
  }

  /** What the buffer can hold between reports: nothing, or the start of an object that is not complete. */
  predicate Waiting(rx: string) { rx == "" || (|rx| < 512 && rx[0] == '{' && !Complete(rx)) }

  /** What the handler can be given. */
  predicate Request(h: string) { 0 < |h| < 512 && h[0] == '{' && Complete(h) }

  lemma {:induction false} FromBraceStarts(s: string)
    ensures FromBrace(s) != "" ==> FromBrace(s)[0] == '{'
  {
    if s != "" && s[0] != '{' {
      FromBraceStarts(s[1..]);
    }
  }

  lemma AppendedWaits(rx: string, payload: string)
    requires Waiting(rx)
    ensures var (rx', call) := Appended(rx, payload);
      Waiting(rx') && (call.Some? ==> rx' == "" && Request(call.value))
  {
    hide Complete;
    FromBraceStarts(payload);
  }

  lemma FedOneWaits(rx: string, handled: seq<string>, data: string)
    requires Waiting(rx)
    ensures var (rx', h) := FedOne(rx, handled, data);
      Waiting(rx') && handled <= h && forall i :: |handled| <= i < |h| ==> Request(h[i])
  {
    hide Waiting, Request, Appended, PayloadOf;
    if PayloadOf(data).Some? {
      AppendedWaits(rx, PayloadOf(data).value);
      var (rx', call) := Appended(rx, PayloadOf(data).value);
      if call.Some? {
        assert FedOne(rx, handled, data) == (rx', handled + [call.value]);
      } else {
        assert FedOne(rx, handled, data) == (rx', handled + []);
      }
    }
  }

  /** Whatever reports come in, from whichever senders: the handler is only ever given objects that are
      complete, start with a brace and fit the buffer, and no object is left complete in it. */
  lemma {:induction false} OnlyRequestsAreHandled(rx: string, handled: seq<string>, reports: seq<string>)
    requires Waiting(rx)
    ensures var (rx', h) := Fed(rx, handled, reports);
      Waiting(rx') && handled <= h && forall i :: |handled| <= i < |h| ==> Request(h[i])
    decreases |reports|
  {
    hide Waiting, Request, Appended, PayloadOf;
    if reports != [] {
      FedOneWaits(rx, handled, reports[0]);
      var (rx', h) := FedOne(rx, handled, reports[0]);
      OnlyRequestsAreHandled(rx', h, reports[1..]);
      var all := Fed(rx', h, reports[1..]).1;
      forall i | |handled| <= i < |h| ensures Request(all[i]) {
        assert all[i] == h[i];
      }
    }
  }

  /** A fragment that would overflow the buffer takes what is in it away too, and nothing is handed over. */
  lemma OverflowDropsAll(rx: string, handled: seq<string>, chunk: string)
    requires rx != "" && |chunk| <= PAYLOAD_MAX && !StartsMethod(chunk) && |rx| + |chunk| >= 512 && chunk != ""
    ensures FedOne(rx, handled, ReportOf(chunk)) == ("", handled)
  {
    hide ReportOf, PayloadOf, Complete;
    PayloadOfReport(chunk);
    assert handled + [] == handled;
  }

  // When an object is complete -------------------------------------------------------------------

  /** What a prefix completes, the whole text completes at the same place. */
  lemma {:induction false} PrefixCompletes(s: string, n: nat, i: nat, depth: int, inString: bool)
    requires n <= |s| && ScanEnd(s[..n], i, depth, inString).Some?
    ensures ScanEnd(s, i, depth, inString) == ScanEnd(s[..n], i, depth, inString)
    decreases |s| - i
  {
    if i < n {
      assert s[..n][i] == s[i];
      if inString && s[i] == '\\' {
        PrefixCompletes(s, n, i + 2, depth, true);
      } else if inString {
        PrefixCompletes(s, n, i + 1, depth, s[i] != '"');
      } else if s[i] == '"' {
        PrefixCompletes(s, n, i + 1, depth, true);
      } else if s[i] == '{' {
        PrefixCompletes(s, n, i + 1, depth + 1, false);
      } else if s[i] == '}' {
        if depth != 1 {
          PrefixCompletes(s, n, i + 1, depth - 1, false);
        }
      } else {
        PrefixCompletes(s, n, i + 1, depth, false);
      }
    }
  }

  /** A whole top-level object: its last character is the first place where it is complete. */
  predicate WholeObject(json: string) { ScanEnd(json, 0, 0, false) == Some(|json|) }

  /** No proper prefix of a whole object is complete; anything longer is. */
  lemma CompleteExactlyFrom(json: string, more: string, n: nat)
    requires WholeObject(json) && n <= |json + more|
    ensures Complete((json + more)[..n]) <==> n >= |json|
  {
    var all := json + more;
    assert all[..|json|] == json;
    PrefixCompletes(all, |json|, 0, 0, false);
    if n >= |json| {
      assert all[..n][..|json|] == json;
      PrefixCompletes(all[..n], |json|, 0, 0, false);
    } else if Complete(all[..n]) {
      PrefixCompletes(all, n, 0, 0, false);
    }
  }

  // The round trip -------------------------------------------------------------------------------

  /** No fragment after the first that starts inside the message itself looks like a new request. */
  ghost predicate NoLaterRequest(json: string, i: nat)
  {
    forall k: nat :: i <= k && PAYLOAD_MAX * k < |json + "\n"| ==> !StartsMethod(Fragment(json + "\n", k))
  }

  predicate Sendable(json: string) {
    WholeObject(json) && StartsMethod(json) && |json| + 1 < JSON_MAX
  }

  lemma FedReport(rx: string, handled: seq<string>, f: string, i: nat)
    requires PAYLOAD_MAX * i < |f|
    ensures Fed(rx, handled, ReportsFrom(f, i)) ==
      var (rx', call) := Appended(rx, Fragment(f, i));
      Fed(rx', handled + (match call case None => [] case Some(c) => [c]), ReportsFrom(f, i + 1))
  {
    hide PayloadOf, ReportOf, Appended, Fragment;
    PayloadOfReport(Fragment(f, i));
    var rs := ReportsFrom(f, i);
    assert rs[0] == ReportOf(Fragment(f, i)) && rs[1..] == ReportsFrom(f, i + 1);
  }

  lemma FragmentAppends(f: string, i: nat)
    requires PAYLOAD_MAX * i < |f|
    ensures PAYLOAD_MAX * i + |Fragment(f, i)| <= |f|
    ensures f[..PAYLOAD_MAX * i] + Fragment(f, i) == f[..PAYLOAD_MAX * i + |Fragment(f, i)|]
  {
  }

  /** A buffer holding the message so far takes in the next fragment, which completes it or not. */
  lemma NextFragment(json: string, i: nat)
    requires Sendable(json) && i > 0 && PAYLOAD_MAX * i < |json|
    requires !StartsMethod(Fragment(json + "\n", i))
    ensures var f := json + "\n";
      var n := PAYLOAD_MAX * i + |Fragment(f, i)|;
      && n <= |f|
      && Appended(f[..PAYLOAD_MAX * i], Fragment(f, i)) ==
           if n >= |json| then ([], Some(f[..n])) else (f[..n], None)
  {
    hide ScanEnd, Fragment;
    var f := json + "\n";
    FragmentAppends(f, i);
    CompleteExactlyFrom(json, "\n", PAYLOAD_MAX * i + |Fragment(f, i)|);
  }

  /** A lone newline is ignored between messages. */
  lemma NewlineIgnored(json: string, i: nat)
    requires i > 0 && PAYLOAD_MAX * i == |json|
    ensures Fragment(json + "\n", i) == "\n" && Appended([], "\n") == ([], None)
    ensures ReportsFrom(json + "\n", i + 1) == []
  {
    assert FromBrace("\n") == FromBrace("\n"[1..]) == "";
  }

  predicate DeliveredOnce(result: (string, seq<string>), handled: seq<string>, json: string) {
    result.0 == [] && (result.1 == handled + [json] || result.1 == handled + [json + "\n"])
  }

  /** From the middle of a message on. */
  lemma {:induction false} RestDelivers(json: string, handled: seq<string>, i: nat)
    requires Sendable(json) && i > 0 && PAYLOAD_MAX * i < |json| && NoLaterRequest(json, i)
    ensures DeliveredOnce(Fed((json + "\n")[..PAYLOAD_MAX * i], handled, ReportsFrom(json + "\n", i)), handled, json)
    decreases |json| - PAYLOAD_MAX * i
  {
    hide ScanEnd, Appended, Fed;
    var f := json + "\n";
    var n := PAYLOAD_MAX * i + |Fragment(f, i)|;
    FedReport(f[..PAYLOAD_MAX * i], handled, f, i);
    assert !StartsMethod(Fragment(f, i));
    NextFragment(json, i);
    if n < |json| {
      assert handled + [] == handled;
      RestDelivers(json, handled, i + 1);
    } else {
      FinishDelivery(json, handled, i, n);
    }
  }

  lemma FinishDelivery(json: string, handled: seq<string>, i: nat, n: nat)
    requires PAYLOAD_MAX * i < |json| <= n <= |json| + 1 && n == PAYLOAD_MAX * i + |Fragment(json + "\n", i)|
    ensures DeliveredOnce(Fed([], handled + [(json + "\n")[..n]], ReportsFrom(json + "\n", i + 1)), handled, json)
  {
    var f := json + "\n";
    assert f[..|json|] == json && f[..|f|] == f;
    if PAYLOAD_MAX * (i + 1) < |f| {
      assert n == |json| == PAYLOAD_MAX * (i + 1);
      NewlineIgnored(json, i + 1);
      FedReport([], handled + [json], f, i + 1);
      assert handled + [json] + [] == handled + [json];
    }
  }

  /** The first fragment discards whatever an earlier, broken message left behind. */
  lemma FirstFragment(rx: string, json: string)
    requires Sendable(json)
    ensures var f := json + "\n";
      var n := |Fragment(f, 0)|;
      && n <= |f|
      && Appended(rx, Fragment(f, 0)) == if n >= |json| then ([], Some(f[..n])) else (f[..n], None)
  {
    hide ScanEnd;
    var f := json + "\n";
    assert |METHOD| == 9 && json[..9] == METHOD;
    var c := Fragment(f, 0);
    assert c[..9] == METHOD && c[0] == '{';
    assert c == f[..|c|];
    CompleteExactlyFrom(json, "\n", |c|);
    assert [] + c == c;
  }

  /** From any state of the buffer, the reports of one message hand its text to the handler exactly
      once, save possibly a trailing newline, and leave the buffer empty. */
  lemma DeliversOnce(rx: string, handled: seq<string>, json: string)
    requires Sendable(json) && NoLaterRequest(json, 1)
    ensures DeliveredOnce(Fed(rx, handled, ReportsFrom(json + "\n", 0)), handled, json)
  {
    hide ScanEnd, Appended, Fed;
    var f := json + "\n";
    var n := |Fragment(f, 0)|;
    FedReport(rx, handled, f, 0);
    FirstFragment(rx, json);
    if n < |json| {
      assert handled + [] == handled;
      RestDelivers(json, handled, 1);
    } else {
      FinishDelivery(json, handled, 0, n);
    }
  }

  // Otherwise the message is lost ----------------------------------------------------------------

  /** Nothing handed over is longer than what was held plus what came in. */
  predicate AllShort(calls: seq<string>, from: nat, limit: nat) {
    forall k :: from <= k < |calls| ==> |calls[k]| <= limit
  }

  lemma {:induction false} FromBraceShrinks(s: string)
    ensures |FromBrace(s)| <= |s|
  {
    if s != [] && s[0] != '{' {
      FromBraceShrinks(s[1..]);
    }
  }

  lemma AppendedShort(rx: string, c: string)
    ensures var (rx', call) := Appended(rx, c);
      |rx'| <= |rx| + |c| && (call.Some? ==> |call.value| <= |rx| + |c| && rx' == [])
  {
    hide ScanEnd;
    FromBraceShrinks(c);
  }

  lemma {:induction false} FedShort(rx: string, handled: seq<string>, f: string, i: nat, from: nat, limit: nat)
    requires PAYLOAD_MAX * i <= |f| + PAYLOAD_MAX
    requires |rx| + (if PAYLOAD_MAX * i < |f| then |f| - PAYLOAD_MAX * i else 0) <= limit
    requires AllShort(handled, from, limit) && from <= |handled|
    ensures AllShort(Fed(rx, handled, ReportsFrom(f, i)).1, from, limit)
    ensures handled <= Fed(rx, handled, ReportsFrom(f, i)).1
    decreases |f| + PAYLOAD_MAX - PAYLOAD_MAX * i
  {
    hide Appended, Fed;
    if PAYLOAD_MAX * i < |f| {
      var c := Fragment(f, i);
      FedReport(rx, handled, f, i);
      AppendedShort(rx, c);
      var (rx', call) := Appended(rx, c);
      FedShort(rx', handled + (match call case None => [] case Some(x) => [x]), f, i + 1, from, limit);
    } else {
      FedNone(rx, handled);
    }
  }

  lemma FedNone(rx: string, handled: seq<string>)
    ensures Fed(rx, handled, []) == (rx, handled)
  {
  }

  /** A fragment that looks like a new request drops what came before it, so the message is never whole. */
  lemma CutHere(rx: string, json: string, handled: seq<string>, i: nat)
    requires i > 0 && PAYLOAD_MAX * i < |json| + 1 && StartsMethod(Fragment(json + "\n", i))
    ensures !DeliveredOnce(Fed(rx, handled, ReportsFrom(json + "\n", i)), handled, json)
  {
    hide ScanEnd, Fed, Fragment, ReportsFrom, FromBrace;
    var f := json + "\n";
    var c := Fragment(f, i);
    FedReport(rx, handled, f, i);
    AppendedShort([], c);
    assert Appended(rx, c) == Appended([], c);
    FragmentAppends(f, i);
    var (rx', call) := Appended(rx, c);
    var handled' := handled + (match call case None => [] case Some(x) => [x]);
    FedShort(rx', handled', f, i + 1, |handled|, |f| - PAYLOAD_MAX * i);
    NotDelivered(Fed(rx, handled, ReportsFrom(f, i)), handled, json, |f| - PAYLOAD_MAX * i);
  }

  lemma NotDelivered(result: (string, seq<string>), handled: seq<string>, json: string, limit: nat)
    requires AllShort(result.1, |handled|, limit) && limit < |json|
    ensures !DeliveredOnce(result, handled, json)
  {
    if |handled| < |result.1| {
      assert |result.1[|handled|]| <= limit;
    }
  }

  /** From the middle of a message on, when some later fragment looks like a new request. */
  lemma {:induction false} RestLoses(json: string, handled: seq<string>, i: nat)
    requires Sendable(json) && i > 0 && PAYLOAD_MAX * i < |json| && !NoLaterRequest(json, i)
    ensures !DeliveredOnce(Fed((json + "\n")[..PAYLOAD_MAX * i], handled, ReportsFrom(json + "\n", i)), handled, json)
    decreases |json| - PAYLOAD_MAX * i
  {
    hide ScanEnd, Fed, Appended;
    var f := json + "\n";
    var c := Fragment(f, i);
    if StartsMethod(c) {
      CutHere(f[..PAYLOAD_MAX * i], json, handled, i);
    } else {
      FedReport(f[..PAYLOAD_MAX * i], handled, f, i);
      NextFragment(json, i);
      if PAYLOAD_MAX * i + |c| < |json| {
        assert handled + [] == handled;
        RestLoses(json, handled, i + 1);
      } else {
        LastFragmentClean(json, i);
      }
    }
  }

  /** If fragment i reaches the end of the message and is clean, so is everything after it. */
  lemma LastFragmentClean(json: string, i: nat)
    requires PAYLOAD_MAX * i < |json| <= PAYLOAD_MAX * i + |Fragment(json + "\n", i)|
    requires !StartsMethod(Fragment(json + "\n", i))
    ensures NoLaterRequest(json, i)
  {
  }

  /** The exact condition for delivery: no fragment but the first starts like a new request. */
  lemma DeliveredExactlyWhen(rx: string, handled: seq<string>, json: string)
    requires Sendable(json)
    ensures DeliveredOnce(Fed(rx, handled, ReportsFrom(json + "\n", 0)), handled, json) <==> NoLaterRequest(json, 1)
  {
    hide ScanEnd, Appended, Fed;
    if NoLaterRequest(json, 1) {
      DeliversOnce(rx, handled, json);
    } else {
      var f := json + "\n";
      var k: nat :| 1 <= k && PAYLOAD_MAX * k < |f| && StartsMethod(Fragment(f, k));
      assert |Fragment(f, k)| >= 9;
      FedReport(rx, handled, f, 0);
      FirstFragment(rx, json);
      assert handled + [] == handled;
      RestLoses(json, handled, 1);
    }
  }
}
