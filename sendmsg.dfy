/**
 * command/sendmsg.go: the `sendmsg <uuid>` frame every call command is sent as.
 *
 * The frame is `sendmsg <uuid>\r\n`, then the header lines joined by CRLF:
 * the lock lines, a computed Content-Length when there is a body, and one
 * `key: value` line per value of the header map, verbatim, in map iteration
 * order (not sorted). A non-empty body follows after one blank line.
 */
module SendMsg {
  import opened GoMaps
  import opened Text
  import opened Mime

  const ContentLength: string := "Content-Length"
  const EventLockLine: string := "event-lock: true"
  const EventLockPriLine: string := "event-lock-pri: true"

  /** `event-lock: true` for Sync, then `event-lock-pri: true` for SyncPri. */
  function LockLines(sync: bool, syncPri: bool): seq<string>
  {
    (if sync then [EventLockLine] else []) + (if syncPri then [EventLockPriLine] else [])
  }

  function ContentLengthLine(body: string): string
  {
    ContentLength + ": " + Itoa(|body|)
  }

  /** The computed Content-Length line, present only when there is a body. */
  function ContentLengthLines(body: string): seq<string>
  {
    if |body| > 0 then [ContentLengthLine(body)] else []
  }

  /** The header map after BuildMessage: allocated if nil, without Content-Length if the body is empty. */
  function FixHeaders(headers: Option<Header>, body: string): Header
  {
    var h := if headers.None? then map[] else headers.value;
    if |body| > 0 then h else h - {ContentLength}
  }

  /** The header lines, in the order they are appended. */
  function HeaderLines(h: Header, body: string, sync: bool, syncPri: bool, order: seq<string>): seq<string>
    requires forall k :: k in order ==> k in h
  {
    LockLines(sync, syncPri) + ContentLengthLines(body) + Lines(h, order, Verbatim)
  }

  /**
   * The text BuildMessage returns for a message with these fields when the
   * (fixed-up) header map is iterated in `order`.
   */
  function Frame(uuid: string, headers: Option<Header>, body: string, sync: bool, syncPri: bool, order: seq<string>): string
    requires IsEnumeration(order, FixHeaders(headers, body).Keys)
  {
    var headerString := Join(HeaderLines(FixHeaders(headers, body), body, sync, syncPri, order), CRLF);
    if |body| > 0 then "sendmsg " + uuid + CRLF + headerString + CRLF + CRLF + body
    else "sendmsg " + uuid + CRLF + headerString
  }

  /**
   * The loop `for key, values := range s.Headers { for _, value := range values { ... } }`:
   * one `key: value` line per value, keys in an unspecified order returned as `order`.
   */
  method MapHeaderLines(h: Header) returns (lines: seq<string>, ghost order: seq<string>)
    ensures IsEnumeration(order, h.Keys)
    ensures lines == Lines(h, order, Verbatim)
  {
    lines := [];
    var remaining := h.Keys;
    order := [];
    RangeStart(h.Keys);
    while remaining != {}
      invariant Visiting(order, h.Keys, remaining)
      invariant lines == Lines(h, order, Verbatim)
      decreases |remaining|
    {
      var key :| key in remaining;
      var values := h[key];
      var i := 0;
      while i < |values|
        invariant 0 <= i <= |values|
        invariant lines == Lines(h, order, Verbatim) + ValueLines(key, values[..i], Verbatim)
      {
        ValueLinesSnoc(key, values, i, Verbatim);
        lines := lines + [key + ": " + values[i]];
        i := i + 1;
      }
      assert values[..i] == values;
      LinesSnoc(h, order, key, Verbatim);
      RangeStep(order, h.Keys, remaining, key);
      order := order + [key];
      remaining := remaining - {key};
    }
    RangeDone(order, h.Keys);
  }

  class SendMessage {
    var UUID: string
    var Headers: Option<Header>
    var Body: string
    var Sync: bool
    var SyncPri: bool

    constructor (uuid: string, headers: Option<Header>, body: string, sync: bool, syncPri: bool)
      ensures UUID == uuid && Headers == headers && Body == body && Sync == sync && SyncPri == syncPri
    {
      UUID, Headers, Body, Sync, SyncPri := uuid, headers, body, sync, syncPri;
    }

    /**
     * Renders the message. The header map is iterated in an unspecified order,
     * returned as the ghost `order`. The receiver's map is allocated if nil and
     * loses Content-Length when the body is empty; nothing else changes.
     */
    method BuildMessage() returns (r: string, ghost order: seq<string>)
      modifies this
      ensures UUID == old(UUID) && Body == old(Body) && Sync == old(Sync) && SyncPri == old(SyncPri)
      ensures Headers == Some(FixHeaders(old(Headers), Body))
      ensures IsEnumeration(order, Headers.value.Keys)
      ensures r == Frame(UUID, old(Headers), Body, Sync, SyncPri, order)
    {
      var headers: seq<string> := [];

      if Headers.None? {
        Headers := Some(map[]);
      }
      if Sync {
        headers := headers + [EventLockLine];
      }
      if SyncPri {
        headers := headers + [EventLockPriLine];
      }
      if |Body| > 0 {
        headers := headers + [ContentLength + ": " + Itoa(|Body|)];
      } else {
        Headers := Some(Headers.value - {ContentLength});
      }

      var h := Headers.value;
      assert headers == LockLines(Sync, SyncPri) + ContentLengthLines(Body);
      var mapLines;
      mapLines, order := MapHeaderLines(h);
      headers := headers + mapLines;

      var headerString := Join(headers, CRLF);
      if |Body| > 0 {
        r := "sendmsg " + UUID + CRLF + headerString + CRLF + CRLF + Body;
      } else {
        r := "sendmsg " + UUID + CRLF + headerString;
      }
    }
  }

  function BoolCount(b: bool): nat { if b then 1 else 0 }

  /**
   * With a body: the header lines are the lock lines, the computed
   * Content-Length line and the map lines; one blank line separates them
   * from the body, which ends the frame. The length field parses back to the
   * body's length.
   */
  lemma FrameWithBody(uuid: string, headers: Option<Header>, body: string, sync: bool, syncPri: bool, order: seq<string>)
    requires |body| > 0
    requires IsEnumeration(order, FixHeaders(headers, body).Keys)
    ensures var h := FixHeaders(headers, body);
            var lines := HeaderLines(h, body, sync, syncPri, order);
            && lines == LockLines(sync, syncPri) + [ContentLength + ": " + Itoa(|body|)] + Lines(h, order, Verbatim)
            && Frame(uuid, headers, body, sync, syncPri, order) == "sendmsg " + uuid + CRLF + Join(lines, CRLF) + CRLF + CRLF + body
    ensures var f := Frame(uuid, headers, body, sync, syncPri, order);
            |f| >= |body| + 4 && f[|f| - |body| - 4..] == CRLF + CRLF + body
    ensures ParseInt(Itoa(|body|)) == |body|
  {
    ItoaRoundTrip(|body|);
  }

  /**
   * Without a body: no Content-Length key is left in the map, no
   * Content-Length line is computed, and the frame ends with the last header
   * line: no trailing CRLF and no blank line.
   */
  lemma FrameWithoutBody(uuid: string, headers: Option<Header>, sync: bool, syncPri: bool, order: seq<string>)
    requires IsEnumeration(order, FixHeaders(headers, "").Keys)
    ensures ContentLength !in FixHeaders(headers, "")
    ensures var h := FixHeaders(headers, "");
            && HeaderLines(h, "", sync, syncPri, order) == LockLines(sync, syncPri) + Lines(h, order, Verbatim)
            && Frame(uuid, headers, "", sync, syncPri, order) == "sendmsg " + uuid + CRLF + Join(LockLines(sync, syncPri) + Lines(h, order, Verbatim), CRLF)
  {
  }

  /** `event-lock` comes first, `event-lock-pri` after it, each only when asked for. */
  lemma LockLinesOrder(sync: bool, syncPri: bool)
    ensures |LockLines(sync, syncPri)| == BoolCount(sync) + BoolCount(syncPri)
    ensures sync ==> LockLines(sync, syncPri)[0] == EventLockLine
    ensures syncPri ==> LockLines(sync, syncPri)[|LockLines(sync, syncPri)| - 1] == EventLockPriLine
    ensures EventLockLine in LockLines(sync, syncPri) <==> sync
    ensures EventLockPriLine in LockLines(sync, syncPri) <==> syncPri
  {
  }

  /** One line per lock flag, one for a body, and one per map value. */
  lemma FrameLineCount(headers: Option<Header>, body: string, sync: bool, syncPri: bool, order: seq<string>)
    requires IsEnumeration(order, FixHeaders(headers, body).Keys)
    ensures |HeaderLines(FixHeaders(headers, body), body, sync, syncPri, order)|
            == BoolCount(sync) + BoolCount(syncPri) + BoolCount(|body| > 0) + TotalValues(FixHeaders(headers, body))
  {
    LinesCountAnyOrder(FixHeaders(headers, body), order, Verbatim);
  }

  /**
   * Every value of every key is written verbatim as its own line `key: value`:
   * value j of the i-th visited key sits after the lock lines, the
   * Content-Length line and the lines of the keys visited before it.
   */
  lemma FrameCarriesEveryValue(headers: Option<Header>, body: string, sync: bool, syncPri: bool, order: seq<string>, i: nat, j: nat)
    requires IsEnumeration(order, FixHeaders(headers, body).Keys)
    requires i < |order| && j < |FixHeaders(headers, body)[order[i]]|
    ensures var h := FixHeaders(headers, body);
            var n := BoolCount(sync) + BoolCount(syncPri) + BoolCount(|body| > 0) + SumBy(order[..i], ValueCount(h)) + j;
            var lines := HeaderLines(h, body, sync, syncPri, order);
            n < |lines| && lines[n] == order[i] + ": " + h[order[i]][j]
  {
    var h := FixHeaders(headers, body);
    EnumerationMembers(order, h.Keys);
    HeaderLineAt(h, body, sync, syncPri, order, i, j);
  }

  lemma HeaderLineAt(h: Header, body: string, sync: bool, syncPri: bool, order: seq<string>, i: nat, j: nat)
    requires forall k :: k in order ==> k in h
    requires i < |order| && j < |h[order[i]]|
    ensures var n := BoolCount(sync) + BoolCount(syncPri) + BoolCount(|body| > 0) + SumBy(order[..i], ValueCount(h)) + j;
            var lines := HeaderLines(h, body, sync, syncPri, order);
            n < |lines| && lines[n] == order[i] + ": " + h[order[i]][j]
  {
    PrefixLength(sync, syncPri, body);
    LineAtAfter(LockLines(sync, syncPri) + ContentLengthLines(body), h, order, i, j, Verbatim);
  }

  /** Every line after the lock and Content-Length lines is `key: value` for a value stored in the map. */
  lemma FrameLineOrigin(headers: Option<Header>, body: string, sync: bool, syncPri: bool, order: seq<string>, n: nat)
    returns (key: string, j: nat)
    requires IsEnumeration(order, FixHeaders(headers, body).Keys)
    requires BoolCount(sync) + BoolCount(syncPri) + BoolCount(|body| > 0) <= n < |HeaderLines(FixHeaders(headers, body), body, sync, syncPri, order)|
    ensures key in FixHeaders(headers, body) && j < |FixHeaders(headers, body)[key]|
    ensures HeaderLines(FixHeaders(headers, body), body, sync, syncPri, order)[n] == key + ": " + FixHeaders(headers, body)[key][j]
  {
    var h := FixHeaders(headers, body);
    EnumerationMembers(order, h.Keys);
    key, j := HeaderLineOrigin(h, body, sync, syncPri, order, n);
  }

  lemma HeaderLineOrigin(h: Header, body: string, sync: bool, syncPri: bool, order: seq<string>, n: nat)
    returns (key: string, j: nat)
    requires forall k :: k in order ==> k in h
    requires BoolCount(sync) + BoolCount(syncPri) + BoolCount(|body| > 0) <= n < |HeaderLines(h, body, sync, syncPri, order)|
    ensures key in h && j < |h[key]|
    ensures HeaderLines(h, body, sync, syncPri, order)[n] == key + ": " + h[key][j]
  {
    PrefixLength(sync, syncPri, body);
    var prefix := LockLines(sync, syncPri) + ContentLengthLines(body);
    var rest := Lines(h, order, Verbatim);
    assert HeaderLines(h, body, sync, syncPri, order) == prefix + rest;
    var m := n - |prefix|;
    var i, j' := LineOrigin(h, order, m, Verbatim);
    key, j := order[i], j';
    assert rest[m] == key + ": " + h[key][j];
  }

  /** The lock lines and the computed length line come before the map lines. */
  lemma PrefixLength(sync: bool, syncPri: bool, body: string)
    ensures |LockLines(sync, syncPri) + ContentLengthLines(body)| == BoolCount(sync) + BoolCount(syncPri) + BoolCount(|body| > 0)
  {
  }

  /** Up to order, the header lines are the same for every iteration order of the map. */
  lemma FrameLinesOrderFree(headers: Option<Header>, body: string, sync: bool, syncPri: bool, a: seq<string>, b: seq<string>)
    requires IsEnumeration(a, FixHeaders(headers, body).Keys)
    requires IsEnumeration(b, FixHeaders(headers, body).Keys)
    ensures multiset(HeaderLines(FixHeaders(headers, body), body, sync, syncPri, a))
         == multiset(HeaderLines(FixHeaders(headers, body), body, sync, syncPri, b))
  {
    LinesPermutation(FixHeaders(headers, body), a, b, Verbatim);
  }

  /**
   * With a body, a Content-Length entry the caller put in the map is kept and
   * written as well, after the computed one: the frame then has two
   * Content-Length lines.
   */
  lemma CallerContentLengthKept(headers: Header, body: string, sync: bool, syncPri: bool, order: seq<string>, j: nat)
    returns (n: nat)
    requires |body| > 0
    requires ContentLength in headers && j < |headers[ContentLength]|
    requires IsEnumeration(order, FixHeaders(Some(headers), body).Keys)
    ensures FixHeaders(Some(headers), body) == headers
    ensures var lines := HeaderLines(headers, body, sync, syncPri, order);
            && |LockLines(sync, syncPri)| < n < |lines|
            && lines[|LockLines(sync, syncPri)|] == ContentLengthLine(body)
            && lines[n] == ContentLength + ": " + headers[ContentLength][j]
  {
    assert FixHeaders(Some(headers), body) == headers;
    EnumerationMembers(order, headers.Keys);
    var i :| 0 <= i < |order| && order[i] == ContentLength;
    n := LengthLinesAt(headers, body, sync, syncPri, order, i, j);
  }

  /** The computed Content-Length line and the line of a stored Content-Length value, over a plain map. */
  lemma LengthLinesAt(h: Header, body: string, sync: bool, syncPri: bool, order: seq<string>, i: nat, j: nat)
    returns (n: nat)
    requires forall k :: k in order ==> k in h
    requires |body| > 0 && i < |order| && order[i] == ContentLength && j < |h[ContentLength]|
    ensures var lines := HeaderLines(h, body, sync, syncPri, order);
            && |LockLines(sync, syncPri)| < n < |lines|
            && lines[|LockLines(sync, syncPri)|] == ContentLengthLine(body)
            && lines[n] == ContentLength + ": " + h[ContentLength][j]
  {
    var locks := LockLines(sync, syncPri);
    var prefix := locks + ContentLengthLines(body);
    assert |prefix| == |locks| + 1 && prefix[|locks|] == ContentLengthLine(body);
    LineAtAfter(prefix, h, order, i, j, Verbatim);
    n := |prefix| + SumBy(order[..i], ValueCount(h)) + j;
  }

  /** Every stored value of every key has its `key: value` line. */
  lemma FrameHasValueLine(headers: Option<Header>, body: string, sync: bool, syncPri: bool, order: seq<string>, k: string, j: nat)
    requires IsEnumeration(order, FixHeaders(headers, body).Keys)
    requires k in FixHeaders(headers, body) && j < |FixHeaders(headers, body)[k]|
    ensures k + ": " + FixHeaders(headers, body)[k][j] in HeaderLines(FixHeaders(headers, body), body, sync, syncPri, order)
  {
    EnumerationMembers(order, FixHeaders(headers, body).Keys);
    var i :| 0 <= i < |order| && order[i] == k;
    FrameCarriesEveryValue(headers, body, sync, syncPri, order, i, j);
  }
}
