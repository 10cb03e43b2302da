/**
 * command/call: the call commands, each sent as a `sendmsg` frame whose
 * header map names the call command and its arguments.
 *
 * Header keys are written in the canonical form textproto.MIMEHeader.Set
 * stores them under (`call-command` is stored as `Call-Command`, `Event-UUID`
 * as `Event-Uuid`).
 */
module Call {
  import opened GoMaps
  import opened Text
  import opened Mime
  import opened SendMsg

  const CallCommand: string := "Call-Command"
  const ExecuteAppName: string := "Execute-App-Name"
  const LoopsKey: string := "Loops"
  const EventUuid: string := "Event-Uuid"
  const ContentType: string := "Content-Type"
  const ExecuteAppArg: string := "Execute-App-Arg"
  const HangupCause: string := "Hangup-Cause"
  const ApplicationKey: string := "Application"
  const NomediaUuid: string := "Nomedia-Uuid"
  const TextPlain: string := "text/plain"

  /** The longest application argument FreeSWITCH takes in a header. */
  const MaxHeaderArgLength: nat := 2048

  /** A frame without a body, for a map that holds no Content-Length key of its own. */
  lemma FixHeadersKeepsMap(h: Header, body: string)
    requires ContentLength !in h
    ensures FixHeaders(Some(h), body) == h
  {
  }

  // ---------------------------------------------------------------------------
  // Execute

  /** A Loops of 0 (unset) is sent as 1. */
  function EffectiveLoops(loops: int): int
  {
    if loops == 0 then 1 else loops
  }

  /** Long arguments, or any when ForceBody is set, travel in the body. */
  predicate ArgsInBody(appArgs: string, forceBody: bool)
  {
    |appArgs| > MaxHeaderArgLength || forceBody
  }

  /** The header map Execute.BuildMessage fills in. */
  function ExecuteHeaders(appName: string, appArgs: string, appUUID: string, loops: int, forceBody: bool): Header
  {
    var h := map[CallCommand := ["execute"], ExecuteAppName := [appName], LoopsKey := [Itoa(EffectiveLoops(loops))]];
    var h := if appUUID != "" then h[EventUuid := [appUUID]] else h;
    if ArgsInBody(appArgs, forceBody) then h[ContentType := [TextPlain]] else h[ExecuteAppArg := [appArgs]]
  }

  function ExecuteBody(appArgs: string, forceBody: bool): string
  {
    if ArgsInBody(appArgs, forceBody) then appArgs else ""
  }

  /** The frame Execute.BuildMessage returns when its header map is iterated in `order`. */
  function ExecuteFrame(uuid: string, appName: string, appArgs: string, appUUID: string, loops: int,
                        sync: bool, syncPri: bool, forceBody: bool, order: seq<string>): string
    requires IsEnumeration(order, ExecuteHeaders(appName, appArgs, appUUID, loops, forceBody).Keys)
  {
    FixHeadersKeepsMap(ExecuteHeaders(appName, appArgs, appUUID, loops, forceBody), ExecuteBody(appArgs, forceBody));
    Frame(uuid, Some(ExecuteHeaders(appName, appArgs, appUUID, loops, forceBody)), ExecuteBody(appArgs, forceBody), sync, syncPri, order)
  }

  /** The header lines of that frame. */
  function ExecuteLines(appName: string, appArgs: string, appUUID: string, loops: int,
                        sync: bool, syncPri: bool, forceBody: bool, order: seq<string>): seq<string>
    requires IsEnumeration(order, ExecuteHeaders(appName, appArgs, appUUID, loops, forceBody).Keys)
  {
    EnumerationMembers(order, ExecuteHeaders(appName, appArgs, appUUID, loops, forceBody).Keys);
    HeaderLines(ExecuteHeaders(appName, appArgs, appUUID, loops, forceBody), ExecuteBody(appArgs, forceBody), sync, syncPri, order)
  }

  class Execute {
    var UUID: string
    var AppName: string
    var AppArgs: string
    var AppUUID: string
    var Loops: int
    var Sync: bool
    var SyncPri: bool
    var ForceBody: bool

    constructor (uuid: string, appName: string, appArgs: string, appUUID: string, loops: int,
                 sync: bool, syncPri: bool, forceBody: bool)
      ensures UUID == uuid && AppName == appName && AppArgs == appArgs && AppUUID == appUUID
      ensures Loops == loops && Sync == sync && SyncPri == syncPri && ForceBody == forceBody
    {
      UUID, AppName, AppArgs, AppUUID := uuid, appName, appArgs, appUUID;
      Loops, Sync, SyncPri, ForceBody := loops, sync, syncPri, forceBody;
    }

    /**
     * Renders the execute command. An unset Loops is set to 1 on the receiver;
     * no other field changes.
     */
    method BuildMessage() returns (r: string, ghost order: seq<string>)
      modifies this
      ensures Loops == EffectiveLoops(old(Loops))
      ensures UUID == old(UUID) && AppName == old(AppName) && AppArgs == old(AppArgs) && AppUUID == old(AppUUID)
      ensures Sync == old(Sync) && SyncPri == old(SyncPri) && ForceBody == old(ForceBody)
      ensures IsEnumeration(order, ExecuteHeaders(AppName, AppArgs, AppUUID, Loops, ForceBody).Keys)
      ensures r == ExecuteFrame(UUID, AppName, AppArgs, AppUUID, Loops, Sync, SyncPri, ForceBody, order)
    {
      if Loops == 0 {
        Loops := 1;
      }
      var headers, body := FillHeaders(AppName, AppArgs, AppUUID, Loops, ForceBody);
      FixHeadersKeepsMap(headers, body);
      var sendMsg := new SendMessage(UUID, Some(headers), body, Sync, SyncPri);
      r, order := sendMsg.BuildMessage();
    }
  }

  /**
   * The headers Execute.BuildMessage sets on its SendMessage, one by one, and
   * the body; `loops` is the already defaulted count.
   */
  method FillHeaders(appName: string, appArgs: string, appUUID: string, loops: int, forceBody: bool)
    returns (headers: Header, body: string)
    requires loops != 0
    ensures headers == ExecuteHeaders(appName, appArgs, appUUID, loops, forceBody)
    ensures body == ExecuteBody(appArgs, forceBody)
  {
    headers := map[];
    headers := headers[CallCommand := ["execute"]];
    headers := headers[ExecuteAppName := [appName]];
    headers := headers[LoopsKey := [Itoa(loops)]];
    if appUUID != "" {
      headers := headers[EventUuid := [appUUID]];
    }
    body := "";
    if |appArgs| > MaxHeaderArgLength || forceBody {
      headers := headers[ContentType := [TextPlain]];
      body := appArgs;
    } else {
      headers := headers[ExecuteAppArg := [appArgs]];
    }
  }

  /**
   * The map Execute writes: call command, application name and loop count
   * always, Event-Uuid exactly when an application UUID is given, and either
   * a text/plain Content-Type (arguments in the body) or Execute-App-Arg.
   * It never holds a Content-Length of its own.
   */
  lemma ExecuteHeadersContents(appName: string, appArgs: string, appUUID: string, loops: int, forceBody: bool)
    ensures var h := ExecuteHeaders(appName, appArgs, appUUID, loops, forceBody);
      && CallCommand in h && h[CallCommand] == ["execute"]
      && ExecuteAppName in h && h[ExecuteAppName] == [appName]
      && LoopsKey in h && h[LoopsKey] == [Itoa(EffectiveLoops(loops))]
      && (EventUuid in h <==> appUUID != "")
      && (appUUID != "" ==> h[EventUuid] == [appUUID])
      && (ContentType in h <==> ArgsInBody(appArgs, forceBody))
      && (ContentType in h ==> h[ContentType] == [TextPlain])
      && (ExecuteAppArg in h <==> !ArgsInBody(appArgs, forceBody))
      && (ExecuteAppArg in h ==> h[ExecuteAppArg] == [appArgs])
      && ContentLength !in h
      && h.Keys <= {CallCommand, ExecuteAppName, LoopsKey, EventUuid, ContentType, ExecuteAppArg}
  {
  }

  /** Loops is sent as its decimal text, 1 when unset, and parses back to that count. */
  lemma ExecuteLoopsLine(uuid: string, appName: string, appArgs: string, appUUID: string, loops: int,
                         sync: bool, syncPri: bool, forceBody: bool, order: seq<string>)
    requires IsEnumeration(order, ExecuteHeaders(appName, appArgs, appUUID, loops, forceBody).Keys)
    ensures LoopsKey + ": " + Itoa(EffectiveLoops(loops)) in ExecuteLines(appName, appArgs, appUUID, loops, sync, syncPri, forceBody, order)
    ensures ParseInt(Itoa(EffectiveLoops(loops))) == (if loops == 0 then 1 else loops)
  {
    var h := ExecuteHeaders(appName, appArgs, appUUID, loops, forceBody);
    ExecuteHeadersContents(appName, appArgs, appUUID, loops, forceBody);
    var body := ExecuteBody(appArgs, forceBody);
    FixHeadersKeepsMap(h, body);
    FrameHasValueLine(Some(h), body, sync, syncPri, order, LoopsKey, 0);
    ItoaRoundTrip(EffectiveLoops(loops));
  }

  /** The frame names the call command and the application. */
  lemma ExecuteNamesApplication(uuid: string, appName: string, appArgs: string, appUUID: string, loops: int,
                                sync: bool, syncPri: bool, forceBody: bool, order: seq<string>)
    requires IsEnumeration(order, ExecuteHeaders(appName, appArgs, appUUID, loops, forceBody).Keys)
    ensures var lines := ExecuteLines(appName, appArgs, appUUID, loops, sync, syncPri, forceBody, order);
      CallCommand + ": " + "execute" in lines && ExecuteAppName + ": " + appName in lines
  {
    var h := ExecuteHeaders(appName, appArgs, appUUID, loops, forceBody);
    ExecuteHeadersContents(appName, appArgs, appUUID, loops, forceBody);
    var body := ExecuteBody(appArgs, forceBody);
    FixHeadersKeepsMap(h, body);
    FrameHasValueLine(Some(h), body, sync, syncPri, order, CallCommand, 0);
    FrameHasValueLine(Some(h), body, sync, syncPri, order, ExecuteAppName, 0);
  }

  /** An application UUID is passed on as Event-Uuid, so its completion can be matched. */
  lemma ExecuteEventUuidLine(uuid: string, appName: string, appArgs: string, appUUID: string, loops: int,
                             sync: bool, syncPri: bool, forceBody: bool, order: seq<string>)
    requires appUUID != ""
    requires IsEnumeration(order, ExecuteHeaders(appName, appArgs, appUUID, loops, forceBody).Keys)
    ensures EventUuid + ": " + appUUID in ExecuteLines(appName, appArgs, appUUID, loops, sync, syncPri, forceBody, order)
  {
    var h := ExecuteHeaders(appName, appArgs, appUUID, loops, forceBody);
    ExecuteHeadersContents(appName, appArgs, appUUID, loops, forceBody);
    var body := ExecuteBody(appArgs, forceBody);
    FixHeadersKeepsMap(h, body);
    FrameHasValueLine(Some(h), body, sync, syncPri, order, EventUuid, 0);
  }

  /**
   * Arguments of at most 2048 bytes without ForceBody go in an
   * Execute-App-Arg header, and the frame has no body and no blank line.
   */
  lemma ExecuteArgsInHeader(uuid: string, appName: string, appArgs: string, appUUID: string, loops: int,
                            sync: bool, syncPri: bool, order: seq<string>)
    requires |appArgs| <= MaxHeaderArgLength
    requires IsEnumeration(order, ExecuteHeaders(appName, appArgs, appUUID, loops, false).Keys)
    ensures var lines := ExecuteLines(appName, appArgs, appUUID, loops, sync, syncPri, false, order);
      && ExecuteAppArg + ": " + appArgs in lines
      && ContentType !in ExecuteHeaders(appName, appArgs, appUUID, loops, false)
      && ExecuteFrame(uuid, appName, appArgs, appUUID, loops, sync, syncPri, false, order) == "sendmsg " + uuid + CRLF + Join(lines, CRLF)
  {
    var h := ExecuteHeaders(appName, appArgs, appUUID, loops, false);
    ExecuteHeadersContents(appName, appArgs, appUUID, loops, false);
    FixHeadersKeepsMap(h, "");
    FrameHasValueLine(Some(h), "", sync, syncPri, order, ExecuteAppArg, 0);
  }

  /**
   * Longer arguments, or any non-empty ones with ForceBody, become the body,
   * announced by a text/plain Content-Type and a Content-Length of their size,
   * and no Execute-App-Arg header is sent.
   */
  lemma ExecuteArgsInBody(uuid: string, appName: string, appArgs: string, appUUID: string, loops: int,
                          sync: bool, syncPri: bool, forceBody: bool, order: seq<string>)
    requires ArgsInBody(appArgs, forceBody) && |appArgs| > 0
    requires IsEnumeration(order, ExecuteHeaders(appName, appArgs, appUUID, loops, forceBody).Keys)
    ensures var lines := ExecuteLines(appName, appArgs, appUUID, loops, sync, syncPri, forceBody, order);
      && ContentType + ": " + TextPlain in lines
      && ContentLengthLine(appArgs) in lines
      && ExecuteAppArg !in ExecuteHeaders(appName, appArgs, appUUID, loops, forceBody)
    ensures ExecuteBody(appArgs, forceBody) == appArgs
  {
    var h := ExecuteHeaders(appName, appArgs, appUUID, loops, forceBody);
    ExecuteHeadersContents(appName, appArgs, appUUID, loops, forceBody);
    FixHeadersKeepsMap(h, appArgs);
    assert ExecuteBody(appArgs, forceBody) == appArgs;
    var lines := HeaderLines(h, appArgs, sync, syncPri, order);
    assert ExecuteLines(appName, appArgs, appUUID, loops, sync, syncPri, forceBody, order) == lines;
    FrameHasValueLine(Some(h), appArgs, sync, syncPri, order, ContentType, 0);
    assert lines[|LockLines(sync, syncPri)|] == ContentLengthLine(appArgs);
  }

  /** Arguments sent in the body end the frame: the header lines, one blank line, then the arguments. */
  lemma ExecuteBodyEnds(uuid: string, appName: string, appArgs: string, appUUID: string, loops: int,
                        sync: bool, syncPri: bool, forceBody: bool, order: seq<string>)
    requires ArgsInBody(appArgs, forceBody) && |appArgs| > 0
    requires IsEnumeration(order, ExecuteHeaders(appName, appArgs, appUUID, loops, forceBody).Keys)
    ensures ExecuteFrame(uuid, appName, appArgs, appUUID, loops, sync, syncPri, forceBody, order)
         == "sendmsg " + uuid + CRLF + Join(ExecuteLines(appName, appArgs, appUUID, loops, sync, syncPri, forceBody, order), CRLF)
            + CRLF + CRLF + appArgs
  {
    var h := ExecuteHeaders(appName, appArgs, appUUID, loops, forceBody);
    assert FixHeaders(Some(h), appArgs) == h;
    assert ExecuteBody(appArgs, forceBody) == appArgs;
  }

  /**
   * ForceBody with empty arguments still announces a text/plain body, but the
   * body is empty, so no Content-Length is sent and the frame ends with the
   * last header line.
   */
  lemma ExecuteForcedEmptyBody(uuid: string, appName: string, appUUID: string, loops: int,
                               sync: bool, syncPri: bool, order: seq<string>)
    requires IsEnumeration(order, ExecuteHeaders(appName, "", appUUID, loops, true).Keys)
    ensures var h := ExecuteHeaders(appName, "", appUUID, loops, true);
      var lines := ExecuteLines(appName, "", appUUID, loops, sync, syncPri, true, order);
      && ContentType + ": " + TextPlain in lines
      && ContentLength !in h
      && lines == LockLines(sync, syncPri) + Lines(h, order, Verbatim)
      && ExecuteFrame(uuid, appName, "", appUUID, loops, sync, syncPri, true, order) == "sendmsg " + uuid + CRLF + Join(lines, CRLF)
  {
    var h := ExecuteHeaders(appName, "", appUUID, loops, true);
    ExecuteHeadersContents(appName, "", appUUID, loops, true);
    FixHeadersKeepsMap(h, "");
    assert ExecuteBody("", true) == "";
    var lines := HeaderLines(h, "", sync, syncPri, order);
    assert ExecuteLines(appName, "", appUUID, loops, sync, syncPri, true, order) == lines;
    FrameWithoutBody(uuid, Some(h), sync, syncPri, order);
    FrameHasValueLine(Some(h), "", sync, syncPri, order, ContentType, 0);
  }

  /** One line per lock flag, one Content-Length line for a body, and four or five map lines. */
  lemma ExecuteLineCount(appName: string, appArgs: string, appUUID: string, loops: int,
                         sync: bool, syncPri: bool, forceBody: bool, order: seq<string>)
    requires IsEnumeration(order, ExecuteHeaders(appName, appArgs, appUUID, loops, forceBody).Keys)
    ensures |ExecuteLines(appName, appArgs, appUUID, loops, sync, syncPri, forceBody, order)|
         == BoolCount(sync) + BoolCount(syncPri) + BoolCount(|ExecuteBody(appArgs, forceBody)| > 0) + 4 + BoolCount(appUUID != "")
  {
    var h := ExecuteHeaders(appName, appArgs, appUUID, loops, forceBody);
    ExecuteHeadersContents(appName, appArgs, appUUID, loops, forceBody);
    var body := ExecuteBody(appArgs, forceBody);
    FixHeadersKeepsMap(h, body);
    FrameLineCount(Some(h), body, sync, syncPri, order);
    ExecuteHeadersSize(appName, appArgs, appUUID, loops, forceBody);
    TotalValuesSingle(h);
  }

  /** Four keys, five with an application UUID, each holding one value. */
  lemma ExecuteHeadersSize(appName: string, appArgs: string, appUUID: string, loops: int, forceBody: bool)
    ensures var h := ExecuteHeaders(appName, appArgs, appUUID, loops, forceBody);
      && |h| == 4 + BoolCount(appUUID != "")
      && forall k :: k in h ==> |h[k]| == 1
  {
    var h0 := map[CallCommand := ["execute"], ExecuteAppName := [appName]];
    assert |h0| == 2;
    var h1 := h0[LoopsKey := [Itoa(EffectiveLoops(loops))]];
    assert |h1| == 3;
    var h2 := if appUUID != "" then h1[EventUuid := [appUUID]] else h1;
    assert |h2| == 3 + BoolCount(appUUID != "");
    var h3 := if ArgsInBody(appArgs, forceBody) then h2[ContentType := [TextPlain]] else h2[ExecuteAppArg := [appArgs]];
    assert |h3| == |h2| + 1;
    assert h3 == ExecuteHeaders(appName, appArgs, appUUID, loops, forceBody);
  }

  // ---------------------------------------------------------------------------
  // Set, Export, Push

  /** Sets a channel variable through the `set` application. */
  datatype Set = Set(UUID: string, Key: string, Value: string, Sync: bool, SyncPri: bool)
  {
    /** `fmt.Sprintf("%s=%s", Key, Value)`. */
    function AppArgs(): string
    {
      Key + "=" + Value
    }

    /** An Execute of `app` with `Key=Value` as forced body and Loops left unset. */
    method BuildMessageAs(app: string) returns (r: string, ghost order: seq<string>)
      ensures IsEnumeration(order, ExecuteHeaders(app, AppArgs(), "", 0, true).Keys)
      ensures r == ExecuteFrame(UUID, app, AppArgs(), "", 0, Sync, SyncPri, true, order)
    {
      var e := new Execute(UUID, app, Key + "=" + Value, "", 0, Sync, SyncPri, true);
      r, order := e.BuildMessage();
    }

    method BuildMessage() returns (r: string, ghost order: seq<string>)
      ensures IsEnumeration(order, ExecuteHeaders("set", AppArgs(), "", 0, true).Keys)
      ensures r == ExecuteFrame(UUID, "set", AppArgs(), "", 0, Sync, SyncPri, true, order)
    {
      r, order := BuildMessageAs("set");
    }
  }

  /** Exports a channel variable: a Set through the `export` application. */
  datatype Export = Export(UUID: string, Key: string, Value: string, Sync: bool, SyncPri: bool)
  {
    /** The Go conversion `Set(e)`. */
    function AsSet(): Set
    {
      Set(UUID, Key, Value, Sync, SyncPri)
    }

    method BuildMessage() returns (r: string, ghost order: seq<string>)
      ensures IsEnumeration(order, ExecuteHeaders("export", AsSet().AppArgs(), "", 0, true).Keys)
      ensures r == ExecuteFrame(UUID, "export", AsSet().AppArgs(), "", 0, Sync, SyncPri, true, order)
    {
      r, order := AsSet().BuildMessageAs("export");
    }
  }

  /** Pushes onto a channel variable: a Set through the `push` application. */
  datatype Push = Push(UUID: string, Key: string, Value: string, Sync: bool, SyncPri: bool)
  {
    /** The Go conversion `Set(p)`. */
    function AsSet(): Set
    {
      Set(UUID, Key, Value, Sync, SyncPri)
    }

    method BuildMessage() returns (r: string, ghost order: seq<string>)
      ensures IsEnumeration(order, ExecuteHeaders("push", AsSet().AppArgs(), "", 0, true).Keys)
      ensures r == ExecuteFrame(UUID, "push", AsSet().AppArgs(), "", 0, Sync, SyncPri, true, order)
    {
      r, order := AsSet().BuildMessageAs("push");
    }
  }

  lemma LoopsUnsetIsOne()
    ensures Itoa(EffectiveLoops(0)) == "1"
  {
    assert NatToDecimal(1) == [DigitChar(1)];
  }

  /** A Set frame names the application and runs it once. */
  lemma SetFrameHeaders(s: Set, app: string, order: seq<string>)
    requires IsEnumeration(order, ExecuteHeaders(app, s.AppArgs(), "", 0, true).Keys)
    ensures var lines := ExecuteLines(app, s.AppArgs(), "", 0, s.Sync, s.SyncPri, true, order);
      && ExecuteAppName + ": " + app in lines
      && LoopsKey + ": " + "1" in lines
  {
    ExecuteNamesApplication(s.UUID, app, s.AppArgs(), "", 0, s.Sync, s.SyncPri, true, order);
    ExecuteLoopsLine(s.UUID, app, s.AppArgs(), "", 0, s.Sync, s.SyncPri, true, order);
    LoopsUnsetIsOne();
  }

  /** A Set frame announces a text/plain body of |Key| + |Value| + 1 bytes. */
  lemma SetFrameBody(s: Set, app: string, order: seq<string>)
    requires IsEnumeration(order, ExecuteHeaders(app, s.AppArgs(), "", 0, true).Keys)
    ensures var lines := ExecuteLines(app, s.AppArgs(), "", 0, s.Sync, s.SyncPri, true, order);
      && ContentType + ": " + TextPlain in lines
      && ContentLength + ": " + Itoa(|s.Key| + |s.Value| + 1) in lines
  {
    var args := s.AppArgs();
    assert |args| == |s.Key| + |s.Value| + 1;
    ExecuteArgsInBody(s.UUID, app, args, "", 0, s.Sync, s.SyncPri, true, order);
    assert ContentLengthLine(args) == ContentLength + ": " + Itoa(|s.Key| + |s.Value| + 1);
  }

  /** The frame of a Set ends with a blank line and `Key=Value`. */
  lemma SetFrameEnds(s: Set, app: string, order: seq<string>)
    requires IsEnumeration(order, ExecuteHeaders(app, s.AppArgs(), "", 0, true).Keys)
    ensures ExecuteFrame(s.UUID, app, s.AppArgs(), "", 0, s.Sync, s.SyncPri, true, order)
         == "sendmsg " + s.UUID + CRLF + Join(ExecuteLines(app, s.AppArgs(), "", 0, s.Sync, s.SyncPri, true, order), CRLF)
            + CRLF + CRLF + s.Key + "=" + s.Value
  {
    ExecuteBodyEnds(s.UUID, app, s.AppArgs(), "", 0, s.Sync, s.SyncPri, true, order);
  }

  /**
   * Set, Export and Push send the same map up to the application name, so
   * their frames have the same keys and agree on every other line.
   */
  lemma SetVariantsDifferInAppName(s: Set, app: string, other: string)
    ensures ExecuteHeaders(other, s.AppArgs(), "", 0, true)
         == ExecuteHeaders(app, s.AppArgs(), "", 0, true)[ExecuteAppName := [other]]
    ensures ExecuteHeaders(other, s.AppArgs(), "", 0, true).Keys == ExecuteHeaders(app, s.AppArgs(), "", 0, true).Keys
  {
  }

  // ---------------------------------------------------------------------------
  // Commands with two headers

  /** A bodiless frame with the lock lines and two header lines in the given order. */
  function TwoLineFrame(uuid: string, sync: bool, syncPri: bool, first: string, second: string): string
  {
    "sendmsg " + uuid + CRLF + Join(LockLines(sync, syncPri) + [first, second], CRLF)
  }

  /** A map of two single-valued keys is written in one of its two orders. */
  lemma TwoHeaderFrame(uuid: string, k1: string, v1: string, k2: string, v2: string,
                       sync: bool, syncPri: bool, order: seq<string>)
    requires k1 != k2 && k1 != ContentLength && k2 != ContentLength
    requires IsEnumeration(order, map[k1 := [v1], k2 := [v2]].Keys)
    ensures FixHeaders(Some(map[k1 := [v1], k2 := [v2]]), "") == map[k1 := [v1], k2 := [v2]]
    ensures var f := Frame(uuid, Some(map[k1 := [v1], k2 := [v2]]), "", sync, syncPri, order);
      f == TwoLineFrame(uuid, sync, syncPri, k1 + ": " + v1, k2 + ": " + v2)
      || f == TwoLineFrame(uuid, sync, syncPri, k2 + ": " + v2, k1 + ": " + v1)
    ensures |HeaderLines(map[k1 := [v1], k2 := [v2]], "", sync, syncPri, order)| == 2 + BoolCount(sync) + BoolCount(syncPri)
  {
    var h := map[k1 := [v1], k2 := [v2]];
    FixHeadersKeepsMap(h, "");
    assert h.Keys == {k1, k2};
    TwoKeyEnumeration(order, k1, k2);
    TwoKeyLines(h, k1, k2);
    TwoKeyLines(h, k2, k1);
    FrameWithoutBody(uuid, Some(h), sync, syncPri, order);
    LockLinesOrder(sync, syncPri);
  }

  /** The lines of two keys holding one value each. */
  lemma TwoKeyLines(h: Header, a: string, b: string)
    requires a in h && b in h && |h[a]| == 1 && |h[b]| == 1
    ensures Lines(h, [a, b], Verbatim) == [a + ": " + h[a][0], b + ": " + h[b][0]]
  {
    assert [a, b][1..] == [b];
    assert [b][1..] == [];
    var va, vb := ValueLines(a, h[a], Verbatim), ValueLines(b, h[b], Verbatim);
    assert |va| == 1 && va[0] == a + ": " + h[a][0];
    assert |vb| == 1 && vb[0] == b + ": " + h[b][0];
    assert Lines(h, [b], Verbatim) == vb + Lines(h, [], Verbatim);
    assert va == [a + ": " + h[a][0]] && vb == [b + ": " + h[b][0]];
  }

  /** A frame for a two-header map with no Content-Length key. */
  function TwoHeaderMessage(uuid: string, h: Header, sync: bool, syncPri: bool, order: seq<string>): string
    requires ContentLength !in h
    requires IsEnumeration(order, h.Keys)
  {
    FixHeadersKeepsMap(h, "");
    Frame(uuid, Some(h), "", sync, syncPri, order)
  }

  /** Hangs up a call with a cause. */
  datatype Hangup = Hangup(UUID: string, Cause: string, Sync: bool, SyncPri: bool)
  {
    function Headers(): Header
    {
      map[CallCommand := ["hangup"], HangupCause := [Cause]]
    }

    method BuildMessage() returns (r: string, ghost order: seq<string>)
      ensures IsEnumeration(order, Headers().Keys)
      ensures r == TwoHeaderMessage(UUID, Headers(), Sync, SyncPri, order)
    {
      var headers: Header := map[];
      headers := headers[CallCommand := ["hangup"]];
      headers := headers[HangupCause := [Cause]];
      var sendMsg := new SendMessage(UUID, Some(headers), "", Sync, SyncPri);
      FixHeadersKeepsMap(headers, "");
      r, order := sendMsg.BuildMessage();
    }
  }

  /** Transfers a call to an application (call command `xferext`). */
  datatype Transfer = Transfer(UUID: string, Application: string, Sync: bool, SyncPri: bool)
  {
    function Headers(): Header
    {
      map[CallCommand := ["xferext"], ApplicationKey := [Application]]
    }

    method BuildMessage() returns (r: string, ghost order: seq<string>)
      ensures IsEnumeration(order, Headers().Keys)
      ensures r == TwoHeaderMessage(UUID, Headers(), Sync, SyncPri, order)
    {
      var headers: Header := map[];
      headers := headers[CallCommand := ["xferext"]];
      headers := headers[ApplicationKey := [Application]];
      var sendMsg := new SendMessage(UUID, Some(headers), "", Sync, SyncPri);
      FixHeadersKeepsMap(headers, "");
      r, order := sendMsg.BuildMessage();
    }
  }

  /** Takes a call off the media path. */
  datatype NoMedia = NoMedia(UUID: string, NoMediaUUID: string, Sync: bool, SyncPri: bool)
  {
    function Headers(): Header
    {
      map[CallCommand := ["nomedia"], NomediaUuid := [NoMediaUUID]]
    }

    method BuildMessage() returns (r: string, ghost order: seq<string>)
      ensures IsEnumeration(order, Headers().Keys)
      ensures r == TwoHeaderMessage(UUID, Headers(), Sync, SyncPri, order)
    {
      var headers: Header := map[];
      headers := headers[CallCommand := ["nomedia"]];
      headers := headers[NomediaUuid := [NoMediaUUID]];
      var sendMsg := new SendMessage(UUID, Some(headers), "", Sync, SyncPri);
      FixHeadersKeepsMap(headers, "");
      r, order := sendMsg.BuildMessage();
    }
  }

  /** The hangup frame: the call command and the cause, in either order, and no body. */
  lemma HangupMessage(c: Hangup, order: seq<string>)
    requires IsEnumeration(order, c.Headers().Keys)
    ensures var f := TwoHeaderMessage(c.UUID, c.Headers(), c.Sync, c.SyncPri, order);
      f == TwoLineFrame(c.UUID, c.Sync, c.SyncPri, CallCommand + ": " + "hangup", HangupCause + ": " + c.Cause)
      || f == TwoLineFrame(c.UUID, c.Sync, c.SyncPri, HangupCause + ": " + c.Cause, CallCommand + ": " + "hangup")
  {
    TwoHeaderFrame(c.UUID, CallCommand, "hangup", HangupCause, c.Cause, c.Sync, c.SyncPri, order);
  }

  /** The transfer frame: call command `xferext` and the application, in either order. */
  lemma TransferMessage(c: Transfer, order: seq<string>)
    requires IsEnumeration(order, c.Headers().Keys)
    ensures var f := TwoHeaderMessage(c.UUID, c.Headers(), c.Sync, c.SyncPri, order);
      f == TwoLineFrame(c.UUID, c.Sync, c.SyncPri, CallCommand + ": " + "xferext", ApplicationKey + ": " + c.Application)
      || f == TwoLineFrame(c.UUID, c.Sync, c.SyncPri, ApplicationKey + ": " + c.Application, CallCommand + ": " + "xferext")
  {
    TwoHeaderFrame(c.UUID, CallCommand, "xferext", ApplicationKey, c.Application, c.Sync, c.SyncPri, order);
  }

  /** The nomedia frame: the call command and the UUID of the other leg, in either order. */
  lemma NoMediaMessage(c: NoMedia, order: seq<string>)
    requires IsEnumeration(order, c.Headers().Keys)
    ensures var f := TwoHeaderMessage(c.UUID, c.Headers(), c.Sync, c.SyncPri, order);
      f == TwoLineFrame(c.UUID, c.Sync, c.SyncPri, CallCommand + ": " + "nomedia", NomediaUuid + ": " + c.NoMediaUUID)
      || f == TwoLineFrame(c.UUID, c.Sync, c.SyncPri, NomediaUuid + ": " + c.NoMediaUUID, CallCommand + ": " + "nomedia")
  {
    TwoHeaderFrame(c.UUID, CallCommand, "nomedia", NomediaUuid, c.NoMediaUUID, c.Sync, c.SyncPri, order);
  }

  /**
   * The expected text of command/call/nomedia_test.go: for UUID `none` and
   * NoMediaUUID `test` the frame is that text up to the order of its two
   * header lines.
   */
  lemma NoMediaTestMessage(order: seq<string>)
    requires IsEnumeration(order, NoMedia("none", "test", false, false).Headers().Keys)
    ensures var f := TwoHeaderMessage("none", NoMedia("none", "test", false, false).Headers(), false, false, order);
      f == "sendmsg none" + CRLF + "Call-Command: nomedia" + CRLF + "Nomedia-Uuid: test"
      || f == "sendmsg none" + CRLF + "Nomedia-Uuid: test" + CRLF + "Call-Command: nomedia"
  {
    var c := NoMedia("none", "test", false, false);
    NoMediaMessage(c, order);
    var l1, l2 := CallCommand + ": " + "nomedia", NomediaUuid + ": " + "test";
    NoMediaTestLines();
    TwoLineFrameWithoutLocks("none", l1, l2);
    TwoLineFrameWithoutLocks("none", l2, l1);
  }

  /** The header lines of the test, spelled out. */
  lemma NoMediaTestLines()
    ensures CallCommand + ": " + "nomedia" == "Call-Command: nomedia"
    ensures NomediaUuid + ": " + "test" == "Nomedia-Uuid: test"
    ensures "sendmsg " + "none" == "sendmsg none"
  {
  }

  /** Without lock flags the frame is the command line and the two header lines. */
  lemma TwoLineFrameWithoutLocks(uuid: string, l1: string, l2: string)
    ensures TwoLineFrame(uuid, false, false, l1, l2) == "sendmsg " + uuid + CRLF + l1 + CRLF + l2
  {
    assert LockLines(false, false) + [l1, l2] == [l1, l2];
    assert [l1, l2][1..] == [l2];
    assert Join([l1, l2], CRLF) == l1 + CRLF + l2;
  }
}
