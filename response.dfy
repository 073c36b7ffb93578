/**
 * Interpreting what the transport returned. JSON decoding is not modelled:
 * a body comes with what `json_decode` made of it. Warnings are returned
 * rather than raised.
 */
module Response {
  import opened PhpArrays

  /** Every warning the client raises starts with this tag. */
  const Tag: string := "[Venditan/Success] "

  const CommunicationError: string := "Communication error, HTTP GET failed?"
  const InvalidJson: string := "Invalid JSON response from server: "
  const ServerMessages: string := "Failed. Messages from server: "
  const Unexpected: string := "Unexpected response from server: "

  /** A decoded JSON property value. Arrays and objects are not told apart. */
  datatype Json = JNull | JBool(b: bool) | JNumber(n: int) | JString(s: string) | JComposite

  /** What `json_decode` returned for a body: PHP false (only for a body
      that is the JSON literal false, surrounding whitespace allowed), null
      (invalid JSON, or the literal null), some other non-object value, or
      an object with its `success` property and, when it is set and not
      null, its `messages` property as a list of strings. */
  datatype Decoded =
    | DecodedFalse
    | DecodedNull
    | DecodedOther
    | DecodedObject(success: Option<Json>, messages: Option<seq<string>>)

  /** What the transport returned: PHP false when the request failed, or a
      body together with its decoding. */
  datatype TransportResult = TransportFalse | Body(raw: string, decoded: Decoded)

  /** The return value of `send` and the warning raised on the way, if any. */
  datatype Report = Report(ok: bool, warning: Option<string>)

  /** `warning($str_message)`: the text handed to trigger_error. */
  function Warning(message: string): (w: string)
    ensures |w| == |Tag| + |message|
    ensures w[..|Tag|] == Tag && w[|Tag|..] == message
  {
    Tag + message
  }

  /** `implode($sep, $items)`. */
  function Join(items: seq<string>, sep: string): (r: string)
    ensures |items| == 0 ==> r == ""
    ensures |items| == 1 ==> r == items[0]
    decreases |items|
  {
    if |items| == 0 then ""
    else if |items| == 1 then items[0]
    else items[0] + sep + Join(items[1..], sep)
  }

  /** Where the i-th item starts in `Join(items, sep)`. */
  function JoinOffset(items: seq<string>, sep: string, i: nat): nat
    requires i < |items|
    decreases i
  {
    if i == 0 then 0 else |items[0]| + |sep| + JoinOffset(items[1..], sep, i - 1)
  }

  /** The server reported success: a decoded object whose success property
      is set and identical to true. */
  predicate Succeeded(r: TransportResult) {
    r.Body? && r.decoded.DecodedObject? && r.decoded.success == Some(JBool(true))
  }

  /** `processResponse($str_response)`: true, without a warning, exactly when
      the server reported success; otherwise false and one tagged warning. */
  function ProcessResponse(r: TransportResult): (rep: Report)
    ensures rep.ok <==> Succeeded(r)
    ensures rep.ok <==> rep.warning.None?
    ensures rep.warning.Some? ==> Tag <= rep.warning.value
  {
    match r
    case TransportFalse => Report(false, Some(Warning(CommunicationError)))
    case Body(raw, decoded) =>
      match decoded
      case DecodedFalse => Report(false, Some(Warning(InvalidJson + raw)))
      case DecodedObject(success, messages) =>
        if success == Some(JBool(true)) then Report(true, None)
        else if messages.Some? then Report(false, Some(Warning(ServerMessages + Join(messages.value, ", "))))
        else Report(false, Some(Warning(Unexpected + raw)))
      case _ => Report(false, Some(Warning(Unexpected + raw)))
  }

  lemma SliceAfter<T>(a: seq<T>, b: seq<T>, lo: nat, hi: nat)
    requires lo <= hi <= |b|
    ensures (a + b)[|a| + lo..|a| + hi] == b[lo..hi]
  {
  }

  lemma JoinFirst(items: seq<string>, sep: string)
    requires |items| > 0
    ensures |items[0]| <= |Join(items, sep)|
    ensures Join(items, sep)[..|items[0]|] == items[0]
  {
    if |items| > 1 {
      var rest := Join(items[1..], sep);
      assert Join(items, sep) == items[0] + (sep + rest);
      assert (items[0] + (sep + rest))[..|items[0]|] == items[0];
    }
  }

  lemma JoinLater(items: seq<string>, sep: string, i: nat)
    requires 0 < i < |items|
    requires JoinOffset(items[1..], sep, i - 1) + |items[i]| <= |Join(items[1..], sep)|
    requires var off := JoinOffset(items[1..], sep, i - 1);
      Join(items[1..], sep)[off..off + |items[i]|] == items[i]
    ensures JoinOffset(items, sep, i) + |items[i]| <= |Join(items, sep)|
    ensures Join(items, sep)[JoinOffset(items, sep, i)..JoinOffset(items, sep, i) + |items[i]|] == items[i]
  {
    var head := items[0] + sep;
    var rest := Join(items[1..], sep);
    var off := JoinOffset(items[1..], sep, i - 1);
    assert Join(items, sep) == head + rest;
    assert JoinOffset(items, sep, i) == |head| + off;
    SliceAfter(head, rest, off, off + |items[i]|);
  }

  /** Each item can be read back from the joined string at its offset. */
  lemma {:induction false} JoinHolds(items: seq<string>, sep: string, i: nat)
    requires i < |items|
    ensures JoinOffset(items, sep, i) + |items[i]| <= |Join(items, sep)|
    ensures Join(items, sep)[JoinOffset(items, sep, i)..JoinOffset(items, sep, i) + |items[i]|] == items[i]
    decreases i
  {
    if i == 0 {
      JoinFirst(items, sep);
    } else {
      JoinHolds(items[1..], sep, i - 1);
      assert items[1..][i - 1] == items[i];
      JoinLater(items, sep, i);
    }
  }

  /** Joining one more item appends the separator and then that item, so
      the separator stands between every two consecutive items. */
  lemma {:induction false} JoinSnoc(items: seq<string>, x: string, sep: string)
    requires |items| > 0
    ensures Join(items + [x], sep) == Join(items, sep) + sep + x
    decreases |items|
  {
    if |items| == 1 {
      assert (items + [x])[1..] == [x];
    } else {
      assert (items + [x])[1..] == items[1..] + [x];
      JoinSnoc(items[1..], x, sep);
      var rest := Join(items[1..], sep);
      assert items[0] + sep + (rest + sep + x) == (items[0] + sep + rest) + sep + x;
    }
  }

  /** The warnings come in a fixed order of precedence: a failed transfer,
      then a body that decodes to false, then messages from the server, and
      otherwise an unexpected response quoting the raw body. */
  lemma WarningPrecedence(r: TransportResult)
    ensures r.TransportFalse? ==>
      ProcessResponse(r).warning == Some(Tag + CommunicationError)
    ensures r.Body? && r.decoded.DecodedFalse? ==>
      ProcessResponse(r).warning == Some(Tag + InvalidJson + r.raw)
    ensures r.Body? && r.decoded.DecodedObject? && !Succeeded(r) && r.decoded.messages.Some? ==>
      ProcessResponse(r).warning == Some(Tag + ServerMessages + Join(r.decoded.messages.value, ", "))
    ensures r.Body? && !r.decoded.DecodedFalse? && !Succeeded(r) &&
            !(r.decoded.DecodedObject? && r.decoded.messages.Some?) ==>
      ProcessResponse(r).warning == Some(Tag + Unexpected + r.raw)
  {
    if r.Body? {
      assert Tag + (InvalidJson + r.raw) == Tag + InvalidJson + r.raw;
      assert Tag + (Unexpected + r.raw) == Tag + Unexpected + r.raw;
      if r.decoded.DecodedObject? && r.decoded.messages.Some? {
        var j := Join(r.decoded.messages.value, ", ");
        assert Tag + (ServerMessages + j) == Tag + ServerMessages + j;
      }
    }
  }

  /** When the server fails with messages, every message appears in the
      warning, at a known position. */
  lemma ServerMessagesInWarning(r: TransportResult, i: nat)
    requires r.Body? && r.decoded.DecodedObject? && !Succeeded(r)
    requires r.decoded.messages.Some? && i < |r.decoded.messages.value|
    ensures ProcessResponse(r).warning.Some?
    ensures var w := ProcessResponse(r).warning.value;
      var ms := r.decoded.messages.value;
      var at := |Tag| + |ServerMessages| + JoinOffset(ms, ", ", i);
      at + |ms[i]| <= |w| && w[at..at + |ms[i]|] == ms[i]
  {
    var ms := r.decoded.messages.value;
    var head := Tag + ServerMessages;
    var j := Join(ms, ", ");
    JoinHolds(ms, ", ", i);
    WarningPrecedence(r);
    var off := JoinOffset(ms, ", ", i);
    SliceAfter(head, j, off, off + |ms[i]|);
  }

  /** A body that is not valid JSON decodes to null, so it is reported as an
      unexpected response, quoting the body, and not as invalid JSON. */
  lemma InvalidBodyIsUnexpected(raw: string)
    ensures ProcessResponse(Body(raw, DecodedNull)) ==
      Report(false, Some(Tag + Unexpected + raw))
  {
    assert Tag + (Unexpected + raw) == Tag + Unexpected + raw;
  }

  /** A success property that is set but not identical to true (1, "true",
      false, ...) does not count as success. */
  lemma LooseSuccessIsFailure(raw: string, v: Json, messages: Option<seq<string>>)
    requires v != JBool(true)
    ensures !ProcessResponse(Body(raw, DecodedObject(Some(v), messages))).ok
  {
  }

  /** The server's responses `{"success": true}` and
      `{"success": false, "messages": ["bad token"]}`. */
  lemma ServerScenarios(raw: string)
    ensures ProcessResponse(Body(raw, DecodedObject(Some(JBool(true)), None))) == Report(true, None)
    ensures ProcessResponse(Body(raw, DecodedObject(Some(JBool(false)), Some(["bad token"])))) ==
      Report(false, Some(Tag + ServerMessages + "bad token"))
  {
    assert Join(["bad token"], ", ") == "bad token";
    assert Tag + (ServerMessages + "bad token") == Tag + ServerMessages + "bad token";
  }
}
