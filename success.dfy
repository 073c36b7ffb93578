/**
 * The client object `Venditan\Success`: a fluent builder whose setters update
 * its private fields in place and return the object itself, a `send` that
 * issues one GET through whichever transport is available, and the
 * destructor that sends unless the sent flag is set.
 */
module Venditan {
  import opened PhpArrays
  import opened Expectation
  import opened Payload
  import opened Response

  /** The endpoint; the URL-encoded parameters follow it. */
  const BaseUrl: string := "https://venditan-success.appspot.com/expect?"

  /** The two ways of issuing the GET: cURL when the extension is loaded,
      file_get_contents otherwise. */
  datatype Channel = Curl | FileGetContents

  /** The value of the "tx" parameter that names the transport. */
  function TxTag(c: Channel): (t: string)
    ensures t == "curl" <==> c == Curl
    ensures t == "fgc" <==> c == FileGetContents
  {
    match c
    case Curl => "curl"
    case FileGetContents => "fgc"
  }

  /** One GET: the transport used, the base URL and the parameters that
      http_build_query appends to it. */
  datatype Request = Request(channel: Channel, baseUrl: string, query: PhpArray)

  /** The request `send` issues for an expectation in state f: cURL when it
      is available and file_get_contents otherwise, with the seven fixed
      parameters followed by the transport tag. */
  function SendRequest(f: Fields, curlAvailable: bool, hostname: Value): (q: Request)
    ensures q.channel == (if curlAvailable then Curl else FileGetContents)
    ensures q.baseUrl == BaseUrl
    ensures q.query == Build(f, hostname, None) + [(StrKey("tx"), Str(TxTag(q.channel)))]
    ensures |q.query| == 8 && Keys(q.query)[..7] == FixedKeys
  {
    var c := if curlAvailable then Curl else FileGetContents;
    var tx := (StrKey("tx"), Str(TxTag(c)));
    BuildTagged(f, hostname, TxTag(c));
    BuildWithoutExtras(f, hostname);
    KeysAppend(Build(f, hostname, None), tx);
    Request(c, BaseUrl, Build(f, hostname, Some(TxExtras(TxTag(c)))))
  }

  class Success {
    var event: Value
    var source: Value
    var every: Value
    var email: Value
    var sms: Value
    var message: Value
    var token: Value
    var sent: bool

    /** The object's fields as a value. */
    function State(): Fields
      reads this
    {
      Fields(event, source, every, email, sms, message, token, sent)
    }

    /** `__construct($str_event)`, with the host's name passed in. */
    constructor (event: Value, hostname: Value)
      ensures State() == Initial(event, hostname)
    {
      this.event := event;
      this.source := hostname;
      this.every := Null;
      this.email := Null;
      this.sms := Null;
      this.message := Null;
      this.token := Str(Trial);
      this.sent := false;
    }

    /** `expect($str_event)`: the factory. */
    static method Expect(event: Value, hostname: Value) returns (s: Success)
      ensures fresh(s)
      ensures s.State() == Initial(event, hostname)
    {
      s := new Success(event, hostname);
    }

    method From(source: Value) returns (self: Success)
      modifies this
      ensures self == this
      ensures State() == Configure(old(State()), FromSource(source))
    {
      this.source := source;
      self := this;
    }

    method Never() returns (self: Success)
      modifies this
      ensures self == this
      ensures State() == Configure(old(State()), NeverSentinel)
    {
      every := Str("never");
      self := this;
    }

    method Every(interval: Value) returns (self: Success)
      modifies this
      ensures self == this
      ensures State() == Configure(old(State()), EveryInterval(interval))
    {
      every := interval;
      self := this;
    }

    method Cancel() returns (self: Success)
      modifies this
      ensures self == this
      ensures State() == Configure(old(State()), CancelSentinel)
    {
      every := Str(Expectation.Cancel);
      self := this;
    }

    method Email(recipient: Value) returns (self: Success)
      modifies this
      ensures self == this
      ensures State() == Configure(old(State()), EmailTo(recipient))
    {
      email := recipient;
      self := this;
    }

    method Sms(recipient: Value) returns (self: Success)
      modifies this
      ensures self == this
      ensures State() == Configure(old(State()), SmsTo(recipient))
    {
      sms := recipient;
      self := this;
    }

    method Token(value: Value) returns (self: Success)
      modifies this
      ensures self == this
      ensures State() == Configure(old(State()), TokenValue(value))
    {
      token := value;
      self := this;
    }

    method Message(text: Value) returns (self: Success)
      modifies this
      ensures self == this
      ensures State() == Configure(old(State()), MessageText(text))
    {
      message := text;
      self := this;
    }

    /** `once($str_interval)`: `every` with "once:" prepended. */
    method Once(interval: Value) returns (self: Success)
      modifies this
      ensures self == this
      ensures State() == Configure(old(State()), OnceInterval(interval))
    {
      self := Every(Str("once:" + ToPhpString(interval)));
    }

    /** `send()`: issues the request through the transport and returns what
        processResponse makes of the result. The sent flag is left as it is. */
    method Send(curlAvailable: bool, hostname: Value, transport: Request -> TransportResult)
      returns (ok: bool, warning: Option<string>)
      ensures Report(ok, warning) == ProcessResponse(transport(SendRequest(State(), curlAvailable, hostname)))
      ensures ok <==> Succeeded(transport(SendRequest(State(), curlAvailable, hostname)))
    {
      var channel := if curlAvailable then Curl else FileGetContents;
      var query := Build(State(), hostname, Some(TxExtras(TxTag(channel))));
      var response := transport(Request(channel, BaseUrl, query));
      var report := ProcessResponse(response);
      ok, warning := report.ok, report.warning;
    }

    /** `__destruct()`: sends, unless the sent flag is set. Returns the
        report of that send, if one was made. */
    method Destruct(curlAvailable: bool, hostname: Value, transport: Request -> TransportResult)
      returns (report: Option<Report>)
      ensures report.Some? <==> !sent
      ensures report.Some? ==>
        report.value == ProcessResponse(transport(SendRequest(State(), curlAvailable, hostname)))
    {
      if !sent {
        var ok, warning := Send(curlAvailable, hostname, transport);
        report := Some(Report(ok, warning));
      } else {
        report := None;
      }
    }
  }

  /** The usage in examples/cron3.php: an hourly job expected every 65
      minutes, with an SMS recipient and a message, reported when the object
      is destroyed. Because nothing sets the sent flag, the destructor always
      sends. */
  method Cron3Scenario(curlAvailable: bool, hostname: Value, transport: Request -> TransportResult)
    returns (report: Option<Report>)
    ensures report.Some?
    ensures report.value == ProcessResponse(transport(SendRequest(
      Fields(Str("Regular job"), hostname, Str("65m"), Null, Str("07000000000"),
             Str("Took 30 seconds"), Str(Trial), false),
      curlAvailable, hostname)))
  {
    var s := Success.Expect(Str("Regular job"), hostname);
    s := s.Every(Str("65m"));
    s := s.Sms(Str("07000000000"));
    s := s.Message(Str("Took 30 seconds"));
    assert s.State() == Fields(Str("Regular job"), hostname, Str("65m"), Null, Str("07000000000"),
                               Str("Took 30 seconds"), Str(Trial), false);
    report := s.Destruct(curlAvailable, hostname, transport);
  }

  /** An explicit send followed by the destructor: the destructor issues the
      same request a second time, because `send` never records that it has
      sent. The two GETs are separate transfers, so each gets its own
      answer: `firstGet` answers the explicit send and `secondGet` the
      destructor's. */
  method SendThenDestroy(event: Value, curlAvailable: bool, hostname: Value,
                         firstGet: Request -> TransportResult, secondGet: Request -> TransportResult)
    returns (first: Report, second: Option<Report>)
    ensures first == ProcessResponse(firstGet(SendRequest(Initial(event, hostname), curlAvailable, hostname)))
    ensures second.Some?
    ensures second.value == ProcessResponse(secondGet(SendRequest(Initial(event, hostname), curlAvailable, hostname)))
  {
    var s := Success.Expect(event, hostname);
    var ok, warning := s.Send(curlAvailable, hostname, firstGet);
    first := Report(ok, warning);
    second := s.Destruct(curlAvailable, hostname, secondGet);
  }
}
