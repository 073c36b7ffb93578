/**
 * The state of one expectation as a value, and what each configuration call
 * does to it. The class in module Venditan keeps the same fields and its
 * setters are specified by `Configure` below.
 */
module Expectation {
  import opened PhpArrays

  /** The interval sentinel that stops monitoring an event. */
  const Cancel: string := "cancel"

  /** The public access token used when none is given. */
  const Trial: string := "trial"

  /** The private fields of an expectation: event, source, interval (`every`),
      email, sms, message, token and the sent flag (`bol_sent`), which
      nothing but its initialiser assigns. */
  datatype Fields = Fields(
    event: Value,
    source: Value,
    every: Value,
    email: Value,
    sms: Value,
    message: Value,
    token: Value,
    sent: bool)

  /** The fields a configuration call can write. */
  datatype FieldName = SourceField | EveryField | EmailField | SmsField | TokenField | MessageField

  /** One configuration call of the fluent interface, with its argument. */
  datatype Setting =
    | FromSource(source: Value)
    | EveryInterval(interval: Value)
    | NeverSentinel
    | CancelSentinel
    | OnceInterval(once: Value)
    | EmailTo(email: Value)
    | SmsTo(sms: Value)
    | TokenValue(token: Value)
    | MessageText(message: Value)

  /** The state right after `expect(event)`: the event, the host's name as
      source, the trial token, no report sent, everything else null. */
  function Initial(event: Value, hostname: Value): (f: Fields)
    ensures f.event == event && !f.sent
    ensures Get(f, SourceField) == hostname && Get(f, TokenField) == Str(Trial)
    ensures forall n :: n != SourceField && n != TokenField ==> Get(f, n) == Null
  {
    Fields(event, hostname, Null, Null, Null, Null, Str(Trial), false)
  }

  function Get(f: Fields, n: FieldName): Value {
    match n
    case SourceField => f.source
    case EveryField => f.every
    case EmailField => f.email
    case SmsField => f.sms
    case TokenField => f.token
    case MessageField => f.message
  }

  /** The field a configuration call writes; never, cancel and once all
      write the interval. */
  function Target(s: Setting): FieldName {
    match s
    case FromSource(_) => SourceField
    case EveryInterval(_) => EveryField
    case NeverSentinel => EveryField
    case CancelSentinel => EveryField
    case OnceInterval(_) => EveryField
    case EmailTo(_) => EmailField
    case SmsTo(_) => SmsField
    case TokenValue(_) => TokenField
    case MessageText(_) => MessageField
  }

  /** The value a configuration call writes. `once(i)` stores "once:" followed
      by i as PHP's `.` operator converts it. */
  function Written(s: Setting): Value {
    match s
    case FromSource(v) => v
    case EveryInterval(v) => v
    case NeverSentinel => Str("never")
    case CancelSentinel => Str(Cancel)
    case OnceInterval(v) => Str("once:" + ToPhpString(v))
    case EmailTo(v) => v
    case SmsTo(v) => v
    case TokenValue(v) => v
    case MessageText(v) => v
  }

  /** The effect of one configuration call: its own field takes the written
      value; every other field, the event and the sent flag keep theirs. */
  function Configure(f: Fields, s: Setting): (g: Fields)
    ensures Get(g, Target(s)) == Written(s)
    ensures forall n :: n != Target(s) ==> Get(g, n) == Get(f, n)
    ensures g.event == f.event && g.sent == f.sent
  {
    match s
    case FromSource(v) => f.(source := v)
    case EveryInterval(v) => f.(every := v)
    case NeverSentinel => f.(every := Written(s))
    case CancelSentinel => f.(every := Written(s))
    case OnceInterval(_) => f.(every := Written(s))
    case EmailTo(v) => f.(email := v)
    case SmsTo(v) => f.(sms := v)
    case TokenValue(v) => f.(token := v)
    case MessageText(v) => f.(message := v)
  }

  /** A fluent chain of configuration calls, applied left to right. */
  function ConfigureAll(f: Fields, ss: seq<Setting>): Fields
    decreases |ss|
  {
    if ss == [] then f else Configure(ConfigureAll(f, ss[..|ss| - 1]), ss[|ss| - 1])
  }

  /** The value of field n after the calls ss: the value written by the last
      call that targets n, or d when none does. */
  function LastWritten(ss: seq<Setting>, n: FieldName, d: Value): (v: Value)
    ensures (forall i :: 0 <= i < |ss| ==> Target(ss[i]) != n) ==> v == d
    decreases |ss|
  {
    if ss == [] then d
    else if Target(ss[|ss| - 1]) == n then Written(ss[|ss| - 1])
    else LastWritten(ss[..|ss| - 1], n, d)
  }

  /** Repeating a configuration call with the same argument changes nothing. */
  lemma ConfigureIdempotent(f: Fields, s: Setting)
    ensures Configure(Configure(f, s), s) == Configure(f, s)
  {
  }

  /** Calls that write different fields can be made in either order. */
  lemma ConfigureCommutes(f: Fields, s: Setting, t: Setting)
    requires Target(s) != Target(t)
    ensures Configure(Configure(f, s), t) == Configure(Configure(f, t), s)
  {
  }

  /** No chain of configuration calls changes the event or the sent flag. */
  lemma {:induction false} ConfigureAllKeeps(f: Fields, ss: seq<Setting>)
    ensures ConfigureAll(f, ss).event == f.event
    ensures ConfigureAll(f, ss).sent == f.sent
    decreases |ss|
  {
    if ss != [] {
      ConfigureAllKeeps(f, ss[..|ss| - 1]);
    }
  }

  /** After a chain of calls, each field holds what the last call that
      targets it wrote, or its earlier value if no call targets it. */
  lemma {:induction false} ConfigureAllLastWins(f: Fields, ss: seq<Setting>, n: FieldName)
    ensures Get(ConfigureAll(f, ss), n) == LastWritten(ss, n, Get(f, n))
    decreases |ss|
  {
    if ss != [] {
      ConfigureAllLastWins(f, ss[..|ss| - 1], n);
    }
  }

  /** An expectation that starts unsent is unsent after any chain of calls. */
  lemma NeverSent(event: Value, hostname: Value, ss: seq<Setting>)
    ensures !ConfigureAll(Initial(event, hostname), ss).sent
  {
    ConfigureAllKeeps(Initial(event, hostname), ss);
  }
}
