# Venditan Success client, modelled in Dafny

`Venditan\Success` is a PHP client for a "dead man's switch" service. A
caller declares that an event (a cron job, a batch task) is expected, and
sets how often it should recur, who to alert by email or SMS, an access
token and a free-text message. Each setter returns the object itself, so
calls can be chained. `send()` reports the event to
`https://venditan-success.appspot.com/expect?` with one HTTP GET. It uses
cURL when the extension is loaded and `file_get_contents` otherwise, and
tags the request with `tx=curl` or `tx=fgc`. It interprets the JSON answer
and returns true, or returns false and raises a tagged warning. The
destructor calls `send()` unless the `bol_sent` flag is set, and nothing
ever sets it.

The model has five modules:

- `PhpArrays` (php_arrays.dfy): PHP scalars as the client stores them
  (null, boolean, string), ordered arrays with string or integer keys, and
  `array_merge` with its lemmas.
- `Expectation` (expectation.dfy): the object's fields as a value
  (`Fields`), the defaults of `expect`, and `Configure`, the specification
  of every setter. Lemmas cover chains of setters.
- `Payload` (payload.dfy): `buildPayload`, meaning the seven fixed
  parameters, the hostname fallback for `source`, and the merge of extras.
- `Response` (response.dfy): `processResponse`, meaning the success test
  and the four warnings with their order of precedence.
- `Venditan` (success.dfy): the class `Success` with its fields, its
  constructor and factory, the setters that update fields in place and
  return `this`, `send` over an abstract transport, and the destructor rule.

The environment is passed in as parameters. `gethostname()` is a `hostname`
value. The transport is a function from the request to its result. The
result of `json_decode` is a `Decoded` value that travels with the raw
body. Warnings are returned in a `Report` instead of being raised through
`trigger_error`.

## Behaviour worth knowing

In each of these cases the code does something other than what its warning
text or its comments suggest. The model follows the code.

- The warning text "Invalid JSON response" (src/Venditan/Success.php:299-300)
  suggests it fires for any body that is not JSON. It fires only when
  `json_decode` returns PHP `false`, and that happens only for a body that
  is the JSON literal `false`, with surrounding whitespace allowed. For a
  body that is not JSON, `json_decode` returns null, so such a body gets
  the "Unexpected response" warning (src/Venditan/Success.php:308).
  `Response.InvalidBodyIsUnexpected` states this.
- The comments at src/Venditan/Success.php:37 ("We only want to do this
  once!") and :326 ("if not already sent") suggest a report is sent once.
  No code path sets `bol_sent` to true, so the destructor always sends, even
  after an explicit `send()`. `Expectation.NeverSent`,
  `Venditan.Success.Destruct` and `Venditan.SendThenDestroy` state this.
- Null fields stay in the payload as null entries. What `http_build_query`
  then does with them is not part of this model.

## Model

| member | source | states |
|---|---|---|
| `PhpArrays.ToPhpString` | src/Venditan/Success.php:228 | the `.` operator turns a string into itself, true into "1", and null or false into the empty string |
| `PhpArrays.Put` | src/Venditan/Success.php:282 | writing a key keeps an existing key in its position and appends a new one; that key then reads the new value and every other key reads what it read before |
| `PhpArrays.MergeIntoStrLookup` | src/Venditan/Success.php:282 | during array_merge, a string key reads the value from the second array when it holds the key, and from the first otherwise; renumbered integer entries do not affect it |
| `PhpArrays.MergeIntoDisjoint` | src/Venditan/Success.php:282 | merging string-keyed entries whose keys are all new appends them in order |
| `PhpArrays.MergeIntoKeys` | src/Venditan/Success.php:282 | after merging string-keyed entries, the existing keys keep their order and the new keys follow in their own order |
| `PhpArrays.MergeIntoWellFormed` | src/Venditan/Success.php:282 | the merge never repeats a key, and numbers integer keys below the next free index |
| `PhpArrays.ArrayMerge` | src/Venditan/Success.php:282 | array_merge of any two arrays yields an array without repeated keys, whose integer keys are renumbered below the number of integer keys of both arrays together |
| `PhpArrays.ArrayMergeStringKeyed` | src/Venditan/Success.php:282 | when the first array has only string keys, array_merge leaves it unchanged and merges the second array into it |
| `PhpArrays.ArrayMergeStrLookup` | src/Venditan/Success.php:282 | a string key of the merge has the second array's value if that array holds the key, and the first array's value otherwise |
| `PhpArrays.LookupAt` | src/Venditan/Success.php:272-280 | in an array without repeated keys, looking up an entry's key finds that entry's value |
| `Expectation.Initial` | src/Venditan/Success.php:33-103 | the state after construction holds the event and the host's name as source, the trial token, null interval, email, sms and message, and is unsent |
| `Expectation.Configure` | src/Venditan/Success.php:122-229 | each setter writes exactly its own field: from writes source; every, never, cancel and once write the interval; email, sms, token and message write their own fields; every other field, the event and the sent flag are unchanged |
| `Expectation.ConfigureIdempotent` | src/Venditan/Success.php:122-229 | calling a setter twice with the same argument has the same effect as calling it once |
| `Expectation.ConfigureCommutes` | src/Venditan/Success.php:122-229 | setters that write different fields can be called in either order |
| `Expectation.ConfigureAllKeeps` | src/Venditan/Success.php:41-103 | no chain of setters changes the event or the sent flag |
| `Expectation.ConfigureAllLastWins` | src/Venditan/Success.php:122-229 | after a chain of setters, each field holds the value written by the last setter that targets it, or its earlier value if none does |
| `Expectation.NeverSent` | src/Venditan/Success.php:41 | an expectation created by expect is still unsent after any chain of setters |
| `Payload.ReportedSource` | src/Venditan/Success.php:274 | the reported source is the stored source when it is not null and the host's name otherwise, so it is null only when both are |
| `Payload.Build` | src/Venditan/Success.php:270-285 | the payload never repeats a key, and without extras its keys are exactly token, source, event, every, email, sms and message, in that order |
| `Payload.BuildWithoutExtras` | src/Venditan/Success.php:270-280 | without extras the payload has exactly the keys token, source, event, every, email, sms and message, in that order, each holding the current field value with null kept; source becomes the hostname only when the stored source is null |
| `Payload.BuildWithExtras` | src/Venditan/Success.php:281-284 | with an extras array, an extras value wins for every string key it holds and the fixed value stands otherwise; string extras overwrite fixed keys in place and new keys follow the seven fixed keys; the result never repeats a key |
| `Payload.BuildTagged` | src/Venditan/Success.php:246-250 | `buildPayload(['tx' => t])` is the fixed payload followed by tx mapped to t, eight entries in all |
| `Response.Join` | src/Venditan/Success.php:306 | implode of no items is empty, and implode of one item is that item |
| `Response.JoinSnoc` | src/Venditan/Success.php:306 | imploding one more item appends the separator and then that item, so the separator stands between every two consecutive items |
| `Response.JoinHolds` | src/Venditan/Success.php:306 | every item can be read back from the imploded string at its computed offset |
| `Response.Warning` | src/Venditan/Success.php:320-323 | the warning text is the tag "[Venditan/Success] " followed by the message, and nothing else |
| `Response.ProcessResponse` | src/Venditan/Success.php:293-313 | the result is true exactly when the transport returned a body that decodes to an object whose success is identical to true; a true result comes with no warning, a false one with exactly one warning that starts with "[Venditan/Success] " |
| `Response.WarningPrecedence` | src/Venditan/Success.php:295-309 | the warning is, in this order: the communication error for a transport false; invalid JSON plus the raw body when the decoding is false; the server messages joined by ", "; otherwise unexpected response plus the raw body |
| `Response.ServerMessagesInWarning` | src/Venditan/Success.php:305-306 | when the server fails with messages, each message appears in the warning at a known position |
| `Response.InvalidBodyIsUnexpected` | src/Venditan/Success.php:298-308 | a body that json_decode turns into null gets the "Unexpected response" warning with the raw body, not "Invalid JSON" |
| `Response.LooseSuccessIsFailure` | src/Venditan/Success.php:302 | a success value that is set but not identical to true is a failure |
| `Response.ServerScenarios` | src/Venditan/Success.php:302-306 | `{"success": true}` yields true with no warning; `{"success": false, "messages": ["bad token"]}` yields false with the warning "Failed. Messages from server: bad token" |
| `Venditan.TxTag` | src/Venditan/Success.php:246-250 | the tx tag is "curl" exactly for the cURL transport and "fgc" exactly for file_get_contents |
| `Venditan.SendRequest` | src/Venditan/Success.php:240-250 | send uses cURL with tag "curl" when it is available and file_get_contents with "fgc" otherwise, against the fixed base URL; the query is the seven fixed parameters followed by tx |
| `Venditan.Success.constructor` | src/Venditan/Success.php:41-103 | a new object holds the event, the hostname as source, the trial token, null interval, email, sms and message, and is unsent |
| `Venditan.Success.Expect` | src/Venditan/Success.php:111-114 | the factory returns a new object in the initial state |
| `Venditan.Success.From` | src/Venditan/Success.php:122-126 | sets source to the argument, changes nothing else and returns the same object |
| `Venditan.Success.Never` | src/Venditan/Success.php:131-135 | sets the interval to "never", changes nothing else and returns the same object |
| `Venditan.Success.Every` | src/Venditan/Success.php:149-153 | sets the interval to the argument, changes nothing else and returns the same object |
| `Venditan.Success.Cancel` | src/Venditan/Success.php:160-164 | sets the interval to the CANCEL constant "cancel", changes nothing else and returns the same object |
| `Venditan.Success.Email` | src/Venditan/Success.php:174-178 | sets email to the argument, changes nothing else and returns the same object |
| `Venditan.Success.Sms` | src/Venditan/Success.php:188-192 | sets sms to the argument, changes nothing else and returns the same object |
| `Venditan.Success.Token` | src/Venditan/Success.php:200-204 | sets token to the argument, changes nothing else and returns the same object |
| `Venditan.Success.Message` | src/Venditan/Success.php:212-216 | sets message to the argument, changes nothing else and returns the same object |
| `Venditan.Success.Once` | src/Venditan/Success.php:226-229 | sets the interval to exactly "once:" followed by the argument, changes nothing else and returns the same object |
| `Venditan.Success.Send` | src/Venditan/Success.php:238-262 | the result is processResponse applied to what the transport returned for the request built from the current fields; true exactly when the server reported success |
| `Venditan.Success.Destruct` | src/Venditan/Success.php:328-333 | the destructor sends exactly when the sent flag is false, and returns the report of that send |
| `Venditan.Cron3Scenario` | examples/cron3.php:20 | the usage example is reported by the destructor with event "Regular job", interval "65m", the SMS recipient and message, the hostname as source and the trial token |
| `Venditan.SendThenDestroy` | src/Venditan/Success.php:328-333 | after an explicit send the destructor always sends again, and both sends issue the request built from the initial state; each report is processResponse of the answer to its own GET |

## Left out

- Network transport: the cURL options, the `file_get_contents` stream context and the TLS settings (`verify_peer`, `CN_match`, compression) are I/O. A transport function from the request to its result stands in for them.
- `http_build_query`: the URL encoding of the query is a library serialiser. The request carries the parameter array it is built from.
- `gethostname()`: an environment lookup, passed in as the `hostname` value.
- `json_decode`: a library parser. A body comes with its decoding as a `Decoded` value.
- `trigger_error`: the warning is returned in the report instead of being raised.
- The timing of PHP object destruction: only the rule "send unless the sent flag is set" is modelled, as `Destruct`.
- Setter arguments are null, booleans or strings. Integers, floats and arrays passed to a setter are not modelled.
- PHP turns numeric string keys such as "1" into integer keys. The model takes extras keys as they are given.
- A `messages` property that is set but is not a list of strings is not modelled. `implode` turns numbers, booleans and nulls in a list into strings, and fails on a string or an object.
