# Set point and configuration delivery plugins, modelled in Dafny

This project models the core of the Fledge notification delivery plugin
`fledge-notify-setpoint`. The plugin delivers a notification in one of two
ways:

- `SetPointDelivery` (setpoint.cpp, include/setpoint.h). When a rule
  triggers or clears, it picks the configured trigger or clear value. It
  fills each `$asset.datapoint$` reference in that value with the matching
  reading sent with the notification. It then PUTs the result to the set
  point entry of a south service.
- `ConfigJSONDelivery` (config.cpp). It writes the selected value into one
  property of a JSON configuration item. The property keeps its JSON type:
  string, 32-bit integer or double.

The files:

- `wrappers.dfy`: `Option` and `Result`.
- `std_string.dfy`: the parts of `std::string` the code depends on, on a
  64-bit platform:
  - `npos`, and the wrap-around of `npos + 1` to 0;
  - `find_first_of` for one character;
  - `substr`, whose count is clamped at the end of the string;
  - `c_str()` as read by code that stops at the first NUL.
- `c_numeric.dfy`: `printf("%ld")` and `strtol(…, NULL, 10)` for a 64-bit
  `long`, with strtol's saturation.
- `json_tree.dfy`: a parsed rapidjson document as a value.
  - Objects keep their members in order, duplicates included. A lookup by
    name finds the first one.
  - `IsInt` is the 32-bit range and `IsInt64` the 64-bit range.
  - Locations lead to nodes; `ReplaceAt` updates one node and keeps the rest.
- `delivery.dfy`: what both plugins share:
  - the category-reading rule of `configure`;
  - the service and management-client handles;
  - the gate at the head of `notify`, which classifies the trigger reason.
- `substitution.dfy`: `dataSubstitution`, in three parts:
  - the scanning loop, as a method;
  - the function `Scan` that specifies it;
  - lemmas about what the loop produces, and about when it terminates.
- `setpoint.dfy`: the `SetPointDelivery` class, and the request its
  `notify` sends.
- `config_json.dfy`: `setValue` and the `ConfigJSONDelivery` class.

Some collaborators are not modelled and become function-typed parameters:

- `formatDouble` is `%f` on a double;
- `strtod` is strtod;
- `findNode` is the JSONPath lookup;
- `fetch` and `store` are the management client's category calls;
- `reply` is how the south service answers the PUT;
- `getService` is the service callback.

A parsed trigger reason or configuration item is an `Option<Json>`: absent
when the text does not parse.

`dataSubstitution` is modelled as written, with three quirks:

- The segment before a reference is taken with `substr(p1, dstart)`. The
  second argument is the position of the `$`, not the distance to it.
- A reference without a `.` uses `npos + 1`, which is 0, so the whole
  reference names both the asset and the datapoint.
- An unmatched `$` sets `p1` to `npos + 1`, which is 0. The loop then
  starts again from the beginning and never ends; when text precedes the
  unmatched `$`, every pass appends it to the result again, which the model
  lets grow without bound (memory is unbounded here). `Scan` has no result in
  that case, and `UnmatchedDollarNeverEnds` and `ScanEndsIffEven` prove
  that the loop ends exactly when the `$` pair up.

## Model

| member | source | states |
|---|---|---|
| StdString.SizeInc | setpoint.cpp:276 | `dend + 1` on a size_t: one more, except that npos wraps to 0 |
| StdString.FindFirst | setpoint.cpp:227 | a position it reports is at or after the start, inside the string, and holds the character |
| StdString.FindFirstSkips | setpoint.cpp:227-231 | no occurrence of the character lies between the start and the position found; none at all when the result is npos |
| StdString.FindFirstIs | setpoint.cpp:227-231 | the first occurrence at or after the start is exactly what find_first_of returns |
| StdString.Substr | setpoint.cpp:229 | the length is the count clamped at the end of the string, and the characters are those from `pos` on |
| StdString.SubstrRest | setpoint.cpp:278 | `substr(p1)` with the default count is the rest of the string |
| StdString.SubstrAround | setpoint.cpp:235-237 | a string is the substring before a position, the character there, and the substring after it |
| StdString.CStr | setpoint.cpp:98 | the text seen through `c_str()`: a prefix of the string with no NUL, stopped by a NUL when shorter |
| StdString.CStrStops | setpoint.cpp:98 | the C string ends exactly at the first NUL |
| StdString.CStrWithoutNul | config.cpp:255 | a string without NUL is seen whole through its C string |
| StdString.CountFindFirst | setpoint.cpp:227 | find_first_of fails from `i` exactly when no occurrence is counted from `i` |
| StdString.CountAtFound | setpoint.cpp:227 | the occurrence found is one of those counted, and the rest lie after it |
| CNumeric.Digits | setpoint.cpp:257 | the decimal digits of a number: non-empty, all digits, no leading zero |
| CNumeric.DecimalText | setpoint.cpp:254-258 | the `%ld` text starts with '-' exactly when the number is negative |
| CNumeric.SkipSpace | config.cpp:255 | strtol skips exactly the leading white space |
| CNumeric.DigitPrefix | config.cpp:255 | the longest run of digits at the front of the text |
| CNumeric.Saturate | config.cpp:255 | out-of-range values become LONG_MIN or LONG_MAX; in-range values are kept |
| CNumeric.Strtol | config.cpp:255 | the result is always within the range of a long |
| CNumeric.ValueOfDigits | config.cpp:255 | the digits of a number read back as that number |
| CNumeric.DigitPrefixOfDigits | config.cpp:255 | strtol takes every character of a run of digits |
| CNumeric.StrtolDecimalText | config.cpp:253-257 | strtol reads the `%ld` text of every long back as the same number |
| CNumeric.StrtolDigits | config.cpp:255 | the digits of a non-negative long read back as that number |
| CNumeric.StrtolNegative | config.cpp:255 | a minus sign and the digits of a negative long's magnitude read back as that long |
| CNumeric.StrtolMinus | config.cpp:255 | a leading minus negates what the rest of the text reads as, with saturation |
| CNumeric.SignNotSpace | config.cpp:255 | no white space is skipped before a sign |
| CNumeric.StrtolWithoutDigits | config.cpp:255 | text without any digit reads as 0 |
| JsonTree.FindIndex | setpoint.cpp:94-98 | the index of the first member with the name; none exactly when no member has it |
| JsonTree.IsInt | config.cpp:253 | rapidjson's `IsInt`: every 32-bit integer is also `IsInt64` |
| JsonTree.IsInt64 | setpoint.cpp:254 | rapidjson's `IsInt64`: exactly the integers in the range of a C `long` |
| JsonTree.Lookup | setpoint.cpp:238-243 | `HasMember`/`operator[]`: absent exactly when no member has the name, otherwise the value of the first member with it |
| JsonTree.Member | setpoint.cpp:94-96 | a member is found only in an object, and in an object it is the lookup by name |
| JsonTree.FindIndexNames | config.cpp:248-262 | the lookup depends only on the member names, so changing a value leaves every lookup as it was |
| JsonTree.NodeAt | config.cpp:240 | the node a path reaches: the root for the empty location; only an object or an array has nodes below it |
| JsonTree.NodeAtMember | config.cpp:246-248 | one step by name from an object is its member lookup |
| JsonTree.ReplaceAt | config.cpp:248-262 | updating a node below the root keeps the root an object or an array as it was |
| JsonTree.NodeAtSnoc | config.cpp:246-248 | following a location one step further is one lookup from the node it reaches |
| JsonTree.ReplaceAtHere | config.cpp:251-261 | after the update, the location holds the new node |
| JsonTree.ReplaceAtElsewhere | config.cpp:251-261 | the update leaves every node at a diverging location as it was |
| JsonTree.ReplaceAtObjectStep | config.cpp:248-261 | an update through an object keeps its members' number, names and order, duplicates included; only the selected member changes |
| JsonTree.ReplaceAtArrayStep | config.cpp:248-261 | an update through an array keeps its length; only the selected element changes |
| JsonTree.NodeAtAppend | config.cpp:240-248 | following `loc + tail` is following `loc`, then `tail` |
| JsonTree.ReplaceAtBelow | config.cpp:240-261 | an update below a location leaves there the old node with the same update made inside it |
| Delivery.Overwrite | setpoint.cpp:194-209 | an item that exists replaces the field; a missing item keeps it |
| Delivery.EnableSetting | setpoint.cpp:211-215 | an `enable` item switches on exactly for "true" or "True" and off for anything else; no item keeps the switch |
| Delivery.OverwriteTwice | setpoint.cpp:194-197 | reading the same category twice is the same as reading it once |
| Delivery.Classify | setpoint.cpp:94-107 | an event exists exactly when "reason" is a string member; it is a trigger exactly when the reason's C string is "triggered" |
| Delivery.Gate | setpoint.cpp:78-116 | a value is selected exactly when the plugin is enabled, has a management client and the reason parses and classifies; the trigger value for a trigger, the clear value otherwise |
| Delivery.GateRefusals | setpoint.cpp:78-125 | each early `return false`: disabled, no client, parse error, no reason, reason not a string |
| Delivery.OtherReasonClears | setpoint.cpp:99-106 | any reason string other than "triggered" selects the clear value |
| Delivery.ReasonEndsAtNul | setpoint.cpp:98-99 | the reason is compared as a C string, so "triggered" followed by a NUL still triggers |
| Delivery.FirstReasonDecides | setpoint.cpp:94-98 | with duplicate "reason" members, the first one decides |
| Delivery.DataObject | setpoint.cpp:117 | readings are present exactly when "data" is a member holding an object |
| Substitution.Render | setpoint.cpp:244-259 | a string reading gives its C string; a double gives exactly the first 39 characters of its `%f` text, or all of it when shorter; a 64-bit integer gives its `%ld` text; anything else gives nothing |
| Substitution.RenderedIntegerReadsBack | setpoint.cpp:254-258 | the text of an integer reading reads back as the integer and starts with '-' exactly when it is negative |
| Substitution.SplitReference | setpoint.cpp:235-237 | with a '.', the asset has no '.' and asset + "." + datapoint is the reference; without one, both names are the whole reference |
| Substitution.SplitReferenceOf | setpoint.cpp:235-237 | `asset.datapoint` splits back into its two names when the asset has no '.' |
| Substitution.SplitAt | setpoint.cpp:235-237 | the same split, for a reference known to be built from the two names |
| Substitution.Reading | setpoint.cpp:238-243 | a reading exists exactly when the asset is an object member and has the datapoint, and it is that datapoint's value |
| Substitution.ReferenceText | setpoint.cpp:234-270 | a missing asset, a non-object asset or a missing datapoint contributes nothing |
| Substitution.ReferenceTextOf | setpoint.cpp:234-259 | the text of `asset.datapoint` is the rendered reading, or nothing when it is missing |
| Substitution.Resolver | setpoint.cpp:234-270 | resolving a reference gives its ReferenceText |
| Substitution.EvenDollarsCount | setpoint.cpp:227 | the parity predicate is the parity of the number of '$' |
| Substitution.ParityAtFound | setpoint.cpp:227 | the parity ahead flips at the first '$' found, and is even when none is found |
| Substitution.PairClosed | setpoint.cpp:227-232 | with an even count ahead, an opening '$' has a closing one, and the count after it is even |
| Substitution.UnpairedAdvance | setpoint.cpp:227-232 | with an odd count ahead there is a '$', and a closed reference leaves an odd count behind it |
| Substitution.Scan | setpoint.cpp:227-278 | the loop from position `p1` with `rval` produced so far: the rest of the message appended when no '$' remains, no result when a '$' is unmatched, otherwise the segment and the reference's text appended and the scan continued after the closing '$'; its properties are the Scan* lemmas below |
| Substitution.Expand | setpoint.cpp:221-283 | the message `dataSubstitution` produces from `m`; it has one exactly when the message's '$' pair up |
| Substitution.ScanStep | setpoint.cpp:227-276 | one pass of the loop: the scan from the old position equals the scan from just after the closing '$' with the segment and reference text appended |
| Substitution.ScanClosed | setpoint.cpp:231-232 | a scan with a result always finds the closing '$' |
| Substitution.ScanUnclosed | setpoint.cpp:272-276 | an unmatched '$' leaves the scan without a result |
| Substitution.ScanDone | setpoint.cpp:278 | with no '$' ahead, the rest of the message is appended |
| Substitution.EvenCloses | setpoint.cpp:227-277 | an even count ahead closes every reference |
| Substitution.OddOpen | setpoint.cpp:227-277 | an odd count ahead leaves some reference open |
| Substitution.ScanDefinedIffCloses | setpoint.cpp:227-278 | the scan has a result exactly when every reference ahead is closed |
| Substitution.ScanDefinedIffEven | setpoint.cpp:227-278 | the substitution has a result exactly when the message's '$' pair up |
| Substitution.ScanTemplate | setpoint.cpp:223-282 | the loop's result is what `Scan` specifies for the message |
| Substitution.DataSubstitution | setpoint.cpp:221-283 | the new message is the expansion of the old one over the readings |
| Substitution.ScanWithoutReference | setpoint.cpp:227-278 | a message without '$' comes through the scan unchanged |
| Substitution.NoReferenceUnchanged | setpoint.cpp:221-283 | a message without '$' is left unchanged by the substitution |
| Substitution.ScanExtends | setpoint.cpp:229-246 | the scan only appends to what it has already produced |
| Substitution.LeadingTextKept | setpoint.cpp:229 | the text before the first '$' is copied to the front of the result |
| Substitution.LeadingTextKeptAt | setpoint.cpp:229 | the same, given the positions of the first reference's two '$' |
| Substitution.FirstPassKept | setpoint.cpp:229-246 | what the first pass appends stays at the front of the result |
| Substitution.LeadingPrefix | setpoint.cpp:229 | the first segment is the text before the first '$' |
| Substitution.ScanSingleReference | setpoint.cpp:227-278 | a message that is exactly one reference becomes the text resolved for it |
| Substitution.SingleReference | setpoint.cpp:221-283 | a message that is exactly one reference becomes that reference's text |
| Substitution.DatapointReference | setpoint.cpp:221-283 | `$asset.datapoint$` becomes the rendered reading, or nothing when the asset or the datapoint is missing |
| Substitution.SegmentCountIsPosition | setpoint.cpp:229 | in "$a$xy$b$" the segment after the first reference is "xy$b$", because the count is the position of the next '$' |
| Substitution.SegmentCountAt | setpoint.cpp:229 | the same, for a message known to be "$a$xy$b$" |
| Substitution.SegmentMarks | setpoint.cpp:227-231 | where the scan of "$a$xy$b$" finds each '$' |
| Substitution.SegmentTexts | setpoint.cpp:229-234 | the pieces that substr cuts out of "$a$xy$b$" |
| Substitution.NextPosition | setpoint.cpp:276 | the next scan position is past the current one, or 0 after an unmatched '$' |
| Substitution.PositionAfter | setpoint.cpp:227-277 | the scan position after any number of passes stays within the message |
| Substitution.UnmatchedStep | setpoint.cpp:227-276 | with an odd number of '$', the loop goes round again and an odd number is still ahead |
| Substitution.UnmatchedForever | setpoint.cpp:227-276 | with an odd number of '$', the loop condition holds after any number of passes |
| Substitution.UnmatchedDollarNeverEnds | setpoint.cpp:227-276 | a message with an odd number of '$' never leaves the loop |
| Substitution.MatchedEnds | setpoint.cpp:227-276 | with the '$' paired, the loop stops after one pass per pair |
| Substitution.ScanEndsIffEven | setpoint.cpp:227-277 | the loop ends exactly when the message's '$' pair up |
| SetPoint.Configured | setpoint.cpp:191-216 | each field is taken from the item of the same role when it exists and kept otherwise; `enable` follows "true"/"True" |
| SetPoint.ConfiguredTwice | setpoint.cpp:191-216 | configuring twice with the same category is configuring once |
| SetPoint.ConfiguredByOtherItems | setpoint.cpp:191-216 | a category without any of the plugin's items changes nothing |
| SetPoint.RequestFor | setpoint.cpp:78-148 | a request is made exactly when the gate selects a value; it goes to the configured service and carries the value, expanded over the readings when there are any |
| SetPoint.DisabledMakesNoRequest | setpoint.cpp:78-83 | a disabled plugin makes no request |
| SetPoint.PlainValueSentVerbatim | setpoint.cpp:117-148 | a value without '$' is sent as it is, with or without readings |
| SetPoint.SetPointDelivery.constructor | setpoint.cpp:39-49 | starts disabled with empty texts and no handles, then applies the category |
| SetPoint.SetPointDelivery.Configure | setpoint.cpp:191-216 | the new settings are the configured old settings; the handles are unchanged |
| SetPoint.SetPointDelivery.Disable | include/setpoint.h:27 | only the enable switch changes, to off |
| SetPoint.SetPointDelivery.SetService | include/setpoint.h:29-34 | the service handle becomes what the callback returns; nothing else changes |
| SetPoint.SetPointDelivery.SetManagementClient | include/setpoint.h:36-42 | the client is the service's client, or none without a service; nothing else changes |
| SetPoint.SetPointDelivery.Notify | setpoint.cpp:65-168 | the request sent is `RequestFor` of the current settings; the result is true exactly when a request was sent and answered "200 OK" |
| SetPoint.DisabledNotifyFails | include/setpoint.h:27 | after `disable()`, `notify` returns false and sends nothing |
| ConfigJson.Coerce | config.cpp:248-262 | a string takes the text verbatim; a 32-bit integer takes strtol of the C string; a double takes strtod of it; anything else is kept |
| ConfigJson.CoerceKeepsKind | config.cpp:249-262 | the property keeps its JSON kind whatever the text |
| ConfigJson.CoerceReadsBackInteger | config.cpp:253-257 | writing the `%ld` text of a long into an integer property stores that long |
| ConfigJson.CoerceNonNumericToZero | config.cpp:253-257 | text with no digit turns an integer property into 0 |
| ConfigJson.WideIntegerSticks | config.cpp:253-257 | an integer outside the 32-bit range is not IsInt, so later values leave it unchanged |
| ConfigJson.Target | config.cpp:239-240 | the node the path designates, with its location; none when the lookup fails |
| ConfigJson.SetValue | config.cpp:227-278 | fails with InvalidJson, PathNotFound, NotAnObject or NoSuchProperty exactly in the source's throwing cases, and succeeds exactly when the path reaches an object that has the property; a success keeps the root kind |
| ConfigJson.SetValueReplaces | config.cpp:246-262 | a success replaces the property at path + name by its coerced value |
| ConfigJson.SetValueReadsBack | config.cpp:246-262 | after a success, the property holds the coerced value |
| ConfigJson.SetValueElsewhere | config.cpp:246-262 | every node off the property's location is unchanged |
| ConfigJson.SetValueInPlace | config.cpp:246-262 | the designated object afterwards is the same member list, in order and with duplicates, with only the first member of the property's name holding the coerced value |
| ConfigJson.SiblingsDiverge | config.cpp:246-248 | two members of the same object with different names are at diverging locations |
| ConfigJson.SetValueKeepsSiblings | config.cpp:246-262 | the other members of the designated object keep their values |
| ConfigJson.Configured | config.cpp:173-216 | each of the seven fields is taken from its item when it exists and kept otherwise |
| ConfigJson.ConfiguredTwice | config.cpp:173-216 | configuring twice with the same category is configuring once |
| ConfigJson.OutcomeFor | config.cpp:78-149 | true exactly when the gate passes and either the item is not JSON, or setValue succeeds and storing succeeds; a document is written exactly when the gate passes, the item is JSON and setValue succeeds, and it is setValue's result, so a throwing setValue or getCategory gives false with nothing written |
| ConfigJson.OutcomeWritesSelectedValue | config.cpp:130-143 | whenever a document is written, its target property holds the selected value in the property's own type |
| ConfigJson.NotJsonItemSucceeds | config.cpp:132-143 | an item that is not JSON is reported delivered with nothing written |
| ConfigJson.DisabledWritesNothing | config.cpp:79-83 | a disabled plugin returns false and writes nothing |
| ConfigJson.ConfigJSONDelivery.constructor | config.cpp:40-50 | starts disabled with empty texts and no client, then applies the category |
| ConfigJson.ConfigJSONDelivery.Configure | config.cpp:173-216 | the new settings are the configured old settings; the client is unchanged |
| ConfigJson.ConfigJSONDelivery.Notify | config.cpp:66-150 | the result and the written document are `OutcomeFor` the current settings |

## Left out

- The configuration mutex is not modelled, nor is anything else about concurrency. On the early `return false` paths (setpoint.cpp:110, 115, 124 and config.cpp:111, 116, 121) the source leaves the mutex locked; the model does not show this.
- Logging is left out.
- `reconfigure` is left out: it only builds a category from JSON text and calls `configure` under the lock.
- The plugin entry points (plugin.cpp) are left out.
- Parsing of the trigger reason and of the configuration item is a parameter: an `Option<Json>` that is absent on a parse error.
- Serialising the updated document and `StringEscapeQuotes` are left out. `ConfigJSONDelivery.Notify` reports the document it stores, not its escaped text.
- Service discovery, the address/port text and the HTTP exchange are the `reply` parameter. Its three answers are: service not found, a status line, and an exception.
- The management client's `getCategory`/`isJSON`/`getValue` are the `fetch` parameter. `setCategoryItemValue` is `store`, whose false stands for an exception.
- Floating point is not interpreted. `%f` is the `formatDouble` parameter and `strtod` the `strtod` parameter. A double is kept as its 64-bit pattern.
- The JSONPath parser and `findNode` are the `findNode` parameter. A lookup that fails is `PathNotFound`. Where the lookup throws, this is the source's exception; where it returns a null node, the source (config.cpp:240-241) dereferences that null pointer without a check, which the model does not reproduce.
- `rapidjson` asserts when `HasMember` is asked of a value that is not an object. The model treats the member as absent.
- Unsigned 64-bit integers above the `long` range are integers that are not `IsInt64`, so they render as nothing.
- include/config.h, which declares `ConfigJSONDelivery`, is not part of this model. Its fields are taken from their use in config.cpp. How the class receives its management client is not modelled: `mgmtClient` is a public field.
- Uninitialised handles are modelled as `None`. `setService` stores whatever the callback returns.
- The rapidjson `Document` is updated in place in the source. The model computes a new `Json` value with `ReplaceAt`, so aliasing of the document is not captured.
- Strings are `seq<char>`, and each char of a model string stands for one byte of the `std::string` (and of rapidjson's UTF-8 text). Positions and counts, such as the `substr` count at setpoint.cpp:229, are byte positions; multi-byte characters are not modelled as single chars.
- Memory is unbounded. When text precedes an unmatched `$`, the source's `rval` grows on every pass until `append` throws; that exception leaves `notify`, since the call at setpoint.cpp:119 is outside the `try` at line 131. The model only says that the loop never ends.
- Substitution.Scan: it has no result for a message whose '$' do not pair up, where the source loops for ever. ScanEndsIffEven proves that this is exactly when the loop never ends.
- Substitution.ScanTemplate: requires the message's '$' to pair up. Otherwise the source loop never ends, so there is no result to specify.
- Substitution.DataSubstitution: requires the message's '$' to pair up, for the same reason.
- SetPoint.RequestFor: requires `Returns`, meaning the selected value's '$' pair up whenever readings are attached. Otherwise `notify` never returns.
- SetPoint.SetPointDelivery.Notify: requires `Returns` of its settings and payload, for the same reason.
- SetPoint.SetPointDelivery.Notify: the address and port that service discovery finds are not modelled. The request carries only the service name and the body.
