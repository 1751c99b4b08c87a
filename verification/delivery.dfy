/** What the two delivery plugins share: their configuration category, the
    handles they get from the notification service, and the decision at the
    head of `notify` that turns a trigger reason into the value to deliver. */
module Delivery {
  import opened Wrappers
  import opened StdString
  import opened JsonTree

  /** A configuration category as the plugins read it: `itemExists(name)`
      is membership, `getValue(name)` the item's value text. */
  type ConfigCategory = map<string, string>

  /** Every value of a category is a std::string, hence shorter than npos. */
  predicate CategoryFits(config: ConfigCategory)
  {
    forall name | name in config :: Fits(config[name])
  }

  /** A management client of the notification service, known by its identity. */
  datatype ManagementClient = ManagementClient(id: nat)

  /** The notification service handle: all the plugins ask of it is its
      management client, which may be null. */
  datatype NotificationService = NotificationService(mgmtClient: Option<ManagementClient>)

  /** `configure` overwrites a field only when the category has the item. */
  function Overwrite(current: string, config: ConfigCategory, name: string): (r: string)
    ensures name in config ==> r == config[name]
    ensures name !in config ==> r == current
  {
    if name in config then config[name] else current
  }

  /** The `enable` item switches the plugin on exactly when it reads
      "true" or "True"; any other text switches it off. */
  predicate EnableFlag(text: string)
  {
    text == "true" || text == "True"
  }

  function EnableSetting(current: bool, config: ConfigCategory): (r: bool)
    ensures "enable" in config ==> (r <==> config["enable"] == "true" || config["enable"] == "True")
    ensures "enable" !in config ==> r == current
  {
    if "enable" in config then EnableFlag(config["enable"]) else current
  }

  /** Reading the same category twice gives what reading it once gave. */
  lemma {:induction false} OverwriteTwice(current: string, config: ConfigCategory, name: string)
    ensures Overwrite(Overwrite(current, config, name), config, name) == Overwrite(current, config, name)
  {
  }

  /** The two kinds of notification event. */
  datatype Event = Triggered | Cleared

  /** The event a parsed trigger reason announces: none when it has no
      "reason" member or that member is not a string; otherwise a trigger
      exactly when the reason's C string is "triggered". The document is
      asked by name, so the first "reason" member is the one that counts. */
  function Classify(doc: Json): (r: Option<Event>)
    ensures r.Some? <==> Member(doc, "reason").Some? && Member(doc, "reason").value.JString?
    ensures r == Some(Triggered) <==>
              Member(doc, "reason").Some? && Member(doc, "reason").value.JString? &&
              CStr(Member(doc, "reason").value.text) == "triggered"
  {
    match Member(doc, "reason")
    case Some(JString(text)) => if CStr(text) == "triggered" then Some(Triggered) else Some(Cleared)
    case _ => None
  }

  /** The gate of `notify`: the value to deliver, or nothing when `notify`
      returns false before any delivery. `payload` is the parsed trigger
      reason, absent when it did not parse. */
  function Gate(enabled: bool, hasClient: bool, payload: Option<Json>,
                triggerValue: string, clearValue: string): (r: Option<string>)
    ensures r.Some? <==> enabled && hasClient && payload.Some? && Classify(payload.value).Some?
    ensures r.Some? && Classify(payload.value) == Some(Triggered) ==> r.value == triggerValue
    ensures r.Some? && Classify(payload.value) == Some(Cleared) ==> r.value == clearValue
  {
    if !enabled || !hasClient then None
    else match payload
      case None => None
      case Some(doc) =>
        match Classify(doc)
        case None => None
        case Some(Triggered) => Some(triggerValue)
        case Some(Cleared) => Some(clearValue)
  }

  /** Each way `notify` gives up before delivering: switched off, no
      management client, a reason that does not parse, no "reason" member,
      a "reason" that is not a string. */
  lemma {:induction false} GateRefusals(enabled: bool, hasClient: bool, payload: Option<Json>, triggerValue: string, clearValue: string)
    ensures !enabled ==> Gate(enabled, hasClient, payload, triggerValue, clearValue) == None
    ensures !hasClient ==> Gate(enabled, hasClient, payload, triggerValue, clearValue) == None
    ensures payload.None? ==> Gate(enabled, hasClient, payload, triggerValue, clearValue) == None
    ensures payload.Some? && Member(payload.value, "reason").None? ==>
              Gate(enabled, hasClient, payload, triggerValue, clearValue) == None
    ensures payload.Some? && Member(payload.value, "reason").Some? && !Member(payload.value, "reason").value.JString? ==>
              Gate(enabled, hasClient, payload, triggerValue, clearValue) == None
  {
  }

  /** Any reason string other than "triggered" delivers the clear value,
      whatever else the document holds. */
  lemma {:induction false} OtherReasonClears(enabled: bool, hasClient: bool, doc: Json, text: string,
                          triggerValue: string, clearValue: string)
    requires enabled && hasClient
    requires Member(doc, "reason") == Some(JString(text))
    requires CStr(text) != "triggered"
    ensures Gate(enabled, hasClient, Some(doc), triggerValue, clearValue) == Some(clearValue)
  {
  }

  /** The reason is compared as a C string: text after a NUL is not seen,
      so "triggered" followed by a NUL and anything else still triggers. */
  lemma {:induction false} ReasonEndsAtNul(text: string)
    ensures CStr("triggered" + "\0" + text) == "triggered"
  {
    var s := "triggered" + "\0" + text;
    var c := CStr(s);
    assert s[9] == '\0';
    assert forall k | 0 <= k < 9 :: s[k] != '\0';
    CStrStops(s, 9);
    assert c == s[..9];
  }

  /** With several "reason" members, the first one decides. */
  lemma {:induction false} FirstReasonDecides(reason: Json, rest: seq<(string, Json)>)
    ensures Classify(JObject([("reason", reason)] + rest)) == Classify(JObject([("reason", reason)]))
  {
    assert ([("reason", reason)] + rest)[0].0 == "reason";
  }

  /** The readings carried by a trigger reason: its "data" member, when
      that is an object. */
  function DataObject(doc: Json): (r: Option<seq<(string, Json)>>)
    ensures r.Some? <==> Member(doc, "data").Some? && Member(doc, "data").value.JObject?
    ensures r.Some? ==> Member(doc, "data") == Some(JObject(r.value))
  {
    match Member(doc, "data")
    case Some(JObject(members)) => Some(members)
    case _ => None
  }
}
