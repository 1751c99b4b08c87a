/** The configuration delivery plugin (`ConfigJSONDelivery`): on each
    notification it picks the trigger or the clear value and writes it into
    one property of a JSON configuration item, keeping the property's type. */
module ConfigJson {
  import opened Wrappers
  import opened StdString
  import opened CNumeric
  import opened JsonTree
  import opened Delivery

  /** Why `setValue` throws. */
  datatype SetValueError =
    | InvalidJson        // "Invalid JSON in configuration item"
    | PathNotFound       // the JSON path lookup itself fails
    | NotAnObject        // "Path does not reference an object"
    | NoSuchProperty     // "Path does not contain configured item"

  /** The new value of a property, in the property's own type: a string
      takes the text verbatim (its full length, NULs included); a 32-bit
      integer takes strtol of the C string, stored as a 64-bit integer; a
      double takes strtod of the C string; anything else is kept. */
  function Coerce(current: Json, value: string, strtod: string -> Float64): (r: Json)
    ensures current.JString? ==> r == JString(value)
    ensures IsInt(current) ==> r == JInt(Strtol(CStr(value))) && IsInt64(r)
    ensures current.JDouble? ==> r == JDouble(strtod(CStr(value)))
    ensures !(current.JString? || IsInt(current) || current.JDouble?) ==> r == current
  {
    match current
    case JString(_) => JString(value)
    case JInt(_) => if IsInt(current) then JInt(Strtol(CStr(value))) else current
    case JDouble(_) => JDouble(strtod(CStr(value)))
    case _ => current
  }

  /** Whatever the text, a string stays a string, an integer an integer and
      a double a double. */
  lemma {:induction false} CoerceKeepsKind(current: Json, value: string, strtod: string -> Float64)
    ensures Coerce(current, value, strtod).JString? == current.JString?
    ensures Coerce(current, value, strtod).JInt? == current.JInt?
    ensures Coerce(current, value, strtod).JDouble? == current.JDouble?
    ensures Coerce(current, value, strtod).JObject? == current.JObject?
  {
  }

  /** Writing the `%ld` text of a 64-bit integer into a 32-bit integer
      property stores that integer. */
  lemma {:induction false} CoerceReadsBackInteger(current: Json, n: int, strtod: string -> Float64)
    requires IsInt(current)
    requires LONG_MIN <= n <= LONG_MAX
    ensures Coerce(current, DecimalText(n), strtod) == JInt(n)
  {
    var text := DecimalText(n);
    assert '\0' !in text by {
      if n < 0 {
        assert text[1..] == Digits(-n);
      }
    }
    CStrWithoutNul(text);
    StrtolDecimalText(n);
  }

  /** Text that holds no digit turns an integer property into 0. */
  lemma {:induction false} CoerceNonNumericToZero(current: Json, value: string, strtod: string -> Float64)
    requires IsInt(current)
    requires forall k | 0 <= k < |value| :: !IsDigit(value[k])
    ensures Coerce(current, value, strtod) == JInt(0)
  {
    StrtolWithoutDigits(CStr(value));
  }

  /** An integer outside the 32-bit range is not IsInt, so it is never
      replaced: once a wide value has been stored, later values leave it. */
  lemma {:induction false} WideIntegerSticks(n: int, value: string, strtod: string -> Float64)
    requires n < -0x8000_0000 || n >= 0x8000_0000
    ensures Coerce(JInt(n), value, strtod) == JInt(n)
  {
  }

  /** The node the JSON path designates in `doc`, with its location; none
      when the lookup fails. */
  function Target(doc: Json, path: string, findNode: (string, Json) -> Option<Location>): (r: Option<(Location, Json)>)
    ensures r.Some? ==> findNode(path, doc) == Some(r.value.0) && NodeAt(doc, r.value.0) == Some(r.value.1)
    ensures r.None? ==> findNode(path, doc).None? || NodeAt(doc, findNode(path, doc).value).None?
  {
    match findNode(path, doc)
    case None => None
    case Some(loc) =>
      match NodeAt(doc, loc)
      case None => None
      case Some(node) => Some((loc, node))
  }

  /** `setValue`: in the parsed item, the property named `property` of the
      object the path designates takes `value` in its own type; every error
      of the source is a failure here. */
  function SetValue(parsed: Option<Json>, path: string, property: string, value: string,
                    findNode: (string, Json) -> Option<Location>, strtod: string -> Float64): (r: Result<Json, SetValueError>)
    ensures parsed.None? ==> r == Failure(InvalidJson)
    ensures parsed.Some? && Target(parsed.value, path, findNode).None? ==> r == Failure(PathNotFound)
    ensures (parsed.Some? && Target(parsed.value, path, findNode).Some? &&
             !Target(parsed.value, path, findNode).value.1.JObject?) ==> r == Failure(NotAnObject)
    ensures parsed.Some? && Target(parsed.value, path, findNode).Some? &&
            Target(parsed.value, path, findNode).value.1.JObject? ==>
              (r == Failure(NoSuchProperty) <==>
               Lookup(Target(parsed.value, path, findNode).value.1.members, CStr(property)).None?)
    ensures r.Success? <==> parsed.Some? && Target(parsed.value, path, findNode).Some? &&
                            Target(parsed.value, path, findNode).value.1.JObject? &&
                            Lookup(Target(parsed.value, path, findNode).value.1.members, CStr(property)).Some?
    ensures r.Success? ==> r.value.JObject? == parsed.value.JObject?
  {
    match parsed
    case None => Failure(InvalidJson)
    case Some(doc) =>
      match Target(doc, path, findNode)
      case None => Failure(PathNotFound)
      case Some((loc, node)) =>
        if !node.JObject? then Failure(NotAnObject)
        else
          var name := CStr(property);
          match Lookup(node.members, name)
          case None => Failure(NoSuchProperty)
          case Some(item) =>
            NodeAtSnoc(doc, loc, Key(name));
            Success(ReplaceAt(doc, loc + [Key(name)], Coerce(item, value, strtod)))
  }

  /** A successful `setValue` is the replacement of the property by its
      coerced value. */
  lemma {:induction false} SetValueReplaces(doc: Json, path: string, property: string, value: string,
                         findNode: (string, Json) -> Option<Location>, strtod: string -> Float64)
    requires SetValue(Some(doc), path, property, value, findNode, strtod).Success?
    ensures Target(doc, path, findNode).Some? && Target(doc, path, findNode).value.1.JObject?
    ensures Lookup(Target(doc, path, findNode).value.1.members, CStr(property)).Some?
    ensures NodeAt(doc, Target(doc, path, findNode).value.0 + [Key(CStr(property))]).Some?
    ensures SetValue(Some(doc), path, property, value, findNode, strtod).value ==
            ReplaceAt(doc, Target(doc, path, findNode).value.0 + [Key(CStr(property))],
                      Coerce(Lookup(Target(doc, path, findNode).value.1.members, CStr(property)).value, value, strtod))
  {
    var (loc, node) := Target(doc, path, findNode).value;
    NodeAtSnoc(doc, loc, Key(CStr(property)));
    NodeAtMember(node, CStr(property));
  }

  /** After a successful `setValue` the property holds the coerced value. */
  lemma {:induction false} SetValueReadsBack(doc: Json, path: string, property: string, value: string,
                          findNode: (string, Json) -> Option<Location>, strtod: string -> Float64)
    requires SetValue(Some(doc), path, property, value, findNode, strtod).Success?
    ensures Target(doc, path, findNode).Some? && Target(doc, path, findNode).value.1.JObject?
    ensures Lookup(Target(doc, path, findNode).value.1.members, CStr(property)).Some?
    ensures NodeAt(SetValue(Some(doc), path, property, value, findNode, strtod).value,
                   Target(doc, path, findNode).value.0 + [Key(CStr(property))]) ==
            Some(Coerce(Lookup(Target(doc, path, findNode).value.1.members, CStr(property)).value, value, strtod))
  {
    SetValueReplaces(doc, path, property, value, findNode, strtod);
    var (loc, node) := Target(doc, path, findNode).value;
    var name := CStr(property);
    ReplaceAtHere(doc, loc + [Key(name)], Coerce(Lookup(node.members, name).value, value, strtod));
  }

  /** Every node off the property's location is the same after `setValue`. */
  lemma {:induction false} SetValueElsewhere(doc: Json, path: string, property: string, value: string,
                          findNode: (string, Json) -> Option<Location>, strtod: string -> Float64, other: Location)
    requires SetValue(Some(doc), path, property, value, findNode, strtod).Success?
    requires Diverges(Target(doc, path, findNode).value.0 + [Key(CStr(property))], other)
    ensures NodeAt(SetValue(Some(doc), path, property, value, findNode, strtod).value, other) == NodeAt(doc, other)
  {
    SetValueReplaces(doc, path, property, value, findNode, strtod);
    var (loc, node) := Target(doc, path, findNode).value;
    var name := CStr(property);
    ReplaceAtElsewhere(doc, loc + [Key(name)], Coerce(Lookup(node.members, name).value, value, strtod), other);
  }

  /** `setValue` updates the property in place: the designated object keeps
      its members in order with their names, duplicates included, and only
      the first member with the property's name takes the coerced value. */
  lemma {:induction false} SetValueInPlace(doc: Json, path: string, property: string, value: string,
                        findNode: (string, Json) -> Option<Location>, strtod: string -> Float64)
    requires SetValue(Some(doc), path, property, value, findNode, strtod).Success?
    ensures Target(doc, path, findNode).Some? && Target(doc, path, findNode).value.1.JObject?
    ensures FindIndex(Target(doc, path, findNode).value.1.members, CStr(property)).Some?
    ensures var (loc, node) := Target(doc, path, findNode).value;
            var i := FindIndex(node.members, CStr(property)).value;
            NodeAt(SetValue(Some(doc), path, property, value, findNode, strtod).value, loc) ==
            Some(JObject(node.members[i := (CStr(property), Coerce(node.members[i].1, value, strtod))]))
  {
    SetValueReplaces(doc, path, property, value, findNode, strtod);
    var (loc, node) := Target(doc, path, findNode).value;
    var name := CStr(property);
    var c := Coerce(Lookup(node.members, name).value, value, strtod);
    ReplaceAtBelow(doc, loc, [Key(name)], c);
    assert [Key(name)][1..] == [];
  }

  /** Two locations that agree up to a last step on different names diverge. */
  lemma {:induction false} SiblingsDiverge(loc: Location, a: string, b: string)
    requires a != b
    ensures Diverges(loc + [Key(a)], loc + [Key(b)])
    decreases |loc|
  {
    if loc != [] {
      assert (loc + [Key(a)])[1..] == loc[1..] + [Key(a)];
      assert (loc + [Key(b)])[1..] == loc[1..] + [Key(b)];
      SiblingsDiverge(loc[1..], a, b);
    }
  }

  /** The other members of the designated object keep their values. */
  lemma {:induction false} SetValueKeepsSiblings(doc: Json, path: string, property: string, value: string,
                              findNode: (string, Json) -> Option<Location>, strtod: string -> Float64, sibling: string)
    requires SetValue(Some(doc), path, property, value, findNode, strtod).Success?
    requires sibling != CStr(property)
    ensures NodeAt(SetValue(Some(doc), path, property, value, findNode, strtod).value,
                   Target(doc, path, findNode).value.0 + [Key(sibling)]) ==
            NodeAt(doc, Target(doc, path, findNode).value.0 + [Key(sibling)])
  {
    var loc := Target(doc, path, findNode).value.0;
    SiblingsDiverge(loc, CStr(property), sibling);
    SetValueElsewhere(doc, path, property, value, findNode, strtod, loc + [Key(sibling)]);
  }

  /** The configuration fields of the plugin. */
  datatype Settings = Settings(enable: bool, category: string, item: string, path: string,
                               property: string, triggerValue: string, clearValue: string)

  const Defaults := Settings(false, "", "", "", "", "", "")

  /** `configure`: each field taken from the category item of the same name
      when that item exists, kept otherwise. */
  function Configured(s: Settings, config: ConfigCategory): (r: Settings)
    ensures r.category == (if "category" in config then config["category"] else s.category)
    ensures r.item == (if "item" in config then config["item"] else s.item)
    ensures r.path == (if "path" in config then config["path"] else s.path)
    ensures r.property == (if "property" in config then config["property"] else s.property)
    ensures r.triggerValue == (if "triggerValue" in config then config["triggerValue"] else s.triggerValue)
    ensures r.clearValue == (if "clearValue" in config then config["clearValue"] else s.clearValue)
    ensures "enable" in config ==> (r.enable <==> EnableFlag(config["enable"]))
    ensures "enable" !in config ==> r.enable == s.enable
  {
    Settings(EnableSetting(s.enable, config),
             Overwrite(s.category, config, "category"),
             Overwrite(s.item, config, "item"),
             Overwrite(s.path, config, "path"),
             Overwrite(s.property, config, "property"),
             Overwrite(s.triggerValue, config, "triggerValue"),
             Overwrite(s.clearValue, config, "clearValue"))
  }

  /** Applying the same category again changes nothing more. */
  lemma {:induction false} ConfiguredTwice(s: Settings, config: ConfigCategory)
    ensures Configured(Configured(s, config), config) == Configured(s, config)
  {
  }

  /** What the management client reports for the target item: the category
      could not be fetched (an exception), the item is not of JSON type, or
      it is, with its value parsed (absent when the text does not parse). */
  datatype ItemFetch = FetchFailed | NotJsonItem | JsonItem(parsed: Option<Json>)

  /** What `notify` does after the gate: the result it returns and the
      document it hands to the management client to store, if any. */
  datatype Outcome = Outcome(ok: bool, written: Option<Json>)

  /** The outcome of a notification. `fetch` answers for a category and an
      item, `store` says whether storing a document into them succeeded. */
  function OutcomeFor(s: Settings, hasClient: bool, payload: Option<Json>,
                      fetch: (string, string) -> ItemFetch,
                      findNode: (string, Json) -> Option<Location>, strtod: string -> Float64,
                      store: (string, string, Json) -> bool): (r: Outcome)
    ensures r.ok <==> Gate(s.enable, hasClient, payload, s.triggerValue, s.clearValue).Some? &&
                      (fetch(s.category, s.item) == NotJsonItem ||
                       (fetch(s.category, s.item).JsonItem? &&
                        SetValue(fetch(s.category, s.item).parsed, s.path, s.property,
                                 Gate(s.enable, hasClient, payload, s.triggerValue, s.clearValue).value,
                                 findNode, strtod).Success? &&
                        store(s.category, s.item,
                              SetValue(fetch(s.category, s.item).parsed, s.path, s.property,
                                       Gate(s.enable, hasClient, payload, s.triggerValue, s.clearValue).value,
                                       findNode, strtod).value)))
    ensures r.written.Some? <==> Gate(s.enable, hasClient, payload, s.triggerValue, s.clearValue).Some? &&
                                 fetch(s.category, s.item).JsonItem? &&
                                 SetValue(fetch(s.category, s.item).parsed, s.path, s.property,
                                          Gate(s.enable, hasClient, payload, s.triggerValue, s.clearValue).value,
                                          findNode, strtod).Success?
    ensures r.written.Some? ==>
              r.written.value == SetValue(fetch(s.category, s.item).parsed, s.path, s.property,
                                          Gate(s.enable, hasClient, payload, s.triggerValue, s.clearValue).value,
                                          findNode, strtod).value &&
              r.ok == store(s.category, s.item, r.written.value)
  {
    match Gate(s.enable, hasClient, payload, s.triggerValue, s.clearValue)
    case None => Outcome(false, None)
    case Some(value) =>
      match fetch(s.category, s.item)
      case FetchFailed => Outcome(false, None)
      case NotJsonItem => Outcome(true, None)
      case JsonItem(parsed) =>
        match SetValue(parsed, s.path, s.property, value, findNode, strtod)
        case Failure(_) => Outcome(false, None)
        case Success(doc) => Outcome(store(s.category, s.item, doc), Some(doc))
  }

  /** `notify` returns true without writing exactly when the item is not
      JSON; whenever it writes, the written property holds the delivered
      value in its own type. */
  lemma {:induction false} OutcomeWritesSelectedValue(s: Settings, hasClient: bool, doc: Json,
                                   fetch: (string, string) -> ItemFetch,
                                   findNode: (string, Json) -> Option<Location>, strtod: string -> Float64,
                                   store: (string, string, Json) -> bool)
    requires OutcomeFor(s, hasClient, Some(doc), fetch, findNode, strtod, store).written.Some?
    ensures Gate(s.enable, hasClient, Some(doc), s.triggerValue, s.clearValue).Some?
    ensures fetch(s.category, s.item).JsonItem? && fetch(s.category, s.item).parsed.Some?
    ensures var item := fetch(s.category, s.item).parsed.value;
            var target := Target(item, s.path, findNode).value;
            NodeAt(OutcomeFor(s, hasClient, Some(doc), fetch, findNode, strtod, store).written.value,
                   target.0 + [Key(CStr(s.property))]) ==
            Some(Coerce(Lookup(target.1.members, CStr(s.property)).value,
                        Gate(s.enable, hasClient, Some(doc), s.triggerValue, s.clearValue).value, strtod))
  {
    var value := Gate(s.enable, hasClient, Some(doc), s.triggerValue, s.clearValue).value;
    var item := fetch(s.category, s.item).parsed.value;
    SetValueReadsBack(item, s.path, s.property, value, findNode, strtod);
  }

  /** An item that is not JSON is reported as delivered, with nothing written. */
  lemma {:induction false} NotJsonItemSucceeds(s: Settings, hasClient: bool, payload: Option<Json>,
                            fetch: (string, string) -> ItemFetch,
                            findNode: (string, Json) -> Option<Location>, strtod: string -> Float64,
                            store: (string, string, Json) -> bool)
    requires Gate(s.enable, hasClient, payload, s.triggerValue, s.clearValue).Some?
    requires fetch(s.category, s.item) == NotJsonItem
    ensures OutcomeFor(s, hasClient, payload, fetch, findNode, strtod, store) == Outcome(true, None)
  {
  }

  /** A switched-off plugin returns false and writes nothing. */
  lemma {:induction false} DisabledWritesNothing(s: Settings, hasClient: bool, payload: Option<Json>,
                              fetch: (string, string) -> ItemFetch,
                              findNode: (string, Json) -> Option<Location>, strtod: string -> Float64,
                              store: (string, string, Json) -> bool)
    requires !s.enable
    ensures OutcomeFor(s, hasClient, payload, fetch, findNode, strtod, store) == Outcome(false, None)
  {
    GateRefusals(s.enable, hasClient, payload, s.triggerValue, s.clearValue);
  }

  /** Notification delivery into one property of a JSON configuration item. */
  class ConfigJSONDelivery {
    var enable: bool
    var category: string
    var item: string
    var path: string
    var property: string
    var triggerValue: string
    var clearValue: string
    /** The management client, absent until the service provides one. */
    var mgmtClient: Option<ManagementClient>

    function CurrentSettings(): (r: Settings)
      reads this
    {
      Settings(enable, category, item, path, property, triggerValue, clearValue)
    }

    /** Starts switched off with empty texts and no client, then reads the category. */
    constructor (config: ConfigCategory)
      ensures CurrentSettings() == Configured(Defaults, config)
      ensures mgmtClient.None?
    {
      enable := false;
      category := "";
      item := "";
      path := "";
      property := "";
      triggerValue := "";
      clearValue := "";
      mgmtClient := None;
      new;
      Configure(config);
    }

    /** Reads the target, the two values and the enable switch from the category. */
    method Configure(config: ConfigCategory)
      modifies this
      ensures CurrentSettings() == Configured(old(CurrentSettings()), config)
      ensures mgmtClient == old(mgmtClient)
    {
      category := Overwrite(category, config, "category");
      item := Overwrite(item, config, "item");
      path := Overwrite(path, config, "path");
      property := Overwrite(property, config, "property");
      triggerValue := Overwrite(triggerValue, config, "triggerValue");
      clearValue := Overwrite(clearValue, config, "clearValue");
      enable := EnableSetting(enable, config);
    }

    /** Handles one notification: the gate, then the item is fetched,
        updated by `setValue` and stored; any exception gives false. */
    method Notify(payload: Option<Json>, fetch: (string, string) -> ItemFetch,
                  findNode: (string, Json) -> Option<Location>, strtod: string -> Float64,
                  store: (string, string, Json) -> bool)
      returns (ok: bool, written: Option<Json>)
      ensures Outcome(ok, written) == OutcomeFor(CurrentSettings(), mgmtClient.Some?, payload, fetch, findNode, strtod, store)
    {
      if !enable || mgmtClient.None? {
        return false, None;
      }
      if payload.None? {
        return false, None;
      }
      var value: string;
      match Member(payload.value, "reason") {
        case Some(JString(text)) =>
          if CStr(text) == "triggered" {
            value := triggerValue;
          } else {
            value := clearValue;
          }
        case _ =>
          return false, None;
      }
      match fetch(category, item) {
        case FetchFailed =>
          return false, None;
        case NotJsonItem =>
          return true, None;
        case JsonItem(parsed) =>
          match SetValue(parsed, path, property, value, findNode, strtod) {
            case Failure(_) =>
              return false, None;
            case Success(doc) =>
              ok := store(category, item, doc);
              written := Some(doc);
          }
      }
    }
  }
}
