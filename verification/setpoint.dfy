/** The set point delivery plugin (`SetPointDelivery`): on each notification
    it picks the trigger or the clear value, fills its `$asset.datapoint$`
    references from the readings that came with the notification, and PUTs
    the result to the set point entry of a south service. */
module SetPoint {
  import opened Wrappers
  import opened StdString
  import opened JsonTree
  import opened Delivery
  import opened Substitution

  /** The configuration fields of the plugin. */
  datatype Settings = Settings(enable: bool, southService: string, triggerValue: string, clearValue: string)

  /** The state a freshly built plugin starts from: switched off, every
      text empty. */
  const Defaults := Settings(false, "", "", "")

  /** `configure`: each field taken from the category item of the same role
      when that item exists, kept otherwise. */
  function Configured(s: Settings, config: ConfigCategory): (r: Settings)
    ensures r.southService == (if "service" in config then config["service"] else s.southService)
    ensures r.triggerValue == (if "triggerValue" in config then config["triggerValue"] else s.triggerValue)
    ensures r.clearValue == (if "clearValue" in config then config["clearValue"] else s.clearValue)
    ensures "enable" in config ==> (r.enable <==> EnableFlag(config["enable"]))
    ensures "enable" !in config ==> r.enable == s.enable
  {
    Settings(EnableSetting(s.enable, config),
             Overwrite(s.southService, config, "service"),
             Overwrite(s.triggerValue, config, "triggerValue"),
             Overwrite(s.clearValue, config, "clearValue"))
  }

  /** Applying the same category again changes nothing more. */
  lemma {:induction false} ConfiguredTwice(s: Settings, config: ConfigCategory)
    ensures Configured(Configured(s, config), config) == Configured(s, config)
  {
  }

  /** A category without any of the plugin's items leaves the settings as they were. */
  lemma {:induction false} ConfiguredByOtherItems(s: Settings, config: ConfigCategory)
    requires "service" !in config && "triggerValue" !in config
    requires "clearValue" !in config && "enable" !in config
    ensures Configured(s, config) == s
  {
  }

  /** The PUT that delivers a set point: the body goes to the south service. */
  datatype Request = Request(southService: string, body: string)

  /** How the south service answered: it could not be found, it answered
      with an HTTP status line, or the exchange threw. */
  datatype SouthReply = ServiceUnknown | Answered(status: string) | Failed

  /** Whether `notify` returns at all: with readings attached, the value it
      delivers must have its '$' in pairs, or the substitution never ends. */
  predicate Returns(s: Settings, hasClient: bool, payload: Option<Json>)
  {
    match Gate(s.enable, hasClient, payload, s.triggerValue, s.clearValue)
    case None => true
    case Some(value) => DataObject(payload.value).None? || EvenDollars(value)
  }

  /** The request `notify` makes, if it gets that far: the selected value,
      with its references filled from the "data" object when there is one. */
  function RequestFor(s: Settings, hasClient: bool, payload: Option<Json>, formatDouble: Float64 -> string): (r: Option<Request>)
    requires Fits(s.triggerValue) && Fits(s.clearValue)
    requires Returns(s, hasClient, payload)
    ensures r.Some? <==> Gate(s.enable, hasClient, payload, s.triggerValue, s.clearValue).Some?
    ensures r.Some? ==> r.value.southService == s.southService
    ensures r.Some? && DataObject(payload.value).None? ==>
              r.value.body == Gate(s.enable, hasClient, payload, s.triggerValue, s.clearValue).value
    ensures r.Some? && DataObject(payload.value).Some? ==>
              Expand(Gate(s.enable, hasClient, payload, s.triggerValue, s.clearValue).value,
                     DataObject(payload.value).value, formatDouble) == Some(r.value.body)
  {
    match Gate(s.enable, hasClient, payload, s.triggerValue, s.clearValue)
    case None => None
    case Some(value) =>
      match DataObject(payload.value)
      case None => Some(Request(s.southService, value))
      case Some(data) =>
        ScanDefinedIffEven(value, Resolver(data, formatDouble));
        Some(Request(s.southService, Expand(value, data, formatDouble).value))
  }

  /** A switched-off plugin makes no request, whatever the notification. */
  lemma {:induction false} DisabledMakesNoRequest(s: Settings, hasClient: bool, payload: Option<Json>, formatDouble: Float64 -> string)
    requires Fits(s.triggerValue) && Fits(s.clearValue)
    requires !s.enable
    ensures Returns(s, hasClient, payload)
    ensures RequestFor(s, hasClient, payload, formatDouble).None?
  {
    GateRefusals(s.enable, hasClient, payload, s.triggerValue, s.clearValue);
  }

  /** A value without '$' is sent as it is, readings or not. */
  lemma {:induction false} PlainValueSentVerbatim(s: Settings, hasClient: bool, payload: Option<Json>, formatDouble: Float64 -> string)
    requires Fits(s.triggerValue) && Fits(s.clearValue)
    requires Gate(s.enable, hasClient, payload, s.triggerValue, s.clearValue).Some?
    requires '$' !in Gate(s.enable, hasClient, payload, s.triggerValue, s.clearValue).value
    ensures Returns(s, hasClient, payload)
    ensures RequestFor(s, hasClient, payload, formatDouble) ==
              Some(Request(s.southService, Gate(s.enable, hasClient, payload, s.triggerValue, s.clearValue).value))
  {
    var value := Gate(s.enable, hasClient, payload, s.triggerValue, s.clearValue).value;
    if DataObject(payload.value).Some? {
      NoReferenceUnchanged(value, DataObject(payload.value).value, formatDouble);
      ScanDefinedIffEven(value, Resolver(DataObject(payload.value).value, formatDouble));
    }
  }

  /** Notification delivery to one south service's set point entry. */
  class SetPointDelivery {
    var enable: bool
    var southService: string
    var triggerValue: string
    var clearValue: string
    /** The notification service handle, once it has been registered. */
    var service: Option<NotificationService>
    /** The management client, absent until it is taken from the service. */
    var mgmtClient: Option<ManagementClient>

    function CurrentSettings(): (r: Settings)
      reads this
    {
      Settings(enable, southService, triggerValue, clearValue)
    }

    /** The values delivered are std::strings. */
    predicate Valid()
      reads this
    {
      Fits(triggerValue) && Fits(clearValue)
    }

    /** Starts switched off with empty texts and no handles, then reads the category. */
    constructor (config: ConfigCategory)
      requires CategoryFits(config)
      ensures Valid()
      ensures CurrentSettings() == Configured(Defaults, config)
      ensures service.None? && mgmtClient.None?
    {
      enable := false;
      southService := "";
      triggerValue := "";
      clearValue := "";
      service := None;
      mgmtClient := None;
      new;
      Configure(config);
    }

    /** Reads the service, the two values and the enable switch from the category. */
    method Configure(config: ConfigCategory)
      requires Valid() && CategoryFits(config)
      modifies this
      ensures Valid()
      ensures CurrentSettings() == Configured(old(CurrentSettings()), config)
      ensures service == old(service) && mgmtClient == old(mgmtClient)
    {
      southService := Overwrite(southService, config, "service");
      triggerValue := Overwrite(triggerValue, config, "triggerValue");
      clearValue := Overwrite(clearValue, config, "clearValue");
      enable := EnableSetting(enable, config);
    }

    /** Switches the plugin off and touches nothing else. */
    method Disable()
      modifies this
      ensures CurrentSettings() == old(CurrentSettings()).(enable := false)
      ensures service == old(service) && mgmtClient == old(mgmtClient)
    {
      enable := false;
    }

    /** Stores the service handle the callback returns for `handle`. */
    method SetService<H>(getService: H -> Option<NotificationService>, handle: H)
      modifies this
      ensures service == getService(handle)
      ensures CurrentSettings() == old(CurrentSettings()) && mgmtClient == old(mgmtClient)
    {
      service := getService(handle);
    }

    /** Takes the management client from the stored service, or none without one. */
    method SetManagementClient()
      modifies this
      ensures service.None? ==> mgmtClient.None?
      ensures service.Some? ==> mgmtClient == service.value.mgmtClient
      ensures CurrentSettings() == old(CurrentSettings()) && service == old(service)
    {
      if service.Some? {
        mgmtClient := service.value.mgmtClient;
      } else {
        mgmtClient := None;
      }
    }

    /** Handles one notification. `payload` is the parsed trigger reason
        (absent when it does not parse); `reply` is how the south service
        answers a request. Returns whether the set point was accepted with
        "200 OK", and the request made, if any. */
    method Notify(payload: Option<Json>, formatDouble: Float64 -> string, reply: Request -> SouthReply)
      returns (ok: bool, request: Option<Request>)
      requires Valid()
      requires Returns(CurrentSettings(), mgmtClient.Some?, payload)
      ensures request == RequestFor(CurrentSettings(), mgmtClient.Some?, payload, formatDouble)
      ensures ok <==> request.Some? && reply(request.value) == Answered("200 OK")
    {
      if !enable || mgmtClient.None? {
        return false, None;
      }
      if payload.None? {
        return false, None;
      }
      var doc := payload.value;
      var value: string;
      match Member(doc, "reason") {
        case Some(JString(text)) =>
          if CStr(text) == "triggered" {
            value := triggerValue;
          } else {
            value := clearValue;
          }
        case _ =>
          return false, None;
      }
      if DataObject(doc).Some? {
        value := DataSubstitution(value, DataObject(doc).value, formatDouble);
      }
      request := Some(Request(southService, value));
      match reply(request.value) {
        case Answered(status) =>
          ok := status == "200 OK";
        case _ =>
          ok := false;
      }
    }
  }

  /** Once switched off, the plugin answers every notification with false
      and sends nothing, whatever its handles and the payload. */
  method DisabledNotifyFails(p: SetPointDelivery, payload: Option<Json>, formatDouble: Float64 -> string,
                             reply: Request -> SouthReply)
    returns (ok: bool, request: Option<Request>)
    requires p.Valid()
    modifies p
    ensures !ok && request.None?
  {
    p.Disable();
    DisabledMakesNoRequest(p.CurrentSettings(), p.mgmtClient.Some?, payload, formatDouble);
    ok, request := p.Notify(payload, formatDouble, reply);
  }
}
