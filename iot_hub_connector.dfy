/** Translation of an IoT Hub connection string into an Event Hubs-compatible
    one. The transient AMQP connection is abstracted: what the service answers
    on the management link is a function of the connection that was planned,
    and the runtime's URI encoding and HMAC-SHA256 signing are parameters. */
module IotHubConnector {
  import opened JsValues
  import Decimal
  import EntityPathPattern

  const InvalidConnectionStringMessage: string := "Invalid Azure Iot Hub connection string. "
  const HubNameMessage: string := "Unable to extract the Iot Hub name from the connection string."
  const ParseFailurePrefix: string := "Cannot parse the EventHub name from the given address: "
  const RedirectCondition: string := "amqp:link:redirect"
  const SasPrefix: string := "SharedAccessSignature sr="
  const AmqpsPort: nat := 5671

  /** The three keys read from the result of `parseConnectionString`. */
  datatype ConnectionStringFields = ConnectionStringFields(
    HostName: Option<string>,
    SharedAccessKeyName: Option<string>,
    SharedAccessKey: Option<string>)

  /** The runtime's library calls: `encodeURIComponent`, and HMAC-SHA256 keyed
      by the base64-decoded key with a base64 digest, `sign(key, message)`. */
  datatype Primitives = Primitives(encodeUriComponent: string -> string, sign: (string, string) -> string)

  /** `encodeURIComponent` escapes the separators of the token and of the
      signed text. */
  ghost predicate EscapesSeparators(prim: Primitives)
  {
    forall s :: '&' !in prim.encodeUriComponent(s) && '\n' !in prim.encodeUriComponent(s)
  }

  /** Everything up to the first `c`, and what follows that `c` when there is one. */
  function SplitAt(s: string, c: char): (r: (string, Option<string>))
    ensures c !in r.0 && r.0 <= s
    ensures r.1.None? <==> c !in s
    ensures r.1.Some? ==> s == r.0 + [c] + r.1.value
    decreases |s|
  {
    if s == [] then ([], None)
    else if s[0] == c then ([], Some(s[1..]))
    else
      var (head, tail) := SplitAt(s[1..], c);
      ([s[0]] + head, tail)
  }

  /** Splitting stops at the first separator, whatever follows it. */
  lemma {:induction false} SplitAtFirst(a: string, c: char, b: string)
    requires c !in a
    ensures SplitAt(a + [c] + b, c) == (a, Some(b))
    decreases |a|
  {
    if a != [] {
      SplitAtFirst(a[1..], c, b);
      assert (a + [c] + b)[1..] == a[1..] + [c] + b;
      assert [a[0]] + a[1..] == a;
    }
  }

  // ---------------------------------------------------------------- hub name

  /** `HostName.split(".")[0]`: the host name up to its first dot. */
  function HubName(host: string): (r: string)
    ensures r <= host && '.' !in r
    ensures |r| < |host| ==> host[|r|] == '.'
    decreases |host|
  {
    if host == [] || host[0] == '.' then [] else [host[0]] + HubName(host[1..])
  }

  /** The IoT Hub name comes back from a host name of the form `<name>.<domain>`. */
  lemma {:induction false} HubNameOfHost(name: string, domain: string)
    requires '.' !in name
    ensures HubName(name + "." + domain) == name
    decreases |name|
  {
    if name != [] {
      HubNameOfHost(name[1..], domain);
      assert (name + "." + domain)[1..] == name[1..] + "." + domain;
    }
  }

  // --------------------------------------------------------------- SAS token

  /** The text that is signed: the already-encoded resource URI, a newline and the expiry. */
  function StringToSign(encodedUri: string, expiry: nat): string
  {
    encodedUri + "\n" + Decimal.Format(expiry)
  }

  /** `generateSasToken`, with the expiry (in whole seconds since the epoch) given. */
  function SasToken(resourceUri: string, signingKey: string, policyName: string, expiry: nat, prim: Primitives): string
  {
    var sr := prim.encodeUriComponent(resourceUri);
    var sig := prim.encodeUriComponent(prim.sign(signingKey, StringToSign(sr, expiry)));
    SasPrefix + sr + "&sig=" + sig + "&se=" + Decimal.Format(expiry) + "&skn=" + policyName
  }

  /** The four fields of a SAS token. */
  datatype SasFields = SasFields(sr: string, sig: string, se: nat, skn: string)

  /** When `s` starts with `key`, the text after it up to the separator and what follows the separator. */
  function TakeField(s: string, key: string, sep: char): (r: Option<(string, string)>)
    ensures r.Some? ==> sep !in r.value.0 && s == key + r.value.0 + [sep] + r.value.1
  {
    if key <= s then
      var (value, rest) := SplitAt(s[|key|..], sep);
      if rest.Some? then
        assert s == key + s[|key|..];
        Some((value, rest.value))
      else None
    else None
  }

  lemma TakeFieldOf(key: string, value: string, sep: char, rest: string)
    requires sep !in value
    ensures TakeField(key + value + [sep] + rest, key, sep) == Some((value, rest))
  {
    var s := key + value + [sep] + rest;
    assert s[|key|..] == value + [sep] + rest;
    SplitAtFirst(value, sep, rest);
  }

  /** Reads a SAS token back into its fields. */
  function ParseSasToken(token: string): Option<SasFields>
  {
    match TakeField(token, SasPrefix, '&')
    case None => None
    case Some((sr, afterSr)) =>
      match TakeField(afterSr, "sig=", '&')
      case None => None
      case Some((sig, afterSig)) =>
        match TakeField(afterSig, "se=", '&')
        case None => None
        case Some((se, afterSe)) =>
          if "skn=" <= afterSe && Decimal.Parse(se).Some? then
            Some(SasFields(sr, sig, Decimal.Parse(se).value, afterSe[4..]))
          else None
  }

  /** A token laid out from its fields reads back into the same fields, as
      long as neither encoded field contains the '&' that separates them. */
  lemma {:induction false} ParseSasTokenLayout(sr: string, sig: string, se: nat, skn: string)
    requires '&' !in sr && '&' !in sig
    ensures ParseSasToken(SasPrefix + sr + "&sig=" + sig + "&se=" + Decimal.Format(se) + "&skn=" + skn)
      == Some(SasFields(sr, sig, se, skn))
  {
    var digits := Decimal.Format(se);
    var token := SasPrefix + sr + "&sig=" + sig + "&se=" + digits + "&skn=" + skn;
    var afterSe := "skn=" + skn;
    var afterSig := "se=" + digits + ['&'] + afterSe;
    var afterSr := "sig=" + sig + ['&'] + afterSig;
    assert token == SasPrefix + sr + ['&'] + afterSr;
    TakeFieldOf(SasPrefix, sr, '&', afterSr);
    TakeFieldOf("sig=", sig, '&', afterSig);
    assert '&' !in digits;
    TakeFieldOf("se=", digits, '&', afterSe);
    assert afterSe[4..] == skn;
    Decimal.ParseFormat(se);
  }

  /** The token carries the encoded URI, the encoded signature of that same
      encoded URI with the expiry, the expiry and the policy name, each
      recoverable, and the signed text splits back into the `sr` and `se` fields. */
  lemma SasTokenLayout(resourceUri: string, signingKey: string, policyName: string, expiry: nat, prim: Primitives)
    requires EscapesSeparators(prim)
    ensures var sr := prim.encodeUriComponent(resourceUri);
            var sig := prim.encodeUriComponent(prim.sign(signingKey, StringToSign(sr, expiry)));
            && ParseSasToken(SasToken(resourceUri, signingKey, policyName, expiry, prim)) == Some(SasFields(sr, sig, expiry, policyName))
            && SplitAt(StringToSign(sr, expiry), '\n') == (sr, Some(Decimal.Format(expiry)))
  {
    var sr := prim.encodeUriComponent(resourceUri);
    var sig := prim.encodeUriComponent(prim.sign(signingKey, StringToSign(sr, expiry)));
    ParseSasTokenLayout(sr, sig, expiry, policyName);
    SplitAtFirst(sr, '\n', Decimal.Format(expiry));
  }

  // ------------------------------------------------------- connection plan

  /** What `new Connection(...)` is given. */
  datatype ConnectionOptions = ConnectionOptions(
    transport: string,
    host: string,
    hostname: string,
    username: string,
    port: nat,
    reconnect: bool,
    password: string)

  /** The connection to open and the source address of the receiver link on it. */
  datatype ConnectionPlan = ConnectionPlan(options: ConnectionOptions, source: string)

  function ResourceUri(host: string): string
  {
    host + "/messages/events"
  }

  function Username(keyName: string, hubName: string): string
  {
    keyName + "@sas.root." + hubName
  }

  function ManagementAddress(host: string): string
  {
    "amqps://" + host + "/messages/events/$management"
  }

  /** The fields with which the translator goes on to the network: all three
      present and a host name that yields a hub name. */
  predicate UsableFields(fields: ConnectionStringFields)
  {
    Present(fields.HostName) && Present(fields.SharedAccessKey) && Present(fields.SharedAccessKeyName)
    && fields.HostName.value[0] != '.'
  }

  /** Everything the translator decides before it touches the network. */
  function PlanConnection(fields: ConnectionStringFields, expiry: nat, prim: Primitives): (r: Result<ConnectionPlan, string>)
    ensures r.Ok? <==> UsableFields(fields)
    ensures r == Err(InvalidConnectionStringMessage) <==>
      !(Present(fields.HostName) && Present(fields.SharedAccessKey) && Present(fields.SharedAccessKeyName))
    ensures r == Err(HubNameMessage) <==>
      Present(fields.HostName) && Present(fields.SharedAccessKey) && Present(fields.SharedAccessKeyName)
      && fields.HostName.value[0] == '.'
    ensures r.Ok? ==>
      var host := fields.HostName.value;
      var keyName := fields.SharedAccessKeyName.value;
      && host[0] != '.'
      && r.value.options == ConnectionOptions(
           "tls", host, host, Username(keyName, HubName(host)), AmqpsPort, false,
           SasToken(ResourceUri(host), fields.SharedAccessKey.value, keyName, expiry, prim))
      && r.value.source == ManagementAddress(host)
  {
    if !(Present(fields.HostName) && Present(fields.SharedAccessKey) && Present(fields.SharedAccessKeyName)) then
      Err(InvalidConnectionStringMessage)
    else
      var host := fields.HostName.value;
      var keyName := fields.SharedAccessKeyName.value;
      var hubName := HubName(host);
      if hubName == "" then Err(HubNameMessage)
      else
        var token := SasToken(ResourceUri(host), fields.SharedAccessKey.value, keyName, expiry, prim);
        Ok(ConnectionPlan(
          ConnectionOptions("tls", host, host, Username(keyName, hubName), AmqpsPort, false, token),
          ManagementAddress(host)))
  }

  // ------------------------------------------------------- redirect answer

  /** `error.info` of an AMQP error; either field may be absent. */
  datatype RedirectInfo = RedirectInfo(hostname: Option<string>, address: Option<string>)

  /** What `context.receiver.error` holds when the receiver reports an error:
      something `isAmqpError` refuses (including undefined), or an AMQP error. */
  datatype ReceiverError =
    | NotAmqp(description: string)
    | Amqp(condition: string, info: Option<RedirectInfo>)

  /** Why the promise is rejected: a new `Error` with a message, or the receiver's error itself. */
  datatype Rejection = Failed(message: string) | Passed(error: ReceiverError)

  /** How the translation ends. `ListenerThrew`: reading `error.info.address`
      threw inside the event listener, so the promise is never settled. */
  datatype Settlement = Resolved(connectionString: string) | Rejected(reason: Rejection) | ListenerThrew

  /** The Event Hubs-compatible connection string handed back on success. */
  function EventHubConnectionString(hostname: string, entityPath: string, keyName: string, key: string): string
  {
    "Endpoint=sb://" + hostname + "/;EntityPath=" + entityPath
      + ";SharedAccessKeyName=" + keyName + ";SharedAccessKey=" + key
  }

  /** The four fields of an Event Hubs connection string. */
  datatype EventHubFields = EventHubFields(hostname: string, entityPath: string, keyName: string, key: string)

  /** Reads an Event Hubs connection string of the layout above back into its fields. */
  function ParseEventHubConnectionString(s: string): Option<EventHubFields>
  {
    match TakeField(s, "Endpoint=sb://", ';')
    case None => None
    case Some((endpoint, afterEndpoint)) =>
      if endpoint == [] || endpoint[|endpoint| - 1] != '/' then None
      else ParseEntityAndKeys(endpoint[..|endpoint| - 1], afterEndpoint)
  }

  /** The fields after the endpoint: entity path, key name and key. */
  function ParseEntityAndKeys(hostname: string, s: string): Option<EventHubFields>
  {
    match TakeField(s, "EntityPath=", ';')
    case None => None
    case Some((entityPath, afterPath)) =>
      match TakeField(afterPath, "SharedAccessKeyName=", ';')
      case None => None
      case Some((keyName, afterKeyName)) =>
        if "SharedAccessKey=" <= afterKeyName then
          Some(EventHubFields(hostname, entityPath, keyName, afterKeyName[|"SharedAccessKey="|..]))
        else None
  }

  lemma ParseEntityAndKeysLayout(hostname: string, entityPath: string, keyName: string, key: string)
    requires ';' !in entityPath && ';' !in keyName
    ensures ParseEntityAndKeys(hostname, "EntityPath=" + entityPath + ";SharedAccessKeyName=" + keyName + ";SharedAccessKey=" + key)
      == Some(EventHubFields(hostname, entityPath, keyName, key))
  {
    var afterKeyName := "SharedAccessKey=" + key;
    var afterPath := "SharedAccessKeyName=" + keyName + [';'] + afterKeyName;
    assert ";SharedAccessKey=" == [';'] + "SharedAccessKey=";
    assert ";SharedAccessKeyName=" == [';'] + "SharedAccessKeyName=";
    assert "EntityPath=" + entityPath + ";SharedAccessKeyName=" + keyName + ";SharedAccessKey=" + key
      == "EntityPath=" + entityPath + [';'] + afterPath;
    TakeFieldOf("EntityPath=", entityPath, ';', afterPath);
    TakeFieldOf("SharedAccessKeyName=", keyName, ';', afterKeyName);
    assert afterKeyName[|"SharedAccessKey="|..] == key;
  }

  /** The connection string keeps each of its four fields apart: host name,
      entity path and key name come back exactly when none contains ';'. */
  lemma EventHubConnectionStringRoundTrip(hostname: string, entityPath: string, keyName: string, key: string)
    requires ';' !in hostname && ';' !in entityPath && ';' !in keyName
    ensures ParseEventHubConnectionString(EventHubConnectionString(hostname, entityPath, keyName, key))
      == Some(EventHubFields(hostname, entityPath, keyName, key))
  {
    var s := EventHubConnectionString(hostname, entityPath, keyName, key);
    var afterEndpoint := "EntityPath=" + entityPath + ";SharedAccessKeyName=" + keyName + ";SharedAccessKey=" + key;
    var endpoint := hostname + "/";
    assert s == "Endpoint=sb://" + endpoint + [';'] + afterEndpoint;
    TakeFieldOf("Endpoint=sb://", endpoint, ';', afterEndpoint);
    assert endpoint[..|endpoint| - 1] == hostname;
    ParseEntityAndKeysLayout(hostname, entityPath, keyName, key);
  }

  /** The message of the `Error` raised for an address the pattern does not
      match; `stack` and `infoJson` stand for `error.stack` and `JSON.stringify(error.info)`. */
  function ParseFailureMessage(address: string, stack: string, infoJson: string): (m: string)
    ensures ParseFailurePrefix + address <= m
  {
    ParseFailurePrefix + address + " in the error: " + stack + "\n" + infoJson
      + ".\nThe parsed result is: null."
  }

  /** True of the one error the translator expects: an AMQP redirect. */
  predicate IsRedirect(error: ReceiverError)
  {
    error.Amqp? && error.condition == RedirectCondition
  }

  /** The `receiverError` listener: only a redirect whose info names a host and
      an address matching the pattern resolves; the address is read before
      the host name is checked. */
  function HandleReceiverError(error: ReceiverError, keyName: string, key: string, stack: string, infoJson: string): (r: Settlement)
    ensures !IsRedirect(error) ==> r == Rejected(Passed(error))
    ensures IsRedirect(error) && (error.info.None? || error.info.value.address.None?) ==> r == ListenerThrew
    ensures IsRedirect(error) && error.info.Some? && error.info.value.address.Some? ==>
      var hostname := error.info.value.hostname;
      var address := error.info.value.address.value;
      && (!Present(hostname) ==> r == Rejected(Passed(error)))
      && (Present(hostname) && EntityPathPattern.EntityPath(address).None? ==>
            r.Rejected? && r.reason.Failed? && r.reason.message == ParseFailureMessage(address, stack, infoJson))
      && (Present(hostname) && EntityPathPattern.EntityPath(address).Some? ==>
            r == Resolved(EventHubConnectionString(hostname.value, EntityPathPattern.EntityPath(address).value, keyName, key)))
    ensures r.Resolved? <==>
      IsRedirect(error) && error.info.Some? && Present(error.info.value.hostname)
      && error.info.value.address.Some? && EntityPathPattern.EntityPath(error.info.value.address.value).Some?
  {
    if IsRedirect(error) then
      if error.info.None? || error.info.value.address.None? then ListenerThrew
      else
        var hostname := error.info.value.hostname;
        var address := error.info.value.address.value;
        var parsed := EntityPathPattern.EntityPath(address);
        if !Present(hostname) then Rejected(Passed(error))
        else if parsed.None? then Rejected(Failed(ParseFailureMessage(address, stack, infoJson)))
        else Resolved(EventHubConnectionString(hostname.value, parsed.value, keyName, key))
    else Rejected(Passed(error))
  }

  // ----------------------------------------------------------- translation

  /** `s` ends with the key part of a connection string for these keys. */
  predicate EndsWithKeys(s: string, keyName: string, key: string)
  {
    var tail := ";SharedAccessKeyName=" + keyName + ";SharedAccessKey=" + key;
    |tail| <= |s| && s[|s| - |tail|..] == tail
  }

  /** Every Event Hubs connection string ends with the key part it was built from. */
  lemma EventHubConnectionStringEndsWithKeys()
    ensures forall hostname, entityPath, keyName, key ::
      EndsWithKeys(EventHubConnectionString(hostname, entityPath, keyName, key), keyName, key)
  {
    forall hostname, entityPath, keyName, key
      ensures EndsWithKeys(EventHubConnectionString(hostname, entityPath, keyName, key), keyName, key)
    {
      var tail := ";SharedAccessKeyName=" + keyName + ";SharedAccessKey=" + key;
      assert EventHubConnectionString(hostname, entityPath, keyName, key)
        == "Endpoint=sb://" + hostname + "/;EntityPath=" + entityPath + tail;
    }
  }

  /** `convertIotHubToEventHubsConnectionString`: plan the connection, then let
      the service's answer on the management link decide. */
  function Translate(
    fields: ConnectionStringFields, expiry: nat, prim: Primitives,
    service: ConnectionPlan -> ReceiverError, stack: string, infoJson: string): (r: Settlement)
    ensures !(Present(fields.HostName) && Present(fields.SharedAccessKey) && Present(fields.SharedAccessKeyName)) ==>
      r == Rejected(Failed(InvalidConnectionStringMessage))
    ensures (Present(fields.HostName) && Present(fields.SharedAccessKey) && Present(fields.SharedAccessKeyName)
             && fields.HostName.value[0] == '.') ==> r == Rejected(Failed(HubNameMessage))
    ensures UsableFields(fields) ==>
      var e := service(PlanConnection(fields, expiry, prim).value);
      && r == HandleReceiverError(e, fields.SharedAccessKeyName.value, fields.SharedAccessKey.value, stack, infoJson)
      && (!IsRedirect(e) ==> r == Rejected(Passed(e)))
      && (IsRedirect(e) && (e.info.None? || e.info.value.address.None?) ==> r == ListenerThrew)
      && (IsRedirect(e) && e.info.Some? && e.info.value.address.Some? && !Present(e.info.value.hostname) ==>
            r == Rejected(Passed(e)))
      && (IsRedirect(e) && e.info.Some? && e.info.value.address.Some? && Present(e.info.value.hostname)
          && EntityPathPattern.EntityPath(e.info.value.address.value).None? ==>
            r == Rejected(Failed(ParseFailureMessage(e.info.value.address.value, stack, infoJson))))
      && (r.Resolved? <==>
            IsRedirect(e) && e.info.Some? && Present(e.info.value.hostname)
            && e.info.value.address.Some? && EntityPathPattern.EntityPath(e.info.value.address.value).Some?)
      && (r.Resolved? ==>
            r.connectionString == EventHubConnectionString(
              e.info.value.hostname.value, EntityPathPattern.EntityPath(e.info.value.address.value).value,
              fields.SharedAccessKeyName.value, fields.SharedAccessKey.value))
    ensures r.Resolved? ==>
      && fields.HostName.Some? && fields.SharedAccessKeyName.Some? && fields.SharedAccessKey.Some?
      && EndsWithKeys(r.connectionString, fields.SharedAccessKeyName.value, fields.SharedAccessKey.value)
  {
    match PlanConnection(fields, expiry, prim)
    case Err(message) => Rejected(Failed(message))
    case Ok(plan) =>
      EventHubConnectionStringEndsWithKeys();
      HandleReceiverError(service(plan), fields.SharedAccessKeyName.value, fields.SharedAccessKey.value, stack, infoJson)
  }

  /** Every redirect answer of the documented shape: a named host and an
      address made of a port-free prefix, "5671/", the entity path and
      "/$management" in any letter case. The translation then resolves to the
      Event Hubs connection string for that host and path, with the original
      keys. */
  lemma TranslateRedirect(fields: ConnectionStringFields, expiry: nat, prim: Primitives,
                          service: ConnectionPlan -> ReceiverError,
                          hostname: string, prefix: string, path: string, marker: string,
                          stack: string, infoJson: string)
    requires UsableFields(fields)
    requires hostname != ""
    requires EntityPathPattern.IsManagementMarker(marker) && EntityPathPattern.NoPort(prefix)
    requires forall i :: 0 <= i < |path| ==> !EntityPathPattern.LineTerminator(path[i])
    requires forall plan :: service(plan) == Amqp(RedirectCondition, Some(RedirectInfo(Some(hostname),
                              Some(prefix + EntityPathPattern.Port + path + "/" + marker))))
    ensures Translate(fields, expiry, prim, service, stack, infoJson)
      == Resolved(EventHubConnectionString(hostname, path,
                                           fields.SharedAccessKeyName.value, fields.SharedAccessKey.value))
  {
    var address := prefix + EntityPathPattern.Port + path + "/" + marker;
    EntityPathPattern.EntityPathOfRedirectAddress(address, prefix, path, marker);
    var e := service(PlanConnection(fields, expiry, prim).value);
    assert IsRedirect(e);
  }

  /** The documented example: a service that redirects to "myhub" on
      eh.example.com yields the Event Hubs connection string for that hub,
      with the original keys. */
  lemma TranslateRedirectExample(fields: ConnectionStringFields, expiry: nat, prim: Primitives,
                                 service: ConnectionPlan -> ReceiverError,
                                 address: string, stack: string, infoJson: string)
    requires Present(fields.HostName) && fields.HostName.value[0] != '.'
    requires Present(fields.SharedAccessKeyName) && Present(fields.SharedAccessKey)
    requires address == "amqps://eh.example.com:5671/myhub/$management"
    requires forall plan :: service(plan) == Amqp(RedirectCondition, Some(RedirectInfo(Some("eh.example.com"), Some(address))))
    ensures Translate(fields, expiry, prim, service, stack, infoJson)
      == Resolved(EventHubConnectionString("eh.example.com", "myhub",
                                           fields.SharedAccessKeyName.value, fields.SharedAccessKey.value))
  {
    EntityPathPattern.EntityPathExample(address);
    var plan := PlanConnection(fields, expiry, prim);
    assert plan.Ok?;
    var error := service(plan.value);
    assert IsRedirect(error);
    assert HandleReceiverError(error, fields.SharedAccessKeyName.value, fields.SharedAccessKey.value, stack, infoJson)
      == Resolved(EventHubConnectionString("eh.example.com", "myhub",
                                           fields.SharedAccessKeyName.value, fields.SharedAccessKey.value));
  }
}
