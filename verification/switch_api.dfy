/**
 * The one remote operation main uses, update_switch_port: a PUT of a port's
 * new configuration to the dashboard. The network is out of reach here, so
 * the dashboard is an object that logs every update_switch_port call,
 * whether or not the PUT got through, and answers each PUT request through
 * a fixed reply function.
 */
module SwitchApi {

  import opened Wrappers

  /** The arguments of one update_switch_port call: credential, switch serial, port number, request body. */
  datatype PortUpdate = PortUpdate(apiKey: string, serial: string, number: string, data: string)

  /** The HTTP request requests.put sends: address, X-Cisco-Meraki-API-Key header and body. */
  datatype Put = Put(url: string, apiKey: string, data: string)

  /** What the PUT gives back: a response text, or a requests.exceptions.RequestException. */
  datatype Reply = Response(text: string) | RequestException(message: string)

  const DevicesUrl: string := "https://dashboard.meraki.com/api/v0/devices/"
  const SwitchPortsPath: string := "/switchPorts/"

  /** The address a port update is sent to. */
  function SwitchPortUrl(serial: string, number: string): string
  {
    DevicesUrl + serial + SwitchPortsPath + number
  }

  /**
   * For serials without a slash the address names exactly one (serial,
   * port) pair; a serial holding a slash could pose as another one.
   */
  lemma SwitchPortUrlInjective(s1: string, n1: string, s2: string, n2: string)
    requires forall k | 0 <= k < |s1| :: s1[k] != '/'
    requires forall k | 0 <= k < |s2| :: s2[k] != '/'
    requires SwitchPortUrl(s1, n1) == SwitchPortUrl(s2, n2)
    ensures s1 == s2 && n1 == n2
  {
    var u1, u2 := SwitchPortUrl(s1, n1), SwitchPortUrl(s2, n2);
    var d := |DevicesUrl|;
    assert forall k | 0 <= k < |s1| :: u1[d + k] == s1[k];
    assert forall k | 0 <= k < |s2| :: u2[d + k] == s2[k];
    assert u1[d + |s1|] == '/' && u2[d + |s2|] == '/';
    if |s1| != |s2| {
      assert false;
    }
    assert s1 == u1[d..d + |s1|] == u2[d..d + |s2|] == s2;
    assert n1 == u1[d + |s1| + |SwitchPortsPath|..] == n2;
  }

  class Dashboard {
    /** Every update_switch_port call so far, whether or not the PUT got through, oldest first. */
    var log: seq<PortUpdate>
    /** The dashboard's answer to each PUT request. */
    const respond: Put -> Reply

    constructor (respond: Put -> Reply)
      ensures log == [] && this.respond == respond
    {
      log := [];
      this.respond := respond;
    }

    /**
     * update_switch_port: the call always reaches the log; the PUT goes to
     * the port's address with the key as header and data as body. A
     * response is handed back (its decoded JSON is modelled by its text),
     * while a RequestException is caught and the call returns None.
     */
    method UpdateSwitchPort(apiKey: string, serial: string, number: string, data: string)
      returns (result: Option<string>)
      modifies this
      ensures log == old(log) + [PortUpdate(apiKey, serial, number, data)]
      ensures var reply := respond(Put(SwitchPortUrl(serial, number), apiKey, data));
        (reply.Response? ==> result == Some(reply.text)) &&
        (reply.RequestException? ==> result == None)
    {
      log := log + [PortUpdate(apiKey, serial, number, data)];
      var url := SwitchPortUrl(serial, number);
      match respond(Put(url, apiKey, data))
      case Response(text) =>
        result := Some(text);
      case RequestException(_) =>
        result := None;
    }
  }
}
