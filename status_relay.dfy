/**
 * The target of the status relay: `status` asks the device with id 4 for its
 * status at `http://<address>:8080/status`, the address read from the
 * address table with Go's map index, which gives "" for a missing id.
 */
module StatusRelay {
  import opened Options
  import opened GoStrings
  import opened GoStrconv
  import Addresses

  /** The device the `status` handler always asks. */
  const StatusDevice: int := 4

  const Scheme: string := "http://"
  const PortAndPath: string := ":8080/status"

  /** `listIPs[id]`: the address for the id, or Go's zero value "" when there is none. */
  function HostOf(table: map<int, string>, id: int): (host: string)
    ensures id in table ==> host == table[id]
    ensures id !in table ==> host == ""
  {
    Addresses.Resolve(table, id).GetOr("")
  }

  /** `fmt.Sprintf("http://%s:8080/status", listIPs[id])`; total, for any table and id. */
  function StatusUri(table: map<int, string>, id: int): (uri: string)
    ensures ParseStatusUri(uri) == Some(HostOf(table, id))
  {
    var host := HostOf(table, id);
    var uri := Scheme + host + PortAndPath;
    assert uri[..|Scheme|] == Scheme;
    assert uri[|uri| - |PortAndPath|..] == PortAndPath;
    assert uri[|Scheme|..|uri| - |PortAndPath|] == host;
    uri
  }

  /** The URI the `status` handler requests. */
  function RelayUri(table: map<int, string>): (uri: string)
    ensures ParseStatusUri(uri) == Some(if StatusDevice in table then table[StatusDevice] else "")
  {
    StatusUri(table, StatusDevice)
  }

  /** The host part of a status URI, or None when the string is not of that shape. */
  function ParseStatusUri(uri: string): Option<string> {
    if |uri| >= |Scheme| + |PortAndPath| && uri[..|Scheme|] == Scheme && uri[|uri| - |PortAndPath|..] == PortAndPath
    then Some(uri[|Scheme|..|uri| - |PortAndPath|])
    else None
  }

  /** Every string ParseStatusUri accepts is the status URI of the host it returns. */
  lemma ParseStatusUriExact(uri: string, host: string)
    requires ParseStatusUri(uri) == Some(host)
    ensures uri == Scheme + host + PortAndPath
  {
    assert uri == uri[..|Scheme|] + uri[|Scheme|..|uri| - |PortAndPath|] + uri[|uri| - |PortAndPath|..];
  }

  /** Two tables give the same status URI exactly when they give the same host for the id. */
  lemma StatusUriDeterminesHost(t1: map<int, string>, t2: map<int, string>, id: int)
    ensures StatusUri(t1, id) == StatusUri(t2, id) <==> HostOf(t1, id) == HostOf(t2, id)
  {
    if StatusUri(t1, id) == StatusUri(t2, id) {
      assert ParseStatusUri(StatusUri(t1, id)) == ParseStatusUri(StatusUri(t2, id));
    }
  }

  /**
   * A missing id is not told apart from an id stored with an empty address:
   * both give `http://:8080/status`.
   */
  lemma MissingIdGivesEmptyHost(table: map<int, string>, id: int)
    requires id !in table
    ensures StatusUri(table, id) == "http://:8080/status"
    ensures StatusUri(table, id) == StatusUri(table[id := ""], id)
  {
    StatusUriDeterminesHost(table, table[id := ""], id);
  }

  /**
   * End to end: when the last ip.cfg line for device 4 is `address,4` (line
   * i, whatever lines for other ids follow it), the relay asks
   * `http://address:8080/status`.
   */
  lemma RelayUriAfterLoad(lines: seq<string>, address: string, i: nat)
    requires Addresses.Loadable(lines)
    requires i < |lines| && lines[i] == address + "," + "4"
    requires forall j :: i < j < |lines| ==> Addresses.LineId(lines[j]) != StatusDevice
    requires CommaFree(address)
    ensures RelayUri(Addresses.LoadLines(map[], lines)) == Scheme + address + PortAndPath
  {
    assert FormatInt(4) == "4";
    Addresses.LineOfFormattedId(address, 4);
    Addresses.LoadLinesLastWins(map[], lines, i);
  }
}
