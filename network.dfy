/** The two selectors over the host's interface table (`psutil.net_if_addrs()`):
    `get_ip_address` and `is_tailscale_up`. The table is passed in as a value,
    listed in the order the dictionary iterates it. */
module Network {
  import opened Wrappers

  /** Address families that `psutil` reports; only `Inet` (socket.AF_INET, IPv4) matters here. */
  datatype Family = Inet | Inet6 | Packet | OtherFamily(code: int)

  datatype Addr = Addr(family: Family, address: string)

  /** One entry of the interface table: an interface name and its addresses in order. */
  datatype Interface = Interface(name: string, addrs: seq<Addr>)

  const Loopback := "127.0.0.1"
  const NoAddress := "N/A"
  const TailscaleInterface := "tailscale0"
  const TailscaleDown := "Down"

  /** An address `get_ip_address` may return: IPv4 and not the loopback address. */
  predicate IsCandidate(a: Addr) {
    a.family == Inet && a.address != Loopback
  }

  predicate IsIpv4(a: Addr) {
    a.family == Inet
  }

  /** Address `j` of interface `i` is a candidate and no candidate comes before it,
      in interface order and then address order. */
  ghost predicate FirstCandidateAt(table: seq<Interface>, i: int, j: int) {
    && 0 <= i < |table| && 0 <= j < |table[i].addrs|
    && IsCandidate(table[i].addrs[j])
    && (forall i', j' :: 0 <= i' < i && 0 <= j' < |table[i'].addrs| ==> !IsCandidate(table[i'].addrs[j']))
    && (forall j' :: 0 <= j' < j ==> !IsCandidate(table[i].addrs[j']))
  }

  /** The interfaces before index `n` hold no candidate. */
  ghost predicate NoCandidateBefore(table: seq<Interface>, n: nat) {
    forall i, j :: 0 <= i < n && i < |table| && 0 <= j < |table[i].addrs| ==> !IsCandidate(table[i].addrs[j])
  }

  /** Index of the first address in `addrs` that satisfies `p`. */
  function FirstWhere(addrs: seq<Addr>, p: Addr -> bool): (r: Option<nat>)
    ensures r.Some? ==> r.value < |addrs| && p(addrs[r.value]) && forall k :: 0 <= k < r.value ==> !p(addrs[k])
    ensures r.None? ==> forall k :: 0 <= k < |addrs| ==> !p(addrs[k])
  {
    if |addrs| == 0 then None
    else if p(addrs[0]) then Some(0)
    else match FirstWhere(addrs[1..], p)
      case None => None
      case Some(k) => Some(k + 1)
  }

  /** Position (interface, address) of the first candidate in `table[from..]`. */
  function FindCandidate(table: seq<Interface>, from: nat): (r: Option<(nat, nat)>)
    requires from <= |table|
    requires NoCandidateBefore(table, from)
    ensures r.Some? ==> FirstCandidateAt(table, r.value.0, r.value.1)
    ensures r.None? ==> NoCandidateBefore(table, |table|)
    decreases |table| - from
  {
    if from == |table| then None
    else match FirstWhere(table[from].addrs, IsCandidate)
      case Some(j) => Some((from, j))
      case None => FindCandidate(table, from + 1)
  }

  lemma FirstCandidateAtUnique(table: seq<Interface>, i: int, j: int, i': int, j': int)
    requires FirstCandidateAt(table, i, j) && FirstCandidateAt(table, i', j')
    ensures i == i' && j == j'
  {
  }

  /** What `get_ip_address` returns for `table`. */
  function IpAddress(table: seq<Interface>): (ip: string)
    ensures ip != Loopback
    ensures NoCandidateBefore(table, |table|) ==> ip == NoAddress
    ensures forall i, j :: FirstCandidateAt(table, i, j) ==> ip == table[i].addrs[j].address
  {
    match FindCandidate(table, 0)
    case None => NoAddress
    case Some((i, j)) =>
      assert forall i', j' :: FirstCandidateAt(table, i', j') ==> i' == i && j' == j by {
        forall i', j' | FirstCandidateAt(table, i', j') ensures i' == i && j' == j {
          FirstCandidateAtUnique(table, i, j, i', j');
        }
      }
      table[i].addrs[j].address
  }

  /** `get_ip_address`: scan every interface's addresses in order and return the
      first IPv4 address that is not 127.0.0.1, or "N/A" if there is none. */
  method GetIpAddress(table: seq<Interface>) returns (ip: string)
    ensures ip == IpAddress(table)
  {
    var i := 0;
    while i < |table|
      invariant 0 <= i <= |table|
      invariant NoCandidateBefore(table, i)
    {
      var addrs := table[i].addrs;
      var j := 0;
      while j < |addrs|
        invariant 0 <= j <= |addrs|
        invariant forall k :: 0 <= k < j ==> !IsCandidate(addrs[k])
      {
        if addrs[j].family == Inet && addrs[j].address != Loopback {
          assert FirstCandidateAt(table, i, j);
          return addrs[j].address;
        }
        j := j + 1;
      }
      i := i + 1;
    }
    return NoAddress;
  }

  /** `get_ip_address` either reports "N/A" or an address that really is the first
      IPv4, non-loopback address of the table. */
  lemma IpAddressCases(table: seq<Interface>)
    ensures || (IpAddress(table) == NoAddress && NoCandidateBefore(table, |table|))
            || exists i, j :: FirstCandidateAt(table, i, j) && IpAddress(table) == table[i].addrs[j].address
  {
    match FindCandidate(table, 0)
    case None =>
    case Some((i, j)) =>
      assert FirstCandidateAt(table, i, j);
  }

  /** Index of the first interface named `name`, as the dictionary lookup `addrs[name]` finds it. */
  function Lookup(table: seq<Interface>, name: string): (r: Option<nat>)
    ensures r.Some? ==> r.value < |table| && table[r.value].name == name && forall k :: 0 <= k < r.value ==> table[k].name != name
    ensures r.None? ==> forall k :: 0 <= k < |table| ==> table[k].name != name
  {
    if |table| == 0 then None
    else if table[0].name == name then Some(0)
    else match Lookup(table[1..], name)
      case None => None
      case Some(k) => Some(k + 1)
  }

  /** What `is_tailscale_up` returns for `table`. */
  function TailscaleStatus(table: seq<Interface>): (s: string)
    ensures (forall k :: 0 <= k < |table| ==> table[k].name != TailscaleInterface) ==> s == TailscaleDown
    ensures forall k :: 0 <= k < |table| && table[k].name == TailscaleInterface && (forall m :: 0 <= m < k ==> table[m].name != TailscaleInterface) ==>
      || ((forall j :: 0 <= j < |table[k].addrs| ==> !IsIpv4(table[k].addrs[j])) && s == TailscaleDown)
      || (exists j :: 0 <= j < |table[k].addrs| && IsIpv4(table[k].addrs[j]) && (forall j' :: 0 <= j' < j ==> !IsIpv4(table[k].addrs[j'])) && s == table[k].addrs[j].address)
  {
    match Lookup(table, TailscaleInterface)
    case None => TailscaleDown
    case Some(k) =>
      match FirstWhere(table[k].addrs, IsIpv4)
      case None => TailscaleDown
      case Some(j) => table[k].addrs[j].address
  }

  /** `is_tailscale_up`: look up `tailscale0` and return its first IPv4 address,
      or "Down" if the interface is absent or has no IPv4 address. */
  method IsTailscaleUp(table: seq<Interface>) returns (status: string)
    ensures status == TailscaleStatus(table)
  {
    match Lookup(table, TailscaleInterface) {
      case None =>
      case Some(k) =>
        var addrs := table[k].addrs;
        var j := 0;
        while j < |addrs|
          invariant 0 <= j <= |addrs|
          invariant forall m :: 0 <= m < j ==> !IsIpv4(addrs[m])
        {
          if addrs[j].family == Inet {
            return addrs[j].address;
          }
          j := j + 1;
        }
    }
    return TailscaleDown;
  }
}
