/** `get_system_status`: the eight-line status report, built from one sample of
    every source. Float formatting (CPU %, MB with rounding, load averages,
    degrees) is done outside the model: those fields arrive as formatted text. */
module Report {
  import opened Wrappers
  import opened Network
  import opened Collector

  /** The already-formatted field strings the report is assembled from. */
  datatype StatusFields = StatusFields(
    cpuLoad: string,            // psutil.cpu_percent(interval=1)
    batteryPercentage: string,  // first half of get_battery_status()
    chargingStatus: string,     // second half of get_battery_status()
    memUsed: string,            // used memory in MB, rounded to 1 place
    memTotal: string,           // total memory in MB, rounded to 1 place
    cpuTemp: string,            // get_cpu_temperature()
    loadAvg: string,            // "a, b, c" with two decimals each
    ipAddress: string,          // get_ip_address()
    netSent: string,            // MB sent, rounded to 2 places
    netRecv: string,            // MB received, rounded to 2 places
    ssid: string,               // get_ssid()
    tailscale: string)          // is_tailscale_up()

  /** One sample of every source the collector reads, as the outcomes of the calls. */
  datatype Sample = Sample(
    cpuLoad: string,
    chargeLevel: Result<string, PiJuiceError>,
    powerInput: Result<string, PiJuiceError>,
    memUsed: string,
    memTotal: string,
    temperature: Option<string>,
    loadAvg: string,
    interfaces: seq<Interface>,
    netSent: string,
    netRecv: string,
    ssidOutput: Result<string, CommandError>)

  /** The labels of the eight report lines, in display order. */
  const Labels: seq<string> := ["CPU", "Memory", "CPU Temp", "Load Avg", "IP Addr", "Net", "Wi-Fi", "Tailscale"]

  /** The report is the labelled lines in `Labels` order: line `k` starts with
      `Labels[k] + ": "`, and its first colon is the one after the label. */
  ghost predicate LabelledLine(line: string, name: string) {
    && |name| + 2 <= |line|
    && line[..|name| + 2] == name + ": "
    && ':' !in name
  }

  /** The line assembly at the end of `get_system_status`. */
  function StatusLines(f: StatusFields): (lines: seq<string>)
    ensures |lines| == |Labels| == 8
    ensures forall k :: 0 <= k < 8 ==> LabelledLine(lines[k], Labels[k])
    ensures lines[0] == "CPU: " + f.cpuLoad + "%, Battery: " + f.batteryPercentage + "%, " + f.chargingStatus
    ensures lines[1] == "Memory: " + f.memUsed + "/" + f.memTotal + " MB"
    ensures lines[2] == "CPU Temp: " + f.cpuTemp
    ensures lines[3] == "Load Avg: " + f.loadAvg
    ensures lines[4] == "IP Addr: " + f.ipAddress
    ensures lines[5] == "Net: Sent: " + f.netSent + " MB, Recv: " + f.netRecv + " MB"
    ensures lines[6] == "Wi-Fi: " + f.ssid
    ensures lines[7] == "Tailscale: " + f.tailscale
  {
    var lines := [
      "CPU: " + f.cpuLoad + "%, Battery: " + f.batteryPercentage + "%, " + f.chargingStatus,
      "Memory: " + f.memUsed + "/" + f.memTotal + " MB",
      "CPU Temp: " + f.cpuTemp,
      "Load Avg: " + f.loadAvg,
      "IP Addr: " + f.ipAddress,
      "Net: Sent: " + f.netSent + " MB, Recv: " + f.netRecv + " MB",
      "Wi-Fi: " + f.ssid,
      "Tailscale: " + f.tailscale
    ];
    assert forall k :: 0 <= k < 8 ==> LabelledLine(lines[k], Labels[k]) by {
      forall k | 0 <= k < 8 ensures LabelledLine(lines[k], Labels[k]) {
        assert ':' !in Labels[k];
      }
    }
    lines
  }

  /** The field values `get_system_status` computes from one sample. */
  function Collect(s: Sample): (f: StatusFields)
    ensures f.ipAddress == IpAddress(s.interfaces) && f.tailscale == TailscaleStatus(s.interfaces)
    ensures (f.batteryPercentage, f.chargingStatus) == GetBatteryStatus(s.chargeLevel, s.powerInput)
    ensures f.cpuTemp == CpuTemperature(s.temperature) && f.ssid == GetSsid(s.ssidOutput)
  {
    var (battery, charging) := GetBatteryStatus(s.chargeLevel, s.powerInput);
    StatusFields(s.cpuLoad, battery, charging, s.memUsed, s.memTotal, CpuTemperature(s.temperature),
                 s.loadAvg, IpAddress(s.interfaces), s.netSent, s.netRecv, GetSsid(s.ssidOutput),
                 TailscaleStatus(s.interfaces))
  }

  /** `get_system_status`: always exactly eight lines, in the fixed order. */
  function GetSystemStatus(s: Sample): (lines: seq<string>)
    ensures |lines| == 8
    ensures forall k :: 0 <= k < 8 ==> LabelledLine(lines[k], Labels[k])
  {
    StatusLines(Collect(s))
  }

  /** Each line of the report carries the result of its own query, after its label:
      the battery pair on the CPU line, `get_cpu_temperature` on line 3,
      `get_ip_address` on line 5, `get_ssid` on line 7 and `is_tailscale_up` on line 8;
      the formatted psutil figures fill the other lines in the order the source writes them. */
  lemma LinesCarryQueryResults(s: Sample)
    ensures var lines := GetSystemStatus(s);
            var battery := GetBatteryStatus(s.chargeLevel, s.powerInput);
            && lines[0] == "CPU: " + s.cpuLoad + "%, Battery: " + battery.0 + "%, " + battery.1
            && lines[1] == "Memory: " + s.memUsed + "/" + s.memTotal + " MB"
            && lines[2] == "CPU Temp: " + CpuTemperature(s.temperature)
            && lines[3] == "Load Avg: " + s.loadAvg
            && lines[4] == "IP Addr: " + IpAddress(s.interfaces)
            && lines[5] == "Net: Sent: " + s.netSent + " MB, Recv: " + s.netRecv + " MB"
            && lines[6] == "Wi-Fi: " + GetSsid(s.ssidOutput)
            && lines[7] == "Tailscale: " + TailscaleStatus(s.interfaces)
  {
  }

  /** A missing thermal file makes the third line read exactly "CPU Temp: N/A". */
  lemma MissingTemperatureLine(s: Sample)
    requires s.temperature.None?
    ensures GetSystemStatus(s)[2] == "CPU Temp: N/A"
  {
  }

  /** A failing PiJuice query shows "N/A" as the percentage and "Error" as the status. */
  lemma BatteryFailureLine(s: Sample)
    requires s.chargeLevel.Err? || s.powerInput.Err?
    ensures GetSystemStatus(s)[0] == "CPU: " + s.cpuLoad + "%, Battery: N/A%, Error"
  {
  }

  /** Without an IPv4 address on tailscale0 the last line reads exactly "Tailscale: Down". */
  lemma TailscaleDownLine(s: Sample)
    requires forall k, j :: 0 <= k < |s.interfaces| && s.interfaces[k].name == TailscaleInterface && 0 <= j < |s.interfaces[k].addrs|
               ==> !IsIpv4(s.interfaces[k].addrs[j])
    ensures GetSystemStatus(s)[7] == "Tailscale: Down"
  {
    match Lookup(s.interfaces, TailscaleInterface)
    case None =>
    case Some(k) =>
      assert FirstWhere(s.interfaces[k].addrs, IsIpv4).None?;
  }
}
