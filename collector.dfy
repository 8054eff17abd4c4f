/** The best-effort status queries of the collector. Every call into hardware, a
    file or an external program is passed in as its outcome; every failure the
    source catches becomes a fixed sentinel value. */
module Collector {
  import opened Wrappers
  import opened Strings

  /** Any exception raised while querying the PiJuice board (board absent, an
      error reply without a 'data' entry, a bus error, ...). */
  datatype PiJuiceError = PiJuiceError

  /** How running an external program (`i2cdetect`, `iwgetid`) can fail:
      the binary is missing (FileNotFoundError) or it exits non-zero
      (CalledProcessError). */
  datatype CommandError = NotFound | Failed(returnCode: int)

  const NotAvailable := "N/A"
  const BatteryError := "Error"
  const PapirusAddress := "48"

  /** The word shown for the PiJuice `powerInput` field. */
  function ChargingWord(powerInput: string): (w: string)
    ensures w in {"Discharging", "Charging", "Unknown"}
    ensures w == "Discharging" <==> powerInput == "NOT_PRESENT"
    ensures w == "Charging" <==> powerInput == "PRESENT"
  {
    if powerInput == "NOT_PRESENT" then "Discharging"
    else if powerInput == "PRESENT" then "Charging"
    else "Unknown"
  }

  /** `get_battery_status`: the charge level and the charging word, or the pair
      ("N/A", "Error") when either query raised. `chargeLevel` is the outcome of
      `GetChargeLevel()['data']`, `powerInput` that of `GetStatus()['data']['powerInput']`. */
  function GetBatteryStatus(chargeLevel: Result<string, PiJuiceError>, powerInput: Result<string, PiJuiceError>): (r: (string, string))
    ensures chargeLevel.Err? || powerInput.Err? ==> r == (NotAvailable, BatteryError)
    ensures chargeLevel.Ok? && powerInput.Ok? ==> r.0 == chargeLevel.value && r.1 in {"Discharging", "Charging", "Unknown"}
    ensures chargeLevel.Ok? && powerInput.Ok? ==> (r.1 == "Discharging" <==> powerInput.value == "NOT_PRESENT")
    ensures chargeLevel.Ok? && powerInput.Ok? ==> (r.1 == "Charging" <==> powerInput.value == "PRESENT")
  {
    match (chargeLevel, powerInput)
    case (Ok(level), Ok(input)) => (level, ChargingWord(input))
    case _ => (NotAvailable, BatteryError)
  }

  /** A successful battery query never shows the "Error" status word, so the
      sentinel pair appears exactly when a query failed. */
  lemma BatterySentinelOnlyOnFailure(chargeLevel: Result<string, PiJuiceError>, powerInput: Result<string, PiJuiceError>)
    ensures GetBatteryStatus(chargeLevel, powerInput).1 == BatteryError <==> chargeLevel.Err? || powerInput.Err?
  {
  }

  /** `get_ssid`: the output of `iwgetid -r` with surrounding whitespace removed,
      or "N/A" when that is empty or the command is missing or fails. */
  function GetSsid(output: Result<string, CommandError>): (ssid: string)
    ensures ssid != "" && NoEdgeSpace(ssid)
    ensures output.Err? ==> ssid == NotAvailable
    ensures output.Ok? && Strip(output.value) != "" ==> IsStripOf(ssid, output.value)
    ensures output.Ok? && Strip(output.value) == "" ==> ssid == NotAvailable
  {
    match output
    case Err(_) => NotAvailable
    case Ok(text) =>
      StripSpec(text);
      var ssid := Strip(text);
      if ssid != "" then ssid else NotAvailable
  }

  /** An SSID output made only of whitespace (a bare newline, say) reads "N/A". */
  lemma BlankSsidIsNotAvailable(text: string)
    requires AllSpace(text)
    ensures GetSsid(Ok(text)) == NotAvailable
  {
    StripAllSpace(text);
  }

  /** `is_papirus_connected`: the display is present exactly when the bus scan
      (`i2cdetect -y 1`) succeeds and its output contains "48". */
  function IsPapirusConnected(scan: Result<string, CommandError>): (connected: bool)
    ensures connected <==> scan.Ok? && exists i :: OccursAt(PapirusAddress, scan.value, i)
  {
    match scan
    case Err(_) => false
    case Ok(text) => Contains(text, PapirusAddress)
  }

  /** The unit written after the temperature: the degree sign and "C". */
  const DegreesCelsius := "\U{B0}C"

  /** The suffix as the source file spells it: the UTF-8 bytes of the degree sign
      read back as Latin-1, which gives the two characters "Â°" before the "C". */
  const DegreesCelsiusAsWritten := "\U{C2}\U{B0}C"

  /** `get_cpu_temperature` as written: "N/A" when the thermal file does not exist,
      otherwise the formatted reading followed by the suffix the source spells.
      `reading` is None when opening the file raised FileNotFoundError and otherwise
      holds the reading already formatted to one decimal place. */
  function CpuTemperatureAsWritten(reading: Option<string>): (temp: string)
    ensures reading.None? ==> temp == NotAvailable
    ensures reading.Some? ==> |temp| == |reading.value| + 3 && temp[..|reading.value|] == reading.value
    ensures reading.Some? ==> temp[|reading.value|..] == DegreesCelsiusAsWritten
  {
    match reading
    case None => NotAvailable
    case Some(degrees) => degrees + DegreesCelsiusAsWritten
  }

  /** As written, the reading is followed by "Â", the degree sign and "C": the
      character right after the number is "Â", not the degree sign. */
  lemma StrayCharacterAsWritten(degrees: string)
    ensures var temp := CpuTemperatureAsWritten(Some(degrees));
            && |temp| == |degrees| + 3
            && temp[|degrees|] == '\U{C2}' && temp[|degrees| + 1] == '\U{B0}' && temp[|degrees| + 2] == 'C'
            && temp[|degrees|] != '\U{B0}'
  {
    var temp := CpuTemperatureAsWritten(Some(degrees));
    assert temp[|degrees|..] == DegreesCelsiusAsWritten;
  }

  /** `get_cpu_temperature` with the intended unit: "N/A" when the thermal file does
      not exist, otherwise the formatted reading followed by "°C". */
  function CpuTemperature(reading: Option<string>): (temp: string)
    ensures reading.None? ==> temp == NotAvailable
    ensures reading.Some? ==> |temp| == |reading.value| + 2 && temp[..|reading.value|] == reading.value
  {
    match reading
    case None => NotAvailable
    case Some(degrees) => degrees + DegreesCelsius
  }

  /** The temperature reads "N/A" exactly when the thermal file is missing, and a
      reading is always followed directly by the degree sign and "C". */
  lemma TemperatureReading(reading: Option<string>)
    ensures CpuTemperature(reading) == NotAvailable <==> reading.None?
    ensures reading.Some? ==> CpuTemperature(reading)[|reading.value|..] == "\U{B0}C"
  {
    if reading.Some? {
      var temp := CpuTemperature(reading);
      assert temp[|temp| - 1] == 'C';
      assert temp[|reading.value|..] == DegreesCelsius;
    }
  }
}
