# papirus_status in Dafny

A model of the status monitor that draws a Raspberry Pi's health onto a PaPiRus
e-paper display (`papirus_status.py`). It covers the part of the script that is
not a library call. Every hardware, file, process and `psutil` query is passed in
as its outcome: a value, a `Result` (the call raised one of the exceptions the
source catches) or an `Option` (the file is missing).

- `Strings` (strings.dfy): Python's `str.strip()` with its exact whitespace set,
  the first-index search behind `":" in line` / `line.split(":", 1)`, and substring
  search (`"48" in result`). `IsStripOf` is an independent description of what
  `strip()` leaves, and it pins the stripped string down uniquely.
- `Network` (network.dfy): `get_ip_address` and `is_tailscale_up` over the
  interface table (`psutil.net_if_addrs()`, a sequence in dictionary order). Each
  is a loop-based method proved equal to a specification function. The
  specification functions' contracts say which address is chosen.
- `Collector` (collector.dfy): `get_battery_status`, `get_ssid`,
  `is_papirus_connected` and `get_cpu_temperature`, with their fallback values
  ("N/A", "Error", false).
- `Report` (report.dfy): `get_system_status`. It builds eight lines, in a fixed
  order, each starting with its label and ": ".
- `Renderer` (renderer.dfy): `render_status_to_image` as the sequence of
  `draw.text` calls it makes. The bold font's text width (`getbbox(t)[2]`) is the
  function parameter `labelWidth`. The method walks the lines with the cursor `y`.
  It is proved equal to `Layout`, whose lemmas place line `i` at
  `y = i * (font_size + 2)`. A line is split at its first colon into the bold
  `label + ": "` and the stripped value at `x = 5 + labelWidth(label + ": ")`; a
  line without a colon is drawn whole at `x = 5`.

## Model

| member | source | states |
|---|---|---|
| Strings.StripLeadingSpec | papirus_status.py:179 | `lstrip` removes only whitespace from the front, all of it, and what it keeps is a suffix of the input |
| Strings.StripTrailingSpec | papirus_status.py:179 | `rstrip` removes only whitespace from the back, all of it, and what it keeps is a prefix of the input |
| Strings.StripSpec | papirus_status.py:179 | `strip()` leaves a slice of the input with only whitespace around it and no whitespace at either end |
| Strings.StripUnique | papirus_status.py:179 | at most one string is such a slice, so the description fixes `strip()`'s result |
| Strings.StripAfterSpace | papirus_status.py:173-179 | whitespace in front of a value, such as the space after a label's colon, does not change the stripped value |
| Strings.StripAllSpace | papirus_status.py:86-87 | a string made only of whitespace strips to the empty string |
| Strings.IndexOf | papirus_status.py:172-173 | None exactly when the character is absent; otherwise the first index holding it |
| Strings.Contains | papirus_status.py:17 | true exactly when the pattern occurs at some position of the text |
| Network.FindCandidate | papirus_status.py:65-69 | finds the first IPv4 non-loopback address in interface order and then address order, or reports that there is none |
| Network.FirstCandidateAtUnique | papirus_status.py:65-69 | there is only one first candidate position |
| Network.IpAddress | papirus_status.py:60-70 | never "127.0.0.1"; "N/A" when no interface has a non-loopback IPv4 address; otherwise the first such address |
| Network.GetIpAddress | papirus_status.py:60-70 | the nested loop with early return computes `IpAddress` |
| Network.IpAddressCases | papirus_status.py:64-70 | the result is either "N/A" with no candidate anywhere, or the address at the first candidate position |
| Network.Lookup | papirus_status.py:98-99 | None exactly when no interface has the name; otherwise the first interface with it |
| Network.TailscaleStatus | papirus_status.py:93-102 | "Down" when `tailscale0` is absent or has no IPv4 address; otherwise its first IPv4 address |
| Network.IsTailscaleUp | papirus_status.py:93-102 | the lookup and loop with early return compute `TailscaleStatus` |
| Collector.ChargingWord | papirus_status.py:37-42 | "NOT_PRESENT" gives "Discharging" and only it does; "PRESENT" gives "Charging" and only it does; everything else gives "Unknown" |
| Collector.GetBatteryStatus | papirus_status.py:25-47 | a failed query gives exactly ("N/A", "Error"); otherwise the charge level and the charging word |
| Collector.BatterySentinelOnlyOnFailure | papirus_status.py:44-47 | "Error" is shown exactly when a query failed |
| Collector.GetSsid | papirus_status.py:81-91 | never empty and never with whitespace at either end; "N/A" on command failure or blank output; otherwise the stripped output |
| Collector.BlankSsidIsNotAvailable | papirus_status.py:86-87 | an output of only whitespace (a bare newline) gives "N/A" |
| Collector.IsPapirusConnected | papirus_status.py:10-19 | true exactly when the scan succeeded and "48" occurs in its output |
| Collector.CpuTemperatureAsWritten | papirus_status.py:49-58 | "N/A" when the thermal file is missing; otherwise the reading followed by exactly the suffix the file spells, "Â°C" |
| Collector.StrayCharacterAsWritten | papirus_status.py:56 | as written, the reading is followed by the three characters "Â", "°", "C", so the character after the number is not the degree sign |
| Collector.CpuTemperature | papirus_status.py:49-58 | "N/A" when the thermal file is missing; otherwise the reading followed by two more characters |
| Collector.TemperatureReading | papirus_status.py:53-58 | "N/A" exactly when the file is missing; a reading is followed directly by "°C" |
| Report.StatusLines | papirus_status.py:143-154 | exactly eight lines; line `k` starts with `Labels[k] + ": "`, no label holds a colon, and each line carries its own fields after its label (the used and total memory on "Memory", the IP address on "IP Addr", the SSID on "Wi-Fi", ...) |
| Report.Collect | papirus_status.py:109-140 | the IP, Tailscale, battery, temperature and SSID fields are what their query functions return for the sample |
| Report.GetSystemStatus | papirus_status.py:104-154 | always eight lines in the fixed order CPU, Memory, CPU Temp, Load Avg, IP Addr, Net, Wi-Fi, Tailscale |
| Report.LinesCarryQueryResults | papirus_status.py:104-154 | for one sample, the CPU line carries the battery pair of `get_battery_status`, "CPU Temp" the temperature, "IP Addr" the result of `get_ip_address`, "Wi-Fi" that of `get_ssid` and "Tailscale" that of `is_tailscale_up` |
| Report.MissingTemperatureLine | papirus_status.py:148 | a missing thermal file makes line 3 exactly "CPU Temp: N/A" |
| Report.BatteryFailureLine | papirus_status.py:143 | a failed battery query makes line 1 end in "Battery: N/A%, Error" |
| Report.TailscaleDownLine | papirus_status.py:153 | without an IPv4 address on `tailscale0` the last line is exactly "Tailscale: Down" |
| Renderer.RowOffsetIsProduct | papirus_status.py:170-182 | after `i` lines the cursor has moved `i * pitch` |
| Renderer.LineCommands | papirus_status.py:171-181 | one call for a line without a colon and two for a line with one, all at the line's height |
| Renderer.LineCommandsMeaning | papirus_status.py:172-181 | no colon: the whole line in the regular font at x = 5; otherwise the bold text before the first colon plus ": " at x = 5 and the stripped rest at x = 5 + its width |
| Renderer.RenderStatusToImage | papirus_status.py:157-183 | the image has the given size and receives exactly the calls of `Layout`, in order; the cursor is kept at `RowOffset(i)` before line `i` |
| Renderer.LayoutStep | papirus_status.py:171-182 | drawing line `i` at the cursor `RowOffset(i)` keeps the calls made so far, followed by those still to come, equal to the whole layout |
| Renderer.RowsCons | papirus_status.py:171-182 | the calls from line `i` on are line `i`'s calls followed by those of the later lines, one pitch lower |
| Renderer.RowsSplit | papirus_status.py:170-182 | line `i` is drawn `i` pitches below the first, between the calls of the lines before and after it |
| Renderer.LineDrawnAt | papirus_status.py:170-182 | line `i`'s calls follow the earlier lines' calls, and every one is at y = i * (font_size + 2) |
| Renderer.NextLineOnePitchLower | papirus_status.py:182 | each line's first call is exactly font_size + 2 below the previous line's |
| Renderer.SplitAtFirstColon | papirus_status.py:172-179 | "name:rest" with no colon in name gives the bold "name: " and the stripped rest, later colons included |
| Renderer.RowsOfLabelledLines | papirus_status.py:171-179 | lines that all contain a colon produce two calls each |
| Renderer.LabelledLineCommands | papirus_status.py:172-179 | a line starting with "name: " is drawn as the bold "name: " and the stripped remainder |
| Renderer.PairOfCallsPerLine | papirus_status.py:170-182 | when every line has a colon, line `k` is drawn by calls `2k` and `2k + 1` at y = k * (font_size + 2) |
| Renderer.RenderedLabelledLines | papirus_status.py:170-182 | labelled lines give two calls each: the bold label plus ": " at (5, k * (font_size + 2)), then the stripped value at 5 + the label's width on the same row |
| Renderer.RenderedReport | papirus_status.py:192-193 | the eight-line report renders as sixteen calls: label `k` in bold at (5, k * (font_size + 2)) and its stripped value beside it |

## Left out

- The queries themselves (`psutil.cpu_percent`, `virtual_memory`, `getloadavg`, `net_if_addrs`, `net_io_counters`, `subprocess.check_output`, the PiJuice calls, reading the thermal file) are foreign I/O. Their outcomes are the inputs of the model.
- Float arithmetic and formatting (CPU percent, MB with `round(..., 1)` and `round(..., 2)`, load averages with `:.2f`, the temperature divided by 1000 with `:.1f`) are floating point. Those fields arrive as formatted strings.
- Collector.CpuTemperature: `int()` on the thermal file's text can raise ValueError, which the source does not catch. The model takes a reading that was already parsed and formatted, so that failure is not modelled.
- Report.Collect: the temperature field uses the corrected `Collector.CpuTemperature` ("°C"), not the suffix as written ("Â°C"); see "## Findings", where `Collector.CpuTemperatureAsWritten` models the line as written.
- Only the exceptions the source catches are modelled as failures: FileNotFoundError and CalledProcessError for `i2cdetect` and `iwgetid`, FileNotFoundError for the thermal file, and any exception for PiJuice. Other OSError subclasses (a PermissionError on the thermal file or on a program that is not executable) propagate out of `get_system_status` or `main` in the source, and are outside the model's domain.
- `.decode()` of the command output can raise UnicodeDecodeError, which the source does not catch. The model takes the decoded text.
- `get_network_activity` is not called anywhere, and its body is float formatting only.
- Fonts, glyph shapes and pixels. The bold font's width of a text is the parameter `labelWidth`, and the image is the list of `draw.text` calls with their position, text and font. The fill colour is always black and is not recorded.
- The font file paths and the default `font_size=10`. The font size is a parameter.
- `display_status`, `main`, the ten-second refresh loop and the KeyboardInterrupt exit are scheduling and display I/O. Only their composition of report and renderer appears, as `Renderer.RenderedReport`.
- The interface table is a sequence in the dictionary's iteration order. A name lookup takes the first entry with that name, which is the only one because `psutil` keys are unique.
- Collector.GetBatteryStatus: every exception is one error value, because the source catches `Exception` without telling cases apart.

## Findings

| source | as written | input that shows it | evidently intended | confidence | as-written member | corrected member |
|---|---|---|---|---|---|---|
| papirus_status.py:56 | the unit after the temperature is stored as the characters "Â°C" (bytes C3 82 C2 B0 43): the UTF-8 degree sign was read as Latin-1 and saved again | any readable thermal file, e.g. 47200 millidegrees, shows "47.2Â°C" | "47.2°C" | medium, not executed | Collector.StrayCharacterAsWritten | Collector.TemperatureReading |
