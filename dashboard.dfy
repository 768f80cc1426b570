/** One dashboard refresh (the `screensaver_on is False` branch of `main`):
    the answers of the four status endpoints are mapped to the values the
    dashboard shows, with explicit defaults for every endpoint that gave no
    data, and then to the text lines. The HTTP calls are not modelled: each
    endpoint's decoded answer is a parameter, `None` for a non-200 reply. */
module Dashboard {
  import opened Strings
  import opened Options
  import opened Readouts
  import opened NetAddr

  /** The fields of the `job` answer that the script reads. */
  datatype Job = Job(
    state: string,
    fileName: Option<string>,
    fileSize: Option<int>,
    completion: Option<real>,
    printTimeLeft: Option<int>)

  /** The `version` answer. */
  datatype Version = Version(api: string, server: string)

  /** The four readings of the `printer` answer, as JSON numbers. */
  datatype Temps = Temps(toolActual: real, toolTarget: real, bedActual: real, bedTarget: real)

  /** `progress_completion` is `None`, an int, or the string `"0"` that the
      script stores when the job endpoint gave nothing. */
  datatype Completion = NoCompletion | Percent(n: int) | Quoted(s: string)

  /** Everything one refresh knows before it draws. */
  datatype Snapshot = Snapshot(
    status: string,
    fileName: Option<string>,
    fileSize: Option<int>,
    completion: Completion,
    timeLeft: Option<int>,
    apiVersion: string,
    serverVersion: string,
    state: string,
    printerQueried: bool,
    ext: int, extTarget: int, bed: int, bedTarget: int)

  const Offline := "Offline"

  /** Python 2 `round`: to the nearest int, halves away from zero. */
  function Round(x: real): (r: int)
    ensures r as real - x <= 0.5 && x - r as real <= 0.5
    ensures r as real - x == 0.5 ==> x > 0.0
    ensures x - r as real == 0.5 ==> x < 0.0
  {
    if x >= 0.0 then (x + 0.5).Floor else -((0.5 - x).Floor)
  }

  /** `int()` of a float: drop the fraction, toward zero. */
  function Trunc(x: real): (r: int)
    ensures x >= 0.0 ==> 0.0 <= x - r as real < 1.0
    ensures x < 0.0 ==> 0.0 <= r as real - x < 1.0
  {
    if x >= 0.0 then x.Floor else -((-x).Floor)
  }

  /** Lines 414-466: poll, and replace every missing answer by its default.
      A failed `job` gives status "Offline", the file "_.gcode" of size 0,
      completion "0" and no time left; a failed `version` gives "0" and
      "0"; a failed `connection` gives the state "Offline" and completion 0.
      The `printer` endpoint is asked only for a state other than "Offline",
      and its failure zeroes the four temperatures. */
  function Poll(job: Option<Job>, ver: Option<Version>, conn: Option<string>, printer: Option<Temps>): (d: Snapshot)
    ensures job.None? ==> d.status == Offline && d.fileName == Some("_.gcode") && d.fileSize == Some(0)
    ensures job.None? ==> d.timeLeft == Some(0)
    ensures job.Some? ==> d.status == job.value.state && d.fileName == job.value.fileName && d.fileSize == job.value.fileSize
    ensures job.Some? ==> d.timeLeft == job.value.printTimeLeft
    ensures job.None? && conn.Some? ==> d.completion == Quoted("0")
    ensures job.Some? && conn.Some? && job.value.completion.None? ==> d.completion == NoCompletion
    ensures job.Some? && conn.Some? && job.value.completion.Some? ==> d.completion == Percent(Round(job.value.completion.value))
    ensures ver.None? ==> d.apiVersion == "0" && d.serverVersion == "0"
    ensures ver.Some? ==> d.apiVersion == ver.value.api && d.serverVersion == ver.value.server
    ensures conn.None? ==> d.state == Offline && d.completion == Percent(0)
    ensures conn.Some? ==> d.state == conn.value
    ensures d.printerQueried <==> d.state != Offline
    ensures d.state == Offline || printer.None? ==> d.ext == d.extTarget == d.bed == d.bedTarget == 0
    ensures d.printerQueried && printer.Some? ==>
      d.ext == Trunc(printer.value.toolActual) && d.extTarget == Trunc(printer.value.toolTarget) &&
      d.bed == Trunc(printer.value.bedActual) && d.bedTarget == Trunc(printer.value.bedTarget)
  {
    var status := if job.Some? then job.value.state else Offline;
    var fileName := if job.Some? then job.value.fileName else Some("_.gcode");
    var fileSize := if job.Some? then job.value.fileSize else Some(0);
    var completion :=
      if job.None? then Quoted("0")
      else if job.value.completion.None? then NoCompletion
      else Percent(Round(job.value.completion.value));
    var timeLeft := if job.Some? then job.value.printTimeLeft else Some(0);
    var api := if ver.Some? then ver.value.api else "0";
    var server := if ver.Some? then ver.value.server else "0";
    var state := if conn.Some? then conn.value else Offline;
    var completion' := if conn.Some? then completion else Percent(0);
    var queried := state != Offline;
    var t := if queried && printer.Some? then printer.value else Temps(0.0, 0.0, 0.0, 0.0);
    Snapshot(status, fileName, fileSize, completion', timeLeft, api, server, state, queried,
             Trunc(t.toolActual), Trunc(t.toolTarget), Trunc(t.bedActual), Trunc(t.bedTarget))
  }

  /** Python 2 backquotes (`repr`) of `progress_completion`. */
  function CompletionRepr(c: Completion): (r: string)
    requires !c.NoCompletion?
    ensures c.Percent? ==> IsIntText(r) && ParseInt(r) == c.n
    ensures c.Quoted? ==> |r| == |c.s| + 2 && r[0] == '\'' == r[|r| - 1] && r[1..|r| - 1] == c.s
  {
    match c
    case Percent(n) => IntTextRoundTrip(n); IntText(n)
    case Quoted(s) => "'" + s + "'"
  }

  /** Lines 501-505. */
  function StatusText(state: string, c: Completion): (r: string)
    ensures |r| >= 8 + |state| && r[..8 + |state|] == "Status: " + state
    ensures r == "Status: " + state <==> c.NoCompletion? || state == Offline
  {
    if !c.NoCompletion? && state != Offline then "Status: " + state + " (" + CompletionRepr(c) + "%)"
    else "Status: " + state
  }

  /** The extension that line 509 removes. */
  const Gcode := ".gcode"

  /** `s` contains no `.gcode`. */
  predicate NoGcode(s: string) {
    forall k | 0 <= k <= |s| - |Gcode| :: !OccursAt(s, Gcode, k)
  }

  /** A file name that ends in `.gcode` and contains it nowhere else. */
  predicate GcodeFile(name: string) {
    |name| >= |Gcode| && name[|name| - |Gcode|..] == Gcode && NoGcode(name[..|name| - |Gcode|])
  }

  /** Turning `_` into spaces cannot create a `.gcode`, which has neither. */
  lemma UnderscoreKeepsNoGcode(s: string)
    requires NoGcode(s)
    ensures NoGcode(Replace(s, "_", " "))
  {
    var r := Replace(s, "_", " ");
    forall k ensures !OccursAt(r, Gcode, k) {
      if 0 <= k <= |r| - |Gcode| {
        assert !OccursAt(s, Gcode, k);
        assert exists j :: 0 <= j < |Gcode| && s[k..k + |Gcode|][j] != Gcode[j];
        var j :| 0 <= j < |Gcode| && s[k..k + |Gcode|][j] != Gcode[j];
        assert s[k..k + |Gcode|][j] == s[k + j];
        assert r[k..k + |Gcode|][j] == r[k + j] != Gcode[j];
      }
    }
  }

  /** Line 509 on a name without `.gcode`: only the `_` become spaces. */
  lemma ShownPlainName(name: string)
    requires NoGcode(name)
    ensures Replace(Replace(name, "_", " "), Gcode, "") == Replace(name, "_", " ")
  {
    UnderscoreKeepsNoGcode(name);
    ReplaceNoMatch(Replace(name, "_", " "), Gcode, "");
  }

  /** Line 509 on `stem + ".gcode"`, the stem without `.gcode`: the
      extension is dropped and the `_` of the stem become spaces. */
  lemma ShownGcodeName(stem: string)
    requires NoGcode(stem)
    ensures Replace(Replace(stem + Gcode, "_", " "), Gcode, "") == Replace(stem, "_", " ")
  {
    UnderscoreBeforeGcode(stem);
    UnderscoreKeepsNoGcode(stem);
    ReplaceSuffix(Replace(stem, "_", " "), Gcode, "");
  }

  /** The `_` to space step leaves the extension as it is. */
  lemma UnderscoreBeforeGcode(stem: string)
    ensures Replace(stem + Gcode, "_", " ") == Replace(stem, "_", " ") + Gcode
  {
    ReplaceCharConcat(stem, Gcode, '_', ' ');
    assert '_' !in Gcode;
    ReplaceCharAbsent(Gcode, '_', ' ');
  }

  /** A name ending in `.gcode` contains one. */
  lemma GcodeFileHasGcode(name: string)
    requires GcodeFile(name)
    ensures !NoGcode(name)
  {
    assert name[|name| - |Gcode|..|name|] == name[|name| - |Gcode|..];
    assert OccursAt(name, Gcode, |name| - |Gcode|);
  }

  /** The file name as shown: every `_` a space, then every `.gcode` removed. */
  function ShownName(name: string): (r: string)
    ensures '_' !in r && |r| <= |name|
    ensures NoGcode(name) ==> r == Replace(name, "_", " ")
    ensures GcodeFile(name) ==> r == Replace(name[..|name| - |Gcode|], "_", " ")
  {
    if GcodeFile(name) then
      var stem := name[..|name| - |Gcode|];
      assert name == stem + Gcode;
      GcodeFileHasGcode(name);
      ShownGcodeName(stem);
      Replace(Replace(name, "_", " "), Gcode, "")
    else if NoGcode(name) then
      ShownPlainName(name);
      Replace(Replace(name, "_", " "), Gcode, "")
    else
      Replace(Replace(name, "_", " "), Gcode, "")
  }

  /** Lines 507-511. */
  function NameText(state: string, fileName: Option<string>): (r: string)
    ensures fileName.None? || state == Offline ==> r == "Name: "
    ensures fileName.Some? && state != Offline ==>
      8 <= |r| <= 8 + |fileName.value| && r[..8] == "Name:   " && '_' !in r[8..]
    ensures fileName.Some? && state != Offline && NoGcode(fileName.value) ==>
      r == "Name:   " + Replace(fileName.value, "_", " ")
    ensures fileName.Some? && state != Offline && GcodeFile(fileName.value) ==>
      r == "Name:   " + Replace(fileName.value[..|fileName.value| - |Gcode|], "_", " ")
  {
    if fileName.Some? && state != Offline then "Name:   " + ShownName(fileName.value) else "Name: "
  }

  /** Lines 513-516. */
  function SizeText(state: string, fileSize: Option<int>): (r: string)
    ensures fileSize.None? || state == Offline ==> r == "Size:"
    ensures fileSize.Some? && state != Offline ==>
      |r| > 14 && r[..8] == "Size:   " && r[|r| - 6..] == " Bytes" && StripCommas(r[8..|r| - 6]) == IntText(fileSize.value)
  {
    if fileSize.Some? && state != Offline then "Size:   " + Thousands(fileSize.value) + " Bytes" else "Size:"
  }

  /** The eight text lines of the dashboard, top to bottom. */
  datatype Screen = Screen(
    status: string, name: string, size: string, eta: string,
    wlanIp: string, wlanHw: string, ethIp: string, ethHw: string)

  /** Lines 531-538: the job lines, then the address of each interface, as
      `getIPAddr`/`getHWAddr` report them. */
  function Render(d: Snapshot, wlanIp: Option<seq<byte>>, wlanHw: Option<seq<byte>>,
                  ethIp: Option<seq<byte>>, ethHw: Option<seq<byte>>): (s: Screen)
    ensures |s.wlanIp| == |s.ethIp| == 23
    ensures s.wlanIp[8..] == LJust(IpAddr(wlanIp), 15) && s.ethIp[8..] == LJust(IpAddr(ethIp), 15)
  {
    var wlan, eth := LJust(IpAddr(wlanIp), 15), LJust(IpAddr(ethIp), 15);
    Labelled("wlan0:  ", wlan);
    Labelled("eth0:   ", eth);
    Screen(StatusText(d.state, d.completion), NameText(d.state, d.fileName),
           SizeText(d.state, d.fileSize), EtaText(SplitTime(d.timeLeft)),
           "wlan0:  " + wlan, "        " + LJust(HwAddr(wlanHw), 17),
           "eth0:   " + eth, "        " + LJust(HwAddr(ethHw), 17))
  }

  /** A text line is its label followed by its value. */
  lemma Labelled(tag: string, v: string)
    ensures (tag + v)[|tag|..] == v
  {
  }

  /** Every address line has the same width whatever the interfaces report
      (hardware addresses of six bytes, as an Ethernet interface gives). */
  lemma AddressLineWidths(d: Snapshot, wlanIp: Option<seq<byte>>, wlanHw: Option<seq<byte>>,
                          ethIp: Option<seq<byte>>, ethHw: Option<seq<byte>>)
    requires wlanHw.None? || |wlanHw.value| == 6
    requires ethHw.None? || |ethHw.value| == 6
    ensures var s := Render(d, wlanIp, wlanHw, ethIp, ethHw);
      |s.wlanIp| == |s.ethIp| == 23 && |s.wlanHw| == |s.ethHw| == 25
  {
    var s := Render(d, wlanIp, wlanHw, ethIp, ethHw);
    assert s.wlanHw == "        " + LJust(HwAddr(wlanHw), 17) && s.ethHw == "        " + LJust(HwAddr(ethHw), 17);
  }

  /** With every endpoint down the dashboard shows its placeholders, reads
      zero temperatures and does not ask the printer; whatever the printer
      endpoint would have said makes no difference. */
  lemma AllOffline(printer: Option<Temps>)
    ensures var d := Poll(None, None, None, printer);
      !d.printerQueried && d.ext == d.extTarget == d.bed == d.bedTarget == 0 &&
      d.apiVersion == "0" && d.serverVersion == "0" &&
      var s := Render(d, None, None, None, None);
      s.status == "Status: Offline" && s.name == "Name: " && s.size == "Size:" &&
      s.eta == "ETA:    00:00:00" &&
      s.wlanIp == "wlan0:  " + NoIp && s.ethIp == "eth0:   " + NoIp &&
      s.wlanHw == s.ethHw == "        " + NoHw
  {
    var d := Poll(None, None, None, printer);
    assert d.state == Offline && d.timeLeft == Some(0);
    OfflineTexts(d.completion, d.fileName, d.fileSize);
    assert SplitTime(Some(0)) == SplitTime(None);
    EtaTextWidth(None);
    assert LJust(NoIp, 15) == NoIp;
    assert LJust(NoHw, 17) == NoHw;
  }

  /** A live state with a file: the name line is the name with no `_` left
      in it, and the size line shows the digits of the size, grouped by
      commas, that read back to the same digits. */
  lemma LiveTexts(state: string, name: string, size: nat)
    requires state != Offline
    ensures NameText(state, Some(name)) == "Name:   " + ShownName(name)
    ensures '_' !in ShownName(name)
    ensures SizeText(state, Some(size)) == "Size:   " + Grouped(size) + " Bytes"
    ensures StripCommas(Grouped(size)) == NatText(size) && WellGrouped(Grouped(size))
  {
    GroupedDigits(size);
    GroupedShape(size);
  }

  /** With a live state the status line shows the completion as `repr`
      shows it: the number for a rounded percentage, `'0'` in quotes when
      only the job endpoint failed, and nothing when the job reported no
      completion. */
  lemma LiveStatus(state: string, n: int)
    requires state != Offline
    ensures StatusText(state, Percent(n)) == "Status: " + state + " (" + IntText(n) + "%)"
    ensures StatusText(state, Quoted("0")) == "Status: " + state + " ('0'%)"
    ensures StatusText(state, NoCompletion) == "Status: " + state
  {
  }

  /** A failed job endpoint with a live connection: the status line shows
      the quoted string `'0'` as the completion, beside the placeholder
      file of size 0 and no time left. */
  lemma JobDown(ver: Option<Version>, state: string, printer: Option<Temps>)
    requires state != Offline
    ensures var d := Poll(None, ver, Some(state), printer);
      StatusText(d.state, d.completion) == "Status: " + state + " ('0'%)" &&
      d.fileName == Some("_.gcode") && d.fileSize == Some(0) && d.timeLeft == Some(0)
  {
    LiveStatus(state, 0);
  }

  /** With the state "Offline" the three lines collapse to their bare
      labels, whatever the job said. */
  lemma OfflineTexts(c: Completion, name: Option<string>, size: Option<int>)
    ensures StatusText(Offline, c) == "Status: Offline"
    ensures NameText(Offline, name) == "Name: "
    ensures SizeText(Offline, size) == "Size:"
  {
  }

  /** A target temperature as the script holds it: a string, or the int 0
      that lines 484-485 would store in place of "32". */
  datatype Target = Text(s: string) | Zero

  /** The temperature strings of lines 468-476, 484-485 and 518-529. */
  datatype Readings = Readings(
    extF: string, bedF: string, extTargetF: Target, bedTargetF: Target,
    extC: string, extTargetC: string, bedC: string, bedTargetC: string,
    bedSpace: string)

  /** Lines 484-485: a target shown as "32" is replaced by the int 0. */
  function DropThirtyTwo(t: string): (r: Target)
    ensures r.Zero? <==> t == "32"
    ensures r.Text? ==> r.s == t
  {
    if t == "32" then Zero else Text(t)
  }

  function TargetText(t: int): string {
    LJust(CtoF(t), 3)
  }

  function Temperatures(d: Snapshot): (r: Readings)
    ensures d.state == Offline ==> r.extF == r.bedF == "0"
    ensures d.state != Offline ==> |r.extF| >= 3 && |r.bedF| >= 3
    ensures r.extTargetF.Text? && r.bedTargetF.Text?
  {
    var extF := LJust(CtoF(d.ext), 3);
    var bedF := LJust(CtoF(d.bed), 3);
    var extT := if d.extTarget == 0 || d.bedTarget == 0 then RJust("0", 3) else TargetText(d.extTarget);
    var bedT := if d.extTarget == 0 || d.bedTarget == 0 then RJust("0", 3) else TargetText(d.bedTarget);
    var extF' := if d.state == Offline then "0" else extF;
    var bedF' := if d.state == Offline then "0" else bedF;
    Readings(extF', bedF', DropThirtyTwo(extT), DropThirtyTwo(bedT),
             IntText(d.ext), IntText(d.extTarget), IntText(d.bed), IntText(d.bedTarget),
             if |bedF'| == 2 then " " else "")
  }

  /** Every target string is at least three characters wide, so the `"32"`
      tests of lines 484-485 never fire; a zero target on either side shows
      both as "  0". The bed reading is one character ("0", offline) or at
      least three, so `bed_space` is always empty. */
  lemma TemperatureTexts(d: Snapshot)
    ensures var r := Temperatures(d);
      r.extTargetF.Text? && r.bedTargetF.Text? &&
      |r.extTargetF.s| >= 3 && |r.bedTargetF.s| >= 3 &&
      (d.extTarget == 0 || d.bedTarget == 0 ==> r.extTargetF == r.bedTargetF == Text("  0")) &&
      (d.extTarget != 0 && d.bedTarget != 0 ==>
        ParseInt(r.extTargetF.s[..|CtoF(d.extTarget)|]) == d.extTarget + 32) &&
      r.bedSpace == "" &&
      (d.state == Offline ==> r.extF == "0" && r.bedF == "0")
  {
    assert RJust("0", 3) == "  0";
  }
}
