/** The camera list of a Linux node: what `v4l2-ctl` reports, completed from /dev, sorted and without duplicates. */
module Cameras {
  import opened Wrappers
  import opened Text
  import opened Sorting

  datatype CameraDevice = CameraDevice(id: string, name: string, available: bool)

  /** An entry of /dev: one that could not be read, one whose name is not text, or a named one. */
  datatype DevEntry = Broken | NotText | Named(fileName: string)
  datatype DevScan = NoDirectory | Unlistable | Entries(entries: seq<DevEntry>)

  // ----- The report of v4l2-ctl -----

  predicate IsColon(c: char) { c == ':' }

  predicate IsIndented(line: string) {
    line != "" && IsWhitespace(line[0])
  }

  predicate IsHeader(line: string) {
    !IsBlank(line) && !IsIndented(line)
  }

  predicate IsDevice(line: string) {
    !IsBlank(line) && IsIndented(line) && "/dev/video" <= Trim(line)
  }

  /** Headers start in the first column; device lines are indented and hold the path of a video device. */
  lemma LinesMean(line: string)
    ensures IsHeader(line) <==> line != "" && !IsWhitespace(line[0])
    ensures IsDevice(line) <==>
            line != "" && IsWhitespace(line[0]) && |Trim(line)| >= 10 && Trim(line)[..10] == "/dev/video"
  {
    TrimByEmpty(line, IsWhitespace);
  }

  function HeaderName(line: string): string {
    TrimEnd(Trim(line), IsColon)
  }

  /** The name in force after the lines. */
  function CurrentName(lines: seq<string>): Option<string> {
    if lines == [] then None
    else if IsHeader(lines[|lines| - 1]) then Some(HeaderName(lines[|lines| - 1]))
    else CurrentName(lines[..|lines| - 1])
  }

  function DeviceOf(current: Option<string>, path: string, exists_: string -> bool): CameraDevice {
    var name := TrimEnd(if current.Some? then current.value else path, IsColon);
    CameraDevice(path, name + " (" + path + ")", exists_(path))
  }

  function Parsed(lines: seq<string>, exists_: string -> bool): seq<CameraDevice> {
    if lines == [] then []
    else
      var front, line := lines[..|lines| - 1], lines[|lines| - 1];
      Parsed(front, exists_) +
      if IsDevice(line) then [DeviceOf(CurrentName(front), Trim(line), exists_)] else []
  }

  method ParseV4l2CameraDevices(lines: seq<string>, exists_: string -> bool) returns (devices: seq<CameraDevice>)
    ensures devices == Parsed(lines, exists_)
  {
    hide IsBlank, IsWhitespace, Trim, TrimEnd;
    devices := [];
    var currentName: Option<string> := None;
    for i := 0 to |lines|
      invariant devices == Parsed(lines[..i], exists_)
      invariant currentName == CurrentName(lines[..i])
    {
      var line := lines[i];
      assert lines[..i + 1][..i] == lines[..i];
      if IsBlank(line) {
        continue;
      }
      if line != "" && IsWhitespace(line[0]) {
        var path := Trim(line);
        if "/dev/video" <= path {
          var name := if currentName.Some? then currentName.value else path;
          name := TrimEnd(name, IsColon);
          devices := devices + [CameraDevice(path, name + " (" + path + ")", exists_(path))];
        }
      } else {
        currentName := Some(TrimEnd(Trim(line), IsColon));
      }
    }
    assert lines[..|lines|] == lines;
  }

  /** Line h is the nearest header above line k. */
  ghost predicate IsNearestHeader(lines: seq<string>, h: nat, k: nat) {
    h < k <= |lines| && IsHeader(lines[h]) && forall i :: h < i < k ==> !IsHeader(lines[i])
  }

  lemma {:induction false} CurrentNameIsNearestHeader(lines: seq<string>, k: nat)
    requires k <= |lines|
    ensures match CurrentName(lines[..k])
            case None => forall i :: 0 <= i < k ==> !IsHeader(lines[i])
            case Some(name) => exists h: nat :: IsNearestHeader(lines, h, k) && name == HeaderName(lines[h])
  {
    hide IsHeader, HeaderName;
    if k > 0 {
      assert lines[..k][..k - 1] == lines[..k - 1];
      CurrentNameIsNearestHeader(lines, k - 1);
      if IsHeader(lines[k - 1]) {
        assert IsNearestHeader(lines, k - 1, k);
      } else if CurrentName(lines[..k]).Some? {
        var h: nat :| IsNearestHeader(lines, h, k - 1) && CurrentName(lines[..k]).value == HeaderName(lines[h]);
        assert IsNearestHeader(lines, h, k);
      }
    }
  }

  lemma {:induction false} TrimEndTwice(s: string)
    ensures TrimEnd(TrimEnd(s, IsColon), IsColon) == TrimEnd(s, IsColon)
  {}

  /** The device that line k must give: its trimmed text, under the name of the nearest header above, if any. */
  ghost predicate Describes(lines: seq<string>, k: nat, d: CameraDevice, exists_: string -> bool)
    requires k < |lines|
  {
    && IsDevice(lines[k]) && d.id == Trim(lines[k]) && d.available == exists_(d.id)
    && ((exists h: nat :: IsNearestHeader(lines, h, k) && d.name == HeaderName(lines[h]) + " (" + d.id + ")")
        || ((forall i :: 0 <= i < k ==> !IsHeader(lines[i])) && d.name == TrimEnd(d.id, IsColon) + " (" + d.id + ")"))
  }

  /** The device lines, in order. */
  function DeviceLines(lines: seq<string>): (r: seq<nat>)
    ensures forall j :: 0 <= j < |r| ==> r[j] < |lines| && IsDevice(lines[r[j]])
    ensures forall i, j :: 0 <= i < j < |r| ==> r[i] < r[j]
  {
    hide IsDevice;
    if lines == [] then []
    else
      var front := DeviceLines(lines[..|lines| - 1]);
      if IsDevice(lines[|lines| - 1]) then front + [|lines| - 1] else front
  }

  /** No device line is missing. */
  lemma {:induction false} DeviceLinesComplete(lines: seq<string>, k: nat)
    requires k < |lines| && IsDevice(lines[k])
    ensures k in DeviceLines(lines)
  {
    hide IsDevice;
    if k < |lines| - 1 {
      DeviceLinesComplete(lines[..|lines| - 1], k);
    }
  }

  /** The parser reports the device lines one by one, each under the name of the nearest header above it. */
  lemma {:induction false} ParsedDescribesDeviceLines(lines: seq<string>, exists_: string -> bool)
    ensures |Parsed(lines, exists_)| == |DeviceLines(lines)|
    ensures forall j :: 0 <= j < |DeviceLines(lines)| ==> Describes(lines, DeviceLines(lines)[j], Parsed(lines, exists_)[j], exists_)
    ensures forall k :: 0 <= k < |lines| && IsDevice(lines[k]) ==> k in DeviceLines(lines)
  {
    hide IsDevice, IsHeader, HeaderName, Describes, DeviceOf;
    if lines != [] {
      var n := |lines| - 1;
      var front := lines[..n];
      ParsedDescribesDeviceLines(front, exists_);
      forall j | 0 <= j < |DeviceLines(front)|
        ensures Describes(lines, DeviceLines(front)[j], Parsed(front, exists_)[j], exists_)
      {
        DescribesLonger(front, lines, DeviceLines(front)[j], Parsed(front, exists_)[j], exists_);
      }
      if IsDevice(lines[n]) {
        LineDescribed(lines, n, exists_);
      }
    }
    forall k | 0 <= k < |lines| && IsDevice(lines[k]) ensures k in DeviceLines(lines) {
      DeviceLinesComplete(lines, k);
    }
  }

  lemma DescribesLonger(front: seq<string>, lines: seq<string>, k: nat, d: CameraDevice, exists_: string -> bool)
    requires front <= lines && k < |front| && Describes(front, k, d, exists_)
    ensures Describes(lines, k, d, exists_)
  {
    hide IsDevice, IsHeader, HeaderName;
    if h: nat :| IsNearestHeader(front, h, k) && d.name == HeaderName(front[h]) + " (" + d.id + ")" {
      assert IsNearestHeader(lines, h, k);
    }
  }

  lemma LineDescribed(lines: seq<string>, k: nat, exists_: string -> bool)
    requires k < |lines| && IsDevice(lines[k])
    ensures Describes(lines, k, DeviceOf(CurrentName(lines[..k]), Trim(lines[k]), exists_), exists_)
  {
    hide IsDevice, IsHeader, Trim, CurrentName;
    CurrentNameIsNearestHeader(lines, k);
    match CurrentName(lines[..k]) {
      case None =>
      case Some(name) =>
        var h: nat :| IsNearestHeader(lines, h, k) && name == HeaderName(lines[h]);
        TrimEndTwice(Trim(lines[h]));
    }
  }

  // ----- The entries of /dev -----

  function DevDevice(fileName: string): CameraDevice {
    var path := "/dev/" + fileName;
    CameraDevice(path, "Video device " + fileName + " (" + path + ")", true)
  }

  ghost predicate HasId(devices: seq<CameraDevice>, id: string) {
    exists i :: 0 <= i < |devices| && devices[i].id == id
  }

  /** The device that an entry stands for, if it is a video device. */
  function Shown(entry: DevEntry): Option<CameraDevice> {
    if entry.Named? && "video" <= entry.fileName then Some(DevDevice(entry.fileName)) else None
  }

  /** The list completed by the entries; nothing if one of them could not be read. */
  function Completed(devices: seq<CameraDevice>, entries: seq<DevEntry>): Option<seq<CameraDevice>> {
    if entries == [] then Some(devices)
    else
      match Completed(devices, entries[..|entries| - 1])
      case None => None
      case Some(before) =>
        var entry := entries[|entries| - 1];
        if entry.Broken? then None
        else if Shown(entry).Some? && !(exists i :: 0 <= i < |before| && before[i].id == Shown(entry).value.id) then
          Some(before + [Shown(entry).value])
        else Some(before)
  }

  method AddDevVideoDevices(given: seq<CameraDevice>, scan: DevScan) returns (result: Option<seq<CameraDevice>>)
    ensures result == match scan
                      case NoDirectory => Some(given)
                      case Unlistable => None
                      case Entries(entries) => Completed(given, entries)
  {
    match scan {
      case NoDirectory =>
        return Some(given);
      case Unlistable =>
        return None;
      case Entries(entries) =>
        var devices := given;
        for i := 0 to |entries|
          invariant Completed(given, entries[..i]) == Some(devices)
        {
          assert entries[..i + 1][..i] == entries[..i];
          match entries[i] {
            case Broken =>
              BrokenSpoils(given, entries, i);
              return None;
            case NotText =>
            case Named(fileName) =>
              if "video" <= fileName {
                var path := "/dev/" + fileName;
                if !(exists k :: 0 <= k < |devices| && devices[k].id == path) {
                  devices := devices + [CameraDevice(path, "Video device " + fileName + " (" + path + ")", true)];
                }
              }
          }
        }
        assert entries[..|entries|] == entries;
        result := Some(devices);
    }
  }

  /** Completing fails exactly if an entry is broken. */
  lemma {:induction false} BrokenSpoils(devices: seq<CameraDevice>, entries: seq<DevEntry>, i: nat)
    requires i < |entries| && entries[i].Broken?
    ensures Completed(devices, entries).None?
  {
    if i < |entries| - 1 {
      BrokenSpoils(devices, entries[..|entries| - 1], i);
    }
  }

  lemma {:induction false} CompletedIff(devices: seq<CameraDevice>, entries: seq<DevEntry>)
    ensures Completed(devices, entries).None? <==> exists i :: 0 <= i < |entries| && entries[i].Broken?
  {
    if entries != [] {
      var front := entries[..|entries| - 1];
      CompletedIff(devices, front);
      if i :| 0 <= i < |front| && front[i].Broken? {
        assert entries[i].Broken?;
      }
    }
  }

  /** A file of /dev whose name starts with "video". */
  predicate IsVideoFile(entry: DevEntry)
    ensures IsVideoFile(entry) ==> entry.Named?
  {
    entry.Named? && |entry.fileName| >= 5 && entry.fileName[..5] == "video"
  }

  /** The device stands for such a file, with its path as id and the file name in its name. */
  ghost predicate IsFromDev(entries: seq<DevEntry>, d: CameraDevice) {
    exists i :: 0 <= i < |entries| && IsVideoFile(entries[i]) && d.available && d.id == "/dev/" + entries[i].fileName
                && d.name == "Video device " + entries[i].fileName + " (" + d.id + ")"
  }

  ghost predicate IsDevId(entries: seq<DevEntry>, id: string) {
    exists i :: 0 <= i < |entries| && IsVideoFile(entries[i]) && id == "/dev/" + entries[i].fileName
  }

  ghost predicate FromDev(entries: seq<DevEntry>, d: CameraDevice) {
    exists i :: 0 <= i < |entries| && Shown(entries[i]) == Some(d)
  }

  ghost predicate DevHasId(entries: seq<DevEntry>, id: string) {
    exists i :: 0 <= i < |entries| && Shown(entries[i]).Some? && id == Shown(entries[i]).value.id
  }

  lemma FromDevMeans(entries: seq<DevEntry>, d: CameraDevice)
    requires FromDev(entries, d)
    ensures IsFromDev(entries, d)
  {
    hide Shown, IsVideoFile;
    var i :| 0 <= i < |entries| && Shown(entries[i]) == Some(d);
    ShownMeans(entries[i]);
  }

  lemma DevHasIdMeans(entries: seq<DevEntry>, id: string)
    ensures DevHasId(entries, id) <==> IsDevId(entries, id)
  {
    hide Shown, IsVideoFile;
    if i :| 0 <= i < |entries| && Shown(entries[i]).Some? && id == Shown(entries[i]).value.id {
      ShownMeans(entries[i]);
    }
    if i :| 0 <= i < |entries| && IsVideoFile(entries[i]) && entries[i].Named? && id == "/dev/" + entries[i].fileName {
      ShownMeans(entries[i]);
      assert Shown(entries[i]).Some?;
    }
  }

  lemma ShownMeans(entry: DevEntry)
    ensures Shown(entry).Some? <==> IsVideoFile(entry)
    ensures Shown(entry).Some? ==>
              Shown(entry).value == CameraDevice("/dev/" + entry.fileName,
                "Video device " + entry.fileName + " (" + "/dev/" + entry.fileName + ")", true)
  {
    if entry.Named? {
      var path := "/dev/" + entry.fileName;
      assert "Video device " + entry.fileName + " (" + path + ")"
          == "Video device " + entry.fileName + " (" + "/dev/" + entry.fileName + ")";
    }
  }

  /** Completing puts devices of /dev behind the given ones, and the ids are then exactly those of both. */
  lemma {:induction false} CompletedAdds(devices: seq<CameraDevice>, entries: seq<DevEntry>)
    requires Completed(devices, entries).Some?
    ensures var all := Completed(devices, entries).value;
            && devices <= all
            && (forall i :: |devices| <= i < |all| ==> FromDev(entries, all[i]))
            && (forall id :: HasId(all, id) <==> HasId(devices, id) || DevHasId(entries, id))
  {
    hide Shown;
    if entries != [] {
      var front, entry := entries[..|entries| - 1], entries[|entries| - 1];
      CompletedAdds(devices, front);
      var before, all := Completed(devices, front).value, Completed(devices, entries).value;
      forall i | |devices| <= i < |all| ensures FromDev(entries, all[i]) {
        if i < |before| {
          var k :| 0 <= k < |front| && Shown(front[k]) == Some(before[i]);
          assert Shown(entries[k]) == Some(all[i]);
        } else {
          assert Shown(entries[|front|]) == Some(all[i]);
        }
      }
      forall id ensures HasId(all, id) <==> HasId(devices, id) || DevHasId(entries, id) {
        OneMoreEntry(before, all, devices, front, entry, id);
        assert entries == front + [entry];
      }
    }
  }

  lemma OneMoreEntry(
    before: seq<CameraDevice>, all: seq<CameraDevice>, devices: seq<CameraDevice>, front: seq<DevEntry>, entry: DevEntry, id: string)
    requires HasId(before, id) <==> HasId(devices, id) || DevHasId(front, id)
    requires all == if Shown(entry).Some? && !HasId(before, Shown(entry).value.id) then before + [Shown(entry).value] else before
    ensures HasId(all, id) <==> HasId(devices, id) || DevHasId(front + [entry], id)
  {
    hide Shown;
    var entries := front + [entry];
    assert DevHasId(entries, id) <==> DevHasId(front, id) || (Shown(entry).Some? && id == Shown(entry).value.id) by {
      if DevHasId(front, id) {
        var i :| 0 <= i < |front| && Shown(front[i]).Some? && id == Shown(front[i]).value.id;
        assert Shown(entries[i]).Some?;
      }
      if Shown(entry).Some? {
        assert Shown(entries[|front|]).Some?;
      }
    }
    if |all| > |before| {
      assert all[|before|] == Shown(entry).value;
      if HasId(before, id) {
        var i :| 0 <= i < |before| && before[i].id == id;
        assert all[i].id == id;
      }
    }
  }

  // ----- The order of ids -----

  /** a stands before b: at the first place where they differ, a has ended or has the smaller character. */
  ghost predicate Precedes(a: string, b: string) {
    exists k: nat :: k <= |a| && k < |b| && a[..k] == b[..k] && (k == |a| || a[k] < b[k])
  }

  lemma {:induction false} StringLeMeans(a: string, b: string)
    ensures StringLe(a, b) && a != b ==> Precedes(a, b)
  {
    if StringLe(a, b) && a != b {
      if a == "" || a[0] < b[0] {
        assert a[..0] == b[..0];
      } else {
        assert a == [a[0]] + a[1..] && b == [b[0]] + b[1..];
        StringLeMeans(a[1..], b[1..]);
        var k: nat :| k <= |a[1..]| && k < |b[1..]| && a[1..][..k] == b[1..][..k] && (k == |a[1..]| || a[1..][k] < b[1..][k]);
        assert a[..k + 1] == [a[0]] + a[1..][..k] && b[..k + 1] == [b[0]] + b[1..][..k];
      }
    }
  }

  /** The order of strings by their first differing character. */
  predicate StringLe(a: string, b: string) {
    a == "" || (b != "" && (a[0] < b[0] || (a[0] == b[0] && StringLe(a[1..], b[1..]))))
  }

  predicate IdLe(a: CameraDevice, b: CameraDevice) {
    StringLe(a.id, b.id)
  }

  lemma {:induction false} StringLeTotal(a: string, b: string)
    ensures StringLe(a, b) || StringLe(b, a)
    ensures StringLe(a, b) && StringLe(b, a) ==> a == b
  {
    if a != "" && b != "" {
      StringLeTotal(a[1..], b[1..]);
      assert a == [a[0]] + a[1..] && b == [b[0]] + b[1..];
    }
  }

  lemma {:induction false} StringLeTransitive(a: string, b: string, c: string)
    requires StringLe(a, b) && StringLe(b, c)
    ensures StringLe(a, c)
  {
    if a != "" && a[0] == b[0] && b[0] == c[0] {
      StringLeTransitive(a[1..], b[1..], c[1..]);
    }
  }

  lemma IdOrder()
    ensures TotalPreorder(IdLe)
    ensures forall a, b :: IdLe(a, b) && IdLe(b, a) ==> a.id == b.id
    ensures forall a, b :: Equivalent(IdLe, a, b) <==> a.id == b.id
  {
    hide StringLe;
    forall a: CameraDevice, b: CameraDevice
      ensures (IdLe(a, b) || IdLe(b, a)) && (IdLe(a, b) && IdLe(b, a) <==> a.id == b.id)
    {
      StringLeTotal(a.id, b.id);
    }
    forall a: CameraDevice, b: CameraDevice, c: CameraDevice | IdLe(a, b) && IdLe(b, c) ensures IdLe(a, c) {
      StringLeTransitive(a.id, b.id, c.id);
    }
  }

  // ----- Sorted and without duplicates -----

  /** Keeps the first of each run of equal ids. */
  function Dedup(s: seq<CameraDevice>): seq<CameraDevice> {
    if |s| <= 1 then s
    else if s[|s| - 1].id == s[|s| - 2].id then Dedup(s[..|s| - 1])
    else Dedup(s[..|s| - 1]) + [s[|s| - 1]]
  }

  ghost predicate StrictlyIncreasing(s: seq<CameraDevice>) {
    forall i, j :: 0 <= i < j < |s| ==> IdLe(s[i], s[j]) && s[i].id != s[j].id
  }

  /** The ids stand in their order, each before all later ones. */
  ghost predicate IdsAscend(s: seq<CameraDevice>) {
    forall i, j :: 0 <= i < j < |s| ==> Precedes(s[i].id, s[j].id)
  }

  lemma IncreasingAscends(s: seq<CameraDevice>)
    requires StrictlyIncreasing(s)
    ensures IdsAscend(s)
  {
    hide StringLe, Precedes;
    forall i, j | 0 <= i < j < |s| ensures Precedes(s[i].id, s[j].id) {
      assert IdLe(s[i], s[j]);
      StringLeMeans(s[i].id, s[j].id);
    }
  }

  /** The first device with an id. */
  function First(s: seq<CameraDevice>, id: string): Option<CameraDevice> {
    if s == [] then None else if s[0].id == id then Some(s[0]) else First(s[1..], id)
  }

  lemma {:induction false} FirstAppends(s: seq<CameraDevice>, t: seq<CameraDevice>, id: string)
    ensures First(s + t, id) == if First(s, id).Some? then First(s, id) else First(t, id)
  {
    if s == [] {
      assert s + t == t;
    } else {
      assert (s + t)[1..] == s[1..] + t;
      FirstAppends(s[1..], t, id);
    }
  }

  lemma {:induction false} FirstFound(s: seq<CameraDevice>, id: string)
    ensures First(s, id).Some? <==> HasId(s, id)
    ensures First(s, id).Some? ==> First(s, id).value in s && First(s, id).value.id == id
  {
    if s != [] {
      FirstFound(s[1..], id);
      if HasId(s, id) && s[0].id != id {
        var i :| 0 <= i < |s| && s[i].id == id;
        assert s[1..][i - 1].id == id;
      }
      if HasId(s[1..], id) {
        var i :| 0 <= i < |s[1..]| && s[1..][i].id == id;
        assert s[i + 1].id == id;
      }
    }
  }

  /** Equal elements keep their order, so a stable sort keeps the first device of every id. */
  lemma {:induction false} FirstIsFirstOfClass(s: seq<CameraDevice>, d: CameraDevice)
    requires forall a, b :: Equivalent(IdLe, a, b) <==> a.id == b.id
    ensures var class_ := Class(s, IdLe, d);
            First(s, d.id) == if class_ == [] then None else Some(class_[0])
  {
    hide IdLe, Equivalent;
    if s != [] {
      FirstIsFirstOfClass(s[1..], d);
    }
  }

  /** The devices of r are the first ones of their ids in s. */
  ghost predicate AreFirsts(r: seq<CameraDevice>, s: seq<CameraDevice>) {
    forall d :: d in r <==> First(s, d.id) == Some(d)
  }

  lemma {:induction false} DedupCorrect(s: seq<CameraDevice>)
    requires Sorted(s, IdLe)
    ensures StrictlyIncreasing(Dedup(s))
    ensures AreFirsts(Dedup(s), s)
  {
    hide IdLe;
    if |s| <= 1 {
      forall d ensures d in s <==> First(s, d.id) == Some(d) {
        if |s| == 1 {
          assert First(s[1..], d.id).None?;
        }
      }
    } else {
      DedupCorrect(s[..|s| - 1]);
      DedupElements(s);
      if s[|s| - 1].id != s[|s| - 2].id {
        DedupIncreases(s);
      }
    }
  }

  lemma {:induction false} DedupIncreases(s: seq<CameraDevice>)
    requires |s| > 1 && Sorted(s, IdLe) && s[|s| - 1].id != s[|s| - 2].id
    requires StrictlyIncreasing(Dedup(s[..|s| - 1])) && AreFirsts(Dedup(s[..|s| - 1]), s[..|s| - 1])
    ensures StrictlyIncreasing(Dedup(s))
  {
    hide IdLe, First;
    var kept, last := Dedup(s[..|s| - 1]), s[|s| - 1];
    forall i | 0 <= i < |kept| ensures IdLe(kept[i], last) && kept[i].id != last.id {
      assert kept[i] in kept;
      FirstFound(s[..|s| - 1], kept[i].id);
      NewIsGreater(s, kept[i]);
    }
  }

  lemma NewIsGreater(s: seq<CameraDevice>, d: CameraDevice)
    requires |s| > 1 && Sorted(s, IdLe) && s[|s| - 1].id != s[|s| - 2].id && d in s[..|s| - 1]
    ensures IdLe(d, s[|s| - 1]) && d.id != s[|s| - 1].id
  {
    hide StringLe;
    IdOrder();
    var n := |s|;
    var i :| 0 <= i < n - 1 && s[i] == d;
    var previous, last := s[n - 2], s[n - 1];
    assert IdLe(d, previous) && IdLe(previous, last);
    assert d.id == last.id ==> IdLe(last, previous);
  }

  lemma {:induction false} DedupElements(s: seq<CameraDevice>)
    requires |s| > 1 && Sorted(s, IdLe) && AreFirsts(Dedup(s[..|s| - 1]), s[..|s| - 1])
    ensures AreFirsts(Dedup(s), s)
  {
    hide IdLe, Sorted;
    var front, last := s[..|s| - 1], s[|s| - 1];
    assert s == front + [last];
    forall d ensures d in Dedup(s) <==> First(s, d.id) == Some(d) {
      FirstAppends(front, [last], d.id);
      FirstFound(front, d.id);
      if last.id == s[|s| - 2].id {
        assert front[|front| - 1].id == last.id;
        assert HasId(front, last.id);
      } else if HasId(front, last.id) {
        var i :| 0 <= i < |front| && front[i].id == last.id;
        NewIsGreater(s, front[i]);
      }
    }
  }

  // ----- The list -----

  function Listed(reported: seq<CameraDevice>, scan: DevScan): Option<seq<CameraDevice>> {
    var all := match scan
               case NoDirectory => Some(reported)
               case Unlistable => None
               case Entries(entries) => Completed(reported, entries);
    if all.None? then None else Some(Dedup(SortBy(all.value, IdLe)))
  }

  /** `report` is the output of v4l2-ctl in lines, if there is such a command and it succeeds. */
  method ListCameras(report: Option<seq<string>>, exists_: string -> bool, scan: DevScan)
    returns (cameras: Option<seq<CameraDevice>>)
    ensures cameras == Listed(if report.Some? then Parsed(report.value, exists_) else [], scan)
    ensures cameras.Some? ==> IdsAscend(cameras.value)
  {
    hide IdsAscend, Dedup, Parsed, Completed;
    var devices: seq<CameraDevice> := [];
    if report.Some? {
      devices := ParseV4l2CameraDevices(report.value, exists_);
    }
    var all := AddDevVideoDevices(devices, scan);
    if all.None? {
      return None;
    }
    SortedDedupKeepsFirst(all.value);
    cameras := Some(Dedup(SortBy(all.value, IdLe)));
  }

  /** Sorting and removing duplicates keep the first device of every id, in increasing order of ids. */
  lemma SortedDedupKeepsFirst(all: seq<CameraDevice>)
    ensures var r := Dedup(SortBy(all, IdLe));
            && IdsAscend(r)
            && AreFirsts(r, all)
  {
    hide IdLe, StringLe;
    IdOrder();
    SortByCorrect(all, IdLe);
    var sorted := SortBy(all, IdLe);
    DedupCorrect(sorted);
    IncreasingAscends(Dedup(sorted));
    forall d ensures d in Dedup(sorted) <==> First(all, d.id) == Some(d) {
      FirstIsFirstOfClass(all, d);
      FirstIsFirstOfClass(sorted, d);
      FirstFound(sorted, d.id);
    }
  }

  function EntriesOf(scan: DevScan): seq<DevEntry> {
    if scan.Entries? then scan.entries else []
  }

  /**
   * The list has strictly increasing ids, and its ids are exactly those of the two sources. A device that v4l2-ctl
   * reports is listed as it is reported first; every other one as /dev shows it. There is no list exactly if /dev
   * cannot be listed or one of its entries cannot be read.
   */
  lemma CameraListIsUnion(reported: seq<CameraDevice>, scan: DevScan)
    ensures Listed(reported, scan).None? <==>
            scan.Unlistable? || exists i :: 0 <= i < |EntriesOf(scan)| && EntriesOf(scan)[i].Broken?
    ensures Listed(reported, scan).Some? ==>
              var r := Listed(reported, scan).value;
              && IdsAscend(r)
              && (forall id :: HasId(r, id) <==> HasId(reported, id) || IsDevId(EntriesOf(scan), id))
              && (forall d :: d in r && HasId(reported, d.id) ==> Some(d) == First(reported, d.id))
              && (forall d :: d in r && !HasId(reported, d.id) ==> IsFromDev(EntriesOf(scan), d))
  {
    hide Dedup, SortBy, IdLe, Completed, DevHasId, FromDev, IsDevId, IsFromDev, IdsAscend;
    var entries := EntriesOf(scan);
    CompletedIff(reported, entries);
    if Listed(reported, scan).Some? {
      NoEntriesChangeNothing(reported);
      CompletedAdds(reported, entries);
      var all := Completed(reported, entries).value;
      SortedDedupKeepsFirst(all);
      var r := Listed(reported, scan).value;
      assert all == reported + all[|reported|..];
      forall id ensures HasId(r, id) <==> HasId(reported, id) || IsDevId(entries, id) {
        FirstsHaveAllIds(all, r, id);
        DevHasIdMeans(entries, id);
      }
      forall d | d in r
        ensures HasId(reported, d.id) ==> Some(d) == First(reported, d.id)
        ensures !HasId(reported, d.id) ==> IsFromDev(entries, d)
      {
        FirstAppends(reported, all[|reported|..], d.id);
        FirstFound(reported, d.id);
        FirstFound(all[|reported|..], d.id);
        if !HasId(reported, d.id) {
          FromDevMeans(entries, d);
        }
      }
    }
  }

  lemma NoEntriesChangeNothing(devices: seq<CameraDevice>)
    ensures Completed(devices, []) == Some(devices)
  {}

  lemma FirstsHaveAllIds(all: seq<CameraDevice>, r: seq<CameraDevice>, id: string)
    requires AreFirsts(r, all)
    ensures HasId(r, id) <==> HasId(all, id)
  {
    FirstFound(all, id);
    if HasId(all, id) {
      var d := First(all, id).value;
      assert d in r;
      var i :| 0 <= i < |r| && r[i] == d;
    }
    if HasId(r, id) {
      var i :| 0 <= i < |r| && r[i].id == id;
      assert r[i] in r;
    }
  }
}
