/** The VirtualBox side of virtualbox/virtualbox.go: the grammar of VM names
    ("IE<version> - <os>"), the two OS-version tables, the argument lists
    handed to `VBoxManage` and the way its exit codes are read.

    `VBoxManage` itself is a parameter: a function from an argument list to
    the way `cmd.Run()` ends for that command. Each wrapper reports, next to
    its Go result, the argument lists it ran, so that "no command is run"
    can be stated. */
module VirtualBox {
  import opened Wrappers
  import opened GoLib
  import ExecUtil
  import VmList

  const BROWSER_OS_SEPARATOR := " - "
  const FIRST_SNAPSHOT_NAME := "Snapshot 1"
  const CLIPBOARD_MODE_BIDIRECTIONAL := "bidirectional"

  type Args = seq<string>

  /** How `cmd.Run()` ends for `VBoxManage <args>`. */
  type VBoxManage = Args -> ExecUtil.RunOutcome

  /** The argument lists run, in order, and the error returned (`None` is nil). */
  datatype Effect = Effect(commands: seq<Args>, err: Option<Error>)

  // ---------------------------------------------------------------------
  // VM-name grammar

  /** The name `GetVmNameList` prints for a browser version and an OS name. */
  function FormatVmName(version: string, os: string): (s: string)
    ensures |s| == 2 + |version| + |BROWSER_OS_SEPARATOR| + |os|
    ensures s[..2] == "IE" && s[2..2 + |version|] == version
    ensures s[2 + |version|..5 + |version|] == BROWSER_OS_SEPARATOR && s[5 + |version|..] == os
  {
    "IE" + version + BROWSER_OS_SEPARATOR + os
  }

  /** `getOSVersionFromVMName`: everything after the first " - ", or "" when
      there is no separator. */
  function GetOsVersionFromVmName(vmName: string): (os: string)
    ensures Index(vmName, BROWSER_OS_SEPARATOR) == -1 ==> os == ""
    ensures Index(vmName, BROWSER_OS_SEPARATOR) != -1 ==>
              vmName == vmName[..Index(vmName, BROWSER_OS_SEPARATOR)] + BROWSER_OS_SEPARATOR + os
  {
    var i := Index(vmName, BROWSER_OS_SEPARATOR);
    if i == -1 then "" else vmName[i + |BROWSER_OS_SEPARATOR|..]
  }

  /** `getBrowserVersionFromVMName`: what stands between a leading "IE" and
      the first " - "; "" when either is missing. */
  function GetBrowserVersionFromVmName(vmName: string): (v: string)
    ensures Index(vmName, BROWSER_OS_SEPARATOR) == -1 ==> v == ""
    ensures |vmName| < 2 || vmName[..2] != "IE" ==> v == ""
    ensures v != "" ==> vmName == FormatVmName(v, GetOsVersionFromVmName(vmName))
  {
    var i := Index(vmName, BROWSER_OS_SEPARATOR);
    if i == -1 then ""
    else if vmName[..2] != "IE" then ""
    else
      assert i >= 2 by {
        assert vmName[i..i + 3] == BROWSER_OS_SEPARATOR;
        assert vmName[i] == vmName[i..i + 3][0] == ' ';
        assert vmName[0] == 'I' && vmName[1] == 'E';
      }
      var v := vmName[2..i];
      assert v != "" ==> vmName == "IE" + v + BROWSER_OS_SEPARATOR + vmName[i + 3..] by {
        assert vmName == vmName[..2] + vmName[2..i] + vmName[i..i + 3] + vmName[i + 3..];
      }
      v
  }

  /** Where the separator first occurs in a formatted name whose version has
      no space. */
  lemma SeparatorOfFormattedName(v: string, os: string)
    requires ' ' !in v
    ensures Index(FormatVmName(v, os), BROWSER_OS_SEPARATOR) == 2 + |v|
  {
    var s := FormatVmName(v, os);
    var i := Index(s, BROWSER_OS_SEPARATOR);
    assert OccursAt(s, BROWSER_OS_SEPARATOR, 2 + |v|) by {
      assert s[2 + |v|..5 + |v|] == BROWSER_OS_SEPARATOR;
    }
    forall j | 0 <= j < 2 + |v| ensures s[j] != ' ' {
      if j >= 2 {
        assert s[j] == v[j - 2];
      }
    }
    assert i != -1 && i <= 2 + |v|;
    assert s[i] == s[i..i + 3][0] == ' ';
  }

  /** Round trip: parsing a name that `FormatVmName` produced gives back its
      browser version and its OS part, when the version contains no space. */
  lemma {:induction false} ParseFormattedName(v: string, os: string)
    requires ' ' !in v
    ensures GetBrowserVersionFromVmName(FormatVmName(v, os)) == v
    ensures GetOsVersionFromVmName(FormatVmName(v, os)) == os
  {
    var s := FormatVmName(v, os);
    SeparatorOfFormattedName(v, os);
    assert s[..2] == "IE";
    assert s[2..2 + |v|] == v;
    assert s[5 + |v|..] == os;
  }

  // ---------------------------------------------------------------------
  // OS-version tables

  /** `osVersionMappingFromVmNameToVmList`: the OS part of a VM name to the
      OS-version token of the manifest. */
  const OS_VERSION_TO_VM_LIST: map<string, string> :=
    map["WinXP" := "XP", "Vista" := "Vista", "Win7" := "Win7", "Win8" := "Win8", "Win8.1" := "Win8.1", "Win10" := "Win10"]

  /** Go's zero value for a missing key of a `map[string]string`. */
  function Lookup(m: map<string, string>, k: string): string
  {
    if k in m then m[k] else ""
  }

  predicate Injective(m: map<string, string>)
  {
    forall a, b :: a in m && b in m && a != b ==> m[a] != m[b]
  }

  /** `inv` undoes `m`: its keys are `m`'s values, and each is sent back to a
      key that `m` sends to it. */
  predicate IsInverse(m: map<string, string>, inv: map<string, string>)
  {
    inv.Keys == m.Values &&
    forall v :: v in inv ==> inv[v] in m && m[inv[v]] == v
  }

  /** Every entry of the forward table but WinXP's maps a name to itself. */
  lemma ForwardTableEntries()
    ensures OS_VERSION_TO_VM_LIST.Keys == {"WinXP", "Vista", "Win7", "Win8", "Win8.1", "Win10"}
    ensures forall k :: k in OS_VERSION_TO_VM_LIST ==>
              OS_VERSION_TO_VM_LIST[k] == (if k == "WinXP" then "XP" else k)
  {
  }

  /** The forward table's six values are distinct and none is empty. */
  lemma ForwardTableInjective()
    ensures Injective(OS_VERSION_TO_VM_LIST)
    ensures OS_VERSION_TO_VM_LIST.Values == {"XP", "Vista", "Win7", "Win8", "Win8.1", "Win10"}
    ensures "" !in OS_VERSION_TO_VM_LIST.Values
  {
    ForwardTableEntries();
    var m := OS_VERSION_TO_VM_LIST;
    assert "XP" !in m;
    assert m.Values == {"XP", "Vista", "Win7", "Win8", "Win8.1", "Win10"} by {
      assert m["WinXP"] == "XP" && m["Vista"] == "Vista" && m["Win7"] == "Win7";
      assert m["Win8"] == "Win8" && m["Win8.1"] == "Win8.1" && m["Win10"] == "Win10";
    }
  }

  /** So the forward table has six distinct values. */
  lemma ForwardTableSize()
    ensures |OS_VERSION_TO_VM_LIST.Values| == 6
  {
    ForwardTableInjective();
    var vs := {"XP", "Vista", "Win7", "Win8", "Win8.1", "Win10"};
    assert |vs| == 6;
  }

  /** An inverse of an injective table sends each key's value back to that key. */
  lemma InverseOfInjective(m: map<string, string>, inv: map<string, string>)
    requires Injective(m) && IsInverse(m, inv)
    ensures forall k :: k in m ==> m[k] in inv && inv[m[k]] == k
    ensures |inv| == |m.Values|
  {
    forall k | k in m ensures m[k] in inv && inv[m[k]] == k {
      assert m[k] in m.Values;
    }
  }

  /** The `init` loop: for every key `k` of `m`, set `inv[m[k]] := k`. The
      keys are taken in an arbitrary order, as Go's map iteration does. */
  method BuildInverse(m: map<string, string>) returns (inv: map<string, string>)
    ensures IsInverse(m, inv)
  {
    inv := map[];
    var todo := m.Keys;
    while todo != {}
      invariant todo <= m.Keys
      invariant inv.Keys == set k | k in m.Keys - todo :: m[k]
      invariant forall v :: v in inv ==> inv[v] in m && m[inv[v]] == v
      decreases todo
    {
      var k :| k in todo;
      inv := inv[m[k] := k];
      todo := todo - {k};
    }
  }

  /** `init`: the table from manifest OS-version tokens back to VM-name OS parts.
      Whatever order the keys were visited in, it has six entries and
      undoes the forward table. */
  method Init() returns (osVersionToVmName: map<string, string>)
    ensures IsInverse(OS_VERSION_TO_VM_LIST, osVersionToVmName)
    ensures |osVersionToVmName| == 6
    ensures forall k :: k in OS_VERSION_TO_VM_LIST ==> osVersionToVmName[OS_VERSION_TO_VM_LIST[k]] == k
  {
    osVersionToVmName := BuildInverse(OS_VERSION_TO_VM_LIST);
    ForwardTableInjective();
    ForwardTableSize();
    InverseOfInjective(OS_VERSION_TO_VM_LIST, osVersionToVmName);
  }

  // ---------------------------------------------------------------------
  // names and browser specs

  /** The formatting loop of `GetVmNameList` over the browsers the manifest
      lists for Mac/VirtualBox; an OS token missing from the table gives an
      empty OS part. */
  method GetVmNameList(browsers: seq<VmList.BrowserSpec>, osVersionToVmName: map<string, string>)
    returns (vmNames: seq<string>)
    ensures |vmNames| == |browsers|
    ensures forall i :: 0 <= i < |browsers| ==>
              vmNames[i] == FormatVmName(browsers[i].version, Lookup(osVersionToVmName, browsers[i].osVersion))
  {
    var names := new string[|browsers|];
    for i := 0 to |browsers|
      invariant forall j :: 0 <= j < i ==>
                  names[j] == FormatVmName(browsers[j].version, Lookup(osVersionToVmName, browsers[j].osVersion))
    {
      names[i] := FormatVmName(browsers[i].version, Lookup(osVersionToVmName, browsers[i].osVersion));
    }
    vmNames := names[..];
  }

  function InvalidBrowserVersion(vmName: string): Error
  {
    Errorf("Invalid browserVersion in vmName: " + vmName)
  }

  function UnknownOsVersion(vmName: string): Error
  {
    Errorf("Unknown osVersion in vmName: " + vmName)
  }

  /** `NewVmListBrowserSpecFromVmName`: the manifest selector for a VM name. */
  function NewVmListBrowserSpecFromVmName(vmName: string): (r: Result<VmList.BrowserSpec, Error>)
    ensures r.Success? <==>
              GetBrowserVersionFromVmName(vmName) != "" && GetOsVersionFromVmName(vmName) in OS_VERSION_TO_VM_LIST
    ensures GetBrowserVersionFromVmName(vmName) == "" ==> r == Failure(InvalidBrowserVersion(vmName))
    ensures GetBrowserVersionFromVmName(vmName) != "" && GetOsVersionFromVmName(vmName) !in OS_VERSION_TO_VM_LIST ==>
              r == Failure(UnknownOsVersion(vmName))
    ensures r.Success? ==>
              var os := GetOsVersionFromVmName(vmName);
              && r.value.osName == "Mac" && r.value.softwareName == "VirtualBox"
              && vmName == FormatVmName(r.value.version, os)
              && r.value.osVersion == OS_VERSION_TO_VM_LIST[os]
  {
    ForwardTableInjective();
    var browserVersion := GetBrowserVersionFromVmName(vmName);
    if browserVersion == "" then Failure(InvalidBrowserVersion(vmName))
    else
      var osVersion := Lookup(OS_VERSION_TO_VM_LIST, GetOsVersionFromVmName(vmName));
      if osVersion == "" then Failure(UnknownOsVersion(vmName))
      else Success(VmList.BrowserSpec("Mac", "VirtualBox", browserVersion, osVersion))
  }

  /** A well-formed name of a known OS gives the selector built from its parts. */
  lemma BrowserSpecOfFormattedName(v: string, os: string)
    requires v != "" && ' ' !in v && os in OS_VERSION_TO_VM_LIST
    ensures NewVmListBrowserSpecFromVmName(FormatVmName(v, os))
         == Success(VmList.BrowserSpec("Mac", "VirtualBox", v, OS_VERSION_TO_VM_LIST[os]))
  {
    ParseFormattedName(v, os);
  }

  /** The names `GetVmNameList` prints for manifest OS tokens map back to
      the selector they were printed from. */
  lemma VmNameListRoundTrip(browsers: seq<VmList.BrowserSpec>, osVersionToVmName: map<string, string>,
                            vmNames: seq<string>, i: int)
    requires IsInverse(OS_VERSION_TO_VM_LIST, osVersionToVmName)
    requires |vmNames| == |browsers|
    requires forall j :: 0 <= j < |browsers| ==>
               vmNames[j] == FormatVmName(browsers[j].version, Lookup(osVersionToVmName, browsers[j].osVersion))
    requires 0 <= i < |browsers|
    requires browsers[i].version != "" && ' ' !in browsers[i].version
    requires browsers[i].osVersion in OS_VERSION_TO_VM_LIST.Values
    ensures NewVmListBrowserSpecFromVmName(vmNames[i])
         == Success(VmList.BrowserSpec("Mac", "VirtualBox", browsers[i].version, browsers[i].osVersion))
  {
    var os := osVersionToVmName[browsers[i].osVersion];
    BrowserSpecOfFormattedName(browsers[i].version, os);
  }

  /** `GetOvaFileNameForVmName`. */
  function GetOvaFileNameForVmName(vmName: string): (file: string)
    ensures |file| == |vmName| + 4 && file[..|vmName|] == vmName && file[|vmName|..] == ".ova"
  {
    vmName + ".ova"
  }

  /** Different VMs never share an OVA file name. */
  lemma OvaFileNameInjective(a: string, b: string)
    requires GetOvaFileNameForVmName(a) == GetOvaFileNameForVmName(b)
    ensures a == b
  {
    assert a == GetOvaFileNameForVmName(a)[..|a|];
    assert b == GetOvaFileNameForVmName(b)[..|b|];
  }

  // ---------------------------------------------------------------------
  // running VBoxManage

  /** The error a wrapper returns for a non-zero exit code. */
  function ExitCodeError(what: string, code: int): Error
  {
    Errorf(what + " failed with exitCode=" + IntToDecimal(code))
  }

  /** The shape shared by every wrapper: run `VBoxManage <args>` through
      `executil.Run`, pass a run error on, and turn a non-zero exit code into
      an error that names the command and carries the code. */
  function RunChecked(vbox: VBoxManage, args: Args, what: string): (e: Effect)
    ensures e.commands == [args]
    ensures e.err.None? <==> ExecUtil.ExitedZero(vbox(args))
    ensures ExecUtil.Run(vbox(args)).err.Some? ==> e.err == ExecUtil.Run(vbox(args)).err
    ensures ExecUtil.Run(vbox(args)).err.None? && ExecUtil.Run(vbox(args)).status.value.exitCode != 0 ==>
              e.err == Some(ExitCodeError(what, ExecUtil.Run(vbox(args)).status.value.exitCode))
  {
    var r := ExecUtil.Run(vbox(args));
    if r.err.Some? then Effect([args], r.err)
    else if r.status.value.exitCode == 0 then Effect([args], None)
    else Effect([args], Some(ExitCodeError(what, r.status.value.exitCode)))
  }

  /** The message of a failed command carries its exit code: two codes give
      the same error only if they are equal. */
  lemma ExitCodeErrorDeterminesCode(what: string, a: int, b: int)
    requires ExitCodeError(what, a) == ExitCodeError(what, b)
    ensures a == b
  {
    var pre := what + " failed with exitCode=";
    assert (pre + IntToDecimal(a))[|pre|..] == IntToDecimal(a);
    assert (pre + IntToDecimal(b))[|pre|..] == IntToDecimal(b);
    IntToDecimalInjective(a, b);
  }

  /** Runs a further step only when the previous one succeeded. */
  function AndThen(first: Effect, next: Effect): (e: Effect)
    ensures first.err.Some? ==> e == first
    ensures first.err.None? ==> e.commands == first.commands + next.commands && e.err == next.err
  {
    if first.err.Some? then first else Effect(first.commands + next.commands, next.err)
  }

  function ShowVmInfoArgs(vmName: string): Args { ["showvminfo", vmName] }

  /** `DoesVmExist`: exit code 0 means the VM exists, any other code that it
      does not, and a run error is passed on. */
  function DoesVmExist(vbox: VBoxManage, vmName: string): (r: Result<bool, Error>)
    ensures r == Success(true) <==> ExecUtil.ExitedZero(vbox(ShowVmInfoArgs(vmName)))
    ensures r == Success(false) <==>
              ExecUtil.Run(vbox(ShowVmInfoArgs(vmName))).err.None? &&
              ExecUtil.Run(vbox(ShowVmInfoArgs(vmName))).status.value.exitCode != 0
    ensures r.Failure? ==> Some(r.error) == ExecUtil.Run(vbox(ShowVmInfoArgs(vmName))).err
  {
    var s := ExecUtil.Run(vbox(ShowVmInfoArgs(vmName)));
    if s.err.Some? then Failure(s.err.value)
    else Success(s.status.value.exitCode == 0)
  }

  function StartVmArgs(vmName: string): Args { ["startvm", vmName, "--type", "gui"] }

  /** `StartVm`. */
  function StartVm(vbox: VBoxManage, vmName: string): (e: Effect)
    ensures e.commands == [StartVmArgs(vmName)]
    ensures e.err.None? <==> ExecUtil.ExitedZero(vbox(StartVmArgs(vmName)))
  {
    RunChecked(vbox, StartVmArgs(vmName), "VBoxManage startvm \"" + vmName + "\"")
  }

  /** A VM that starts with a non-zero code gives an error naming the VM and
      that code. */
  lemma StartVmNonZeroExit(vbox: VBoxManage, vmName: string, code: int)
    requires vbox(StartVmArgs(vmName)) == ExecUtil.Exited(ExecUtil.ExitError(Some(code))) && code != 0
    ensures StartVm(vbox, vmName).err == Some(ExitCodeError("VBoxManage startvm \"" + vmName + "\"", code))
  {
  }

  function ImportArgs(ovaFileName: string): Args { ["import", ovaFileName] }

  function ImportVm(vbox: VBoxManage, ovaFileName: string): (e: Effect)
    ensures e.commands == [ImportArgs(ovaFileName)]
    ensures e.err.None? <==> ExecUtil.ExitedZero(vbox(ImportArgs(ovaFileName)))
  {
    RunChecked(vbox, ImportArgs(ovaFileName), "VBoxManage import \"" + ovaFileName + "\"")
  }

  /** The `modifyvm` arguments chosen by the OS part of the VM name, or
      `None` for an OS the memory settings do not cover. */
  function MemoryArgs(vmName: string): (r: Option<Args>)
    ensures r.Some? <==> GetOsVersionFromVmName(vmName) in {"WinXP", "Vista", "Win7", "Win8", "Win8.1"}
    ensures GetOsVersionFromVmName(vmName) in {"WinXP", "Vista"} ==>
              r == Some(["modifyvm", vmName, "--memory", "1024"])
    ensures GetOsVersionFromVmName(vmName) in {"Win7", "Win8", "Win8.1"} ==>
              r == Some(["modifyvm", vmName, "--memory", "2048", "--vram", "128"])
  {
    var osVersion := GetOsVersionFromVmName(vmName);
    if osVersion == "WinXP" || osVersion == "Vista" then
      Some(["modifyvm", vmName, "--memory", "1024"])
    else if osVersion == "Win7" || osVersion == "Win8" || osVersion == "Win8.1" then
      Some(["modifyvm", vmName, "--memory", "2048", "--vram", "128"])
    else None
  }

  /** `configVmMemory`. An unsupported OS is an error and no command runs. The
      message for a non-zero exit says "import", as the source has it. */
  function ConfigVmMemory(vbox: VBoxManage, vmName: string): (e: Effect)
    ensures MemoryArgs(vmName).None? ==>
              e == Effect([], Some(Errorf("Unsupported os version: " + GetOsVersionFromVmName(vmName))))
    ensures MemoryArgs(vmName).Some? ==>
              e.commands == [MemoryArgs(vmName).value] &&
              (e.err.None? <==> ExecUtil.ExitedZero(vbox(MemoryArgs(vmName).value)))
  {
    match MemoryArgs(vmName)
    case None => Effect([], Some(Errorf("Unsupported os version: " + GetOsVersionFromVmName(vmName))))
    case Some(args) => RunChecked(vbox, args, "VBoxManage import \"" + vmName + "\"")
  }

  /** Win10 is in the OS table but has no memory settings: a Win10 VM is
      refused whatever VBoxManage would do. */
  lemma Win10MemoryUnsupported(vbox: VBoxManage, v: string)
    requires ' ' !in v
    ensures "Win10" in OS_VERSION_TO_VM_LIST
    ensures ConfigVmMemory(vbox, FormatVmName(v, "Win10")) == Effect([], Some(Errorf("Unsupported os version: " + "Win10")))
  {
    ParseFormattedName(v, "Win10");
  }

  function StorageAttachArgs(vmName: string): Args
  {
    ["storageattach", vmName, "--storagectl", "IDE", "--port", "1", "--device", "0",
     "--type", "dvddrive", "--medium", "additions"]
  }

  function AttachGuestAdditionsMedia(vbox: VBoxManage, vmName: string): (e: Effect)
    ensures e.commands == [StorageAttachArgs(vmName)]
    ensures e.err.None? <==> ExecUtil.ExitedZero(vbox(StorageAttachArgs(vmName)))
  {
    RunChecked(vbox, StorageAttachArgs(vmName), "VBoxManage storageattach for VM \"" + vmName + "\"")
  }

  function ClipboardArgs(vmName: string, clipboardMode: string): Args
  {
    ["controlvm", vmName, "clipboard", clipboardMode]
  }

  function SetClipboardMode(vbox: VBoxManage, vmName: string, clipboardMode: string): (e: Effect)
    ensures e.commands == [ClipboardArgs(vmName, clipboardMode)]
    ensures e.err.None? <==> ExecUtil.ExitedZero(vbox(ClipboardArgs(vmName, clipboardMode)))
  {
    RunChecked(vbox, ClipboardArgs(vmName, clipboardMode),
               "VBoxManage controlvm for setting clipboard mode of VM \"" + vmName + "\"")
  }

  function SnapshotArgs(vmName: string, snapshotName: string): Args
  {
    ["snapshot", vmName, "take", snapshotName]
  }

  function TakeSnapshot(vbox: VBoxManage, vmName: string, snapshotName: string): (e: Effect)
    ensures e.commands == [SnapshotArgs(vmName, snapshotName)]
    ensures e.err.None? <==> ExecUtil.ExitedZero(vbox(SnapshotArgs(vmName, snapshotName)))
  {
    RunChecked(vbox, SnapshotArgs(vmName, snapshotName), "VBoxManage snapshot for VM \"" + vmName + "\"")
  }

  /** `ImportAndConfigureVm`: import, memory, guest additions, snapshot; the
      first failing step's error is returned and nothing after it runs. */
  function ImportAndConfigureVm(vbox: VBoxManage, vmName: string): (e: Effect)
    ensures 1 <= |e.commands| <= 4
    ensures e.commands[0] == ImportArgs(GetOvaFileNameForVmName(vmName))
    ensures !ExecUtil.ExitedZero(vbox(ImportArgs(GetOvaFileNameForVmName(vmName)))) ==> |e.commands| == 1 && e.err.Some?
  {
    var imported := ImportVm(vbox, GetOvaFileNameForVmName(vmName));
    var memory := ConfigVmMemory(vbox, vmName);
    var attached := AttachGuestAdditionsMedia(vbox, vmName);
    var snapshot := TakeSnapshot(vbox, vmName, FIRST_SNAPSHOT_NAME);
    AndThen(imported, AndThen(memory, AndThen(attached, snapshot)))
  }

  /** Success means the four commands ran in this order and each exited
      with 0; in particular the OS has memory settings. */
  lemma ImportAndConfigureVmSucceeded(vbox: VBoxManage, vmName: string)
    requires ImportAndConfigureVm(vbox, vmName).err.None?
    ensures MemoryArgs(vmName).Some?
    ensures ImportAndConfigureVm(vbox, vmName).commands ==
              [ImportArgs(GetOvaFileNameForVmName(vmName)), MemoryArgs(vmName).value,
               StorageAttachArgs(vmName), SnapshotArgs(vmName, FIRST_SNAPSHOT_NAME)]
    ensures ExecUtil.ExitedZero(vbox(ImportArgs(GetOvaFileNameForVmName(vmName))))
    ensures ExecUtil.ExitedZero(vbox(MemoryArgs(vmName).value))
    ensures ExecUtil.ExitedZero(vbox(StorageAttachArgs(vmName)))
    ensures ExecUtil.ExitedZero(vbox(SnapshotArgs(vmName, FIRST_SNAPSHOT_NAME)))
  {
    var imported := ImportVm(vbox, GetOvaFileNameForVmName(vmName));
    var memory := ConfigVmMemory(vbox, vmName);
    var attached := AttachGuestAdditionsMedia(vbox, vmName);
    var snapshot := TakeSnapshot(vbox, vmName, FIRST_SNAPSHOT_NAME);
    var tail := AndThen(attached, snapshot);
    var middle := AndThen(memory, tail);
    assert ImportAndConfigureVm(vbox, vmName) == AndThen(imported, middle);
    assert imported.err.None?;
    assert middle.err.None? && memory.err.None?;
    assert MemoryArgs(vmName).Some?;
    assert tail.err.None? && attached.err.None? && snapshot.err.None?;
    assert tail.commands == [StorageAttachArgs(vmName), SnapshotArgs(vmName, FIRST_SNAPSHOT_NAME)];
    assert middle.commands == [MemoryArgs(vmName).value] + tail.commands;
  }

  /** With an unsupported OS only the import runs before the error is returned. */
  lemma ImportThenUnsupportedOs(vbox: VBoxManage, vmName: string)
    requires MemoryArgs(vmName).None?
    requires ExecUtil.ExitedZero(vbox(ImportArgs(GetOvaFileNameForVmName(vmName))))
    ensures ImportAndConfigureVm(vbox, vmName)
         == Effect([ImportArgs(GetOvaFileNameForVmName(vmName))],
                   Some(Errorf("Unsupported os version: " + GetOsVersionFromVmName(vmName))))
  {
  }

  // ---------------------------------------------------------------------
  // GetRegisteredVmNameList

  predicate IsDigitOrDot(c: char)
  {
    IsDecimalDigit(c) || c == '.'
  }

  predicate AllDigitsOrDots(s: string)
  {
    forall i :: 0 <= i < |s| ==> IsDigitOrDot(s[i])
  }

  /** The end of the longest run of `[\d.]` starting at `k`. */
  function RunEnd(s: string, k: nat): (j: nat)
    requires k <= |s|
    ensures k <= j <= |s|
    ensures AllDigitsOrDots(s[k..j])
    ensures j < |s| ==> !IsDigitOrDot(s[j])
    decreases |s| - k
  {
    if k < |s| && IsDigitOrDot(s[k]) then
      var j := RunEnd(s, k + 1);
      assert s[k..j] == [s[k]] + s[k + 1..j];
      j
    else k
  }

  /** The regular expression `^"(IE[\d.]+ - Win[\d.]+)"` applied to a line:
      the captured name, or `None` when the line does not match. The two
      runs of `[\d.]` are followed by characters outside the class, so the
      greedy runs are the only way to match. */
  function MatchVmLine(line: string): (r: Option<string>)
    ensures r.Some? ==> 1 + |r.value| < |line| && line[0] == '"' && line[1 + |r.value|] == '"'
    ensures r.Some? ==> r.value == line[1..1 + |r.value|] && |r.value| >= 2 && r.value[..2] == "IE"
  {
    if |line| < 3 || line[..3] != "\"IE" then None
    else
      var a := RunEnd(line, 3);
      if a == 3 || !OccursAt(line, " - Win", a) then None
      else
        var b := RunEnd(line, a + 6);
        if b == a + 6 || b == |line| || line[b] != '"' then None
        else
          assert line[1..b][..2] == line[..3][1..] by { assert line[0] == '"'; }
          Some(line[1..b])
  }

  /** The line a VM named "IE<a> - Win<b>" would be reported on. */
  function VmLine(a: string, b: string, rest: string): string
  {
    "\"" + "IE" + a + " - Win" + b + "\"" + rest
  }

  /** Every line of that shape matches, capturing the quoted name. */
  lemma MatchVmLineComplete(a: string, b: string, rest: string)
    requires a != "" && b != "" && AllDigitsOrDots(a) && AllDigitsOrDots(b)
    ensures MatchVmLine(VmLine(a, b, rest)) == Some("IE" + a + " - Win" + b)
  {
    var line := VmLine(a, b, rest);
    VmLineParts(a, b, rest);
    RunEndOfRun(line, 3, 3 + |a|);
    RunEndOfRun(line, 9 + |a|, 9 + |a| + |b|);
  }

  /** Where the parts of a formatted line sit. */
  lemma VmLineParts(a: string, b: string, rest: string)
    ensures var line := VmLine(a, b, rest);
            && |line| == 10 + |a| + |b| + |rest|
            && line[..3] == "\"IE"
            && line[3..3 + |a|] == a
            && OccursAt(line, " - Win", 3 + |a|)
            && line[9 + |a|..9 + |a| + |b|] == b
            && line[9 + |a| + |b|] == '"'
            && line[1..9 + |a| + |b|] == "IE" + a + " - Win" + b
  {
    var line := VmLine(a, b, rest);
    var name := "IE" + a + " - Win" + b;
    assert line == "\"" + name + "\"" + rest;
    assert line[1..1 + |name|] == name;
    assert name[2..2 + |a|] == a;
    assert name[2 + |a|..8 + |a|] == " - Win";
    assert name[8 + |a|..] == b;
  }

  /** `RunEnd` stops exactly at the first character outside the class. */
  lemma RunEndOfRun(s: string, k: nat, j: nat)
    requires k <= j < |s| && AllDigitsOrDots(s[k..j]) && !IsDigitOrDot(s[j])
    ensures RunEnd(s, k) == j
  {
    var e := RunEnd(s, k);
    forall m | k <= m < j ensures IsDigitOrDot(s[m]) {
      assert s[m] == s[k..j][m - k];
    }
    forall m | k <= m < e ensures IsDigitOrDot(s[m]) {
      assert s[m] == s[k..e][m - k];
    }
  }

  /** And only lines of that shape match: a match returns the decomposition. */
  lemma MatchVmLineSound(line: string) returns (a: string, b: string, rest: string)
    requires MatchVmLine(line).Some?
    ensures a != "" && b != "" && AllDigitsOrDots(a) && AllDigitsOrDots(b)
    ensures line == VmLine(a, b, rest)
    ensures MatchVmLine(line) == Some("IE" + a + " - Win" + b)
  {
    var ea := RunEnd(line, 3);
    var eb := RunEnd(line, ea + 6);
    a, b, rest := line[3..ea], line[ea + 6..eb], line[eb + 1..];
    AssembleVmLine(line, ea, eb);
  }

  /** A line cut at the ends of the parts of the pattern. */
  lemma AssembleVmLine(line: string, ea: int, eb: int)
    requires 3 <= ea && ea + 6 <= eb < |line|
    requires line[..3] == "\"IE" && line[ea..ea + 6] == " - Win" && line[eb] == '"'
    ensures line == VmLine(line[3..ea], line[ea + 6..eb], line[eb + 1..])
    ensures line[1..eb] == "IE" + line[3..ea] + " - Win" + line[ea + 6..eb]
  {
    var a, b, rest := line[3..ea], line[ea + 6..eb], line[eb + 1..];
    assert line[..ea] == line[..3] + a;
    assert line[..ea + 6] == line[..ea] + " - Win";
    assert line[..eb] == line[..ea + 6] + b;
    assert line[eb..] == "\"" + rest;
    assert line == line[..eb] + line[eb..];
    assert line[1..3] == "IE";
    assert line[1..ea] == "IE" + a;
    assert line[1..ea + 6] == line[1..ea] + " - Win";
    assert line[1..eb] == line[1..ea + 6] + b;
  }

  /** The names taken from the output lines, in output order. */
  function RegisteredNames(lines: seq<string>): (r: seq<string>)
    ensures |r| <= |lines|
    ensures forall i :: 0 <= i < |r| ==> exists j :: 0 <= j < |lines| && MatchVmLine(lines[j]) == Some(r[i])
  {
    if lines == [] then []
    else
      var init := lines[..|lines| - 1];
      var last := lines[|lines| - 1];
      var front := RegisteredNames(init);
      assert forall j :: 0 <= j < |init| ==> init[j] == lines[j];
      front + (match MatchVmLine(last) case Some(n) => [n] case None => [])
  }

  /** The names of two stretches of output are those of the first followed
      by those of the second: the listing keeps output order. */
  lemma {:induction false} RegisteredNamesAppend(a: seq<string>, b: seq<string>)
    ensures RegisteredNames(a + b) == RegisteredNames(a) + RegisteredNames(b)
    decreases |b|
  {
    if b == [] {
      assert a + b == a;
    } else {
      var init := b[..|b| - 1];
      assert (a + b)[..|a + b| - 1] == a + init;
      assert (a + b)[|a + b| - 1] == b[|b| - 1];
      RegisteredNamesAppend(a, init);
    }
  }

  /** Every matching line contributes its capture: no VM line is dropped. */
  lemma {:induction false} RegisteredNamesComplete(lines: seq<string>, j: int)
    requires 0 <= j < |lines| && MatchVmLine(lines[j]).Some?
    ensures MatchVmLine(lines[j]).value in RegisteredNames(lines)
    decreases |lines|
  {
    var init := lines[..|lines| - 1];
    var front := RegisteredNames(init);
    var tail := match MatchVmLine(lines[|lines| - 1]) case Some(n) => [n] case None => [];
    assert RegisteredNames(lines) == front + tail;
    if j == |lines| - 1 {
      assert tail == [MatchVmLine(lines[j]).value];
      assert (front + tail)[|front|] == MatchVmLine(lines[j]).value;
    } else {
      assert init[j] == lines[j];
      RegisteredNamesComplete(init, j);
      var k :| 0 <= k < |front| && front[k] == MatchVmLine(lines[j]).value;
      assert (front + tail)[k] == front[k];
    }
  }

  /** Every registered name has the form "IE<a> - Win<b>" with both parts
      made of digits and dots, so it parses back into those parts. */
  lemma {:induction false} RegisteredNamesParse(lines: seq<string>, n: string) returns (a: string, b: string)
    requires n in RegisteredNames(lines)
    ensures a != "" && b != "" && AllDigitsOrDots(a) && AllDigitsOrDots(b)
    ensures n == FormatVmName(a, "Win" + b)
    ensures GetBrowserVersionFromVmName(n) == a && GetOsVersionFromVmName(n) == "Win" + b
  {
    var init := lines[..|lines| - 1];
    var last := lines[|lines| - 1];
    if n in RegisteredNames(init) {
      a, b := RegisteredNamesParse(init, n);
    } else {
      assert MatchVmLine(last) == Some(n);
      var rest;
      a, b, rest := MatchVmLineSound(last);
      FormatWinName(a, b);
      DigitsHaveNoSpace(a);
      ParseFormattedName(a, "Win" + b);
    }
  }

  lemma FormatWinName(a: string, b: string)
    ensures FormatVmName(a, "Win" + b) == "IE" + a + " - Win" + b
  {
  }

  lemma DigitsHaveNoSpace(a: string)
    requires AllDigitsOrDots(a)
    ensures ' ' !in a
  {
    forall i | 0 <= i < |a| ensures a[i] != ' ' {
      assert IsDigitOrDot(a[i]);
    }
  }

  /** Every registered name ends in a digit or a dot. */
  lemma RegisteredNameEnd(lines: seq<string>, n: string)
    requires n in RegisteredNames(lines)
    ensures |n| > 0 && IsDigitOrDot(n[|n| - 1])
  {
    var a, b := RegisteredNamesParse(lines, n);
    assert n[|n| - 1] == b[|b| - 1];
  }

  /** So names whose OS part is not "Win" followed by digits and dots, such
      as "IE8 - WinXP" or "IE7 - Vista", are never listed. */
  lemma NonNumericOsNeverListed(lines: seq<string>)
    ensures "IE8 - WinXP" !in RegisteredNames(lines)
    ensures "IE7 - Vista" !in RegisteredNames(lines)
  {
    if "IE8 - WinXP" in RegisteredNames(lines) {
      RegisteredNameEnd(lines, "IE8 - WinXP");
    }
    if "IE7 - Vista" in RegisteredNames(lines) {
      RegisteredNameEnd(lines, "IE7 - Vista");
    }
  }

  const LIST_VMS_ARGS: Args := ["list", "vms"]

  /** `GetRegisteredVmNameList`, given how `VBoxManage list vms` ends, the
      lines of its output, and the text of the scanner's error if it had one. */
  method GetRegisteredVmNameList(vbox: VBoxManage, output: seq<string>, scanError: Option<string>)
    returns (r: Result<seq<string>, Error>)
    ensures ExecUtil.Run(vbox(LIST_VMS_ARGS)).err.Some? ==>
              r == Failure(ExecUtil.Run(vbox(LIST_VMS_ARGS)).err.value)
    ensures ExecUtil.Run(vbox(LIST_VMS_ARGS)).err.None? && ExecUtil.Run(vbox(LIST_VMS_ARGS)).status.value.exitCode != 0 ==>
              r == Failure(ExitCodeError("VBoxManage list vms", ExecUtil.Run(vbox(LIST_VMS_ARGS)).status.value.exitCode))
    ensures ExecUtil.ExitedZero(vbox(LIST_VMS_ARGS)) && scanError.Some? ==>
              r == Failure(Errorf("Error during reading output of VBoxManage list vms: " + scanError.value))
    ensures r.Success? <==> ExecUtil.ExitedZero(vbox(LIST_VMS_ARGS)) && scanError.None?
    ensures r.Success? ==> r.value == RegisteredNames(output)
  {
    var status := ExecUtil.Run(vbox(LIST_VMS_ARGS));
    if status.err.Some? {
      return Failure(status.err.value);
    }
    if status.status.value.exitCode != 0 {
      return Failure(ExitCodeError("VBoxManage list vms", status.status.value.exitCode));
    }
    var vmNames: seq<string> := [];
    for i := 0 to |output|
      invariant vmNames == RegisteredNames(output[..i])
    {
      assert output[..i + 1][..i] == output[..i];
      var values := MatchVmLine(output[i]);
      if values.Some? {
        vmNames := vmNames + [values.value];
      }
    }
    assert output[..|output|] == output;
    if scanError.Some? {
      return Failure(Errorf("Error during reading output of VBoxManage list vms: " + scanError.value));
    }
    return Success(vmNames);
  }
}
