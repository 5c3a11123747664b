/** The `SystemManager` part of the maintenance back end: classifying the host
    distribution, choosing its package manager and turning the outcome of one
    external command into the `(success, output)` pair the rest of the tool
    consumes. The file system and process execution are abstracted into
    parameters. */
module SystemManagement {
  import opened Text

  // ---------------------------------------------------------------------------
  // Distribution detection
  // ---------------------------------------------------------------------------

  /** What reading `/etc/os-release` yields: the file is absent, it exists but
      raises when read, or its text. */
  datatype OsRelease = Missing | Unreadable | Readable(content: string)

  /** Whether the fallback marker files `/etc/debian_version`,
      `/etc/redhat-release` and `/etc/arch-release` exist. */
  datatype Markers = Markers(debianVersion: bool, redhatRelease: bool, archRelease: bool)

  /** The names matched against os-release, in priority order. */
  const ReleasePriority: seq<string> := ["ubuntu", "debian", "fedora", "centos", "arch", "opensuse"]

  /** Every value `detect_distro` can return. */
  const DistroNames: set<string> := {"ubuntu", "debian", "fedora", "centos", "arch", "opensuse", "unknown"}

  /** The marker-file fallback, checked in the order debian, red hat, arch. */
  function MarkerDistro(m: Markers): (r: string)
    ensures r in DistroNames
    ensures r == "debian" <==> m.debianVersion
    ensures r == "fedora" <==> !m.debianVersion && m.redhatRelease
    ensures r == "arch" <==> !m.debianVersion && !m.redhatRelease && m.archRelease
    ensures r == "unknown" <==> !m.debianVersion && !m.redhatRelease && !m.archRelease
  {
    if m.debianVersion then "debian"
    else if m.redhatRelease then "fedora"
    else if m.archRelease then "arch"
    else "unknown"
  }

  /** `detect_distro`: a substring test on the lower-cased os-release text in
      priority order, then the marker files; a read error gives "unknown" at
      once, without consulting the markers. */
  function DetectDistro(release: OsRelease, m: Markers): (r: string)
    ensures r in DistroNames
    ensures release.Unreadable? ==> r == "unknown"
    ensures release.Missing? ==> r == MarkerDistro(m)
  {
    match release
    case Unreadable => "unknown"
    case Missing => MarkerDistro(m)
    case Readable(text) =>
      var content := Lower(text);
      if Contains(content, "ubuntu") then "ubuntu"
      else if Contains(content, "debian") then "debian"
      else if Contains(content, "fedora") then "fedora"
      else if Contains(content, "centos") then "centos"
      else if Contains(content, "arch") then "arch"
      else if Contains(content, "opensuse") then "opensuse"
      else MarkerDistro(m)
  }

  /** The predicate "this name occurs in the lower-cased os-release text". */
  function NamedIn(text: string): string -> bool
  {
    name => Contains(Lower(text), name)
  }

  /** Reference statement of detection on a readable os-release: the first
      priority name that occurs in the text, else the marker fallback. */
  lemma DetectIsFirstMatch(text: string, m: Markers)
    ensures DetectDistro(Readable(text), m) ==
      match FirstIndex(ReleasePriority, NamedIn(text))
      case Some(k) => ReleasePriority[k]
      case None => MarkerDistro(m)
  {
    var p := NamedIn(text);
    var content := Lower(text);
    assert p("ubuntu") == Contains(content, "ubuntu");
    assert p("debian") == Contains(content, "debian");
    assert p("fedora") == Contains(content, "fedora");
    assert p("centos") == Contains(content, "centos");
    assert p("arch") == Contains(content, "arch");
    assert p("opensuse") == Contains(content, "opensuse");
    match FirstIndex(ReleasePriority, p)
    case None =>
    case Some(k) =>
      assert IsFirst(ReleasePriority, p, k);
  }

  /** A priority name that occurs in the text, with no earlier one occurring,
      is the detected distribution whatever the markers say. */
  lemma ReleaseMatchWins(text: string, m: Markers, k: nat)
    requires k < |ReleasePriority|
    requires Contains(Lower(text), ReleasePriority[k])
    requires forall j :: 0 <= j < k ==> !Contains(Lower(text), ReleasePriority[j])
    ensures DetectDistro(Readable(text), m) == ReleasePriority[k]
  {
    DetectIsFirstMatch(text, m);
    var p := NamedIn(text);
    assert IsFirst(ReleasePriority, p, k);
  }

  /** Text mentioning both "ubuntu" and "debian" (an Ubuntu os-release names its
      Debian base) is classified as ubuntu. */
  lemma UbuntuBeforeDebian(text: string, m: Markers)
    requires Contains(Lower(text), "debian")
    requires Contains(Lower(text), "ubuntu")
    ensures DetectDistro(Readable(text), m) == "ubuntu"
  {
  }

  /** Readable text in which no priority name occurs falls back to the markers. */
  lemma NoReleaseMatchFallsBack(text: string, m: Markers)
    requires forall j :: 0 <= j < |ReleasePriority| ==> !Contains(Lower(text), ReleasePriority[j])
    ensures DetectDistro(Readable(text), m) == MarkerDistro(m)
  {
    DetectIsFirstMatch(text, m);
  }

  /** The comparison is case-insensitive: lower-casing the text first changes
      nothing. */
  lemma DetectIgnoresCase(text: string, m: Markers)
    ensures DetectDistro(Readable(Lower(text)), m) == DetectDistro(Readable(text), m)
  {
    LowerIdempotent(text);
  }

  // ---------------------------------------------------------------------------
  // Package-manager selection
  // ---------------------------------------------------------------------------

  /** `supported_distros`: the package managers of each distribution, in the
      order they are tried. */
  const SupportedDistros: map<string, seq<string>> := map[
    "ubuntu" := ["apt", "apt-get"],
    "debian" := ["apt", "apt-get"],
    "fedora" := ["dnf", "yum"],
    "centos" := ["yum", "dnf"],
    "arch" := ["pacman"],
    "opensuse" := ["zypper"]
  ]

  /** Every value `get_package_manager` can return. */
  const PackageManagers: set<string> := {"apt", "apt-get", "dnf", "yum", "pacman", "zypper"}

  /** Every manager listed in the table is a known package manager. */
  lemma TableManagersKnown(distro: string, k: nat)
    requires distro in SupportedDistros && k < |SupportedDistros[distro]|
    ensures SupportedDistros[distro][k] in PackageManagers
  {
  }

  /** `get_package_manager`: the first manager of the distribution's list for
      which `commandExists` holds; "apt" when the distribution is not in the
      table or none of its managers exists. */
  function GetPackageManager(distro: string, commandExists: string -> bool): (r: string)
    ensures r in PackageManagers
    ensures distro !in SupportedDistros ==> r == "apt"
    ensures distro in SupportedDistros ==>
      (forall j :: 0 <= j < |SupportedDistros[distro]| ==> !commandExists(SupportedDistros[distro][j])) ==> r == "apt"
    ensures distro in SupportedDistros ==>
      forall k: nat :: IsFirst(SupportedDistros[distro], commandExists, k) ==> r == SupportedDistros[distro][k]
  {
    if distro in SupportedDistros then
      var managers := SupportedDistros[distro];
      match FirstIndex(managers, commandExists)
      case Some(k) =>
        TableManagersKnown(distro, k);
        managers[k]
      case None =>
        assert forall k: nat :: !IsFirst(managers, commandExists, k);
        "apt"
    else "apt"
  }

  /** A manager the result names exists on the host, unless the result is the
      "apt" default. */
  lemma SelectedManagerExists(distro: string, commandExists: string -> bool)
    requires GetPackageManager(distro, commandExists) != "apt"
    ensures commandExists(GetPackageManager(distro, commandExists))
    ensures distro in SupportedDistros
    ensures GetPackageManager(distro, commandExists) in SupportedDistros[distro]
  {
  }

  // ---------------------------------------------------------------------------
  // Command outcome mapping
  // ---------------------------------------------------------------------------

  /** How running one external command ended. */
  datatype ProcessOutcome =
    | Completed(exitCode: int, stdout: string, stderr: string)  // the process ran to completion
    | TimedOut                                                   // the timeout expired
    | LaunchError(message: string)                               // any other error, e.g. executable not found

  /** The `(success, output)` pair `run_command` returns. */
  datatype CommandResult = CommandResult(success: bool, output: string)

  /** `run_command` without the process itself: success exactly on a zero exit
      status, with stdout followed by stderr; otherwise a failure with a
      message chosen by how the command ended. */
  function RunCommand(outcome: ProcessOutcome): (r: CommandResult)
    ensures r.success <==> outcome.Completed? && outcome.exitCode == 0
    ensures r.success ==> r.output == outcome.stdout + outcome.stderr
    ensures outcome.TimedOut? ==> r.output == "Command timed out"
    ensures outcome.Completed? && outcome.exitCode != 0 ==> r.output == "Command failed: " + outcome.stderr
    ensures outcome.LaunchError? ==> r.output == "Error: " + outcome.message
  {
    match outcome
    case Completed(code, out, err) =>
      if code == 0 then CommandResult(true, out + err)
      else CommandResult(false, "Command failed: " + err)
    case TimedOut => CommandResult(false, "Command timed out")
    case LaunchError(msg) => CommandResult(false, "Error: " + msg)
  }

  // ---------------------------------------------------------------------------
  // The manager object
  // ---------------------------------------------------------------------------

  /** `SystemManager`: detection and manager selection happen once, when the
      object is built; `commandExists` stands for `which <name>` succeeding. */
  class SystemManager {
    const distro: string
    const packageManager: string

    constructor (release: OsRelease, markers: Markers, commandExists: string -> bool)
      ensures distro == DetectDistro(release, markers)
      ensures packageManager == GetPackageManager(distro, commandExists)
      ensures distro in DistroNames && packageManager in PackageManagers
    {
      distro := DetectDistro(release, markers);
      packageManager := GetPackageManager(DetectDistro(release, markers), commandExists);
    }
  }
}
