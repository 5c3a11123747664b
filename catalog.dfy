/** The four step lists of `MaintenanceOperations` (update, fix, cleanup and
    boost), each a sequence of `(argv, description)` steps chosen by the
    selected package manager. */
module Catalog {

  /** One maintenance step: the command's argument vector and the label shown
      while it runs. */
  datatype Step = Step(argv: seq<string>, description: string)

  /** Every command is run through `sudo`. */
  predicate Elevated(steps: seq<Step>)
  {
    forall i :: 0 <= i < |steps| ==> |steps[i].argv| > 0 && steps[i].argv[0] == "sudo"
  }

  predicate IsApt(pm: string)
  {
    pm == "apt" || pm == "apt-get"
  }

  predicate IsDnf(pm: string)
  {
    pm == "dnf" || pm == "yum"
  }

  /** A manager with its own command lists; any other (zypper) gets none. */
  predicate HasManagerSteps(pm: string)
  {
    IsApt(pm) || IsDnf(pm) || pm == "pacman"
  }

  // ---------------------------------------------------------------------------
  // update_system
  // ---------------------------------------------------------------------------

  const AptUpdate: seq<Step> := [
    Step(["sudo", "apt", "update"], "Updating package lists..."),
    Step(["sudo", "apt", "upgrade", "-y"], "Upgrading packages..."),
    Step(["sudo", "apt", "dist-upgrade", "-y"], "Distribution upgrade..."),
    Step(["sudo", "apt", "autoremove", "-y"], "Removing unused packages..."),
    Step(["sudo", "apt", "autoclean"], "Cleaning package cache...")
  ]

  const DnfUpdate: seq<Step> := [
    Step(["sudo", "dnf", "check-update"], "Checking for updates..."),
    Step(["sudo", "dnf", "upgrade", "-y"], "Upgrading packages..."),
    Step(["sudo", "dnf", "autoremove", "-y"], "Removing unused packages..."),
    Step(["sudo", "dnf", "clean", "all"], "Cleaning package cache...")
  ]

  const PacmanUpdate: seq<Step> := [
    Step(["sudo", "pacman", "-Syu", "--noconfirm"], "System update..."),
    Step(["sudo", "pacman", "-Rns", "--noconfirm", "$(pacman -Qtdq)"], "Removing orphans..."),
    Step(["sudo", "pacman", "-Scc", "--noconfirm"], "Cleaning cache...")
  ]

  /** The steps of `update_system`; a manager without its own list yields no
      steps at all. */
  function UpdateSteps(pm: string): (r: seq<Step>)
    ensures Elevated(r)
    ensures !HasManagerSteps(pm) <==> r == []
  {
    if IsApt(pm) then AptUpdate
    else if IsDnf(pm) then DnfUpdate
    else if pm == "pacman" then PacmanUpdate
    else []
  }

  // ---------------------------------------------------------------------------
  // fix_system
  // ---------------------------------------------------------------------------

  const AptFix: seq<Step> := [
    Step(["sudo", "apt", "update", "--fix-missing"], "Fixing missing packages..."),
    Step(["sudo", "apt", "-f", "install"], "Fixing broken dependencies..."),
    Step(["sudo", "dpkg", "--configure", "-a"], "Configuring packages..."),
    Step(["sudo", "apt", "check"], "Checking package integrity..."),
    Step(["sudo", "apt", "autoremove", "-y"], "Removing broken packages...")
  ]

  const DnfFix: seq<Step> := [
    Step(["sudo", "dnf", "check"], "Checking system integrity..."),
    Step(["sudo", "dnf", "distro-sync"], "Synchronizing packages..."),
    Step(["sudo", "dnf", "autoremove", "-y"], "Removing problematic packages...")
  ]

  const PacmanFix: seq<Step> := [
    Step(["sudo", "pacman", "-Dk"], "Checking dependencies..."),
    Step(["sudo", "pacman", "-Syu", "--noconfirm"], "Synchronizing system..."),
    Step(["sudo", "pacman", "-Rns", "--noconfirm", "$(pacman -Qtdq)"], "Removing orphaned packages...")
  ]

  /** The host fixes run after the manager's own, whatever the manager. */
  const CommonFixes: seq<Step> := [
    Step(["sudo", "journalctl", "--vacuum-time=7d"], "Cleaning system logs..."),
    Step(["sudo", "systemctl", "daemon-reload"], "Reloading systemd..."),
    Step(["sudo", "ldconfig"], "Updating library cache..."),
    Step(["sudo", "updatedb"], "Updating locate database...")
  ]

  /** The steps of `fix_system`: the manager's repairs, then the four common
      fixes. */
  function FixSteps(pm: string): (r: seq<Step>)
    ensures Elevated(r)
    ensures |r| >= 4 && r[|r| - 4..] == CommonFixes
    ensures !HasManagerSteps(pm) <==> |r| == 4
  {
    var operations :=
      if IsApt(pm) then AptFix
      else if IsDnf(pm) then DnfFix
      else if pm == "pacman" then PacmanFix
      else [];
    operations + CommonFixes
  }

  // ---------------------------------------------------------------------------
  // auto_remove_unused
  // ---------------------------------------------------------------------------

  const AptCleanup: seq<Step> := [
    Step(["sudo", "apt", "autoremove", "-y"], "Removing unused packages..."),
    Step(["sudo", "apt", "autoclean"], "Cleaning package cache..."),
    Step(["sudo", "apt", "clean"], "Deep cleaning cache...")
  ]

  const DnfCleanup: seq<Step> := [
    Step(["sudo", "dnf", "autoremove", "-y"], "Removing unused packages..."),
    Step(["sudo", "dnf", "clean", "all"], "Cleaning package cache...")
  ]

  const PacmanCleanup: seq<Step> := [
    Step(["sudo", "pacman", "-Rns", "--noconfirm", "$(pacman -Qtdq)"], "Removing orphaned packages..."),
    Step(["sudo", "pacman", "-Scc", "--noconfirm"], "Cleaning package cache...")
  ]

  /** The file-system cleanup run after the manager's own, whatever the manager. */
  const SystemCleanup: seq<Step> := [
    Step(["sudo", "journalctl", "--vacuum-time=3d"], "Cleaning old logs..."),
    Step(["sudo", "find", "/tmp", "-type", "f", "-atime", "+7", "-delete"], "Cleaning temp files..."),
    Step(["sudo", "find", "/var/tmp", "-type", "f", "-atime", "+7", "-delete"], "Cleaning var temp..."),
    Step(["sudo", "find", "/var/log", "-name", "*.log", "-type", "f", "-mtime", "+30", "-delete"], "Cleaning old logs..."),
    Step(["sudo", "find", "/home", "-name", ".cache", "-type", "d", "-exec", "rm", "-rf", "{}", "+"], "Cleaning user caches...")
  ]

  /** The steps of `auto_remove_unused`: the manager's package cleanup, then
      the five file-system cleanup steps. */
  function AutoRemoveSteps(pm: string): (r: seq<Step>)
    ensures Elevated(r)
    ensures |r| >= 5 && r[|r| - 5..] == SystemCleanup
    ensures !HasManagerSteps(pm) <==> |r| == 5
  {
    var operations :=
      if IsApt(pm) then AptCleanup
      else if IsDnf(pm) then DnfCleanup
      else if pm == "pacman" then PacmanCleanup
      else [];
    operations + SystemCleanup
  }

  // ---------------------------------------------------------------------------
  // boost_system
  // ---------------------------------------------------------------------------

  /** The steps of `boost_system`; it does not consult the package manager. */
  function BoostSteps(): (r: seq<Step>)
    ensures Elevated(r)
  {
    [
      Step(["sudo", "sysctl", "-w", "vm.swappiness=10"], "Optimizing swap usage..."),
      Step(["sudo", "sysctl", "-w", "vm.vfs_cache_pressure=50"], "Optimizing cache pressure..."),
      Step(["sudo", "sysctl", "-w", "net.core.rmem_max=16777216"], "Optimizing network buffers..."),
      Step(["sudo", "sysctl", "-w", "net.core.wmem_max=16777216"], "Optimizing network buffers..."),
      Step(["sudo", "systemctl", "disable", "bluetooth"], "Disabling bluetooth service..."),
      Step(["sudo", "systemctl", "mask", "plymouth-quit-wait.service"], "Optimizing boot time..."),
      Step(["sudo", "systemctl", "mask", "plymouth-start.service"], "Optimizing boot time..."),
      Step(["sudo", "prelink", "-amR"], "Optimizing binaries..."),
      Step(["sudo", "sync"], "Syncing filesystems..."),
      Step(["sudo", "sysctl", "-p"], "Applying kernel parameters...")
    ]
  }

  // ---------------------------------------------------------------------------
  // Facts about the catalog
  // ---------------------------------------------------------------------------

  /** "yum" shares every list with "dnf", and "apt-get" with "apt". */
  lemma ManagerAliases()
    ensures UpdateSteps("yum") == UpdateSteps("dnf") && UpdateSteps("apt-get") == UpdateSteps("apt")
    ensures FixSteps("yum") == FixSteps("dnf") && FixSteps("apt-get") == FixSteps("apt")
    ensures AutoRemoveSteps("yum") == AutoRemoveSteps("dnf") && AutoRemoveSteps("apt-get") == AutoRemoveSteps("apt")
  {
  }

  /** zypper has no update or package-cleanup commands of its own: update does
      nothing, fix and cleanup run only their common tails. */
  lemma ZypperHasNoManagerSteps()
    ensures UpdateSteps("zypper") == []
    ensures FixSteps("zypper") == CommonFixes
    ensures AutoRemoveSteps("zypper") == SystemCleanup
  {
  }

  /** The boost list has ten steps and ends by syncing the file systems and
      then reloading the kernel parameters. */
  lemma BoostStepsOrder()
    ensures |BoostSteps()| == 10
    ensures BoostSteps()[8].argv == ["sudo", "sync"]
    ensures BoostSteps()[9].argv == ["sudo", "sysctl", "-p"]
  {
  }

  /** Cleanup on pacman is the orphan removal and cache clean, then the five
      file-system steps, in that order. */
  lemma PacmanCleanupOrder()
    ensures AutoRemoveSteps("pacman") == PacmanCleanup + SystemCleanup
    ensures |AutoRemoveSteps("pacman")| == 7
    ensures AutoRemoveSteps("pacman")[0].argv == ["sudo", "pacman", "-Rns", "--noconfirm", "$(pacman -Qtdq)"]
    ensures AutoRemoveSteps("pacman")[1].argv == ["sudo", "pacman", "-Scc", "--noconfirm"]
  {
  }
}
