/**
 * The D-Bus names and version bounds of `_actions/_constants.py`.
 */
module ActionConstants {
  import opened Text
  import opened Wrappers
  import StratisdVersion

  const SERVICE: string := "org.storage.stratis3"
  const TOP_OBJECT: string := "/org/storage/stratis3"
  const SECTOR_SIZE: nat := 512

  const MAXIMUM_STRATISD_VERSION: string := "4.0.0"
  const MINIMUM_STRATISD_VERSION: string := "3.8.2"

  /** "r" followed by the minor component of the minimum daemon version; see `RevisionIsR8`. */
  const REVISION: string := "r8"

  function InterfaceName(kind: string): string {
    "org.storage.stratis3." + kind + "." + REVISION
  }

  const BLOCKDEV_INTERFACE: string := InterfaceName("blockdev")
  const FILESYSTEM_INTERFACE: string := InterfaceName("filesystem")
  const MANAGER_INTERFACE: string := InterfaceName("Manager")
  const POOL_INTERFACE: string := InterfaceName("pool")
  const REPORT_INTERFACE: string := InterfaceName("Report")

  /** The minimum version's components. */
  lemma MinimumVersionParts()
    ensures Split(MINIMUM_STRATISD_VERSION, '.') == ["3", "8", "2"]
  {
    var major, minor, patch := "3", "8", "2";
    SplitDotted(major, minor, patch);
    assert MINIMUM_STRATISD_VERSION == major + "." + minor + "." + patch;
  }

  /** The revision is "r" followed by the minor component of the minimum version. */
  lemma RevisionIsR8()
    ensures REVISION == "r" + Split(MINIMUM_STRATISD_VERSION, '.')[1]
  {
    MinorComponent();
  }

  lemma MinorComponent()
    ensures |Split(MINIMUM_STRATISD_VERSION, '.')| == 3 && Split(MINIMUM_STRATISD_VERSION, '.')[1] == "8"
  {
    MinimumVersionParts();
  }

  /** So the pool interface is "org.storage.stratis3.pool.r8". */
  lemma PoolInterfaceName()
    ensures POOL_INTERFACE == "org.storage.stratis3.pool.r8"
  {
  }

  lemma MinimumVersionTuple()
    ensures StratisdVersion.ParseVersion(MINIMUM_STRATISD_VERSION) == Success([3, 8, 2])
  {
    assert StratisdVersion.VersionString([3, 8, 2]) == MINIMUM_STRATISD_VERSION;
    StratisdVersion.ParseVersionRoundTrip([3, 8, 2]);
  }

  lemma MaximumVersionTuple()
    ensures StratisdVersion.ParseVersion(MAXIMUM_STRATISD_VERSION) == Success([4, 0, 0])
  {
    assert StratisdVersion.VersionString([4, 0, 0]) == MAXIMUM_STRATISD_VERSION;
    StratisdVersion.ParseVersionRoundTrip([4, 0, 0]);
  }

  /** The module-level assertion: the minimum version lies below the maximum. */
  lemma MinimumBelowMaximum()
    ensures StratisdVersion.ParseVersion(MINIMUM_STRATISD_VERSION).Success?
    ensures StratisdVersion.ParseVersion(MAXIMUM_STRATISD_VERSION).Success?
    ensures StratisdVersion.TupleLt(StratisdVersion.ParseVersion(MINIMUM_STRATISD_VERSION).value,
                                    StratisdVersion.ParseVersion(MAXIMUM_STRATISD_VERSION).value)
  {
    MinimumVersionTuple();
    MaximumVersionTuple();
  }

  /** The five interface names are pairwise distinct. */
  lemma InterfacesDistinct()
    ensures |{BLOCKDEV_INTERFACE, FILESYSTEM_INTERFACE, MANAGER_INTERFACE, POOL_INTERFACE, REPORT_INTERFACE}| == 5
  {
    var ifaces := [BLOCKDEV_INTERFACE, FILESYSTEM_INTERFACE, MANAGER_INTERFACE, POOL_INTERFACE, REPORT_INTERFACE];
    assert forall i, j :: 0 <= i < j < 5 ==> |ifaces[i]| != |ifaces[j]|;
  }
}
