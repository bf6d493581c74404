/** The data the start page hands to its HTML view: the version line and
    the user-interface language. */
module StartPage {
  import opened Common

  /** The bitness named after the operating system, from os.arch. */
  function ArchSuffix(arch: Option<string>): (r: string)
    ensures arch == Some("amd64") ==> r == " 64 bit"
    ensures arch == Some("x86") || arch == Some("i386") ==> r == " 32 bit"
    ensures arch.None? || arch.value !in {"amd64", "x86", "i386"} ==> r == ""
  {
    if arch.None? then ""
    else
      match arch.value
      case "amd64" => " 64 bit"
      case "x86" => " 32 bit"
      case "i386" => " 32 bit"
      case _ => ""
  }

  /** getVersion: "<version> (<os><bitness>)". */
  function Version(appVersion: string, os: string, arch: Option<string>): string {
    appVersion + " (" + os + ArchSuffix(arch) + ")"
  }

  /** The version line tells 64-bit, 32-bit and other architectures apart:
      two lines for the same version and system agree exactly when the
      architectures fall in the same class. */
  lemma VersionDistinguishesBitness(appVersion: string, os: string, a: Option<string>, b: Option<string>)
    ensures Version(appVersion, os, a) == Version(appVersion, os, b) <==> ArchSuffix(a) == ArchSuffix(b)
  {
    var prefix := appVersion + " (" + os;
    var va := Version(appVersion, os, a);
    var vb := Version(appVersion, os, b);
    if va == vb {
      assert va == prefix + (ArchSuffix(a) + ")");
      assert vb == prefix + (ArchSuffix(b) + ")");
      assert va[|prefix|..] == ArchSuffix(a) + ")";
      assert vb[|prefix|..] == ArchSuffix(b) + ")";
      assert ArchSuffix(a) == (ArchSuffix(a) + ")")[..|ArchSuffix(a) + ")"| - 1];
      assert ArchSuffix(b) == (ArchSuffix(b) + ")")[..|ArchSuffix(b) + ")"| - 1];
    }
  }

  /** The language passed as "lang": the nl argument, "en" without one. */
  function Lang(nl: Option<string>): (lang: string)
    ensures nl.Some? ==> lang == nl.value
    ensures nl.None? ==> lang == "en"
  {
    if nl.None? then "en" else nl.value
  }
}
