/** Names allowed inside a bundle, and the digests written next to them. */
module BundleNames {
  import opened PosixPath

  predicate IsHex(c: char) {
    '0' <= c <= '9' || 'a' <= c <= 'f'
  }

  predicate IsDigest(s: string) {
    |s| == 64 && forall i :: 0 <= i < |s| ==> IsHex(s[i])
  }

  /** A lower-case hexadecimal SHA-256. */
  type Digest = s: string | IsDigest(s) witness seq(64, _ => '0')

  const CRITICAL_FILES: set<string> := {"manifest.json", "manifest.sig", "checksums.sha256"}

  function Utf8Length(s: string): nat {
    if s == [] then 0
    else (if s[0] as int < 0x80 then 1 else if s[0] as int < 0x800 then 2
          else if s[0] as int < 0x1_0000 then 3 else 4) + Utf8Length(s[1..])
  }

  predicate HasForbiddenChar(name: string) {
    '\\' in name || '\0' in name || '\n' in name || '\r' in name
  }

  /** The checks shared by every name reader: relative, no "..", no forbidden character. */
  predicate Confined(name: string) {
    name != "" && !IsAbsolute(name) && ".." !in Parts(name) && !HasForbiddenChar(name)
  }

  /** _validate_member_name raises nothing. */
  predicate SafeName(name: string, maxPathBytes: nat) {
    Confined(name) && "." !in Parts(name) && Utf8Length(name) <= maxPathBytes
  }
}
