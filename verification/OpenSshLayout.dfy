/** The layout of an unencrypted OpenSSH file with one Ed25519 key, octet by octet. */
module OpenSshLayout {
  import opened Octets

  /** openssh-key-v1 and a zero octet. */
  const MAGIC: Octets := [0x6F, 0x70, 0x65, 0x6E, 0x73, 0x73, 0x68, 0x2D, 0x6B, 0x65, 0x79, 0x2D, 0x76, 0x31, 0x00]

  /** A uint32 of section 5 of RFC 4251. */
  function Uint32(n: nat): Octets
    requires n < 0x1_0000_0000
  {
    [n / 0x100_0000, n / 0x1_0000 % 0x100, n / 0x100 % 0x100, n % 0x100]
  }

  /** A string of section 5 of RFC 4251. */
  function String(s: Octets): Octets
    requires |s| < 0x1_0000_0000
  {
    Uint32(|s|) + s
  }

  datatype File = File(kdfOptions: Octets, publicKeys: Octets, check1: nat, check2: nat,
                       publicHalf: Octets, secretHalf: Octets, comment: Octets, padding: Octets)

  ghost predicate Sized(f: File) {
    && |f.kdfOptions| < 0x1_0000_0000 && |f.publicKeys| < 0x1_0000_0000
    && f.check1 < 0x1_0000_0000 && f.check2 < 0x1_0000_0000
    && |f.publicHalf| == 32 && |f.secretHalf| == 64 && |f.comment| < 0x1_0000_0000
  }

  /** Two check numbers, ssh-ed25519, both halves of the key, the comment and the padding. */
  ghost function Section(f: File): Octets
    requires Sized(f)
  {
    Uint32(f.check1) + (Uint32(f.check2)
    + (String([0x73, 0x73, 0x68, 0x2D, 0x65, 0x64, 0x32, 0x35, 0x35, 0x31, 0x39])
    + (String(f.publicHalf) + (String(f.secretHalf) + (String(f.comment) + f.padding)))))
  }

  /** An ASCII comment, and padding 1, 2, 3 and so on shorter than 8. */
  ghost predicate Laid(f: File) {
    && Sized(f) && |Section(f)| < 0x1_0000_0000
    && (forall i :: 0 <= i < |f.comment| ==> f.comment[i] <= 127)
    && |f.padding| < 8 && (forall i :: 0 <= i < |f.padding| ==> f.padding[i] == i + 1)
  }

  /** Cipher none, kdf none with its options, one key, its public form, and the section. */
  ghost function Body(f: File): Octets
    requires Laid(f)
  {
    String([0x6E, 0x6F, 0x6E, 0x65]) + (String([0x6E, 0x6F, 0x6E, 0x65]) + (String(f.kdfOptions)
    + ([0, 0, 0, 1] + (String(f.publicKeys) + String(Section(f))))))
  }
}
