/**
 * SSH key blobs: strings with a four-octet length prefix, as in section 5 of RFC 4251, with
 * the writer, the slicing reader and the cursor reader that the cryptosign code has for them.
 */
module SshBlob {
  import opened Octets
  import opened Wrappers
  import L = OpenSshLayout

  datatype Error =
    | StructError
    | IncompletePacket
    | CipherNotSupported
    | KdfNotSupported
    | MultipleKeys
    | UnexpectedMac
    | NotEd25519
    | BadPublicKeyLength
    | BadSecretKeyLength
    | BadPadding
    | CommentNotAscii

  // ---------------------------------------------------------------- the layout

  /** One string of RFC 4251. */
  function Field(part: Octets): Octets
    requires |part| < TWO_TO_THE_32
  {
    PackUint32(|part|) + part
  }

  ghost predicate Packable(parts: seq<Octets>) {
    forall i :: 0 <= i < |parts| ==> |parts[i]| < TWO_TO_THE_32
  }

  function Blob(parts: seq<Octets>): Octets
    requires Packable(parts)
  {
    if parts == [] then [] else Field(parts[0]) + Blob(parts[1..])
  }

  lemma {:induction false} BlobSnoc(parts: seq<Octets>, part: Octets)
    requires Packable(parts) && |part| < TWO_TO_THE_32
    ensures Packable(parts + [part]) && Blob(parts + [part]) == Blob(parts) + Field(part)
  {
    if parts == [] {
      assert Blob([part]) == Field(part) + Blob([]);
    } else {
      BlobSnoc(parts[1..], part);
      assert (parts + [part])[1..] == parts[1..] + [part];
    }
  }

  /** The first string of b, for b of at least four octets; a prefix that overruns takes what there is. */
  function FirstLength(b: Octets): (n: nat)
    requires |b| >= 4
  {
    UnpackUint32(b[..4])
  }

  /** Every length prefix is complete and within the blob. */
  predicate WellFramed(b: Octets)
    decreases |b|
  {
    b == [] || (|b| >= 4 && 4 + FirstLength(b) <= |b| && WellFramed(b[4 + FirstLength(b)..]))
  }

  /** What the slicing reader makes of any octets. */
  function Parts(b: Octets): Result<seq<Octets>, Error>
    decreases |b|
  {
    if b == [] then Ok([])
    else if |b| < 4 then Err(StructError)
    else
      var n := FirstLength(b);
      var end := if 4 + n <= |b| then 4 + n else |b|;
      Prepend([b[4..end]], Parts(b[end..]))
  }

  function Prepend(parts: seq<Octets>, r: Result<seq<Octets>, Error>): Result<seq<Octets>, Error> {
    match r
    case Ok(rest) => Ok(parts + rest)
    case Err(e) => Err(e)
  }

  lemma PrependNext(parts: seq<Octets>, part: Octets, r: Result<seq<Octets>, Error>)
    ensures Prepend(parts, Prepend([part], r)) == Prepend(parts + [part], r)
  {
    if r.Ok? {
      assert parts + ([part] + r.value) == parts + [part] + r.value;
    }
  }

  // ---------------------------------------------------------------- _pack and _unpack

  method Pack(parts: seq<Octets>) returns (r: Result<Octets, Error>)
    ensures r.Ok? <==> Packable(parts)
    ensures r.Ok? ==> r.value == Blob(parts)
  {
    var out: Octets := [];
    for i := 0 to |parts|
      invariant Packable(parts[..i]) && out == Blob(parts[..i])
    {
      if |parts[i]| >= TWO_TO_THE_32 {
        return Err(StructError);
      }
      BlobSnoc(parts[..i], parts[i]);
      assert parts[..i + 1] == parts[..i] + [parts[i]];
      out := out + PackUint32(|parts[i]|);
      out := out + parts[i];
      assert out == Blob(parts[..i]) + Field(parts[i]);
    }
    assert parts[..|parts|] == parts;
    r := Ok(out);
  }

  method Unpack(keydata: Octets) returns (r: Result<seq<Octets>, Error>)
    ensures r == Parts(keydata)
  {
    var parts: seq<Octets> := [];
    var rest := keydata;
    assert Parts(keydata).Ok? ==> [] + Parts(keydata).value == Parts(keydata).value;
    while rest != []
      invariant Parts(keydata) == Prepend(parts, Parts(rest))
      decreases |rest|
    {
      if |rest| < 4 {
        return Err(StructError);
      }
      var n := UnpackUint32(rest[..4]);
      var end := if n + 4 <= |rest| then n + 4 else |rest|;
      PrependNext(parts, rest[4..end], Parts(rest[end..]));
      parts, rest := parts + [rest[4..end]], rest[end..];
    }
    assert parts + [] == parts;
    r := Ok(parts);
  }

  lemma FieldFirst(part: Octets, rest: Octets)
    requires |part| < TWO_TO_THE_32
    ensures var b := Field(part) + rest;
            && |b| >= 4 && FirstLength(b) == |part| && 4 + |part| <= |b|
            && b[4..4 + |part|] == part && b[4 + |part|..] == rest
  {
    var b := Field(part) + rest;
    assert b[..4] == PackUint32(|part|);
    UnpackPack(|part|);
  }

  /** Packing and unpacking gives back the parts, empty ones included. */
  lemma {:induction false} UnpackOfPack(parts: seq<Octets>)
    requires Packable(parts)
    ensures Parts(Blob(parts)) == Ok(parts) && WellFramed(Blob(parts))
  {
    if parts != [] {
      FieldFirst(parts[0], Blob(parts[1..]));
      UnpackOfPack(parts[1..]);
      assert [parts[0]] + parts[1..] == parts;
    }
  }

  lemma {:induction false} PartsArePackable(b: Octets)
    requires Parts(b).Ok?
    ensures Packable(Parts(b).value)
    decreases |b|
  {
    if b != [] {
      var n := FirstLength(b);
      PackUnpack(b[..4]);
      PartsArePackable(b[if 4 + n <= |b| then 4 + n else |b|..]);
    }
  }

  /** Unpacking and packing gives back the blob exactly when no length prefix overruns it. */
  lemma {:induction false} PackOfUnpack(b: Octets)
    ensures WellFramed(b) ==> Parts(b).Ok?
    ensures Parts(b).Ok? ==> Packable(Parts(b).value) && (Blob(Parts(b).value) == b <==> WellFramed(b))
    decreases |b|
  {
    if |b| >= 4 {
      var n := FirstLength(b);
      var end := if 4 + n <= |b| then 4 + n else |b|;
      PackOfUnpack(b[end..]);
      PackUnpack(b[..4]);
      if Parts(b).Ok? {
        PartsArePackable(b);
        var part := b[4..end];
        if 4 + n <= |b| {
          assert b == b[..4] + part + b[end..];
          assert Field(part) == b[..4] + part;
        } else {
          UnpackPack(|part|);
          assert Blob(Parts(b).value)[..4] == PackUint32(|part|);
        }
      }
    }
  }

  // ---------------------------------------------------------------- the cursor reader

  /** The string that b starts with, and what follows it. */
  function TakeString(b: Octets): Result<(Octets, Octets), Error> {
    if |b| < 4 || 4 + FirstLength(b) > |b| then Err(IncompletePacket)
    else Ok((b[4..4 + FirstLength(b)], b[4 + FirstLength(b)..]))
  }

  function TakeUint32(b: Octets): Result<(nat, Octets), Error> {
    if |b| < 4 then Err(IncompletePacket) else Ok((UnpackUint32(b[..4]), b[4..]))
  }

  class SSHPacketReader {
    const packet: Octets
    var idx: nat

    ghost predicate Valid()
      reads this
    {
      idx <= |packet|
    }

    ghost function Rest(): Octets
      requires Valid()
      reads this
    {
      packet[idx..]
    }

    constructor (packet: Octets)
      ensures Valid() && this.packet == packet && Rest() == packet
    {
      this.packet := packet;
      idx := 0;
    }

    method GetRemainingPayload() returns (r: Octets)
      requires Valid()
      ensures r == Rest()
    {
      r := packet[idx..];
    }

    /** The next octets, or an exception that leaves the cursor where it is. */
    method GetBytes(size: nat) returns (r: Result<Octets, Error>)
      requires Valid()
      modifies this
      ensures Valid()
      ensures r.Ok? <==> size <= |old(Rest())|
      ensures r.Ok? ==> r.value == old(Rest())[..size] && Rest() == old(Rest())[size..] && idx == old(idx) + size
      ensures r.Err? ==> r == Err(IncompletePacket) && idx == old(idx)
    {
      if idx + size > |packet| {
        return Err(IncompletePacket);
      }
      r := Ok(packet[idx..idx + size]);
      idx := idx + size;
    }

    method GetUint32() returns (r: Result<nat, Error>)
      requires Valid()
      modifies this
      ensures Valid() && idx >= old(idx)
      ensures match TakeUint32(old(Rest()))
              case Ok((n, rest)) => r == Ok(n) && Rest() == rest
              case Err(e) => r == Err(e) && idx == old(idx)
    {
      var b :- GetBytes(4);
      r := Ok(UnpackUint32(b));
    }

    /** The next string. It never passes the end of the packet. */
    method GetString() returns (r: Result<Octets, Error>)
      requires Valid()
      modifies this
      ensures Valid() && idx >= old(idx)
      ensures match TakeString(old(Rest()))
              case Ok((part, rest)) => r == Ok(part) && Rest() == rest && idx >= old(idx) + 4
              case Err(e) => r == Err(e)
    {
      ghost var b := Rest();
      var size :- GetUint32();
      assert 4 + size <= |b| ==> b[4..][..size] == b[4..4 + size] && b[4..][size..] == b[4 + size..];
      r := GetBytes(size);
    }
  }

  /**
   * Reading strings until the packet is used up: this terminates, succeeds exactly on
   * well-framed blobs, and gives the same parts as slicing.
   */
  method ReadAllStrings(reader: SSHPacketReader) returns (r: Result<seq<Octets>, Error>)
    requires reader.Valid() && reader.idx == 0
    modifies reader
    ensures reader.Valid()
    ensures r.Ok? <==> WellFramed(reader.packet)
    ensures r.Ok? ==> r == Parts(reader.packet) && reader.Rest() == []
  {
    var parts: seq<Octets> := [];
    assert reader.Rest() == reader.packet;
    assert Parts(reader.packet).Ok? ==> [] + Parts(reader.packet).value == Parts(reader.packet).value;
    while reader.idx < |reader.packet|
      invariant reader.Valid()
      invariant WellFramed(reader.packet) <==> WellFramed(reader.Rest())
      invariant Parts(reader.packet) == Prepend(parts, Parts(reader.Rest()))
      decreases |reader.packet| - reader.idx
    {
      ghost var rest := reader.Rest();
      var part :- reader.GetString();
      PrependNext(parts, part, Parts(reader.Rest()));
      parts := parts + [part];
    }
    assert parts + [] == parts;
    r := Ok(parts);
  }

  // ---------------------------------------------------------------- Ed25519 private keys

  const NONE: Octets := [0x6E, 0x6F, 0x6E, 0x65]
  const SSH_ED25519: Octets := [0x73, 0x73, 0x68, 0x2D, 0x65, 0x64, 0x32, 0x35, 0x35, 0x31, 0x39]
  const OPENSSH_KEY_V1_LENGTH := 15
  const BLOCK_SIZE := 8
  const PUBLICKEYBYTES := 32
  const SECRETKEYBYTES := 64
  const SEEDBYTES := 32

  /** _makepad. */
  function MakePad(size: nat): Octets
    requires size < 255
  {
    seq(size, i requires 0 <= i < size => i + 1)
  }

  predicate IsAscii(s: Octets) {
    forall i :: 0 <= i < |s| ==> s[i] < 0x80
  }

  /** What an OpenSSH private key file holds. */
  datatype Key = Key(kdfData: Octets, publicKey: Octets, check1: nat, check2: nat,
                     vk: Octets, sk: Octets, comment: Octets, padSize: nat)

  ghost predicate ValidKey(k: Key) {
    && |k.kdfData| < TWO_TO_THE_32 && |k.publicKey| < TWO_TO_THE_32
    && k.check1 < TWO_TO_THE_32 && k.check2 < TWO_TO_THE_32
    && |k.vk| == PUBLICKEYBYTES && |k.sk| == SECRETKEYBYTES
    && |k.comment| < TWO_TO_THE_32 && IsAscii(k.comment)
    && k.padSize < BLOCK_SIZE
    && |KeySection(k)| < TWO_TO_THE_32
  }

  ghost function KeySection(k: Key): Octets
    requires k.check1 < TWO_TO_THE_32 && k.check2 < TWO_TO_THE_32 && k.padSize < 255
    requires |k.vk| < TWO_TO_THE_32 && |k.sk| < TWO_TO_THE_32 && |k.comment| < TWO_TO_THE_32
  {
    PackUint32(k.check1) + (PackUint32(k.check2) + (Field(SSH_ED25519) + KeyPair(k)))
  }

  /** Both halves of the pair, the comment, and padding 1, 2, 3, ... */
  ghost function KeyPair(k: Key): Octets
    requires k.padSize < 255
    requires |k.vk| < TWO_TO_THE_32 && |k.sk| < TWO_TO_THE_32 && |k.comment| < TWO_TO_THE_32
  {
    Field(k.vk) + (Field(k.sk) + (Field(k.comment) + MakePad(k.padSize)))
  }

  /** The file after its magic: cipher none, kdf none, one key. */
  ghost function KeyFile(k: Key): Octets
    requires ValidKey(k)
  {
    Field(NONE) + (Field(NONE) + (Field(k.kdfData) + (PackUint32(1) + (Field(k.publicKey) + (Field(KeySection(k)) + [])))))
  }

  type SeedAndComment = Result<(Octets, Octets), Error>

  /** What the reader makes of the section with the private key. */
  function ParseKeySection(b: Octets): SeedAndComment {
    var (_, b1) :- TakeUint32(b);
    var (_, b2) :- TakeUint32(b1);
    var (alg, b3) :- TakeString(b2);
    if alg != SSH_ED25519 then Err(NotEd25519) else ParseKeyPair(b3)
  }

  function ParseKeyPair(b: Octets): SeedAndComment {
    var (vk, b1) :- TakeString(b);
    var (sk, b2) :- TakeString(b1);
    if |vk| != PUBLICKEYBYTES then Err(BadPublicKeyLength) else
    if |sk| != SECRETKEYBYTES then Err(BadSecretKeyLength) else
    var (comment, pad) :- TakeString(b2);
    if |pad| != 0 && (|pad| >= BLOCK_SIZE || pad != MakePad(|pad|)) then Err(BadPadding) else
    if !IsAscii(comment) then Err(CommentNotAscii) else
    Ok((sk[..SEEDBYTES], comment))
  }

  function ParseKeyFile(b: Octets): SeedAndComment {
    var (cipherName, b1) :- TakeString(b);
    var (kdf, b2) :- TakeString(b1);
    var (_, b3) :- TakeString(b2);
    var (nkeys, b4) :- TakeUint32(b3);
    var (_, b5) :- TakeString(b4);
    var (keyData, mac) :- TakeString(b5);
    if cipherName != NONE then Err(CipherNotSupported) else
    if kdf != NONE then Err(KdfNotSupported) else
    if nkeys != 1 then Err(MultipleKeys) else
    if mac != [] then Err(UnexpectedMac) else
    ParseKeySection(keyData)
  }

  /** _read_ssh_ed25519_privkey, on the decoded base64. The magic is skipped without a look at it. */
  method ReadPrivateKey(decoded: Octets) returns (r: SeedAndComment)
    ensures r == ParseKeyFile(if |decoded| < OPENSSH_KEY_V1_LENGTH then [] else decoded[OPENSSH_KEY_V1_LENGTH..])
    ensures forall seed, comment :: r == Ok((seed, comment)) <==> |decoded| >= 15 && Holds(decoded[15..], seed, comment)
  {
    DecodedAcceptance(decoded);
    var blob := if |decoded| < OPENSSH_KEY_V1_LENGTH then [] else decoded[OPENSSH_KEY_V1_LENGTH..];
    var packet := new SSHPacketReader(blob);
    var cipherName :- packet.GetString();
    var kdf :- packet.GetString();
    var kdfData :- packet.GetString();
    var nkeys :- packet.GetUint32();
    var publicKey :- packet.GetString();
    var keyData :- packet.GetString();
    var mac := packet.GetRemainingPayload();
    if cipherName != NONE {
      return Err(CipherNotSupported);
    }
    if kdf != NONE {
      return Err(KdfNotSupported);
    }
    if nkeys != 1 {
      return Err(MultipleKeys);
    }
    if mac != [] {
      return Err(UnexpectedMac);
    }
    r := ReadKeySection(keyData);
  }

  method ReadKeySection(keyData: Octets) returns (r: SeedAndComment)
    ensures r == ParseKeySection(keyData)
  {
    var packet := new SSHPacketReader(keyData);
    var check1 :- packet.GetUint32();
    var check2 :- packet.GetUint32();
    var alg :- packet.GetString();
    if alg != SSH_ED25519 {
      return Err(NotEd25519);
    }
    r := ReadKeyPair(packet);
  }

  method ReadKeyPair(packet: SSHPacketReader) returns (r: SeedAndComment)
    requires packet.Valid()
    modifies packet
    ensures r == ParseKeyPair(old(packet.Rest()))
  {
    var vk :- packet.GetString();
    var sk :- packet.GetString();
    if |vk| != PUBLICKEYBYTES {
      return Err(BadPublicKeyLength);
    }
    if |sk| != SECRETKEYBYTES {
      return Err(BadSecretKeyLength);
    }
    var comment :- packet.GetString();
    var pad := packet.GetRemainingPayload();
    if |pad| != 0 && (|pad| >= BLOCK_SIZE || pad != MakePad(|pad|)) {
      return Err(BadPadding);
    }
    var seed := sk[..SEEDBYTES];
    if !IsAscii(comment) {
      return Err(CommentNotAscii);
    }
    r := Ok((seed, comment));
  }

  lemma {:induction false} TakeStringExactly(b: Octets, s: Octets, rest: Octets)
    ensures TakeString(b) == Ok((s, rest)) <==> |s| < TWO_TO_THE_32 && b == Field(s) + rest
  {
    if |s| < TWO_TO_THE_32 && b == Field(s) + rest {
      FieldFirst(s, rest);
    }
    if TakeString(b) == Ok((s, rest)) {
      PackUnpack(b[..4]);
      assert b == b[..4] + s + rest;
      assert Field(s) + rest == PackUint32(|s|) + s + rest;
    }
  }

  lemma {:induction false} TakeUint32Exactly(b: Octets, n: nat, rest: Octets)
    ensures TakeUint32(b) == Ok((n, rest)) <==> n < TWO_TO_THE_32 && b == PackUint32(n) + rest
  {
    if n < TWO_TO_THE_32 && b == PackUint32(n) + rest {
      assert b[..4] == PackUint32(n) && b[4..] == rest;
      UnpackPack(n);
    }
    if TakeUint32(b) == Ok((n, rest)) {
      PackUnpack(b[..4]);
      assert b == b[..4] + b[4..];
    }
  }

  lemma {:induction false} KeyPairReadsBack(k: Key)
    requires ValidKey(k)
    ensures ParseKeyPair(KeyPair(k)) == Ok((k.sk[..SEEDBYTES], k.comment))
  {
    var b2 := Field(k.comment) + MakePad(k.padSize);
    var b1 := Field(k.sk) + b2;
    TakeStringExactly(KeyPair(k), k.vk, b1);
    TakeStringExactly(b1, k.sk, b2);
    TakeStringExactly(b2, k.comment, MakePad(k.padSize));
  }

  lemma {:induction false} KeySectionReadsBack(k: Key)
    requires ValidKey(k)
    ensures ParseKeySection(KeySection(k)) == Ok((k.sk[..SEEDBYTES], k.comment))
  {
    var b2 := Field(SSH_ED25519) + KeyPair(k);
    var b1 := PackUint32(k.check2) + b2;
    TakeUint32Exactly(KeySection(k), k.check1, b1);
    TakeUint32Exactly(b1, k.check2, b2);
    TakeStringExactly(b2, SSH_ED25519, KeyPair(k));
    KeyPairReadsBack(k);
  }

  /** Every key file of this layout gives back exactly its seed and comment. */
  lemma {:induction false} KeyFileReadsBack(k: Key)
    requires ValidKey(k)
    ensures ParseKeyFile(KeyFile(k)) == Ok((k.sk[..SEEDBYTES], k.comment))
  {
    var b5 := Field(KeySection(k)) + [];
    var b4 := Field(k.publicKey) + b5;
    var b3 := PackUint32(1) + b4;
    var b2 := Field(k.kdfData) + b3;
    var b1 := Field(NONE) + b2;
    TakeStringExactly(KeyFile(k), NONE, b1);
    TakeStringExactly(b1, NONE, b2);
    TakeStringExactly(b2, k.kdfData, b3);
    TakeUint32Exactly(b3, 1, b4);
    TakeStringExactly(b4, k.publicKey, b5);
    TakeStringExactly(b5, KeySection(k), []);
    KeySectionReadsBack(k);
  }

  /** An accepted pair, with its comment, ends in such padding. */
  lemma {:induction false} OnlyKeyPairsRead(b: Octets, k0: Key) returns (k: Key)
    requires ParseKeyPair(b).Ok?
    ensures k == k0.(vk := k.vk, sk := k.sk, comment := k.comment, padSize := k.padSize)
    ensures |k.vk| == PUBLICKEYBYTES && |k.sk| == SECRETKEYBYTES && k.padSize < BLOCK_SIZE
    ensures |k.comment| < TWO_TO_THE_32 && IsAscii(k.comment)
    ensures b == KeyPair(k) && ParseKeyPair(b) == Ok((k.sk[..SEEDBYTES], k.comment))
  {
    var (vk, b1) := TakeString(b).value;
    var (sk, b2) := TakeString(b1).value;
    var (comment, pad) := TakeString(b2).value;
    k := k0.(vk := vk, sk := sk, comment := comment, padSize := |pad|);
    assert pad == MakePad(|pad|);
    TakeStringExactly(b, vk, b1);
    TakeStringExactly(b1, sk, b2);
    TakeStringExactly(b2, comment, pad);
  }

  lemma {:induction false} OnlyKeySectionsRead(b: Octets, k0: Key) returns (k: Key)
    requires ParseKeySection(b).Ok? && |b| < TWO_TO_THE_32
    requires |k0.kdfData| < TWO_TO_THE_32 && |k0.publicKey| < TWO_TO_THE_32
    ensures k.kdfData == k0.kdfData && k.publicKey == k0.publicKey
    ensures ValidKey(k) && b == KeySection(k) && ParseKeySection(b) == Ok((k.sk[..SEEDBYTES], k.comment))
  {
    var (check1, b1) := TakeUint32(b).value;
    var (check2, b2) := TakeUint32(b1).value;
    var (alg, b3) := TakeString(b2).value;
    TakeUint32Exactly(b, check1, b1);
    TakeUint32Exactly(b1, check2, b2);
    TakeStringExactly(b2, alg, b3);
    k := OnlyKeyPairsRead(b3, k0.(check1 := check1, check2 := check2));
  }

  /**
   * The reader accepts exactly the files of this layout: whatever it accepts has cipher and
   * kdf none, one Ed25519 key, an ASCII comment, correct padding, and nothing after it.
   */
  lemma {:induction false} OnlyKeyFilesRead(b: Octets) returns (k: Key)
    requires ParseKeyFile(b).Ok?
    ensures ValidKey(k) && b == KeyFile(k) && ParseKeyFile(b) == Ok((k.sk[..SEEDBYTES], k.comment))
  {
    var (cipherName, b1) := TakeString(b).value;
    var (kdf, b2) := TakeString(b1).value;
    var (kdfData, b3) := TakeString(b2).value;
    var (nkeys, b4) := TakeUint32(b3).value;
    var (publicKey, b5) := TakeString(b4).value;
    var (keyData, mac) := TakeString(b5).value;
    TakeStringExactly(b, cipherName, b1);
    TakeStringExactly(b1, kdf, b2);
    TakeStringExactly(b2, kdfData, b3);
    TakeUint32Exactly(b3, nkeys, b4);
    TakeStringExactly(b4, publicKey, b5);
    TakeStringExactly(b5, keyData, mac);
    k := OnlyKeySectionsRead(keyData, Key(kdfData, publicKey, 0, 0, [], [], [], 0));
  }

  /** Acceptance, in both directions. */
  lemma {:induction false} KeyFileAcceptance(b: Octets, seed: Octets, comment: Octets)
    ensures ParseKeyFile(b) == Ok((seed, comment))
            <==> exists k :: ValidKey(k) && b == KeyFile(k) && seed == k.sk[..SEEDBYTES] && comment == k.comment
  {
    if ParseKeyFile(b).Ok? {
      var k := OnlyKeyFilesRead(b);
    }
    forall k | ValidKey(k) && b == KeyFile(k) ensures ParseKeyFile(b) == Ok((k.sk[..SEEDBYTES], k.comment)) {
      KeyFileReadsBack(k);
    }
  }

  // ---------------------------------------------------------------- whole files

  /** A file of this layout, behind its magic, with the given seed and comment. */
  ghost predicate Holds(body: Octets, seed: Octets, comment: Octets) {
    exists f :: L.Laid(f) && body == L.Body(f) && seed == f.secretHalf[..32] && comment == f.comment
  }

  lemma PackIsUint32(n: nat)
    requires n < TWO_TO_THE_32
    ensures PackUint32(n) == L.Uint32(n)
  {
  }

  lemma FieldIsString(s: Octets)
    requires |s| < TWO_TO_THE_32
    ensures Field(s) == L.String(s)
  {
    PackIsUint32(|s|);
  }

  ghost function FileOf(k: Key): L.File
    requires k.padSize < 255
  {
    L.File(k.kdfData, k.publicKey, k.check1, k.check2, k.vk, k.sk, k.comment, MakePad(k.padSize))
  }

  ghost function KeyOf(f: L.File): Key {
    Key(f.kdfOptions, f.publicKeys, f.check1, f.check2, f.publicHalf, f.secretHalf, f.comment, |f.padding|)
  }

  lemma {:induction false} SectionOfFile(k: Key)
    requires k.check1 < TWO_TO_THE_32 && k.check2 < TWO_TO_THE_32 && k.padSize < 255
    requires |k.kdfData| < TWO_TO_THE_32 && |k.publicKey| < TWO_TO_THE_32
    requires |k.vk| == 32 && |k.sk| == 64 && |k.comment| < TWO_TO_THE_32
    ensures L.Section(FileOf(k)) == KeySection(k)
  {
    PackIsUint32(k.check1);
    PackIsUint32(k.check2);
    FieldIsString(SSH_ED25519);
    FieldIsString(k.vk);
    FieldIsString(k.sk);
    FieldIsString(k.comment);
  }

  lemma {:induction false} BodyOfFile(k: Key)
    requires ValidKey(k)
    ensures L.Laid(FileOf(k)) && L.Body(FileOf(k)) == KeyFile(k)
  {
    SectionOfFile(k);
    FieldIsString(NONE);
    FieldIsString(k.kdfData);
    FieldIsString(k.publicKey);
    FieldIsString(KeySection(k));
    PackIsUint32(1);
    assert Field(KeySection(k)) + [] == Field(KeySection(k));
  }

  lemma {:induction false} LaidIsValid(f: L.File)
    requires L.Laid(f)
    ensures ValidKey(KeyOf(f)) && FileOf(KeyOf(f)) == f
  {
    assert MakePad(|f.padding|) == f.padding;
    SectionOfFile(KeyOf(f));
  }

  /** Behind fifteen octets that are not looked at, exactly the files of the layout are accepted. */
  lemma {:induction false} DecodedAcceptance(decoded: Octets)
    ensures OPENSSH_KEY_V1_LENGTH == 15
    ensures forall seed, comment ::
      ParseKeyFile(if |decoded| < 15 then [] else decoded[15..]) == Ok((seed, comment))
      <==> |decoded| >= 15 && Holds(decoded[15..], seed, comment)
  {
    var body := if |decoded| < 15 then [] else decoded[15..];
    forall seed, comment
      ensures ParseKeyFile(body) == Ok((seed, comment)) <==> |decoded| >= 15 && Holds(decoded[15..], seed, comment)
    {
      KeyFileAcceptance(body, seed, comment);
      if ParseKeyFile(body) == Ok((seed, comment)) {
        var k :| ValidKey(k) && body == KeyFile(k) && seed == k.sk[..SEEDBYTES] && comment == k.comment;
        BodyOfFile(k);
        assert body == L.Body(FileOf(k));
      }
      if Holds(body, seed, comment) {
        var f :| L.Laid(f) && body == L.Body(f) && seed == f.secretHalf[..32] && comment == f.comment;
        LaidIsValid(f);
        BodyOfFile(KeyOf(f));
      }
    }
  }

  /** Reading a whole file of the layout gives back its seed and its comment. */
  method ReadFile(decoded: Octets, ghost f: L.File) returns (r: SeedAndComment)
    requires L.Laid(f) && decoded == L.MAGIC + L.Body(f)
    ensures r == Ok((f.secretHalf[..32], f.comment))
  {
    assert decoded[15..] == L.Body(f);
    r := ReadPrivateKey(decoded);
    assert Holds(decoded[15..], f.secretHalf[..32], f.comment);
  }
}
