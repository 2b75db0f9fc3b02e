/** The `x-aes128gcm` body codec (cloud_crypto.py) over any authenticated cipher and any nonce derivation. */
module Envelope {
  import opened Bytes
  import Base64

  /** AES-128-GCM with a 16-byte tag at the end, and the nonce from the salt and the application key. */
  datatype Cipher = Cipher(seal: (bytes, bytes, bytes) -> bytes, unseal: (bytes, bytes, bytes) -> Option<bytes>,
                           nonce: (bytes, bytes) -> bytes)

  const TAG := 16
  const SALT := 16

  ghost predicate Inverts(c: Cipher) {
    forall key: bytes, nonce: bytes, p: bytes ::
      |c.seal(key, nonce, p)| == |p| + TAG && c.unseal(key, nonce, c.seal(key, nonce, p)) == Some(p)
  }

  /** `s.split("-")`. */
  function Split(s: string): (parts: seq<string>)
    ensures |parts| >= 1
  {
    if s == "" then [""]
    else if s[0] == '-' then [""] + Split(s[1..])
    else
      var rest := Split(s[1..]);
      [[s[0]] + rest[0]] + rest[1..]
  }

  /** White space, as far as the first 256 characters go. */
  predicate Space(c: char) {
    9 <= c as int <= 13 || 28 <= c as int <= 32 || c as int == 0x85 || c as int == 0xA0
  }

  function Lstrip(s: string): string {
    if s != "" && Space(s[0]) then Lstrip(s[1..]) else s
  }

  function Rstrip(s: string): string {
    if s != "" && Space(s[|s| - 1]) then Rstrip(s[..|s| - 1]) else s
  }

  /** `aes128gcm_encrypt_body` with the random salt as a parameter; the cipher wants a 16-byte key. */
  function EncryptBody(c: Cipher, salt: bytes, plaintext: bytes, appkey: bytes): Result<string>
    requires Inverts(c)
  {
    if |appkey| < 16 then Err("AESGCM key must be 128, 192, or 256 bits.") else
      var sealed := c.seal(appkey[..16], c.nonce(salt, appkey), plaintext);
      var n := |sealed| - TAG;
      Ok(Base64.Encode(salt + [0]) + "-" + Base64.Encode(sealed[..n]) + "-" + Base64.Encode(sealed[n..]))
  }

  /** `aes128gcm_decrypt_body`. */
  function DecryptBody(c: Cipher, blob: string, appkey: bytes): Result<bytes> {
    var parts := Split(Rstrip(Lstrip(blob)));
    if |parts| != 3 then Err("blob x-aes128gcm invalido") else
      var salt, ct, tag := Base64.Decode(parts[0]), Base64.Decode(parts[1]), Base64.Decode(parts[2]);
      if salt.Err? || ct.Err? || tag.Err? then Err("Incorrect padding")
      else if |appkey| < 16 then Err("AESGCM key must be 128, 192, or 256 bits.")
      else
        match c.unseal(appkey[..16], c.nonce(Take(salt.value, SALT), appkey), ct.value + tag.value)
        case None => Err("InvalidTag")
        case Some(p) => Ok(p)
  }

  lemma {:induction false} SplitAtDash(a: string, rest: string)
    requires forall i | 0 <= i < |a| :: a[i] != '-'
    ensures Split(a + "-" + rest) == [a] + Split(rest) && Split(a) == [a]
  {
    if a == "" {
      assert "" + "-" + rest == "-" + rest && ("-" + rest)[1..] == rest;
    } else {
      assert (a + "-" + rest)[1..] == a[1..] + "-" + rest;
      SplitAtDash(a[1..], rest);
      assert [a[0]] + a[1..] == a;
    }
  }

  lemma {:induction false} LstripSpaces(space: string, s: string)
    requires forall i | 0 <= i < |space| :: Space(space[i])
    requires s != "" && !Space(s[0])
    ensures Lstrip(space + s) == s
  {
    if space == "" {
      assert space + s == s;
    } else {
      assert (space + s)[1..] == space[1..] + s;
      LstripSpaces(space[1..], s);
    }
  }

  lemma {:induction false} RstripSpaces(s: string, space: string)
    requires forall i | 0 <= i < |space| :: Space(space[i])
    requires s != "" && !Space(s[|s| - 1])
    ensures Rstrip(s + space) == s
  {
    if space == "" {
      assert s + space == s;
    } else {
      assert (s + space)[..|s + space| - 1] == s + space[..|space| - 1];
      RstripSpaces(s, space[..|space| - 1]);
    }
  }

  /** The characters that `strip` removes. */
  predicate IsBlank(c: char) {
    c as int in {9, 10, 11, 12, 13, 28, 29, 30, 31, 32, 0x85, 0xA0}
  }

  lemma SpaceIsBlank(c: char)
    ensures Space(c) <==> IsBlank(c)
  {}

  lemma {:induction false} LstripExactly(s: string) returns (i: nat)
    ensures i <= |s| && Lstrip(s) == s[i..] && (forall k | 0 <= k < i :: IsBlank(s[k]))
    ensures i < |s| ==> !IsBlank(s[i])
  {
    hide IsBlank, Space;
    i := 0;
    if s != "" {
      SpaceIsBlank(s[0]);
      if Space(s[0]) {
        i := LstripExactly(s[1..]);
        i := i + 1;
      }
    }
  }

  lemma {:induction false} RstripExactly(s: string) returns (j: nat)
    ensures j <= |s| && Rstrip(s) == s[..j] && (forall k | j <= k < |s| :: IsBlank(s[k]))
    ensures 0 < j ==> !IsBlank(s[j - 1])
  {
    hide IsBlank, Space;
    j := |s|;
    if s != "" {
      SpaceIsBlank(s[|s| - 1]);
      if Space(s[|s| - 1]) {
        j := RstripExactly(s[..|s| - 1]);
      }
    }
  }

  /** `strip` removes the white space at both ends, all of it and nothing else. */
  lemma StripExactly(s: string) returns (i: nat, j: nat)
    ensures i <= j <= |s| && Rstrip(Lstrip(s)) == s[i..j]
    ensures forall k | 0 <= k < i || j <= k < |s| :: IsBlank(s[k])
    ensures i < j ==> !IsBlank(s[i]) && !IsBlank(s[j - 1])
  {
    hide IsBlank, Lstrip, Rstrip;
    i := LstripExactly(s);
    j := RstripExactly(s[i..]);
    j := i + j;
  }

  /** Decryption of any three encoded parts, whatever white space surrounds them: the salt is the first sixteen
      bytes of the first part, the key the first sixteen of the application key, and the tag follows the text. */
  lemma DecryptsParts(c: Cipher, x: bytes, y: bytes, z: bytes, appkey: bytes, before: string, after: string)
    requires |x| > 0 && |z| > 0 && |appkey| >= 16
    requires forall i | 0 <= i < |before| :: IsBlank(before[i])
    requires forall i | 0 <= i < |after| :: IsBlank(after[i])
    ensures var blob := Base64.Encode(x) + "-" + Base64.Encode(y) + "-" + Base64.Encode(z);
            var plain := c.unseal(appkey[..16], c.nonce(if |x| > 16 then x[..16] else x, appkey), y + z);
            DecryptBody(c, before + blob + after, appkey) ==
            if plain.Some? then Ok(plain.value) else Err("InvalidTag")
  {
    hide Base64.Encode, Base64.Decode, Split, Lstrip, Rstrip;
    var blob := Base64.Encode(x) + "-" + Base64.Encode(y) + "-" + Base64.Encode(z);
    Base64.RoundTrip(x);
    Base64.RoundTrip(y);
    Base64.RoundTrip(z);
    BlobParts(x, y, z);
    assert before + blob + after == before + (blob + after);
    LstripSpaces(before, blob + after);
    RstripSpaces(blob, after);
  }

  /** Decrypting inverts encrypting for every plaintext, also the empty one, every salt of 16 bytes and every
      key of at least 16, whatever white space surrounds the blob. */
  lemma RoundTrip(c: Cipher, salt: bytes, plaintext: bytes, appkey: bytes, before: string, after: string)
    requires Inverts(c) && |salt| == 16 && |appkey| >= 16
    requires forall i | 0 <= i < |before| :: IsBlank(before[i])
    requires forall i | 0 <= i < |after| :: IsBlank(after[i])
    ensures EncryptBody(c, salt, plaintext, appkey).Ok?
    ensures DecryptBody(c, before + EncryptBody(c, salt, plaintext, appkey).value + after, appkey) == Ok(plaintext)
  {
    hide Base64.Encode, DecryptBody;
    var sealed := c.seal(appkey[..16], c.nonce(salt, appkey), plaintext);
    var n := |sealed| - TAG;
    DecryptsParts(c, salt + [0], sealed[..n], sealed[n..], appkey, before, after);
    assert (salt + [0])[..16] == salt && sealed[..n] + sealed[n..] == sealed;
  }

  /** What a blob is made of: its three parts between dashes decode to the salt with a zero byte, to as many bytes
      of the sealed text as the plaintext has, and to the sixteen after them. */
  lemma BlobLayout(c: Cipher, salt: bytes, plaintext: bytes, appkey: bytes)
    requires Inverts(c)
    ensures EncryptBody(c, salt, plaintext, appkey).Ok? <==> |appkey| >= 16
    ensures |appkey| >= 16 ==>
              var parts := Split(EncryptBody(c, salt, plaintext, appkey).value);
              var sealed := c.seal(appkey[..16], c.nonce(salt, appkey), plaintext);
              && |parts| == 3 && |sealed| == |plaintext| + 16
              && Base64.Decode(parts[0]) == Ok(salt + [0x00])
              && Base64.Decode(parts[1]) == Ok(sealed[..|plaintext|])
              && Base64.Decode(parts[2]) == Ok(sealed[|plaintext|..])
  {
    hide Base64.Encode, Base64.Decode, Split;
    if |appkey| >= 16 {
      var sealed := c.seal(appkey[..16], c.nonce(salt, appkey), plaintext);
      var x, y, z := salt + [0], sealed[..|plaintext|], sealed[|plaintext|..];
      Base64.RoundTrip(x);
      Base64.RoundTrip(y);
      Base64.RoundTrip(z);
      BlobParts(x, y, z);
    }
  }

  function Dashes(s: string): nat {
    if s == "" then 0 else (if s[0] == '-' then 1 else 0) + Dashes(s[1..])
  }

  lemma {:induction false} SplitCount(s: string)
    ensures |Split(s)| == Dashes(s) + 1
  {
    if s != "" {
      SplitCount(s[1..]);
    }
  }

  lemma {:induction false} LstripDashes(s: string)
    ensures Dashes(Lstrip(s)) == Dashes(s)
  {
    if s != "" && Space(s[0]) {
      LstripDashes(s[1..]);
    }
  }

  lemma {:induction false} DashesLast(s: string)
    requires s != ""
    ensures Dashes(s) == Dashes(s[..|s| - 1]) + if s[|s| - 1] == '-' then 1 else 0
  {
    if |s| > 1 {
      DashesLast(s[1..]);
      assert s[1..][..|s| - 2] == s[..|s| - 1][1..];
    }
  }

  lemma {:induction false} RstripDashes(s: string)
    ensures Dashes(Rstrip(s)) == Dashes(s)
  {
    if s != "" && Space(s[|s| - 1]) {
      RstripDashes(s[..|s| - 1]);
      DashesLast(s);
    }
  }

  /** Nothing is decrypted but three parts with a key of at least sixteen bytes. */
  lemma OnlyThreeParts(c: Cipher, blob: string, appkey: bytes)
    ensures DecryptBody(c, blob, appkey).Ok? ==> Dashes(blob) == 2 && |appkey| >= 16
  {
    hide Split, Lstrip, Rstrip, Dashes;
    SplitCount(Rstrip(Lstrip(blob)));
    RstripDashes(Lstrip(blob));
    LstripDashes(blob);
  }

  lemma BlobParts(x: bytes, y: bytes, z: bytes)
    requires |x| > 0 && |z| > 0
    ensures var blob := Base64.Encode(x) + "-" + Base64.Encode(y) + "-" + Base64.Encode(z);
            && Split(blob) == [Base64.Encode(x), Base64.Encode(y), Base64.Encode(z)]
            && blob != "" && !Space(blob[0]) && !Space(blob[|blob| - 1])
  {
    hide Base64.Encode, Split;
    var ex, ey, ez := Base64.Encode(x), Base64.Encode(y), Base64.Encode(z);
    Base64.EncodeClean(x);
    Base64.EncodeClean(y);
    Base64.EncodeClean(z);
    assert ex + "-" + ey + "-" + ez == ex + "-" + (ey + "-" + ez);
    SplitAtDash(ex, ey + "-" + ez);
    SplitAtDash(ey, ez);
    SplitAtDash(ez, "");
  }
}
